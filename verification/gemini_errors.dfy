/** The error classifier of the Gemini service: `isQuotaError` and
    `parseGeminiError`. `JSON.parse` and `JSON.stringify` are foreign and appear as
    oracles: a thrown error carries its own serialisation, and the parser is a
    function parameter. */
module GeminiErrors {
  import opened Wrappers
  import opened Text

  /** A thrown JavaScript value as the service inspects it: `message` is
      `error.message` ("" when it is missing or empty, both falsy) and `json` is
      what `JSON.stringify(error)` returns for it. */
  datatype RawError = RawError(message: string, json: string)

  /** `JSON.stringify(new Error(m))`: an Error's own properties are not enumerable. */
  const ErrorJson: string := "{}"

  /** `new Error(msg)` as thrown by the service's own code. */
  function Thrown(msg: string): RawError {
    RawError(msg, ErrorJson)
  }

  const UnknownError: string := "Unknown error occurred"
  /** The fixed replacement for quota errors, "Usage limit exceeded (429). Please
      check your Google Cloud billing or quota limits.". It is assembled from pieces
      because the verifier cannot look inside one long string literal character by
      character, and `UsageLimitIsQuota` needs to find "429" in it. */
  const UsageLimitHead: string := "Usage limit exceeded ("
  const UsageLimitTail: string := "). Please check your Google Cloud billing or quota limits."
  const UsageLimit: string := UsageLimitHead + "429" + UsageLimitTail

  /** The quota test shared by both classifiers; case-sensitive substring checks. */
  predicate HasQuotaToken(m: string) {
    Contains(m, "429") || Contains(m, "RESOURCE_EXHAUSTED") || Contains(m, "quota")
  }

  /** `error.message || JSON.stringify(error)`. */
  function InspectedText(e: RawError): string {
    if e.message != "" then e.message else e.json
  }

  /** `isQuotaError`. */
  predicate IsQuotaError(e: RawError) {
    HasQuotaToken(InspectedText(e))
  }

  /** A string that lacks some character of `t` cannot contain `t`. */
  lemma MissingCharExcludes(s: string, t: string, c: char)
    requires c in t && c !in s
    ensures !Contains(s, t)
  {
    var k :| 0 <= k < |t| && t[k] == c;
    forall i | 0 <= i <= |s| - |t| ensures !OccursAt(s, t, i) {
      assert i + k < |s| && s[i + k] != c;
    }
  }

  /** A string lacking the characters '4', '_' and 'q' has no quota token. */
  lemma NoQuotaToken(s: string)
    requires '4' !in s && '_' !in s && 'q' !in s
    ensures !HasQuotaToken(s)
  {
    MissingCharExcludes(s, "429", '4');
    MissingCharExcludes(s, "RESOURCE_EXHAUSTED", '_');
    MissingCharExcludes(s, "quota", 'q');
  }

  /** `t` occurs at `i`, checked character by character. */
  lemma TokenAt(s: string, t: string, i: nat)
    requires i + |t| <= |s| && forall k | 0 <= k < |t| :: s[i + k] == t[k]
    ensures Contains(s, t)
  {
    assert s[i..i + |t|] == t;
    assert OccursAt(s, t, i);
  }

  /** Matching is case-sensitive: upper-case "QUOTA" is not a quota token, while the
      spelled-out status code is. */
  lemma QuotaExamples()
    ensures IsQuotaError(Thrown("Error: 429 Too Many Requests"))
    ensures !IsQuotaError(Thrown("SAFETY: blocked"))
    ensures !IsQuotaError(Thrown("QUOTA exceeded"))
  {
    TokenAt("Error: 429 Too Many Requests", "429", 7);
    NoQuotaToken("SAFETY: blocked");
    NoQuotaToken("QUOTA exceeded");
  }

  /** With an empty message the serialised error is inspected instead. */
  lemma QuotaFromSerialisation()
    ensures IsQuotaError(RawError("", "{\"status\":\"RESOURCE_EXHAUSTED\"}"))
  {
    TokenAt("{\"status\":\"RESOURCE_EXHAUSTED\"}", "RESOURCE_EXHAUSTED", 11);
  }

  /** What `JSON.parse` does with the extracted span: it throws, or it yields a value
      whose `error.message` is `nested` ("" when `error` or `error.message` is missing
      or falsy). */
  datatype JsonParse = ParseThrows | Parsed(nested: string)

  /** Characters the regular-expression `.` does not match. */
  predicate IsLineTerminator(c: char) {
    c == '\n' || c == '\r' || c == '\U{2028}' || c == '\U{2029}'
  }

  /** No line terminator in `s[from..to]`. */
  predicate SameLine(s: string, from: nat, to: nat) {
    forall k :: from <= k < to && k < |s| ==> !IsLineTerminator(s[k])
  }

  /** `s[i..j + 1]` is a match of the regular expression `/\{.*\}/`. */
  predicate BraceMatch(s: string, i: nat, j: nat) {
    i < j < |s| && s[i] == '{' && s[j] == '}' && SameLine(s, i + 1, j)
  }

  /** The last '}' at or after `from` that is not separated from `from` by a line
      terminator: where the greedy `.*` stops after backtracking. */
  function LastCloseOnLine(s: string, from: nat): (r: Option<nat>)
    ensures r.Some? ==> from <= r.value < |s| && s[r.value] == '}' && SameLine(s, from, r.value)
    ensures r.Some? ==> forall j :: r.value < j < |s| && s[j] == '}' ==> !SameLine(s, from, j)
    ensures r.None? ==> forall j :: from <= j < |s| && s[j] == '}' ==> !SameLine(s, from, j)
    decreases |s| - from
  {
    if from >= |s| || IsLineTerminator(s[from]) then None
    else
      match LastCloseOnLine(s, from + 1)
      case Some(j) => Some(j)
      case None => if s[from] == '}' then Some(from) else None
  }

  /** `s.match(/\{.*\}/)` searching from `from`: the leftmost '{' that starts a match,
      with the longest match from there. */
  function FindBraceSpan(s: string, from: nat): (r: Option<(nat, nat)>)
    ensures r.Some? ==> from <= r.value.0 && BraceMatch(s, r.value.0, r.value.1)
    ensures r.Some? ==> forall i, j :: from <= i < r.value.0 ==> !BraceMatch(s, i, j)
    ensures r.Some? ==> forall j :: r.value.1 < j ==> !BraceMatch(s, r.value.0, j)
    ensures r.None? ==> forall i, j :: from <= i ==> !BraceMatch(s, i, j)
    decreases |s| - from
  {
    if from >= |s| then None
    else if s[from] == '{' && LastCloseOnLine(s, from + 1).Some? then
      Some((from, LastCloseOnLine(s, from + 1).value))
    else FindBraceSpan(s, from + 1)
  }

  /** On a message without line breaks the match runs from the first '{' to the last
      '}', whenever that '}' comes after that '{'. */
  lemma SingleLineSpan(s: string, first: nat, last: nat)
    requires forall k :: 0 <= k < |s| ==> !IsLineTerminator(s[k])
    requires first < last < |s| && s[first] == '{' && s[last] == '}'
    requires forall k :: 0 <= k < first ==> s[k] != '{'
    requires forall k :: last < k < |s| ==> s[k] != '}'
    ensures FindBraceSpan(s, 0) == Some((first, last))
  {
    assert BraceMatch(s, first, last);
    var r := FindBraceSpan(s, 0);
    assert r.Some?;
    var (i, j) := r.value;
    assert i == first;
    assert BraceMatch(s, i, j);
    assert j == last;
  }

  /** Steps 1-2 of `parseGeminiError`: when the message holds a brace-delimited span
      that parses to a value with a non-empty `error.message`, that nested message
      replaces it. */
  function ExtractMessage(msg: string, parse: string -> JsonParse): string {
    if '{' in msg then
      match FindBraceSpan(msg, 0)
      case None => msg
      case Some((i, j)) =>
        match parse(msg[i..j + 1])
        case ParseThrows => msg
        case Parsed(nested) => if nested != "" then nested else msg
    else msg
  }

  /** The message changes only when all three conditions hold: a '{' is present, the
      brace span parses, and the parsed value carries a non-empty `error.message`,
      which becomes the message; a parse failure leaves it unchanged. */
  lemma ExtractionConditions(msg: string, parse: string -> JsonParse)
    ensures ExtractMessage(msg, parse) != msg ==>
      && '{' in msg
      && FindBraceSpan(msg, 0).Some?
      && var (i, j) := FindBraceSpan(msg, 0).value;
         && parse(msg[i..j + 1]).Parsed?
         && parse(msg[i..j + 1]).nested != ""
         && ExtractMessage(msg, parse) == parse(msg[i..j + 1]).nested
    ensures '{' in msg && FindBraceSpan(msg, 0).Some? ==>
      var (i, j) := FindBraceSpan(msg, 0).value;
      parse(msg[i..j + 1]).Parsed? && parse(msg[i..j + 1]).nested != "" ==>
        ExtractMessage(msg, parse) == parse(msg[i..j + 1]).nested
    ensures '{' !in msg ==> ExtractMessage(msg, parse) == msg
    ensures (forall t :: parse(t) == ParseThrows) ==> ExtractMessage(msg, parse) == msg
  {
  }

  /** `parseGeminiError`: the message of the error it returns. Any message with a
      quota token becomes the fixed usage-limit text, so the result never carries a
      quota token otherwise, and it is never empty. */
  function ParseGeminiError(e: RawError, parse: string -> JsonParse): (r: string)
    ensures r != ""
    ensures HasQuotaToken(r) ==> r == UsageLimit
    ensures HasQuotaToken(ExtractMessage(if e.message != "" then e.message else UnknownError, parse))
            <==> r == UsageLimit
    ensures !HasQuotaToken(ExtractMessage(if e.message != "" then e.message else UnknownError, parse)) ==>
            r == ExtractMessage(if e.message != "" then e.message else UnknownError, parse)
  {
    var msg := ExtractMessage(if e.message != "" then e.message else UnknownError, parse);
    UsageLimitIsQuota();
    if HasQuotaToken(msg) then UsageLimit else msg
  }

  /** The fixed usage-limit text itself carries the "429" token. */
  lemma UsageLimitIsQuota()
    ensures HasQuotaToken(UsageLimit)
  {
    assert UsageLimit[|UsageLimitHead|..|UsageLimitHead| + 3] == "429";
    assert OccursAt(UsageLimit, "429", |UsageLimitHead|);
  }

  /** A non-empty message free of '{' and of the characters '4', '_' and 'q': it can
      neither hold a quota token nor an embedded JSON span. */
  predicate Plain(m: string) {
    m != "" && '{' !in m && '4' !in m && '_' !in m && 'q' !in m
  }

  /** An error thrown with a plain message is not a quota error, and
      `parseGeminiError` hands its message back unchanged. */
  lemma PlainMessage(m: string, parse: string -> JsonParse)
    requires Plain(m)
    ensures !IsQuotaError(Thrown(m))
    ensures ParseGeminiError(Thrown(m), parse) == m
  {
    NoQuotaToken(m);
  }

  /** A plain message with no brace and no quota token passes through unchanged; an
      empty message becomes "Unknown error occurred". */
  lemma ParsePassThrough(e: RawError, parse: string -> JsonParse)
    ensures e.message != "" && '{' !in e.message && !HasQuotaToken(e.message) ==>
      ParseGeminiError(e, parse) == e.message
    ensures e.message == "" ==> ParseGeminiError(e, parse) == UnknownError
  {
    NoQuotaToken(UnknownError);
  }

  /** How the two classifiers relate. For a non-empty message without an embedded
      JSON span they agree: `isQuotaError` holds exactly when `parseGeminiError`
      answers with the usage-limit text. They part ways on an empty message:
      `isQuotaError` then inspects the serialised error, while `parseGeminiError`
      reports "Unknown error occurred", so a quota error whose status lives only in
      its serialisation is escalated on but never reported as one. */
  lemma QuotaClassifiersAgree(e: RawError, parse: string -> JsonParse)
    ensures e.message != "" && '{' !in e.message ==>
      (IsQuotaError(e) <==> ParseGeminiError(e, parse) == UsageLimit)
    ensures e.message == "" ==> ParseGeminiError(e, parse) == UnknownError
    ensures var q := RawError("", "{\"status\":\"RESOURCE_EXHAUSTED\"}");
      IsQuotaError(q) && ParseGeminiError(q, parse) == UnknownError
  {
    NoQuotaToken(UnknownError);
    QuotaFromSerialisation();
  }

  /** A message whose embedded span does not parse keeps its own text: it comes back
      unchanged unless it carries a quota token itself. */
  lemma UnparsableSpanPassThrough(m: string, parse: string -> JsonParse)
    requires m != "" && !HasQuotaToken(m)
    requires FindBraceSpan(m, 0).Some?
    requires var (i, j) := FindBraceSpan(m, 0).value; parse(m[i..j + 1]) == ParseThrows
    ensures ParseGeminiError(Thrown(m), parse) == m
  {
    assert '{' in m by {
      var (i, _) := FindBraceSpan(m, 0).value;
      assert BraceMatch(m, i, FindBraceSpan(m, 0).value.1);
    }
    assert ExtractMessage(m, parse) == m;
  }
}
