/** `attemptVeoGeneration`: one Veo job from submission to a playable URL. The SDK
    calls, `fetch`, the object-URL factory and the 10-second wait are foreign; their
    outcomes arrive as a script. */
module VeoAttempt {
  import opened Wrappers
  import opened Text
  import opened GeminiErrors
  import PE = PercentEncoding

  /** Status queries allowed before giving up (10 minutes at one query per 10 s). */
  const MaxPolls: nat := 60
  const TimeoutMessage: string := "Video generation timed out."
  const NoUriMessage: string := "No video URI found in response"
  const KeyInvalidMessage: string := "API Key is missing or invalid."

  /** A long-running operation as the SDK reports it: `done`, the optional `error`
      and `response.generatedVideos[0].video.uri` ("" when any step of that path is
      missing or the URI is empty). */
  datatype Operation = Operation(done: bool, error: Option<RawError>, videoUri: string)

  /** What one `getVideosOperation` call did: it threw, or it returned an operation. */
  datatype PollReply = QueryThrew | Returned(op: Operation)

  /** How the polling loop ended, with the number of status queries it made. */
  datatype PollOutcome = Completed(op: Operation, queries: nat) | TimedOut(queries: nat)

  /** The operation after one status query: a throwing query leaves it as it was. */
  function Step(op: Operation, reply: PollReply): Operation {
    match reply
    case QueryThrew => op
    case Returned(o) => o
  }

  /** Reference trace: the operation held after the first `k` queries, `replies(i)`
      being the outcome of query number `i` (from 0). */
  function OpAfter(initial: Operation, replies: nat -> PollReply, k: nat): Operation
    decreases k
  {
    if k == 0 then initial else Step(OpAfter(initial, replies, k - 1), replies(k - 1))
  }

  /** The `while (!operation.done)` loop entered with `pollCount` queries already
      made: the count is bumped on entry, more than 60 throws the time-out, otherwise
      one more query runs. */
  function PollFrom(replies: nat -> PollReply, op: Operation, pollCount: nat): (r: PollOutcome)
    requires pollCount <= MaxPolls
    ensures pollCount <= r.queries <= MaxPolls
    ensures r.Completed? ==> r.op.done
    ensures r.TimedOut? ==> r.queries == MaxPolls
    decreases MaxPolls - pollCount
  {
    if op.done then Completed(op, pollCount)
    else if pollCount + 1 > MaxPolls then TimedOut(pollCount)
    else PollFrom(replies, Step(op, replies(pollCount)), pollCount + 1)
  }

  function Poll(initial: Operation, replies: nat -> PollReply): PollOutcome {
    PollFrom(replies, initial, 0)
  }

  lemma {:induction false} PollFromTrace(initial: Operation, replies: nat -> PollReply, c: nat)
    requires c <= MaxPolls
    requires forall k :: 0 <= k < c ==> !OpAfter(initial, replies, k).done
    ensures var r := PollFrom(replies, OpAfter(initial, replies, c), c);
      && (r.Completed? ==> r.op == OpAfter(initial, replies, r.queries)
                           && forall k :: 0 <= k < r.queries ==> !OpAfter(initial, replies, k).done)
      && (r.TimedOut? ==> forall k :: 0 <= k <= MaxPolls ==> !OpAfter(initial, replies, k).done)
    decreases MaxPolls - c
  {
    var op := OpAfter(initial, replies, c);
    if !op.done && c + 1 <= MaxPolls {
      assert OpAfter(initial, replies, c + 1) == Step(op, replies(c));
      PollFromTrace(initial, replies, c + 1);
    }
  }

  /** The loop against the reference trace: it completes exactly when the operation is
      done after at most 60 queries, stopping at the first such point and returning the
      operation held there; otherwise it times out after exactly 60 queries. */
  lemma PollSpec(initial: Operation, replies: nat -> PollReply)
    ensures Poll(initial, replies).Completed? <==>
      exists k :: 0 <= k <= MaxPolls && OpAfter(initial, replies, k).done
    ensures Poll(initial, replies).Completed? ==>
      var r := Poll(initial, replies);
      && r.queries <= MaxPolls
      && r.op == OpAfter(initial, replies, r.queries)
      && forall k :: 0 <= k < r.queries ==> !OpAfter(initial, replies, k).done
    ensures Poll(initial, replies).TimedOut? ==> Poll(initial, replies).queries == MaxPolls
  {
    PollFromTrace(initial, replies, 0);
    var r := Poll(initial, replies);
    if r.Completed? {
      assert OpAfter(initial, replies, r.queries).done;
    }
  }

  /** An already finished submission makes no query at all. */
  lemma DoneSubmission(initial: Operation, replies: nat -> PollReply)
    requires initial.done
    ensures Poll(initial, replies) == Completed(initial, 0)
  {
  }

  /** Throwing queries keep the operation and still use up ticks: if every query throws,
      an unfinished operation times out after exactly 60 queries. */
  lemma {:induction false} AllQueriesThrow(initial: Operation, replies: nat -> PollReply)
    requires !initial.done
    requires forall k :: replies(k) == QueryThrew
    ensures Poll(initial, replies) == TimedOut(MaxPolls)
  {
    forall k: nat ensures OpAfter(initial, replies, k) == initial {
      ThrowingTrace(initial, replies, k);
    }
    PollSpec(initial, replies);
  }

  lemma {:induction false} ThrowingTrace(initial: Operation, replies: nat -> PollReply, k: nat)
    requires forall j :: replies(j) == QueryThrew
    ensures OpAfter(initial, replies, k) == initial
    decreases k
  {
    if k > 0 {
      ThrowingTrace(initial, replies, k - 1);
    }
  }

  /** `fetch(uri, { headers: { 'x-goog-api-key': key } })` and the body read: the
      fetch threw, the status was not OK, the body read threw, or the body became a
      `video/mp4` blob with the given object URL. */
  datatype HeaderFetch = FetchThrew | NotOk(status: int) | BodyThrew | Fetched(blobUrl: string)

  /** Strategy 2: the URI with the key appended as the `key` query parameter,
      separated by '&' when the URI already has a '?', by '?' otherwise. The original
      URI is a prefix, and the parameter's value decodes back to the key. */
  function SignedUrl(uri: string, key: string): (r: string)
    ensures |r| >= |uri| + 5 && r[..|uri|] == uri
    ensures r[|uri|] == (if '?' in uri then '&' else '?')
    ensures r[|uri| + 1..|uri| + 5] == "key="
    ensures r[|uri| + 5..] == PE.EncodeUriComponent(key)
    ensures forall k :: |uri| + 5 <= k < |r| ==> PE.UriSafe(r[k])
    ensures PE.DecodeBytes(r[|uri| + 5..]) == Some(PE.Utf8String(key))
  {
    var separator := if '?' in uri then "&" else "?";
    var value := PE.EncodeUriComponent(key);
    var r := uri + separator + "key=" + value;
    assert r[|uri| + 5..] == value;
    PE.DecodeEncode(key);
    r
  }

  /** The two retrieval strategies: the blob URL when the header fetch and the body
      read both succeed; on any failure of either, the signed URL. */
  function RetrieveAsset(uri: string, key: string, fetch: HeaderFetch): (r: string)
    ensures fetch.Fetched? ==> r == fetch.blobUrl
    ensures !fetch.Fetched? ==>
      && |r| >= |uri| + 5 && r[..|uri|] == uri
      && r[|uri|] == (if '?' in uri then '&' else '?') && r[|uri| + 1..|uri| + 5] == "key="
      && r[|uri| + 5..] == PE.EncodeUriComponent(key)
      && PE.DecodeBytes(r[|uri| + 5..]) == Some(PE.Utf8String(key))
  {
    match fetch
    case Fetched(blobUrl) => blobUrl
    case _ => SignedUrl(uri, key)
  }

  /** The outcomes of one attempt's foreign calls: `generateVideos`, the successive
      `getVideosOperation` calls, and the header fetch of the finished video. */
  datatype VeoScript = VeoScript(
    submission: Result<Operation, RawError>,
    replies: nat -> PollReply,
    headerFetch: HeaderFetch)

  /** `attemptVeoGeneration` for the configured key `envKey` ("" when unset). */
  function AttemptVeo(envKey: string, script: VeoScript): (r: Result<string, RawError>)
    ensures Trim(envKey) == "" ==> r == Failure(Thrown(KeyInvalidMessage))
    ensures Trim(envKey) != "" && script.submission.Failure? ==> r == Failure(script.submission.error)
    ensures r.Success? <==>
      && Trim(envKey) != ""
      && script.submission.Success?
      && Poll(script.submission.value, script.replies).Completed?
      && Poll(script.submission.value, script.replies).op.error.None?
      && Poll(script.submission.value, script.replies).op.videoUri != ""
    ensures r.Success? ==>
      var uri := Poll(script.submission.value, script.replies).op.videoUri;
      r.value == RetrieveAsset(uri, Trim(envKey), script.headerFetch)
  {
    var key := Trim(envKey);
    if key == "" then Failure(Thrown(KeyInvalidMessage))
    else
      match script.submission
      case Failure(e) => Failure(e)
      case Success(op0) =>
        match Poll(op0, script.replies)
        case TimedOut(_) => Failure(Thrown(TimeoutMessage))
        case Completed(op, _) =>
          if op.error.Some? then Failure(Thrown(InspectedText(op.error.value)))
          else if op.videoUri == "" then Failure(Thrown(NoUriMessage))
          else Success(RetrieveAsset(op.videoUri, key, script.headerFetch))
  }

  /** The failures of the attempt itself: a time-out, a reported operation error
      (its message, or its serialisation when the message is empty) and a missing
      URI. */
  lemma AttemptFailures(envKey: string, script: VeoScript)
    requires Trim(envKey) != "" && script.submission.Success?
    ensures Poll(script.submission.value, script.replies).TimedOut? ==>
      AttemptVeo(envKey, script) == Failure(Thrown(TimeoutMessage))
    ensures var p := Poll(script.submission.value, script.replies);
      p.Completed? && p.op.error.Some? ==>
        AttemptVeo(envKey, script) == Failure(Thrown(InspectedText(p.op.error.value)))
    ensures var p := Poll(script.submission.value, script.replies);
      p.Completed? && p.op.error.None? && p.op.videoUri == "" ==>
        AttemptVeo(envKey, script) == Failure(Thrown(NoUriMessage))
  {
  }

  /** The attempt's own failure messages are plain: none is classified as a quota
      error, and `parseGeminiError` passes each through unchanged. */
  lemma OwnFailuresPlain(parse: string -> JsonParse)
    ensures !IsQuotaError(Thrown(TimeoutMessage)) && ParseGeminiError(Thrown(TimeoutMessage), parse) == TimeoutMessage
    ensures !IsQuotaError(Thrown(NoUriMessage)) && ParseGeminiError(Thrown(NoUriMessage), parse) == NoUriMessage
    ensures !IsQuotaError(Thrown(KeyInvalidMessage))
            && ParseGeminiError(Thrown(KeyInvalidMessage), parse) == KeyInvalidMessage
  {
    TimeoutPlain();
    PlainMessage(TimeoutMessage, parse);
    NoUriPlain();
    PlainMessage(NoUriMessage, parse);
    KeyInvalidPlain();
    PlainMessage(KeyInvalidMessage, parse);
  }

  lemma TimeoutPlain()
    ensures Plain(TimeoutMessage)
  {
  }

  lemma NoUriPlain()
    ensures Plain(NoUriMessage)
  {
  }

  lemma KeyInvalidPlain()
    ensures Plain(KeyInvalidMessage)
  {
  }
}
