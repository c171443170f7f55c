/** `encodeURIComponent`: percent-encoding as in section 2.1 of RFC 3986, applied to
    the UTF-8 bytes (RFC 3629) of every character outside the set JavaScript leaves
    unescaped. A decoder is given alongside so that the encoding can be checked
    against its inverse. */
module PercentEncoding {
  import opened Wrappers
  import opened Bytes

  /** The characters `encodeURIComponent` copies unchanged:
      A-Z a-z 0-9 - _ . ! ~ * ' ( ). */
  predicate Unreserved(c: char) {
    || ('A' <= c <= 'Z') || ('a' <= c <= 'z') || ('0' <= c <= '9')
    || c == '-' || c == '_' || c == '.' || c == '!' || c == '~'
    || c == '*' || c == '\'' || c == '(' || c == ')'
  }

  /** Every character an encoded string can contain. */
  predicate UriSafe(c: char) {
    Unreserved(c) || c == '%'
  }

  const HexDigits: string := "0123456789ABCDEF"

  predicate IsHexDigit(c: char) {
    ('0' <= c <= '9') || ('A' <= c <= 'F') || ('a' <= c <= 'f')
  }

  function HexValue(c: char): (v: nat)
    requires IsHexDigit(c)
    ensures v < 16
  {
    if '0' <= c <= '9' then c as int - '0' as int
    else if 'A' <= c <= 'F' then c as int - 'A' as int + 10
    else c as int - 'a' as int + 10
  }

  /** The UTF-8 encoding of one Unicode scalar value. */
  function Utf8(c: char): (r: seq<Byte>)
    ensures 1 <= |r| <= 4
  {
    var cp := c as int;
    if cp < 0x80 then [cp]
    else if cp < 0x800 then [0xC0 + cp / 0x40, 0x80 + cp % 0x40]
    else if cp < 0x1_0000 then [0xE0 + cp / 0x1000, 0x80 + (cp / 0x40) % 0x40, 0x80 + cp % 0x40]
    else [0xF0 + cp / 0x4_0000, 0x80 + (cp / 0x1000) % 0x40, 0x80 + (cp / 0x40) % 0x40, 0x80 + cp % 0x40]
  }

  /** The UTF-8 encoding of a string, character after character. */
  function Utf8String(s: string): seq<Byte>
    decreases |s|
  {
    if |s| == 0 then [] else Utf8(s[0]) + Utf8String(s[1..])
  }

  /** `%` followed by two upper-case hex digits for each byte. */
  function PercentBytes(bs: seq<Byte>): (r: string)
    ensures |r| == 3 * |bs|
    decreases |bs|
  {
    if |bs| == 0 then []
    else ['%', HexDigits[bs[0] / 16], HexDigits[bs[0] % 16]] + PercentBytes(bs[1..])
  }

  function EncodeChar(c: char): string {
    if Unreserved(c) then [c] else PercentBytes(Utf8(c))
  }

  /** `encodeURIComponent(s)`. Strings of unreserved characters come back unchanged,
      and every output character is unreserved or '%'; in particular no '&', '=', '#',
      '?' or space can appear in the result. */
  function EncodeUriComponent(s: string): (r: string)
    ensures forall k :: 0 <= k < |r| ==> UriSafe(r[k])
    ensures (forall k :: 0 <= k < |s| ==> Unreserved(s[k])) ==> r == s
    decreases |s|
  {
    if |s| == 0 then []
    else
      var head := EncodeChar(s[0]);
      assert forall k :: 0 <= k < |head| ==> UriSafe(head[k]) by {
        if !Unreserved(s[0]) {
          PercentBytesSafe(Utf8(s[0]));
        }
      }
      head + EncodeUriComponent(s[1..])
  }

  /** `encodeURIComponent` works character by character: the encoding of a
      concatenation is the concatenation of the encodings. */
  lemma {:induction false} EncodeAppend(a: string, b: string)
    ensures EncodeUriComponent(a + b) == EncodeUriComponent(a) + EncodeUriComponent(b)
    decreases |a|
  {
    if |a| == 0 {
      assert a + b == b;
    } else {
      assert (a + b)[0] == a[0];
      assert (a + b)[1..] == a[1..] + b;
      EncodeAppend(a[1..], b);
    }
  }

  /** One character: an unreserved character is copied as it is, in any string;
      any other character becomes its UTF-8 bytes as `%XX` triplets. */
  lemma EncodeOne(c: char)
    ensures Unreserved(c) ==> EncodeUriComponent([c]) == [c]
    ensures !Unreserved(c) ==> EncodeUriComponent([c]) == PercentBytes(Utf8(c))
    ensures !Unreserved(c) ==> EncodeUriComponent([c])[0] == '%'
  {
    assert [c][1..] == [];
    if !Unreserved(c) {
      assert PercentBytes(Utf8(c))[0] == '%';
      assert PercentBytes(Utf8(c)) + [] == PercentBytes(Utf8(c));
    } else {
      assert [c] + [] == [c];
    }
  }

  /** Together: in any string, each unreserved character is copied in place. */
  lemma EncodeKeepsUnreserved(a: string, c: char, b: string)
    requires Unreserved(c)
    ensures EncodeUriComponent(a + [c] + b) == EncodeUriComponent(a) + [c] + EncodeUriComponent(b)
  {
    EncodeAppend(a + [c], b);
    EncodeAppend(a, [c]);
    EncodeOne(c);
  }

  lemma {:induction false} PercentBytesSafe(bs: seq<Byte>)
    ensures forall k :: 0 <= k < |PercentBytes(bs)| ==> UriSafe(PercentBytes(bs)[k])
    decreases |bs|
  {
    if |bs| > 0 {
      PercentBytesSafe(bs[1..]);
      var t := ['%', HexDigits[bs[0] / 16], HexDigits[bs[0] % 16]];
      assert forall k :: 0 <= k < 3 ==> UriSafe(t[k]);
      assert PercentBytes(bs) == t + PercentBytes(bs[1..]);
    }
  }

  /** Percent-decoding to bytes: `%XX` gives the byte XX, an unreserved character gives
      its ASCII code, anything else is rejected. */
  function DecodeBytes(t: string): Option<seq<Byte>>
    decreases |t|
  {
    if |t| == 0 then Some([])
    else if t[0] == '%' then
      if |t| >= 3 && IsHexDigit(t[1]) && IsHexDigit(t[2]) then
        match DecodeBytes(t[3..])
        case None => None
        case Some(rest) => Some([HexValue(t[1]) * 16 + HexValue(t[2])] + rest)
      else None
    else if Unreserved(t[0]) then
      match DecodeBytes(t[1..])
      case None => None
      case Some(rest) => Some([t[0] as int] + rest)
    else None
  }

  function Prepend(bs: seq<Byte>, o: Option<seq<Byte>>): Option<seq<Byte>> {
    match o
    case None => None
    case Some(rest) => Some(bs + rest)
  }

  lemma HexRoundTrip(n: nat)
    requires n < 16
    ensures IsHexDigit(HexDigits[n]) && HexValue(HexDigits[n]) == n
  {
  }

  /** One `%XX` triplet decodes to its byte. */
  lemma DecodeTriplet(b: Byte, rest: string)
    ensures DecodeBytes(['%', HexDigits[b / 16], HexDigits[b % 16]] + rest) == Prepend([b], DecodeBytes(rest))
  {
    var t := ['%', HexDigits[b / 16], HexDigits[b % 16]] + rest;
    HexRoundTrip(b / 16);
    HexRoundTrip(b % 16);
    assert t[0] == '%' && t[1] == HexDigits[b / 16] && t[2] == HexDigits[b % 16];
    assert t[3..] == rest;
    assert HexValue(t[1]) * 16 + HexValue(t[2]) == b;
  }

  lemma {:induction false} DecodePercentBytes(bs: seq<Byte>, rest: string)
    ensures DecodeBytes(PercentBytes(bs) + rest) == Prepend(bs, DecodeBytes(rest))
    decreases |bs|
  {
    if |bs| == 0 {
      assert PercentBytes(bs) + rest == rest;
      match DecodeBytes(rest) {
        case None =>
        case Some(r) => assert bs + r == r;
      }
    } else {
      var b := bs[0];
      var trip := ['%', HexDigits[b / 16], HexDigits[b % 16]];
      var tail := PercentBytes(bs[1..]) + rest;
      assert PercentBytes(bs) == trip + PercentBytes(bs[1..]);
      assert PercentBytes(bs) + rest == trip + tail;
      DecodeTriplet(b, tail);
      DecodePercentBytes(bs[1..], rest);
      PrependTwice(b, bs[1..], DecodeBytes(rest));
      assert [b] + bs[1..] == bs;
    }
  }

  lemma PrependTwice(b: Byte, bs: seq<Byte>, o: Option<seq<Byte>>)
    ensures Prepend([b], Prepend(bs, o)) == Prepend([b] + bs, o)
  {
    match o {
      case None =>
      case Some(r) => assert [b] + (bs + r) == ([b] + bs) + r;
    }
  }

  /** Decoding an encoding yields the UTF-8 bytes of the original string: the
      percent-encoded form carries exactly the original characters. */
  lemma {:induction false} DecodeEncode(s: string)
    ensures DecodeBytes(EncodeUriComponent(s)) == Some(Utf8String(s))
    decreases |s|
  {
    if |s| > 0 {
      var c := s[0];
      var tail := EncodeUriComponent(s[1..]);
      DecodeEncode(s[1..]);
      if Unreserved(c) {
        assert EncodeUriComponent(s) == [c] + tail;
        assert ([c] + tail)[1..] == tail;
      } else {
        assert EncodeUriComponent(s) == PercentBytes(Utf8(c)) + tail;
        DecodePercentBytes(Utf8(c), tail);
      }
    }
  }

  /** Reading one UTF-8 sequence from the front of `bs`: the character and the number
      of bytes it took. */
  function Utf8DecodeChar(bs: seq<Byte>): Option<(char, nat)> {
    if |bs| == 0 then None
    else
      var b0 := bs[0] as int;
      if b0 < 0x80 then Some((b0 as char, 1))
      else if 0xC0 <= b0 < 0xE0 && |bs| >= 2 && Cont(bs[1]) then
        var cp := (b0 - 0xC0) * 0x40 + Low6(bs[1]);
        if 0x80 <= cp then Some((cp as char, 2)) else None
      else if 0xE0 <= b0 < 0xF0 && |bs| >= 3 && Cont(bs[1]) && Cont(bs[2]) then
        var cp := (b0 - 0xE0) * 0x1000 + Low6(bs[1]) * 0x40 + Low6(bs[2]);
        if 0x800 <= cp < 0xD800 || 0xE000 <= cp then Some((cp as char, 3)) else None
      else if 0xF0 <= b0 < 0xF5 && |bs| >= 4 && Cont(bs[1]) && Cont(bs[2]) && Cont(bs[3]) then
        var cp := (b0 - 0xF0) * 0x4_0000 + Low6(bs[1]) * 0x1000 + Low6(bs[2]) * 0x40 + Low6(bs[3]);
        if 0x1_0000 <= cp < 0x11_0000 then Some((cp as char, 4)) else None
      else None
  }

  /** A continuation byte, 10xxxxxx. */
  predicate Cont(b: Byte) {
    0x80 <= b < 0xC0
  }

  /** The six payload bits of a continuation byte. */
  function Low6(b: Byte): int {
    b as int - 0x80
  }

  /** Decoding a whole UTF-8 byte string. */
  function Utf8Decode(bs: seq<Byte>): Option<string>
    decreases |bs|
  {
    if |bs| == 0 then Some([])
    else
      match Utf8DecodeChar(bs)
      case None => None
      case Some((c, n)) =>
        if n <= |bs| then
          match Utf8Decode(bs[n..])
          case None => None
          case Some(rest) => Some([c] + rest)
        else None
  }

  /** One character's UTF-8 form decodes back to that character. */
  lemma Utf8CharRoundTrip(c: char, rest: seq<Byte>)
    ensures Utf8DecodeChar(Utf8(c) + rest) == Some((c, |Utf8(c)|))
  {
    var cp := c as int;
    if cp < 0x80 {
    } else if cp < 0x800 {
      Utf8Two(c, rest);
    } else if cp < 0x1_0000 {
      Utf8Three(c, rest);
    } else {
      Utf8Four(c, rest);
    }
  }

  lemma Utf8Two(c: char, rest: seq<Byte>)
    requires 0x80 <= c as int < 0x800
    ensures Utf8DecodeChar(Utf8(c) + rest) == Some((c, 2))
  {
    var cp := c as int;
    var hi, lo := cp / 0x40, cp % 0x40;
    assert hi * 0x40 + lo == cp;
    var u := Utf8(c) + rest;
    assert u[0] as int == 0xC0 + hi && u[1] as int == 0x80 + lo;
    assert Low6(u[1]) == lo;
  }

  lemma Utf8Three(c: char, rest: seq<Byte>)
    requires 0x800 <= c as int < 0x1_0000
    ensures Utf8DecodeChar(Utf8(c) + rest) == Some((c, 3))
  {
    var cp := c as int;
    var q := cp / 0x40;
    var a, b, d := cp / 0x1000, q % 0x40, cp % 0x40;
    assert q * 0x40 + d == cp;
    assert a == q / 0x40;
    assert a * 0x40 + b == q;
    assert a * 0x1000 + b * 0x40 + d == cp;
    var u := Utf8(c) + rest;
    assert u[0] as int == 0xE0 + a && Low6(u[1]) == b && Low6(u[2]) == d;
  }

  lemma Utf8Four(c: char, rest: seq<Byte>)
    requires 0x1_0000 <= c as int
    ensures Utf8DecodeChar(Utf8(c) + rest) == Some((c, 4))
  {
    var cp := c as int;
    var q1 := cp / 0x40;
    var q2 := q1 / 0x40;
    var a, b, d, e := cp / 0x4_0000, q2 % 0x40, q1 % 0x40, cp % 0x40;
    assert q1 * 0x40 + e == cp;
    assert q2 * 0x40 + d == q1;
    assert q2 == cp / 0x1000;
    assert a == q2 / 0x40;
    assert a * 0x40 + b == q2;
    assert a * 0x4_0000 + b * 0x1000 + d * 0x40 + e == cp;
    assert cp < 0x11_0000;
    var u := Utf8(c) + rest;
    assert u[0] as int == 0xF0 + a && Low6(u[1]) == b && Low6(u[2]) == d && Low6(u[3]) == e;
  }

  /** UTF-8 decoding inverts UTF-8 encoding. */
  lemma {:induction false} Utf8RoundTrip(s: string)
    ensures Utf8Decode(Utf8String(s)) == Some(s)
    decreases |s|
  {
    if |s| > 0 {
      var u := Utf8String(s);
      assert u == Utf8(s[0]) + Utf8String(s[1..]);
      Utf8CharRoundTrip(s[0], Utf8String(s[1..]));
      assert u[|Utf8(s[0])|..] == Utf8String(s[1..]);
      Utf8RoundTrip(s[1..]);
      assert [s[0]] + s[1..] == s;
    }
  }
}
