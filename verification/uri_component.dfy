/**
 * ECMAScript's `encodeURIComponent`: every character outside the unreserved set
 * is written as the `%XX` escapes (upper-case hexadecimal) of its UTF-8 bytes.
 * A decoder is given as its inverse, and the two are proved to round-trip, so a
 * query parameter built with the encoder carries exactly the original text.
 */
module UriComponent {
  import opened Wrappers

  /** The characters `encodeURIComponent` leaves as they are. */
  predicate IsUnreserved(c: char) {
    || ('A' <= c <= 'Z') || ('a' <= c <= 'z') || ('0' <= c <= '9')
    || c == '-' || c == '_' || c == '.' || c == '!' || c == '~'
    || c == '*' || c == '\'' || c == '(' || c == ')'
  }

  const HexDigits := "0123456789ABCDEF"

  predicate IsByte(b: int) {
    0 <= b < 256
  }

  /** The UTF-8 encoding of a Unicode scalar value. */
  function Utf8(c: char): (r: seq<int>)
    ensures 1 <= |r| <= 4
    ensures forall k | 0 <= k < |r| :: IsByte(r[k])
  {
    var cp := c as int;
    var q1 := cp / 64;
    var q2 := q1 / 64;
    var q3 := q2 / 64;
    if cp < 0x80 then [cp]
    else if cp < 0x800 then [0xC0 + q1, 0x80 + cp % 64]
    else if cp < 0x10000 then [0xE0 + q2, 0x80 + q1 % 64, 0x80 + cp % 64]
    else [0xF0 + q3, 0x80 + q2 % 64, 0x80 + q1 % 64, 0x80 + cp % 64]
  }

  /** `%` and the two upper-case hexadecimal digits of a byte. */
  function PercentByte(b: int): (r: string)
    requires IsByte(b)
    ensures |r| == 3 && r[0] == '%'
  {
    ['%', HexDigits[b / 16], HexDigits[b % 16]]
  }

  function PercentBytes(bs: seq<int>): (r: string)
    requires forall k | 0 <= k < |bs| :: IsByte(bs[k])
    ensures |r| == 3 * |bs|
  {
    if |bs| == 0 then "" else PercentByte(bs[0]) + PercentBytes(bs[1..])
  }

  function EncodeChar(c: char): string {
    if IsUnreserved(c) then [c] else PercentBytes(Utf8(c))
  }

  function Concat(parts: seq<string>): string
    decreases |parts|
  {
    if |parts| == 0 then "" else parts[0] + Concat(parts[1..])
  }

  /** A list of non-empty parts joins into at least one character per part. */
  lemma {:induction false} ConcatLength(parts: seq<string>)
    requires forall k | 0 <= k < |parts| :: |parts[k]| > 0
    ensures |Concat(parts)| >= |parts|
    decreases |parts|
  {
    if |parts| > 0 {
      ConcatLength(parts[1..]);
    }
  }

  /** Parts that are the single characters of `s` join back into `s`. */
  lemma {:induction false} ConcatSingletons(parts: seq<string>, s: string)
    requires |parts| == |s| && forall k | 0 <= k < |s| :: parts[k] == [s[k]]
    ensures Concat(parts) == s
    decreases |s|
  {
    if |s| > 0 {
      ConcatSingletons(parts[1..], s[1..]);
      assert s == [s[0]] + s[1..];
    }
  }

  /** `encodeURIComponent(s)`: the encodings of the characters, in order. Each
      character gives at least one character, and a string of unreserved
      characters only is left as it is. */
  function Encode(s: string): (r: string)
    ensures |r| >= |s|
    ensures (forall i | 0 <= i < |s| :: IsUnreserved(s[i])) ==> r == s
  {
    var parts := seq(|s|, i requires 0 <= i < |s| => EncodeChar(s[i]));
    ConcatLength(parts);
    if forall i | 0 <= i < |s| :: IsUnreserved(s[i]) then
      ConcatSingletons(parts, s);
      Concat(parts)
    else
      Concat(parts)
  }

  /** Encoding works character by character from the front. */
  lemma EncodeCons(s: string)
    requires |s| > 0
    ensures Encode(s) == EncodeChar(s[0]) + Encode(s[1..])
  {
    var parts := seq(|s|, i requires 0 <= i < |s| => EncodeChar(s[i]));
    var t := s[1..];
    assert parts[1..] == seq(|t|, i requires 0 <= i < |t| => EncodeChar(t[i]));
  }

  /** The value of a hexadecimal digit (either case), or -1. */
  function HexValue(c: char): (r: int)
    ensures -1 <= r < 16
  {
    if '0' <= c <= '9' then c as int - '0' as int
    else if 'A' <= c <= 'F' then c as int - 'A' as int + 10
    else if 'a' <= c <= 'f' then c as int - 'a' as int + 10
    else -1
  }

  /** The byte written as `%XX` at position `i` of `s`, or -1 if there is none. */
  function ByteAt(s: string, i: nat): (r: int)
    ensures r == -1 || IsByte(r)
  {
    if i + 3 <= |s| && s[i] == '%' && HexValue(s[i + 1]) >= 0 && HexValue(s[i + 2]) >= 0
    then 16 * HexValue(s[i + 1]) + HexValue(s[i + 2])
    else -1
  }

  /** How many bytes a UTF-8 sequence with this lead byte has; 0 for a byte that
      cannot start one. */
  function SequenceLength(b: int): nat {
    if 0 <= b < 0x80 then 1
    else if 0xC0 <= b < 0xE0 then 2
    else if 0xE0 <= b < 0xF0 then 3
    else if 0xF0 <= b < 0xF8 then 4
    else 0
  }

  predicate IsContinuation(b: int) {
    0x80 <= b < 0xC0
  }

  predicate IsScalar(cp: int) {
    (0 <= cp < 0xD800) || (0xE000 <= cp < 0x11_0000)
  }

  /** The smallest code point a UTF-8 sequence of `n` bytes may carry: anything
      below it has a shorter encoding, and the longer (overlong) form is invalid. */
  function MinCodePoint(n: nat): int {
    if n == 2 then 0x80 else if n == 3 then 0x800 else if n == 4 then 0x1_0000 else 0
  }

  /** Decodes one UTF-8 sequence whose length its lead byte announces, rejecting
      overlong forms and surrogates as RFC 3629 requires. */
  function DecodeUtf8(bs: seq<int>): Option<char> {
    if |bs| == 0 || SequenceLength(bs[0]) != |bs| then None
    else if exists k | 1 <= k < |bs| :: !IsContinuation(bs[k]) then None
    else
      var cp :=
        if |bs| == 1 then bs[0]
        else if |bs| == 2 then (bs[0] - 0xC0) * 64 + (bs[1] - 0x80)
        else if |bs| == 3 then ((bs[0] - 0xE0) * 64 + (bs[1] - 0x80)) * 64 + (bs[2] - 0x80)
        else (((bs[0] - 0xF0) * 64 + (bs[1] - 0x80)) * 64 + (bs[2] - 0x80)) * 64 + (bs[3] - 0x80);
      if IsScalar(cp) && cp >= MinCodePoint(|bs|) then Some(cp as char) else None
  }

  function Prepend(c: char, r: Option<string>): Option<string> {
    match r
    case Some(t) => Some([c] + t)
    case None => None
  }

  /** `decodeURIComponent(s)`, with `None` where it throws: an escape that is not
      `%` and two hexadecimal digits, or escapes that are not the UTF-8 encoding
      of one Unicode scalar value. */
  function Decode(s: string): Option<string>
    decreases |s|
  {
    if |s| == 0 then Some("")
    else if s[0] != '%' then Prepend(s[0], Decode(s[1..]))
    else
      var b0 := ByteAt(s, 0);
      var n := if b0 < 0 then 0 else SequenceLength(b0);
      if n == 0 || |s| < 3 * n then None
      else
        var bytes := seq(n, k requires 0 <= k < n => ByteAt(s, 3 * k));
        match DecodeUtf8(bytes)
        case None => None
        case Some(c) => Prepend(c, Decode(s[3 * n..]))
  }

  /** Decoding undoes the UTF-8 encoding of every character. */
  lemma Utf8RoundTrip(c: char)
    ensures DecodeUtf8(Utf8(c)) == Some(c)
  {
    var cp := c as int;
    var q1 := cp / 64;
    var q2 := q1 / 64;
    var q3 := q2 / 64;
    assert cp == 64 * q1 + cp % 64;
    assert q1 == 64 * q2 + q1 % 64;
    assert q2 == 64 * q3 + q2 % 64;
    var bs := Utf8(c);
    if cp < 0x80 {
    } else if cp < 0x800 {
      assert q1 < 32;
      assert (bs[0] - 0xC0) * 64 + (bs[1] - 0x80) == cp;
    } else if cp < 0x10000 {
      assert q2 < 16;
      assert ((bs[0] - 0xE0) * 64 + (bs[1] - 0x80)) * 64 + (bs[2] - 0x80) == cp;
    } else {
      assert q3 < 8;
      assert (((bs[0] - 0xF0) * 64 + (bs[1] - 0x80)) * 64 + (bs[2] - 0x80)) * 64 + (bs[3] - 0x80) == cp;
    }
  }

  /** Overlong encodings of U+0000 in two, three and four bytes are malformed. */
  lemma OverlongRejected()
    ensures Decode("%C0%80") == None
    ensures Decode("%E0%80%80") == None
    ensures Decode("%F0%80%80%80") == None
  {
    assert DecodeUtf8([0xC0, 0x80]) == None;
    assert DecodeUtf8([0xE0, 0x80, 0x80]) == None;
    assert DecodeUtf8([0xF0, 0x80, 0x80, 0x80]) == None;
    var s2, s3, s4 := "%C0%80", "%E0%80%80", "%F0%80%80%80";
    assert seq(2, k requires 0 <= k < 2 => ByteAt(s2, 3 * k)) == [0xC0, 0x80];
    assert seq(3, k requires 0 <= k < 3 => ByteAt(s3, 3 * k)) == [0xE0, 0x80, 0x80];
    assert seq(4, k requires 0 <= k < 4 => ByteAt(s4, 3 * k)) == [0xF0, 0x80, 0x80, 0x80];
  }

  /** Every hexadecimal digit the encoder writes is read back as its value. */
  lemma HexRoundTrip(v: int)
    requires 0 <= v < 16
    ensures HexValue(HexDigits[v]) == v
  {
  }

  /** The `k`-th escape of an encoded byte list, followed by anything, is read back
      as the `k`-th byte. */
  lemma {:induction false} ByteAtPercentBytes(bs: seq<int>, rest: string, k: nat)
    requires forall j | 0 <= j < |bs| :: IsByte(bs[j])
    requires k < |bs|
    ensures ByteAt(PercentBytes(bs) + rest, 3 * k) == bs[k]
    decreases k
  {
    var t := PercentBytes(bs[1..]) + rest;
    assert PercentBytes(bs) + rest == PercentByte(bs[0]) + t;
    if k == 0 {
      ByteAtPercentByte(bs[0], t);
    } else {
      ByteAtPercentBytes(bs[1..], rest, k - 1);
      ByteAtShift(PercentByte(bs[0]), t, 3 * (k - 1));
    }
  }

  /** One escape, followed by anything, is read back as its byte. */
  lemma ByteAtPercentByte(b: int, rest: string)
    requires IsByte(b)
    ensures ByteAt(PercentByte(b) + rest, 0) == b
  {
    HexRoundTrip(b / 16);
    HexRoundTrip(b % 16);
  }

  /** Reading an escape does not depend on what precedes it. */
  lemma ByteAtShift(p: string, t: string, i: nat)
    ensures ByteAt(p + t, |p| + i) == ByteAt(t, i)
  {
    var s := p + t;
    if i + 3 <= |t| {
      assert s[|p| + i] == t[i] && s[|p| + i + 1] == t[i + 1] && s[|p| + i + 2] == t[i + 2];
    }
  }

  /** Decoding an encoded character followed by anything yields that character
      followed by the decoding of the rest. */
  lemma DecodeEncodedChar(c: char, rest: string)
    ensures Decode(EncodeChar(c) + rest) == Prepend(c, Decode(rest))
  {
    var s := EncodeChar(c) + rest;
    if IsUnreserved(c) {
      assert s[0] == c && s[1..] == rest;
    } else {
      var bs := Utf8(c);
      var n := |bs|;
      ByteAtPercentBytes(bs, rest, 0);
      assert SequenceLength(bs[0]) == n;
      var bytes := seq(n, k requires 0 <= k < n => ByteAt(s, 3 * k));
      forall k | 0 <= k < n ensures bytes[k] == bs[k] {
        ByteAtPercentBytes(bs, rest, k);
      }
      assert bytes == bs;
      Utf8RoundTrip(c);
      assert s[3 * n..] == rest;
    }
  }

  /** `decodeURIComponent(encodeURIComponent(s)) == s`. */
  lemma {:induction false} DecodeEncode(s: string)
    ensures Decode(Encode(s)) == Some(s)
    decreases |s|
  {
    if |s| > 0 {
      EncodeCons(s);
      DecodeEncode(s[1..]);
      DecodeEncodedChar(s[0], Encode(s[1..]));
      assert [s[0]] + s[1..] == s;
    }
  }

  /** The characters the encoder may produce: unreserved ones, `%` and upper-case
      hexadecimal digits. None of them can end a query parameter (`&`, `#`) or
      break a URL (space, `?`, `=`). */
  predicate IsEncodedChar(c: char) {
    IsUnreserved(c) || c == '%'
  }

  lemma {:induction false} PercentBytesChars(bs: seq<int>)
    requires forall k | 0 <= k < |bs| :: IsByte(bs[k])
    ensures forall i | 0 <= i < |PercentBytes(bs)| :: IsEncodedChar(PercentBytes(bs)[i])
  {
    if |bs| > 0 {
      PercentBytesChars(bs[1..]);
      assert forall v | 0 <= v < 16 :: IsUnreserved(HexDigits[v]);
      var p := PercentByte(bs[0]);
      assert forall i | 0 <= i < 3 :: IsEncodedChar(p[i]);
      var all := PercentBytes(bs);
      forall i | 0 <= i < |all| ensures IsEncodedChar(all[i]) {
        if i >= 3 {
          assert all[i] == PercentBytes(bs[1..])[i - 3];
        }
      }
    }
  }

  lemma {:induction false} EncodeChars(s: string)
    ensures forall i | 0 <= i < |Encode(s)| :: IsEncodedChar(Encode(s)[i])
    decreases |s|
  {
    if |s| > 0 {
      EncodeCons(s);
      EncodeChars(s[1..]);
      var e := EncodeChar(s[0]);
      if !IsUnreserved(s[0]) {
        PercentBytesChars(Utf8(s[0]));
      }
      var all := Encode(s);
      forall i | 0 <= i < |all| ensures IsEncodedChar(all[i]) {
        if i >= |e| {
          assert all[i] == Encode(s[1..])[i - |e|];
        } else {
          assert all[i] == e[i];
        }
      }
    }
  }
}
