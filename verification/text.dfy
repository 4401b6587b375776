/**
 * The few JavaScript string operations the pages rely on: `String.prototype.trim`,
 * `includes`, `replace` with a string pattern, and the regular-expression class `\s`.
 * Strings are sequences of Unicode scalar values.
 */
module Text {

  /** The characters ECMAScript treats as white space or line terminators; this set
      is what both `trim()` strips and the regular-expression escape `\s` matches. */
  predicate IsSpace(c: char) {
    || c == '\t' || c == '\n' || c == '\U{000B}' || c == '\U{000C}' || c == '\r'
    || c == ' ' || c == '\U{00A0}' || c == '\U{1680}'
    || ('\U{2000}' <= c <= '\U{200A}')
    || c == '\U{2028}' || c == '\U{2029}' || c == '\U{202F}' || c == '\U{205F}'
    || c == '\U{3000}' || c == '\U{FEFF}'
  }

  /** Every character of `s` is white space (vacuously true of the empty string). */
  predicate AllSpace(s: string) {
    forall i | 0 <= i < |s| :: IsSpace(s[i])
  }

  /** `s.trimStart()`: the suffix of `s` left after dropping leading white space. */
  function TrimStart(s: string): (r: string)
    ensures |r| <= |s| && r == s[|s| - |r|..]
    ensures AllSpace(s[..|s| - |r|])
    ensures r == [] || !IsSpace(r[0])
  {
    if |s| > 0 && IsSpace(s[0]) then
      var t := s[1..];
      var r := TrimStart(t);
      var n := |s| - |r|;
      assert t[n - 1..] == s[n..];
      assert AllSpace(s[..n]) by {
        forall i | 0 <= i < n ensures IsSpace(s[..n][i]) {
          if i > 0 {
            assert s[..n][i] == t[..n - 1][i - 1];
          }
        }
      }
      r
    else s
  }

  /** `s.trimEnd()`: the prefix of `s` left after dropping trailing white space. */
  function TrimEnd(s: string): (r: string)
    ensures |r| <= |s| && r == s[..|r|]
    ensures AllSpace(s[|r|..])
    ensures r == [] || !IsSpace(r[|r| - 1])
  {
    if |s| > 0 && IsSpace(s[|s| - 1]) then
      var r := TrimEnd(s[..|s| - 1]);
      assert s[..|s| - 1][..|r|] == s[..|r|];
      assert s[|r|..] == s[..|s| - 1][|r|..] + [s[|s| - 1]];
      r
    else s
  }

  /** `s.trim()`: white space removed at both ends. */
  function Trim(s: string): (r: string)
    ensures |r| <= |s|
    ensures r == [] || (!IsSpace(r[0]) && !IsSpace(r[|r| - 1]))
  {
    TrimEnd(TrimStart(s))
  }

  /** What `trim()` returns is a piece of the string with only white space cut
      away before and after it. */
  lemma TrimIsInnerPiece(s: string)
    ensures exists k | 0 <= k <= |s| - |Trim(s)| ::
      s[k..k + |Trim(s)|] == Trim(s) && AllSpace(s[..k]) && AllSpace(s[k + |Trim(s)|..])
  {
    var t := TrimStart(s);
    var r := TrimEnd(t);
    var k := |s| - |t|;
    assert s[k..k + |r|] == t[..|r|];
    assert s[k + |r|..] == t[|r|..];
    assert s[k..k + |r|] == r && AllSpace(s[..k]) && AllSpace(s[k + |r|..]);
  }

  /** A value the pages reject as missing: `!s.trim()` in JavaScript, since the empty
      string is the only falsy string. */
  predicate IsBlank(s: string) {
    Trim(s) == ""
  }

  /** Trimming yields the empty string exactly when every character is white space. */
  lemma BlankIffAllSpace(s: string)
    ensures IsBlank(s) <==> AllSpace(s)
  {
    var t := TrimStart(s);
    if !AllSpace(s) {
      var k :| 0 <= k < |s| && !IsSpace(s[k]);
      // the dropped prefix is all space, so k lies inside t ...
      assert k >= |s| - |t|;
      assert t[k - (|s| - |t|)] == s[k];
      // ... and the dropped suffix of t is all space, so k lies inside Trim(s) too.
      assert TrimEnd(t) != [];
    }
  }

  /** `s.startsWith(p)`. */
  predicate StartsWith(s: string, p: string) {
    |p| <= |s| && s[..|p|] == p
  }

  /** `s.includes(sub)`: `sub` occurs at some offset of `s`. */
  ghost predicate Occurs(s: string, sub: string) {
    exists i | 0 <= i :: OccursAt(s, sub, i)
  }

  /** `sub` occurs in `s` starting at offset `i`. */
  predicate OccursAt(s: string, sub: string, i: nat) {
    i + |sub| <= |s| && s[i..i + |sub|] == sub
  }

  /** An occurrence is either at offset 0 or an occurrence in the tail. */
  lemma OccursStep(s: string, sub: string)
    requires |sub| <= |s| && 0 < |s|
    ensures Occurs(s, sub) <==> StartsWith(s, sub) || Occurs(s[1..], sub)
  {
    if StartsWith(s, sub) {
      assert OccursAt(s, sub, 0);
    }
    if 0 < |s| && Occurs(s[1..], sub) {
      var i :| 0 <= i && OccursAt(s[1..], sub, i);
      assert s[i + 1..i + 1 + |sub|] == s[1..][i..i + |sub|];
      assert OccursAt(s, sub, i + 1);
    }
    if Occurs(s, sub) && !StartsWith(s, sub) {
      var i :| 0 <= i && OccursAt(s, sub, i);
      assert i != 0;
      assert s[1..][i - 1..i - 1 + |sub|] == s[i..i + |sub|];
      assert OccursAt(s[1..], sub, i - 1);
    }
  }

  /** `s.includes(sub)`, computed by scanning left to right. */
  function Includes(s: string, sub: string): (r: bool)
    ensures r <==> Occurs(s, sub)
  {
    if |s| < |sub| then false
    else if |s| == 0 then
      assert OccursAt(s, sub, 0);
      true
    else
      OccursStep(s, sub);
      StartsWith(s, sub) || Includes(s[1..], sub)
  }

  /** `s.indexOf(c)`: the first position of `c` in `s`, or -1. */
  function IndexOf(s: string, c: char): (r: int)
    ensures -1 <= r < |s|
    ensures r == -1 <==> c !in s
    ensures r >= 0 ==> s[r] == c && c !in s[..r]
  {
    if |s| == 0 then -1
    else if s[0] == c then 0
    else
      var k := IndexOf(s[1..], c);
      if k == -1 then -1 else
        assert s[..k + 1] == [s[0]] + s[1..][..k];
        k + 1
  }

  /** `s.replace(c, '')` with a one-character string pattern: only the FIRST
      occurrence of `c` is removed. */
  function RemoveFirst(s: string, c: char): (r: string)
    ensures |r| == if c in s then |s| - 1 else |s|
  {
    if |s| == 0 then s
    else if s[0] == c then s[1..]
    else [s[0]] + RemoveFirst(s[1..], c)
  }

  /** RemoveFirst leaves a string without `c` alone, and otherwise cuts out exactly
      the character at `s.indexOf(c)`, keeping everything before and after it. */
  lemma {:induction false} RemoveFirstCutsFirst(s: string, c: char)
    ensures c !in s ==> RemoveFirst(s, c) == s
    ensures c in s ==> RemoveFirst(s, c) == s[..IndexOf(s, c)] + s[IndexOf(s, c) + 1..]
  {
    if |s| == 0 || s[0] == c {
    } else {
      var t := s[1..];
      RemoveFirstCutsFirst(t, c);
      if c in s {
        assert c in t;
        var k := IndexOf(t, c);
        assert IndexOf(s, c) == k + 1;
        assert s[..k + 1] == [s[0]] + t[..k];
        assert s[k + 2..] == t[k + 1..];
      } else {
        assert s == [s[0]] + t;
      }
    }
  }
}
