/**
 * The e-mail format test of the profile form, the regular expression
 * `^[^@\s]+@[^@\s]+\.[^@\s]+$`, in two forms: the pattern read literally as a
 * three-way split of the string, and a direct character-level check. They are
 * proved to accept exactly the same strings.
 */
module EmailPattern {
  import opened Text

  /** A character of the class `[^@\s]`. */
  predicate Plain(c: char) {
    c != '@' && !IsSpace(c)
  }

  /** A string the group `[^@\s]+` matches in full. */
  predicate PlainRun(t: string) {
    |t| > 0 && forall k | 0 <= k < |t| :: Plain(t[k])
  }

  /** The pattern matches `s` with its `@` at `i` and its escaped `\.` at `j`:
      `s == local + "@" + host + "." + suffix`, each part a `[^@\s]+` run. */
  predicate SplitAt(s: string, i: int, j: int) {
    && 0 < i && i + 1 < j && j + 1 < |s|
    && s[i] == '@' && s[j] == '.'
    && PlainRun(s[..i]) && PlainRun(s[i + 1..j]) && PlainRun(s[j + 1..])
  }

  /** The anchored pattern matches `s` for some choice of split points; the
      regular-expression engine's backtracking finds one whenever one exists. */
  ghost predicate MatchesPattern(s: string) {
    exists i, j :: SplitAt(s, i, j)
  }

  /** The check as the form needs it: exactly one `@`, not in first position; no
      white space anywhere; a `.` in the part after the `@` that is neither that
      part's first nor its last character. */
  function IsValidEmail(s: string): (r: bool)
    ensures r ==> 5 <= |s| && s[0] != '@' && s[|s| - 1] != '@'
  {
    var i := IndexOf(s, '@');
    && 0 < i
    && '@' !in s[i + 1..]
    && (forall k | 0 <= k < |s| :: !IsSpace(s[k]))
    && (exists j | i + 1 < j < |s| - 1 :: s[j] == '.')
  }

  /** The character-level check and the regular expression accept the same strings. */
  lemma ValidIffMatches(s: string)
    ensures IsValidEmail(s) <==> MatchesPattern(s)
  {
    if IsValidEmail(s) {
      var i := IndexOf(s, '@');
      var j :| i + 1 < j < |s| - 1 && s[j] == '.';
      assert forall k | 0 <= k < |s| && k != i :: Plain(s[k]) by {
        forall k | 0 <= k < |s| && k != i
          ensures Plain(s[k])
        {
          if k < i {
            assert s[k] == s[..i][k];
          } else {
            assert s[k] == s[i + 1..][k - i - 1];
          }
        }
      }
      assert SplitAt(s, i, j);
    }
    if MatchesPattern(s) {
      var i, j :| SplitAt(s, i, j);
      assert forall k | 0 <= k < |s| && k != i && k != j :: Plain(s[k]) by {
        forall k | 0 <= k < |s| && k != i && k != j
          ensures Plain(s[k])
        {
          if k < i {
            assert s[k] == s[..i][k];
          } else if k < j {
            assert s[k] == s[i + 1..j][k - i - 1];
          } else {
            assert s[k] == s[j + 1..][k - j - 1];
          }
        }
      }
      assert '@' !in s[..i] by {
        forall k | 0 <= k < i ensures s[..i][k] != '@' {
          assert s[..i][k] == s[k];
        }
      }
      assert IndexOf(s, '@') == i;
      var rest := s[i + 1..];
      assert '@' !in rest by {
        forall k | 0 <= k < |rest| ensures rest[k] != '@' {
          assert rest[k] == s[i + 1 + k];
        }
      }
    }
  }
}
