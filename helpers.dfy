/**
 * String helpers of the timesheet pipeline: membership in a list of names,
 * substring search, ASCII upper-casing and the case-insensitive substring
 * test the classifier uses for the "pitch" keyword.
 */
module Helpers {

  /** `sub` occurs in `s` starting at index `i`. */
  predicate OccursAt(s: string, sub: string, i: nat)
  {
    i + |sub| <= |s| && s[i..i + |sub|] == sub
  }

  /** Shifting the start position by one character of `s`. */
  lemma OccursAtTail(s: string, sub: string, i: nat)
    requires |s| > 0
    ensures OccursAt(s[1..], sub, i) <==> OccursAt(s, sub, i + 1)
  {
    if i + |sub| <= |s[1..]| {
      assert s[1..][i..i + |sub|] == s[i + 1..i + 1 + |sub|];
    }
  }

  /**
   * Substring test (the library's `strings.Contains`): true exactly when
   * `sub` occurs somewhere in `s`; the empty string occurs everywhere.
   */
  function HasSubstring(s: string, sub: string): (b: bool)
    ensures b <==> exists i: nat :: OccursAt(s, sub, i)
    decreases |s|
  {
    if |sub| > |s| then
      assert forall i: nat :: !OccursAt(s, sub, i);
      false
    else if s[..|sub|] == sub then
      assert OccursAt(s, sub, 0);
      true
    else
      var rest := HasSubstring(s[1..], sub);
      assert rest ==> exists i: nat :: OccursAt(s, sub, i) by {
        if rest {
          var j: nat :| OccursAt(s[1..], sub, j);
          OccursAtTail(s, sub, j);
        }
      }
      assert (exists i: nat :: OccursAt(s, sub, i)) ==> rest by {
        if exists i: nat :: OccursAt(s, sub, i) {
          var j: nat :| OccursAt(s, sub, j);
          assert j != 0;
          OccursAtTail(s, sub, j - 1);
        }
      }
      rest
  }

  predicate IsLower(c: char)
  {
    'a' <= c <= 'z'
  }

  /** ASCII upper-casing of one character; every other character is kept. */
  function UpperChar(c: char): char
  {
    if IsLower(c) then (c as int - 32) as char else c
  }

  /**
   * Two characters are the same up to ASCII case: equal, or a lower-case and
   * a capital letter at the same position of the alphabet.
   */
  predicate SameIgnoringCase(a: char, b: char)
  {
    a == b
    || (IsLower(a) && 'A' <= b <= 'Z' && a as int - 'a' as int == b as int - 'A' as int)
    || (IsLower(b) && 'A' <= a <= 'Z' && b as int - 'a' as int == a as int - 'A' as int)
  }

  /** Upper-casing identifies exactly the characters that are the same up to case. */
  lemma UpperCharSame(a: char, b: char)
    ensures UpperChar(a) == UpperChar(b) <==> SameIgnoringCase(a, b)
  {
  }

  /**
   * Upper-casing of a whole string (the library's `strings.ToUpper`, on the
   * ASCII letters only): same length, no lower-case letter left, and every
   * character is the original one up to case.
   */
  function ToUpper(s: string): (r: string)
    ensures |r| == |s|
    ensures forall i :: 0 <= i < |r| ==> !IsLower(r[i]) && SameIgnoringCase(r[i], s[i])
  {
    seq(|s|, i requires 0 <= i < |s| => UpperChar(s[i]))
  }

  /** Upper-casing twice is upper-casing once. */
  lemma ToUpperIdempotent(s: string)
    ensures ToUpper(ToUpper(s)) == ToUpper(s)
  {
  }

  /** `sub` matches `s` at `i` when both are compared letter by letter up to case. */
  predicate MatchesIgnoringCase(s: string, sub: string, i: nat)
  {
    i + |sub| <= |s| && forall k :: 0 <= k < |sub| ==> SameIgnoringCase(s[i + k], sub[k])
  }

  lemma UpperOccursAt(s: string, sub: string, i: nat)
    ensures OccursAt(ToUpper(s), ToUpper(sub), i) <==> MatchesIgnoringCase(s, sub, i)
  {
    var us, ub := ToUpper(s), ToUpper(sub);
    if i + |sub| <= |s| {
      if OccursAt(us, ub, i) {
        forall k | 0 <= k < |sub| ensures SameIgnoringCase(s[i + k], sub[k]) {
          assert us[i..i + |ub|][k] == ub[k];
          UpperCharSame(s[i + k], sub[k]);
        }
      }
      if MatchesIgnoringCase(s, sub, i) {
        forall k | 0 <= k < |sub| ensures us[i + k] == ub[k] {
          UpperCharSame(s[i + k], sub[k]);
        }
        assert us[i..i + |ub|] == ub;
      }
    }
  }

  /**
   * Case-insensitive substring test (main.go `caseInsensitiveContains`):
   * both strings are upper-cased and then searched. It holds exactly when
   * `sub` occurs in `s` with letters compared up to ASCII case.
   */
  function CaseInsensitiveContains(s: string, sub: string): (b: bool)
    ensures b <==> exists i: nat :: MatchesIgnoringCase(s, sub, i)
  {
    var r := HasSubstring(ToUpper(s), ToUpper(sub));
    assert r ==> exists i: nat :: MatchesIgnoringCase(s, sub, i) by {
      if r {
        var j: nat :| OccursAt(ToUpper(s), ToUpper(sub), j);
        UpperOccursAt(s, sub, j);
      }
    }
    assert (exists i: nat :: MatchesIgnoringCase(s, sub, i)) ==> r by {
      if exists i: nat :: MatchesIgnoringCase(s, sub, i) {
        var j: nat :| MatchesIgnoringCase(s, sub, j);
        UpperOccursAt(s, sub, j);
      }
    }
    r
  }

  /** An exact occurrence is in particular a case-insensitive one. */
  lemma ExactImpliesCaseInsensitive(s: string, sub: string)
    requires HasSubstring(s, sub)
    ensures CaseInsensitiveContains(s, sub)
  {
    var j: nat :| OccursAt(s, sub, j);
    assert MatchesIgnoringCase(s, sub, j) by {
      forall k | 0 <= k < |sub| ensures s[j + k] == sub[k] {
        assert s[j..j + |sub|][k] == sub[k];
      }
    }
  }

  /** The test does not depend on the case in which `s` is written. */
  lemma CaseInsensitiveContainsUpper(s: string, sub: string)
    ensures CaseInsensitiveContains(ToUpper(s), sub) == CaseInsensitiveContains(s, sub)
  {
    ToUpperIdempotent(s);
  }

  /**
   * Linear membership test over a list of names (main.go `contains`): the
   * result is true exactly when `str` is an element of `slice`.
   */
  method Contains(slice: seq<string>, str: string) returns (found: bool)
    ensures found <==> str in slice
  {
    var i := 0;
    while i < |slice|
      invariant 0 <= i <= |slice|
      invariant str !in slice[..i]
    {
      if slice[i] == str {
        return true;
      }
      i := i + 1;
    }
    assert slice[..i] == slice;
    return false;
  }
}
