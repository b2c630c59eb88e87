/**
 * The two string operations the bot relies on: lower-casing (`str.lower`)
 * and the substring test (`p in s`).
 */
module Text {

  /** Lower-cases one character; only the ASCII letters A-Z are mapped. */
  function LowerChar(c: char): (r: char)
    ensures 'A' <= c <= 'Z' ==> 'a' <= r <= 'z' && r as int - c as int == 32
    ensures !('A' <= c <= 'Z') ==> r == c
  {
    if 'A' <= c <= 'Z' then (c as int + 32) as char else c
  }

  /** A string with no upper-case ASCII letter. */
  predicate IsLower(s: string) {
    forall i :: 0 <= i < |s| ==> !('A' <= s[i] <= 'Z')
  }

  /** Python's `s.lower()`, restricted to ASCII case mapping. */
  function Lower(s: string): (r: string)
    ensures |r| == |s|
    ensures forall i :: 0 <= i < |s| ==> r[i] == LowerChar(s[i])
    ensures IsLower(r)
  {
    if |s| == 0 then "" else [LowerChar(s[0])] + Lower(s[1..])
  }

  /** Lower-casing a lower-case string changes nothing. */
  lemma LowerOfLower(s: string)
    requires IsLower(s)
    ensures Lower(s) == s
  {
  }

  /** Lower-casing twice is lower-casing once. */
  lemma LowerIdempotent(s: string)
    ensures Lower(Lower(s)) == Lower(s)
  {
    LowerOfLower(Lower(s));
  }

  /** `p` occurs in `s` starting at index `i`. */
  predicate OccursAt(s: string, p: string, i: int) {
    0 <= i && i + |p| <= |s| && s[i..i + |p|] == p
  }

  /**
   * Python's `p in s` for strings, as a left-to-right scan: `p` is a prefix
   * of `s` or occurs in the rest of it. The empty string occurs everywhere.
   */
  predicate Contains(s: string, p: string)
    decreases |s|
  {
    (|p| <= |s| && s[..|p|] == p) || (|s| > 0 && Contains(s[1..], p))
  }

  /** An occurrence in the tail is an occurrence one index later. */
  lemma OccursInTail(s: string, p: string, i: int)
    requires |s| > 0 && 0 <= i
    ensures OccursAt(s[1..], p, i) <==> OccursAt(s, p, i + 1)
  {
    if 0 <= i && i + |p| <= |s| - 1 {
      assert s[1..][i..i + |p|] == s[i + 1..i + 1 + |p|];
    }
  }

  /** Whatever the scan finds occurs at some index. */
  lemma {:induction false} ContainsSound(s: string, p: string) returns (i: int)
    requires Contains(s, p)
    ensures OccursAt(s, p, i)
    decreases |s|
  {
    if |p| <= |s| && s[..|p|] == p {
      i := 0;
    } else {
      var j := ContainsSound(s[1..], p);
      OccursInTail(s, p, j);
      i := j + 1;
    }
  }

  /** Every occurrence is found by the scan. */
  lemma {:induction false} ContainsComplete(s: string, p: string, i: int)
    requires OccursAt(s, p, i)
    ensures Contains(s, p)
    decreases |s|
  {
    if i > 0 {
      OccursInTail(s, p, i - 1);
      ContainsComplete(s[1..], p, i - 1);
    }
  }

  /** The scan finds `p` exactly when `p` occurs at some index of `s`. */
  lemma ContainsIff(s: string, p: string)
    ensures Contains(s, p) <==> exists i :: OccursAt(s, p, i)
  {
    if Contains(s, p) {
      var i := ContainsSound(s, p);
    }
    forall i | OccursAt(s, p, i) {
      ContainsComplete(s, p, i);
    }
  }

  /** Every string contains itself. */
  lemma ContainsSelf(s: string)
    ensures Contains(s, s)
  {
    assert s[..|s|] == s;
  }

  /** `c in s` for a single character `c`. */
  predicate HasChar(s: string, c: char) {
    Contains(s, [c])
  }

  /** The single-character test is plain membership. */
  lemma {:induction false} HasCharIff(s: string, c: char)
    ensures HasChar(s, c) <==> c in s
    decreases |s|
  {
    if |s| > 0 {
      HasCharIff(s[1..], c);
      assert c in s <==> s[0] == c || c in s[1..];
    }
  }
}
