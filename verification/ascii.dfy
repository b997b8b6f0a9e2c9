/** Case handling of strings: `String.toUpperCase()` and the case-insensitive `LIKE '%k%'`
    that a `...ContainingIgnoreCase` repository query issues. Letters outside ASCII keep their case. */
module Ascii {

  predicate IsLower(c: char) {
    'a' <= c <= 'z'
  }

  function UpperChar(c: char): (u: char)
    ensures !IsLower(u)
  {
    if IsLower(c) then (c as int - 32) as char else c
  }

  /** The string with every ASCII lower-case letter replaced by its capital. */
  function Upper(s: string): (r: string)
    ensures |r| == |s|
    ensures forall i :: 0 <= i < |s| ==> r[i] == UpperChar(s[i])
  {
    if |s| == 0 then "" else [UpperChar(s[0])] + Upper(s[1..])
  }

  /** A string without lower-case letters is its own upper-case form. */
  lemma UpperOfUpperCase(s: string)
    requires forall i :: 0 <= i < |s| ==> !IsLower(s[i])
    ensures Upper(s) == s
  {
  }

  lemma UpperIdempotent(s: string)
    ensures Upper(Upper(s)) == Upper(s)
  {
    UpperOfUpperCase(Upper(s));
  }

  /** `k` occurs in `s` starting at position `i`. */
  predicate OccursAt(s: string, k: string, i: int) {
    0 <= i <= |s| - |k| && s[i..i + |k|] == k
  }

  /** `k` occurs in `s` as a contiguous piece. */
  predicate Contains(s: string, k: string) {
    exists i | 0 <= i <= |s| :: OccursAt(s, k, i)
  }

  /** `upper(s) LIKE upper('%' || k || '%')`, with the wildcards in `k` escaped. */
  predicate ContainsIgnoreCase(s: string, k: string) {
    Contains(Upper(s), Upper(k))
  }

  /** The empty keyword occurs in every string. */
  lemma EmptyKeywordMatches(s: string)
    ensures ContainsIgnoreCase(s, "")
  {
    assert OccursAt(Upper(s), Upper(""), 0);
  }

  /** Matching does not depend on the case the keyword is written in. */
  lemma KeywordCaseIrrelevant(s: string, k: string)
    ensures ContainsIgnoreCase(s, k) <==> ContainsIgnoreCase(s, Upper(k))
  {
    UpperIdempotent(k);
  }
}
