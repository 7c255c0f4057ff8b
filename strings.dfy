/** The two functions of Go's `strings` package that the triage rules use:
    `ToLower` (modelled on ASCII letters) and `Contains`. */
module Strings {

  predicate IsUpper(c: char) {
    'A' <= c <= 'Z'
  }

  /** Lower-case one character; only ASCII letters change. */
  function LowerChar(c: char): (r: char)
    ensures !IsUpper(r)
    ensures IsUpper(c) ==> 'a' <= r <= 'z' && r as int - 'a' as int == c as int - 'A' as int
    ensures !IsUpper(c) ==> r == c
  {
    if IsUpper(c) then (c as int + 32) as char else c
  }

  /** `strings.ToLower`, on ASCII letters. */
  function Lower(s: string): (r: string)
    ensures |r| == |s|
    ensures forall i :: 0 <= i < |s| ==> r[i] == LowerChar(s[i])
    ensures forall i :: 0 <= i < |r| ==> !IsUpper(r[i])
  {
    if s == [] then [] else [LowerChar(s[0])] + Lower(s[1..])
  }

  /** A string with no upper-case letter is its own lower-case form. */
  lemma LowerOfLowerCase(s: string)
    requires forall i :: 0 <= i < |s| ==> !IsUpper(s[i])
    ensures Lower(s) == s
  {
  }

  /** Lower-casing twice is lower-casing once. */
  lemma LowerIdempotent(s: string)
    ensures Lower(Lower(s)) == Lower(s)
  {
    LowerOfLowerCase(Lower(s));
  }

  predicate StartsWith(s: string, p: string) {
    |p| <= |s| && s[..|p|] == p
  }

  /** `p` occurs in `s` starting at index `i`. */
  predicate OccursAt(s: string, p: string, i: int) {
    0 <= i <= |s| - |p| && s[i..i + |p|] == p
  }

  /** `strings.Contains(s, p)`: `p` occurs in `s` as a contiguous substring. */
  function Contains(s: string, p: string): (r: bool)
    ensures r <==> exists i :: OccursAt(s, p, i)
    decreases |s|
  {
    if StartsWith(s, p) then
      assert OccursAt(s, p, 0);
      true
    else if |s| == 0 then
      false
    else
      var r := Contains(s[1..], p);
      assert forall i :: OccursAt(s[1..], p, i) ==> OccursAt(s, p, i + 1) by {
        forall i | OccursAt(s[1..], p, i) ensures OccursAt(s, p, i + 1) {
          assert s[1..][i..i + |p|] == s[i + 1..i + 1 + |p|];
        }
      }
      assert forall i :: OccursAt(s, p, i) ==> OccursAt(s[1..], p, i - 1) by {
        forall i | OccursAt(s, p, i) ensures OccursAt(s[1..], p, i - 1) {
          assert i != 0;
          assert s[1..][i - 1..i - 1 + |p|] == s[i..i + |p|];
        }
      }
      r
  }

  /** A pattern longer than the text never occurs in it. */
  lemma NotContainsLonger(s: string, p: string)
    requires |s| < |p|
    ensures !Contains(s, p)
  {
  }
}
