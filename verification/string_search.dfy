/** Substring search with the meaning of Java's `String.contains`: the
    pattern occurs at some position of the text (the empty pattern occurs
    everywhere). */
module StringSearch {

  /** The specification: `pat` occurs in `s` starting at index `i`. */
  ghost predicate OccursAt(pat: string, s: string, i: int) {
    0 <= i && i + |pat| <= |s| && s[i..i + |pat|] == pat
  }

  /** The specification: `pat` occurs somewhere in `s`. */
  ghost predicate Occurs(pat: string, s: string) {
    exists i :: OccursAt(pat, s, i)
  }

  /** Executable substring test, scanning `s` from the left. */
  function Contains(s: string, pat: string): (r: bool)
    ensures r <==> Occurs(pat, s)
    decreases |s|
  {
    if |pat| > |s| then
      assert forall i :: !OccursAt(pat, s, i);
      false
    else if pat <= s then
      assert OccursAt(pat, s, 0);
      true
    else
      var r := Contains(s[1..], pat);
      ShiftOccurrence(pat, s);
      r
  }

  /** An occurrence in `s` after position 0 is an occurrence in `s[1..]`, one
      position earlier, and back. */
  lemma ShiftOccurrence(pat: string, s: string)
    requires |s| > 0
    requires !(pat <= s)
    ensures Occurs(pat, s) <==> Occurs(pat, s[1..])
  {
    if Occurs(pat, s) {
      var i :| OccursAt(pat, s, i);
      assert s[1..][i - 1..i - 1 + |pat|] == s[i..i + |pat|];
      assert OccursAt(pat, s[1..], i - 1);
    }
    if Occurs(pat, s[1..]) {
      var j :| OccursAt(pat, s[1..], j);
      assert s[1..][j..j + |pat|] == s[j + 1..j + 1 + |pat|];
      assert OccursAt(pat, s, j + 1);
    }
  }
}
