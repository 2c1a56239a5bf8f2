/** Substring search, as `name.find(pattern) != std::string::npos`. */
module Strings {
  /** `pat` occurs in `s` starting at index `i`. */
  ghost predicate OccursAt(s: string, pat: string, i: int) {
    0 <= i && i + |pat| <= |s| && s[i..i + |pat|] == pat
  }

  /** Scans `s` from the left for an occurrence of `pat`, as `find` does. */
  function Contains(s: string, pat: string): (b: bool)
    ensures b <==> exists i :: OccursAt(s, pat, i)
    decreases |s|
  {
    if |pat| > |s| then false
    else if s[..|pat|] == pat then
      assert OccursAt(s, pat, 0);
      true
    else
      ShiftOccurrences(s, pat);
      Contains(s[1..], pat)
  }

  /** With no occurrence at index 0, the occurrences in `s` are those in `s[1..]`, shifted by one. */
  lemma ShiftOccurrences(s: string, pat: string)
    requires 0 < |s| && !OccursAt(s, pat, 0)
    ensures (exists i :: OccursAt(s[1..], pat, i)) <==> (exists i :: OccursAt(s, pat, i))
  {
    if i :| OccursAt(s[1..], pat, i) {
      assert s[1..][i..i + |pat|] == s[i + 1..i + 1 + |pat|];
      assert OccursAt(s, pat, i + 1);
    }
    if i :| OccursAt(s, pat, i) {
      assert i != 0;
      assert s[1..][i - 1..i - 1 + |pat|] == s[i..i + |pat|];
      assert OccursAt(s[1..], pat, i - 1);
    }
  }

  /** If `outer` occurs in `s` and `pat` occurs in `outer`, then `pat` occurs in `s`. */
  lemma ContainsTransitive(s: string, outer: string, pat: string, k: int)
    requires Contains(s, outer)
    requires OccursAt(outer, pat, k)
    ensures Contains(s, pat)
  {
    var i :| OccursAt(s, outer, i);
    assert s[i..i + |outer|] == outer;
    forall j | 0 <= j < |pat| ensures s[i + k + j] == pat[j] {
      assert s[i..i + |outer|][k + j] == outer[k + j];
    }
    assert s[i + k..i + k + |pat|] == pat;
    assert OccursAt(s, pat, i + k);
  }

  /** A string that never has the first character of `pat` does not contain `pat`. */
  lemma LacksFirstChar(s: string, pat: string)
    requires 0 < |pat| && forall i :: 0 <= i < |s| ==> s[i] != pat[0]
    ensures !Contains(s, pat)
  {
  }
}
