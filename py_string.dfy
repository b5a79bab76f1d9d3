/** Python's substring test `needle in s` on `str` values. */
module PyString {

  /** `needle` occurs in `s` starting at index `i`. */
  ghost predicate OccursAt(needle: string, s: string, i: int)
  {
    0 <= i && i + |needle| <= |s| && s[i..i + |needle|] == needle
  }

  /** `needle in s`: true exactly when `needle` occurs somewhere in `s`
      (the empty needle occurs everywhere, as in Python). */
  function Contains(needle: string, s: string): (b: bool)
    ensures b <==> exists i :: OccursAt(needle, s, i)
    decreases |s|
  {
    if |needle| <= |s| && s[..|needle|] == needle then
      assert OccursAt(needle, s, 0);
      true
    else if |s| <= |needle| then
      assert forall i :: !OccursAt(needle, s, i);
      false
    else
      var rest := Contains(needle, s[1..]);
      assert rest ==> exists i :: OccursAt(needle, s, i) by {
        if rest {
          var k :| OccursAt(needle, s[1..], k);
          assert s[1..][k..k + |needle|] == s[k + 1..k + 1 + |needle|];
          assert OccursAt(needle, s, k + 1);
        }
      }
      assert (exists i :: OccursAt(needle, s, i)) ==> rest by {
        if exists i :: OccursAt(needle, s, i) {
          var k :| OccursAt(needle, s, k);
          assert k != 0;
          assert s[1..][k - 1..k - 1 + |needle|] == s[k..k + |needle|];
          assert OccursAt(needle, s[1..], k - 1);
        }
      }
      rest
  }

  /** Containment is transitive: a substring of a substring of `s` is a substring of `s`. */
  lemma ContainsTransitive(a: string, b: string, s: string)
    requires Contains(a, b) && Contains(b, s)
    ensures Contains(a, s)
  {
    var i :| OccursAt(a, b, i);
    var k :| OccursAt(b, s, k);
    assert forall j :: 0 <= j < |a| ==> s[k + i..k + i + |a|][j] == b[i + j] == a[j];
    assert s[k + i..k + i + |a|] == a;
    assert OccursAt(a, s, k + i);
  }
}
