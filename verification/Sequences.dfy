/** Repeats in sequences. */
module Sequences {
  predicate NoRepeat<T(==)>(s: seq<T>) {
    forall i, j | 0 <= i < j < |s| :: s[i] != s[j]
  }

  /** What stands in two places counts twice. */
  lemma Twice<T>(s: seq<T>, i: int, j: int)
    requires 0 <= i < j < |s| && s[i] == s[j]
    ensures multiset(s)[s[i]] >= 2
  {
    var l, r := s[..j], s[j..];
    assert s == l + r;
    assert l[i] in multiset(l) && r[0] in multiset(r);
  }
}
