/** Facts about finite sets used by several models. */
module Sets {
  lemma {:induction false} SubsetCard<T>(a: set<T>, b: set<T>)
    requires a <= b
    ensures |a| <= |b|
  {
    if a != {} {
      var x :| x in a;
      SubsetCard(a - {x}, b - {x});
    }
  }

  /** Two different sets of one size each hold something the other lacks. */
  lemma Excess<T>(a: set<T>, b: set<T>) returns (x: T)
    requires |a| == |b| && a != b
    ensures x in a && x !in b
  {
    if a <= b {
      var y :| y in b && y !in a;
      SubsetCard(a, b - {y});
    }
    x :| x in a && x !in b;
  }
}
