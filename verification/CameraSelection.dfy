/**
 Which evidence survives a bounded, keyed selection: the reference is a set, so it cannot depend on
 the order in which the evidence arrived.
 */
module CameraSelection {
  import opened Sets
  import opened CameraOrder

  /** The highest-ranked evidence of its key. */
  ghost predicate Maximal(e: Evidence, items: set<Evidence>) {
    e in items && forall f :: f in items && SameKey(f, e) ==> f == e || Below(f, e)
  }

  /** The `n` best of the per-key maxima of `items`, or all of them when there are no more than `n`. */
  ghost predicate IsTop(top: set<Evidence>, items: set<Evidence>, n: nat) {
    && (forall e :: e in top ==> Maximal(e, items))
    && (forall e, s :: s in top && Maximal(e, items) && e !in top ==> Below(e, s))
    && |top| <= n
    && (|top| < n ==> forall e :: Maximal(e, items) ==> e in top)
  }

  ghost function RankedAbove(items: set<Evidence>, e: Evidence): set<Evidence> {
    set g | g in items && Below(e, g)
  }

  lemma RankedAboveShrinks(items: set<Evidence>, e: Evidence, f: Evidence)
    requires f in items && Below(e, f)
    ensures RankedAbove(items, f) < RankedAbove(items, e)
  {
    BelowTotal(f, f);
    forall g | g in RankedAbove(items, f) ensures g in RankedAbove(items, e) {
      BelowTransitive(e, f, g);
    }
    assert f in RankedAbove(items, e) && f !in RankedAbove(items, f);
  }

  lemma {:induction false} MaximumExists(items: set<Evidence>, e: Evidence) returns (m: Evidence)
    requires e in items
    ensures Maximal(m, items) && SameKey(m, e) && (m == e || Below(e, m))
    decreases RankedAbove(items, e)
  {
    if Maximal(e, items) {
      m := e;
    } else {
      var f :| f in items && SameKey(f, e) && f != e && !Below(f, e);
      BelowTotal(e, f);
      RankedAboveShrinks(items, e, f);
      m := MaximumExists(items, f);
      if m != f {
        BelowTransitive(e, f, m);
      }
    }
  }

  /** A new item can only unseat the maximum of its own key. */
  lemma MaximaAfter(items: set<Evidence>, x: Evidence, e: Evidence)
    requires Maximal(e, items + {x})
    ensures e == x || Maximal(e, items)
  {
  }

  lemma StaysMaximal(items: set<Evidence>, x: Evidence, e: Evidence)
    requires Maximal(e, items) && (!SameKey(x, e) || x == e || Below(x, e))
    ensures Maximal(e, items + {x})
  {
  }

  lemma PushKeepsTop(top: set<Evidence>, items: set<Evidence>, n: nat, x: Evidence)
    requires IsTop(top, items, n) && |top| < n
    requires forall s :: s in top ==> !SameKey(s, x)
    ensures IsTop(top + {x}, items + {x}, n)
  {
    forall f | f in items && SameKey(f, x) ensures false {
      var m := MaximumExists(items, f);
    }
    forall e | Maximal(e, items + {x}) ensures e in top + {x} {
      MaximaAfter(items, x, e);
    }
  }

  lemma RaisedIsMaximal(items: set<Evidence>, x: Evidence, s: Evidence)
    requires Maximal(s, items) && SameKey(s, x) && Below(s, x)
    ensures Maximal(x, items + {x})
    ensures forall e :: Maximal(e, items + {x}) && e != x ==> Maximal(e, items) && e != s
  {
    BelowTotal(s, x);
    forall f | f in items && SameKey(f, x) ensures Below(f, x) {
      if f != s {
        BelowTransitive(f, s, x);
      }
    }
  }

  /** The same key arrives with a higher rank: it takes the place of its predecessor. */
  lemma RaiseKeepsTop(top: set<Evidence>, items: set<Evidence>, n: nat, x: Evidence, s: Evidence)
    requires IsTop(top, items, n) && s in top && SameKey(s, x) && Below(s, x)
    requires forall t :: t in top && t != s ==> !SameKey(t, x)
    ensures IsTop(top - {s} + {x}, items + {x}, n)
  {
    var after := top - {s} + {x};
    RaisedIsMaximal(items, x, s);
    forall t | t in after ensures Maximal(t, items + {x}) {
      if t != x {
        StaysMaximal(items, x, t);
      }
    }
    forall e, t | t in after && Maximal(e, items + {x}) && e !in after ensures Below(e, t) {
      if t == x {
        BelowTransitive(e, s, x);
      }
    }
    SwapKeepsCard(top, s, x);
  }

  lemma SwapKeepsCard(top: set<Evidence>, s: Evidence, x: Evidence)
    requires s in top
    ensures |top - {s} + {x}| <= |top|
    ensures x !in top ==> |top - {s} + {x}| == |top|
  {
    assert |top - {s}| == |top| - 1;
  }

  /** The same key arrives without a higher rank: nothing changes. */
  lemma RepeatKeepsTop(top: set<Evidence>, items: set<Evidence>, n: nat, x: Evidence, s: Evidence)
    requires IsTop(top, items, n) && s in top && SameKey(s, x) && !Below(s, x)
    ensures IsTop(top, items + {x}, n)
  {
    BelowTotal(s, x);
    forall t | t in top ensures Maximal(t, items + {x}) {
      if SameKey(x, t) && t != s {
        assert Below(s, t) && Below(t, s);
        BelowTotal(s, t);
      }
      StaysMaximal(items, x, t);
    }
    forall e | Maximal(e, items + {x}) && e !in top ensures Maximal(e, items) {
      MaximaAfter(items, x, e);
      assert e != x;
    }
  }

  /** A new key beats the worst of a full selection: the worst makes room. */
  lemma EvictKeepsTop(top: set<Evidence>, items: set<Evidence>, n: nat, x: Evidence, worst: Evidence)
    requires IsTop(top, items, n) && |top| == n && worst in top && Below(worst, x)
    requires forall s :: s in top ==> !SameKey(s, x)
    requires forall s :: s in top ==> s == worst || Below(worst, s)
    ensures IsTop(top - {worst} + {x}, items + {x}, n)
  {
    var after := top - {worst} + {x};
    forall f | f in items && SameKey(f, x) ensures Below(f, x) {
      var m := MaximumExists(items, f);
      BelowTransitive(m, worst, x);
      if m != f {
        BelowTransitive(f, m, x);
      }
    }
    forall t | t in after ensures Maximal(t, items + {x}) {
      if t != x {
        StaysMaximal(items, x, t);
      }
    }
    forall e, t | t in after && Maximal(e, items + {x}) && e !in after ensures Below(e, t) {
      MaximaAfter(items, x, e);
      if e == worst {
      } else if t == x {
        BelowTransitive(e, worst, x);
      }
    }
    SwapKeepsCard(top, worst, x);
  }

  /** A new key that does not beat the worst of a full selection is dropped. */
  lemma SkipKeepsTop(top: set<Evidence>, items: set<Evidence>, n: nat, x: Evidence, worst: Evidence)
    requires IsTop(top, items, n) && |top| == n && worst in top && !Below(worst, x)
    requires forall s :: s in top ==> !SameKey(s, x)
    requires forall s :: s in top ==> s == worst || Below(worst, s)
    ensures IsTop(top, items + {x}, n)
  {
    BelowTotal(worst, x);
    forall t | t in top ensures Maximal(t, items + {x}) {
      StaysMaximal(items, x, t);
    }
    forall e, t | t in top && Maximal(e, items + {x}) && e !in top ensures Below(e, t) {
      MaximaAfter(items, x, e);
      if e == x && t != worst {
        BelowTransitive(x, worst, t);
      }
    }
  }

  /** The selection is determined by the items alone. */
  lemma TopUnique(a: set<Evidence>, b: set<Evidence>, items: set<Evidence>, n: nat)
    requires IsTop(a, items, n) && IsTop(b, items, n)
    ensures a == b
  {
    if |a| < n {
      SubsetCard(b, a);
    } else if |b| < n {
      SubsetCard(a, b);
    } else if a != b {
      var x := Excess(a, b);
      var y := Excess(b, a);
      assert Below(y, x) && Below(x, y);
      BelowTotal(x, y);
    }
  }
}
