/** Finite sets listed in ascending order, as an ordered set or map is iterated. */
module Ordering {
  ghost predicate IsTotal<T(!new)>(le: (T, T) -> bool) {
    && (forall x, y :: le(x, y) || le(y, x))
    && (forall x, y :: le(x, y) && le(y, x) ==> x == y)
    && forall x, y, z :: le(x, y) && le(y, z) ==> le(x, z)
  }

  ghost predicate IsLeast<T(!new)>(x: T, s: set<T>, le: (T, T) -> bool) {
    x in s && forall y :: y in s ==> le(x, y)
  }

  method LeastOf<T(!new, ==)>(s: set<T>, le: (T, T) -> bool) returns (x: T)
    requires IsTotal(le) && s != {}
    ensures IsLeast(x, s, le)
  {
    x :| x in s;
    var rest := s - {x};
    while rest != {}
      invariant rest <= s && x in s && x !in rest
      invariant forall y :: y in s && y !in rest ==> le(x, y)
      decreases rest
    {
      var y :| y in rest;
      rest := rest - {y};
      if !le(x, y) {
        assert le(y, x) && le(y, y);
        x := y;
      }
    }
  }

  lemma {:induction false} LeastExists<T(!new)>(s: set<T>, le: (T, T) -> bool) returns (x: T)
    requires IsTotal(le) && s != {}
    ensures IsLeast(x, s, le)
  {
    var y :| y in s;
    if s == {y} {
      x := y;
    } else {
      var z := LeastExists(s - {y}, le);
      x := if le(z, y) then z else y;
      assert le(y, y);
    }
  }

  ghost function Least<T(!new)>(s: set<T>, le: (T, T) -> bool): (x: T)
    requires IsTotal(le) && s != {}
    ensures IsLeast(x, s, le)
  {
    assert exists x :: IsLeast(x, s, le) by { var x := LeastExists(s, le); }
    var x :| IsLeast(x, s, le); x
  }

  /** The elements of `s`, least first. */
  ghost function Ascending<T(!new)>(s: set<T>, le: (T, T) -> bool): (r: seq<T>)
    requires IsTotal(le)
    ensures |r| == |s| && forall x :: x in s <==> x in r
  {
    if s == {} then [] else [Least(s, le)] + Ascending(s - {Least(s, le)}, le)
  }

  lemma LeastIsFirst<T(!new)>(s: set<T>, le: (T, T) -> bool, x: T)
    requires IsTotal(le) && IsLeast(x, s, le)
    ensures Ascending(s, le) == [x] + Ascending(s - {x}, le)
  {
    assert le(x, Least(s, le)) && le(Least(s, le), x);
  }

  /** The listing ascends strictly. */
  lemma {:induction false} AscendingSorted<T(!new)>(s: set<T>, le: (T, T) -> bool, i: nat, j: nat)
    requires IsTotal(le) && i < j < |Ascending(s, le)|
    ensures le(Ascending(s, le)[i], Ascending(s, le)[j]) && Ascending(s, le)[i] != Ascending(s, le)[j]
  {
    var first := Least(s, le);
    var rest := Ascending(s - {first}, le);
    assert Ascending(s, le) == [first] + rest;
    if i == 0 {
      assert rest[j - 1] in rest;
      assert rest[j - 1] in s - {first};
    } else {
      AscendingSorted(s - {first}, le, i - 1, j - 1);
    }
  }
}
