/** Merge edges between devices and the classes their active edges generate. */
module IdentityGraph {
  /** A device identifier; identifiers are compared by their canonical text, a total order. */
  type Device = nat

  datatype Edge = Edge(a: Device, b: Device, active: bool)

  type Edges = map<nat, Edge>

  predicate Joins(e: Edge, x: Device, y: Device) {
    e.active && ((e.a == x && e.b == y) || (e.a == y && e.b == x))
  }

  ghost predicate Adjacent(edges: Edges, x: Device, y: Device) {
    exists id :: id in edges && Joins(edges[id], x, y)
  }

  ghost predicate Reach(edges: Edges, n: nat, x: Device, y: Device) {
    if n == 0 then x == y else exists z :: Adjacent(edges, x, z) && Reach(edges, n - 1, z, y)
  }

  /** Some walk over active edges leads from `x` to `y`. */
  ghost predicate Connected(edges: Edges, x: Device, y: Device) {
    exists n: nat :: Reach(edges, n, x, y)
  }

  // ---------------------------------------------------------------- an equivalence

  lemma Reflexive(edges: Edges, x: Device)
    ensures Connected(edges, x, x)
  {
    assert Reach(edges, 0, x, x);
  }

  lemma OneStep(edges: Edges, x: Device, y: Device)
    requires Adjacent(edges, x, y)
    ensures Connected(edges, x, y)
  {
    assert Reach(edges, 0, y, y);
    assert Reach(edges, 1, x, y);
  }

  lemma {:induction false} ReachJoin(edges: Edges, m: nat, n: nat, x: Device, y: Device, z: Device)
    requires Reach(edges, m, x, y) && Reach(edges, n, y, z)
    ensures Reach(edges, m + n, x, z)
  {
    if m > 0 {
      var w :| Adjacent(edges, x, w) && Reach(edges, m - 1, w, y);
      ReachJoin(edges, m - 1, n, w, y, z);
    }
  }

  lemma Transitive(edges: Edges, x: Device, y: Device, z: Device)
    requires Connected(edges, x, y) && Connected(edges, y, z)
    ensures Connected(edges, x, z)
  {
    var m :| Reach(edges, m, x, y);
    var n :| Reach(edges, n, y, z);
    ReachJoin(edges, m, n, x, y, z);
  }

  lemma {:induction false} ReachBack(edges: Edges, n: nat, x: Device, y: Device)
    requires Reach(edges, n, x, y)
    ensures Connected(edges, y, x)
  {
    if n == 0 {
      Reflexive(edges, x);
    } else {
      var z :| Adjacent(edges, x, z) && Reach(edges, n - 1, z, y);
      ReachBack(edges, n - 1, z, y);
      assert Adjacent(edges, z, x);
      OneStep(edges, z, x);
      Transitive(edges, y, z, x);
    }
  }

  lemma Symmetric(edges: Edges, x: Device, y: Device)
    requires Connected(edges, x, y)
    ensures Connected(edges, y, x)
  {
    var n :| Reach(edges, n, x, y);
    ReachBack(edges, n, x, y);
  }

  // ---------------------------------------------------------------- closed sets

  ghost predicate Closed(edges: Edges, s: iset<Device>) {
    forall x, y :: x in s && Adjacent(edges, x, y) ==> y in s
  }

  lemma {:induction false} ReachStays(edges: Edges, s: iset<Device>, n: nat, x: Device, y: Device)
    requires Closed(edges, s) && x in s && Reach(edges, n, x, y)
    ensures y in s
  {
    if n > 0 {
      var z :| Adjacent(edges, x, z) && Reach(edges, n - 1, z, y);
      ReachStays(edges, s, n - 1, z, y);
    }
  }

  /** A closed set holds everything connected to its members. */
  lemma ClosedStays(edges: Edges, s: iset<Device>, x: Device, y: Device)
    requires Closed(edges, s) && x in s && Connected(edges, x, y)
    ensures y in s
  {
    var n :| Reach(edges, n, x, y);
    ReachStays(edges, s, n, x, y);
  }

  /** Connectivity depends only on which pairs are adjacent. */
  lemma SameAdjacency(edges: Edges, edges': Edges)
    requires forall x, y :: Adjacent(edges, x, y) <==> Adjacent(edges', x, y)
    ensures forall x, y :: Connected(edges, x, y) <==> Connected(edges', x, y)
  {
    forall x, y ensures Connected(edges, x, y) <==> Connected(edges', x, y) {
      if Connected(edges, x, y) { Carries(edges, edges', x, y); }
      if Connected(edges', x, y) { Carries(edges', edges, x, y); }
    }
  }

  lemma Carries(edges: Edges, edges': Edges, x: Device, y: Device)
    requires forall u, v :: Adjacent(edges, u, v) ==> Adjacent(edges', u, v)
    requires Connected(edges, x, y)
    ensures Connected(edges', x, y)
  {
    var s := iset z | Connected(edges', x, z);
    Reflexive(edges', x);
    forall u, v | u in s && Adjacent(edges, u, v) ensures v in s {
      OneStep(edges', u, v);
      Transitive(edges', x, u, v);
    }
    ClosedStays(edges, s, x, y);
  }

  // ---------------------------------------------------------------- roots

  /** The least device of the class. */
  ghost predicate IsRoot(r: Device, edges: Edges, x: Device) {
    Connected(edges, x, r) && forall y :: Connected(edges, x, y) ==> r <= y
  }

  lemma {:induction false} RootExists(edges: Edges, x: Device, bound: Device) returns (r: Device)
    requires Connected(edges, x, bound)
    ensures IsRoot(r, edges, x)
    decreases bound
  {
    if y: Device :| y < bound && Connected(edges, x, y) {
      r := RootExists(edges, x, y);
    } else {
      r := bound;
    }
  }

  ghost function Root(edges: Edges, x: Device): (r: Device)
    ensures IsRoot(r, edges, x)
  {
    assert exists r :: IsRoot(r, edges, x) by {
      Reflexive(edges, x);
      var r := RootExists(edges, x, x);
    }
    var r :| IsRoot(r, edges, x); r
  }

  /** Two devices have one root exactly when they are connected. */
  lemma SameRootIff(edges: Edges, x: Device, y: Device)
    ensures Root(edges, x) == Root(edges, y) <==> Connected(edges, x, y)
  {
    var r, q := Root(edges, x), Root(edges, y);
    if r == q {
      Symmetric(edges, y, r);
      Transitive(edges, x, r, y);
    }
    if Connected(edges, x, y) {
      Transitive(edges, x, y, q);
      Symmetric(edges, x, y);
      Transitive(edges, y, x, r);
    }
  }

  lemma RootIdempotent(edges: Edges, x: Device)
    ensures Root(edges, Root(edges, x)) == Root(edges, x)
  {
    Symmetric(edges, x, Root(edges, x));
    SameRootIff(edges, Root(edges, x), x);
  }

  lemma SameConnectedSameRoot(edges: Edges, edges': Edges, x: Device)
    requires forall y :: Connected(edges, x, y) <==> Connected(edges', x, y)
    ensures Root(edges, x) == Root(edges', x)
  {
    var r, q := Root(edges, x), Root(edges', x);
    assert Connected(edges', x, r) && Connected(edges, x, q);
  }

  // ---------------------------------------------------------------- adding an edge

  ghost predicate Joined(edges: Edges, l: Device, r: Device, x: Device, y: Device) {
    || Connected(edges, x, y)
    || (Connected(edges, x, l) && Connected(edges, r, y))
    || (Connected(edges, x, r) && Connected(edges, l, y))
  }

  lemma JoinedStep(edges: Edges, l: Device, r: Device, x: Device, y: Device, z: Device)
    requires Joined(edges, l, r, x, y)
    requires Adjacent(edges, y, z) || (y == l && z == r) || (y == r && z == l)
    ensures Joined(edges, l, r, x, z)
  {
    Reflexive(edges, l);
    Reflexive(edges, r);
    if Adjacent(edges, y, z) {
      OneStep(edges, y, z);
      if Connected(edges, x, y) {
        Transitive(edges, x, y, z);
      } else if Connected(edges, x, l) && Connected(edges, r, y) {
        Transitive(edges, r, y, z);
      } else {
        Transitive(edges, l, y, z);
      }
    }
  }

  /** A new edge joins exactly the classes of its two ends. */
  lemma AddEdge(edges: Edges, id: nat, l: Device, r: Device, x: Device, y: Device)
    requires id !in edges
    ensures Connected(edges[id := Edge(l, r, true)], x, y) <==> Joined(edges, l, r, x, y)
  {
    var edges' := edges[id := Edge(l, r, true)];
    if Connected(edges', x, y) {
      var s := iset z | Joined(edges, l, r, x, z);
      Reflexive(edges, x);
      forall u, v | u in s && Adjacent(edges', u, v) ensures v in s {
        JoinedStep(edges, l, r, x, u, v);
      }
      ClosedStays(edges', s, x, y);
    }
    if Joined(edges, l, r, x, y) {
      AddEdgeConnects(edges, id, l, r, x, y);
    }
  }

  lemma AddEdgeConnects(edges: Edges, id: nat, l: Device, r: Device, x: Device, y: Device)
    requires id !in edges && Joined(edges, l, r, x, y)
    ensures Connected(edges[id := Edge(l, r, true)], x, y)
  {
    var edges' := edges[id := Edge(l, r, true)];
    forall u, v | Adjacent(edges, u, v) ensures Adjacent(edges', u, v) {
      var k :| k in edges && Joins(edges[k], u, v);
      assert k in edges' && Joins(edges'[k], u, v);
    }
    assert Joins(edges'[id], l, r) && Joins(edges'[id], r, l);
    OneStep(edges', l, r);
    OneStep(edges', r, l);
    if Connected(edges, x, y) {
      Carries(edges, edges', x, y);
    } else if Connected(edges, x, l) && Connected(edges, r, y) {
      Carries(edges, edges', x, l);
      Carries(edges, edges', r, y);
      Transitive(edges', x, l, r);
      Transitive(edges', x, r, y);
    } else {
      Carries(edges, edges', x, r);
      Carries(edges, edges', l, y);
      Transitive(edges', x, r, l);
      Transitive(edges', x, l, y);
    }
  }

  // ---------------------------------------------------------------- removing whole classes

  /** No active edge leaves `gone`. */
  ghost predicate Severed(edges: Edges, gone: set<Device>) {
    forall x, y :: Adjacent(edges, x, y) ==> (x in gone <==> y in gone)
  }

  function Without(edges: Edges, gone: set<Device>): Edges {
    map id | id in edges && edges[id].a !in gone && edges[id].b !in gone :: edges[id]
  }

  /** Removing whole classes leaves every other class as it was. */
  lemma WithoutKeeps(edges: Edges, gone: set<Device>, x: Device, y: Device)
    requires Severed(edges, gone) && x !in gone
    ensures Connected(Without(edges, gone), x, y) <==> Connected(edges, x, y)
  {
    var edges' := Without(edges, gone);
    if Connected(edges', x, y) {
      forall u, v | Adjacent(edges', u, v) ensures Adjacent(edges, u, v) {
        var k :| k in edges' && Joins(edges'[k], u, v);
        assert k in edges && Joins(edges[k], u, v);
      }
      Carries(edges', edges, x, y);
    }
    if Connected(edges, x, y) {
      var s := iset z | z !in gone && Connected(edges', x, z);
      Reflexive(edges', x);
      forall u, v | u in s && Adjacent(edges, u, v) ensures v in s {
        var k :| k in edges && Joins(edges[k], u, v);
        assert k in edges' && Joins(edges'[k], u, v);
        OneStep(edges', u, v);
        Transitive(edges', x, u, v);
      }
      ClosedStays(edges, s, x, y);
    }
  }
}
