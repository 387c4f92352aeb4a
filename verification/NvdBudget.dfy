/** When the walk succeeds, and what it has then visited and counted. */
module NvdBudget {
  import opened Wrappers
  import opened Naturals
  import opened Sequences
  import opened NvdWalk

  // ---------------------------------------------------------------- reference definitions

  function Chosen(ms: seq<Match>): seq<Match> {
    if ms == [] then [] else (if Relevant(ms[0]) then [ms[0]] else []) + Chosen(ms[1..])
  }

  function OwnMatches(n: Node): seq<Match> {
    if n.matches.Matches? then Chosen(n.matches.list) else []
  }

  /** The matches not marked invulnerable, node before children, left to right. */
  function Preorder(nodes: seq<Node>): seq<Match>
    decreases nodes
  {
    if nodes == [] then []
    else
      assert nodes[0].children < nodes[0];
      OwnMatches(nodes[0]) + (if nodes[0].children.Nodes? then Preorder(nodes[0].children.items) else [])
      + Preorder(nodes[1..])
  }

  predicate WellFormed(nodes: seq<Node>)
    decreases nodes
  {
    nodes == [] ||
    assert nodes[0].children < nodes[0];
    (!nodes[0].matches.BadMatches? && !nodes[0].children.BadNodes?
     && (nodes[0].children.Nodes? ==> WellFormed(nodes[0].children.items)) && WellFormed(nodes[1..]))
  }

  /** Levels of child arrays below an array; an empty child array is a level too. */
  function Levels(nodes: seq<Node>): nat
    decreases nodes
  {
    if nodes == [] then 0
    else
      assert nodes[0].children < nodes[0];
      Max(if nodes[0].children.Nodes? then 1 + Levels(nodes[0].children.items) else 0, Levels(nodes[1..]))
  }

  /** Nodes strictly below an array. */
  function Deeper(nodes: seq<Node>): nat
    decreases nodes
  {
    if nodes == [] then 0
    else
      assert nodes[0].children < nodes[0];
      (if nodes[0].children.Nodes? then |nodes[0].children.items| + Deeper(nodes[0].children.items) else 0)
      + Deeper(nodes[1..])
  }

  predicate Room(count: nat, n: nat) {
    n == 0 || count + n <= 8192
  }

  lemma RoomSplit(count: nat, a: nat, b: nat)
    ensures Room(count, a + b) <==> Room(count, a) && Room(count + a, b)
  {
  }

  /** The visitor accepts every match in turn. */
  predicate AllAccepted(accepts: Visitor, visited: seq<Match>, ms: seq<Match>)
    decreases |ms|
  {
    ms == [] || (accepts(visited + [ms[0]]) && AllAccepted(accepts, visited + [ms[0]], ms[1..]))
  }

  lemma {:induction false} AcceptedSplit(accepts: Visitor, visited: seq<Match>, a: seq<Match>, b: seq<Match>)
    ensures AllAccepted(accepts, visited, a + b) <==>
            AllAccepted(accepts, visited, a) && AllAccepted(accepts, visited + a, b)
    decreases |a|
  {
    if a == [] {
      assert a + b == b && visited + a == visited;
    } else {
      var first := visited + [a[0]];
      assert (a + b)[1..] == a[1..] + b;
      assert first + a[1..] == visited + a;
      AcceptedSplit(accepts, first, a[1..], b);
    }
  }

  lemma AcceptedCons(accepts: Visitor, visited: seq<Match>, m: Match, rest: seq<Match>)
    ensures AllAccepted(accepts, visited, [m] + rest) <==>
            accepts(visited + [m]) && AllAccepted(accepts, visited + [m], rest)
  {
    assert ([m] + rest)[1..] == rest;
  }

  // ---------------------------------------------------------------- matches

  lemma ChosenCons(ms: seq<Match>)
    requires ms != []
    ensures Chosen(ms) == if Relevant(ms[0]) then [ms[0]] + Chosen(ms[1..]) else Chosen(ms[1..])
  {
  }

  lemma {:induction false} MatchesVisited(accepts: Visitor, ms: seq<Match>, w: Progress)
    ensures VisitMatches(accepts, ms, w) ==
            if AllAccepted(accepts, w.visited, Chosen(ms)) then Ok(w.(visited := w.visited + Chosen(ms))) else Err(Refused)
  {
    if ms == [] {
      assert w.visited + [] == w.visited;
    } else {
      ChosenCons(ms);
      if !Relevant(ms[0]) {
        MatchesVisited(accepts, ms[1..], w);
      } else {
        AcceptedCons(accepts, w.visited, ms[0], Chosen(ms[1..]));
        Assoc(w.visited, [ms[0]], Chosen(ms[1..]));
        MatchesVisited(accepts, ms[1..], w.(visited := w.visited + [ms[0]]));
      }
    }
  }

  // ---------------------------------------------------------------- nodes

  /** What lets an array that was entered be walked to the end. */
  ghost predicate Walkable(accepts: Visitor, nodes: seq<Node>, depth: nat, w: Progress) {
    && WellFormed(nodes) && depth + Levels(nodes) <= 32 && Room(w.count, Deeper(nodes))
    && AllAccepted(accepts, w.visited, Preorder(nodes))
  }

  function Walked(nodes: seq<Node>, w: Progress): Progress {
    Progress(w.visited + Preorder(nodes), w.count + Deeper(nodes))
  }

  ghost predicate Openable(accepts: Visitor, n: Node, depth: nat, w: Progress) {
    && !n.matches.BadMatches? && !n.children.BadNodes? && (n.children.Nodes? ==> depth < 32)
    && Room(w.count, |Below(n)|) && AllAccepted(accepts, w.visited, OwnMatches(n))
  }

  lemma OpenIff(accepts: Visitor, n: Node, depth: nat, w: Progress)
    requires depth <= 32
    ensures Open(accepts, n, depth, w).Ok? <==> Openable(accepts, n, depth, w)
    ensures Open(accepts, n, depth, w).Ok? ==>
              Open(accepts, n, depth, w).value == Progress(w.visited + OwnMatches(n), w.count + |Below(n)|)
  {
    if n.matches.Matches? {
      MatchesVisited(accepts, n.matches.list, w);
    } else {
      assert w.visited + [] == w.visited;
    }
  }

  function KidMatches(n: Node): seq<Match> {
    if n.children.Nodes? then Preorder(n.children.items) else []
  }

  lemma PreorderSplit(nodes: seq<Node>)
    requires nodes != []
    ensures Preorder(nodes) == OwnMatches(nodes[0]) + KidMatches(nodes[0]) + Preorder(nodes[1..])
  {
  }

  lemma PreorderAccepted(accepts: Visitor, nodes: seq<Node>, visited: seq<Match>)
    requires nodes != []
    ensures var own, kids := OwnMatches(nodes[0]), KidMatches(nodes[0]);
            && (AllAccepted(accepts, visited, Preorder(nodes)) <==>
                && AllAccepted(accepts, visited, own) && AllAccepted(accepts, visited + own, kids)
                && AllAccepted(accepts, visited + own + kids, Preorder(nodes[1..])))
            && visited + Preorder(nodes) == visited + own + kids + Preorder(nodes[1..])
  {
    var own, kids, rest := OwnMatches(nodes[0]), KidMatches(nodes[0]), Preorder(nodes[1..]);
    PreorderSplit(nodes);
    AcceptedSplit(accepts, visited, own + kids, rest);
    AcceptedSplit(accepts, visited, own, kids);
    Assoc(visited, own, kids);
    Assoc(visited, own + kids, rest);
  }

  /** The conditions of a node, its children and its right siblings make up those of the array. */
  lemma WalkableSplit(accepts: Visitor, nodes: seq<Node>, depth: nat, w: Progress, entered: Progress, below: Progress)
    requires nodes != [] && depth <= 32
    requires entered == Progress(w.visited + OwnMatches(nodes[0]), w.count + |Below(nodes[0])|)
    requires below == Walked(Below(nodes[0]), entered)
    ensures Walkable(accepts, nodes, depth, w) <==>
            && Openable(accepts, nodes[0], depth, w)
            && (nodes[0].children.Nodes? ==> Walkable(accepts, nodes[0].children.items, depth + 1, entered))
            && Walkable(accepts, nodes[1..], depth, below)
    ensures Walked(nodes, w) == Walked(nodes[1..], below)
  {
    PreorderAccepted(accepts, nodes, w.visited);
    assert Preorder(Below(nodes[0])) == KidMatches(nodes[0]);
    RoomSplit(w.count, |Below(nodes[0])| + Deeper(Below(nodes[0])), Deeper(nodes[1..]));
    RoomSplit(w.count, |Below(nodes[0])|, Deeper(Below(nodes[0])));
  }

  /** An array already entered is walked to the end exactly when it is walkable, visiting its pre-order. */
  lemma {:induction false} WalkAllIff(accepts: Visitor, nodes: seq<Node>, depth: nat, w: Progress)
    requires depth <= 32
    ensures WalkAll(accepts, nodes, depth, w).Ok? <==> Walkable(accepts, nodes, depth, w)
    ensures WalkAll(accepts, nodes, depth, w).Ok? ==> WalkAll(accepts, nodes, depth, w).value == Walked(nodes, w)
    decreases nodes
  {
    if nodes == [] {
      assert w.visited + [] == w.visited;
    } else {
      var n := nodes[0];
      var entered := Progress(w.visited + OwnMatches(n), w.count + |Below(n)|);
      var below := Walked(Below(n), entered);
      OpenIff(accepts, n, depth, w);
      WalkableSplit(accepts, nodes, depth, w, entered, below);
      if n.children.Nodes? && depth < 32 {
        assert n.children < n;
        WalkAllIff(accepts, n.children.items, depth + 1, entered);
      } else {
        Childless(accepts, entered);
      }
      WalkAllIff(accepts, nodes[1..], depth, below);
    }
  }

  lemma Childless(accepts: Visitor, w: Progress)
    ensures Walked([], w) == w
  {
    assert w.visited + [] == w.visited;
  }

  /** The walk over the roots succeeds exactly when everything is well formed, levels and nodes fit, and the visitor agrees. */
  lemma WalkRootsIff(accepts: Visitor, roots: Nodes, w: Progress)
    ensures WalkRoots(accepts, roots, w).Ok? <==>
            roots.NoNodes? ||
            (roots.Nodes? && WellFormed(roots.items) && 1 + Levels(roots.items) <= 32
             && Room(w.count, |roots.items| + Deeper(roots.items)) && AllAccepted(accepts, w.visited, Preorder(roots.items)))
    ensures roots.Nodes? && WalkRoots(accepts, roots, w).Ok? ==>
              WalkRoots(accepts, roots, w).value ==
              Progress(w.visited + Preorder(roots.items), w.count + |roots.items| + Deeper(roots.items))
  {
    if roots.Nodes? {
      RoomSplit(w.count, |roots.items|, Deeper(roots.items));
      WalkAllIff(accepts, roots.items, 1, w.(count := w.count + |roots.items|));
    }
  }

  /** The counter rises by every node of the tree. */
  lemma {:induction false} SizeIsAll(nodes: seq<Node>)
    ensures Size(nodes) == |nodes| + Deeper(nodes)
    decreases nodes
  {
    if nodes != [] {
      assert nodes[0].children < nodes[0];
      if nodes[0].children.Nodes? {
        SizeIsAll(nodes[0].children.items);
      }
      SizeIsAll(nodes[1..]);
    }
  }

  /** A chain of nodes, each the only child of the one before; `last` are the children of the innermost. */
  function Nest(n: nat, last: Nodes): Node {
    Node(NoMatches, if n == 0 then last else Nodes([Nest(n - 1, last)]))
  }

  lemma {:induction false} NestWalked(accepts: Visitor, n: nat, none: Nodes, empty: Nodes, depth: nat, w: Progress)
    requires none.NoNodes? && empty.Nodes? && empty.items == []
    requires depth + n == 32 && w.count + n <= 8192
    ensures WalkAll(accepts, [Nest(n, none)], depth, w) == Ok(w.(count := w.count + n))
    ensures WalkAll(accepts, [Nest(n, empty)], depth, w) == Err(Oversized)
  {
    WalkOne(accepts, Nest(n, none), depth, w);
    WalkOne(accepts, Nest(n, empty), depth, w);
    if n > 0 {
      NestWalked(accepts, n - 1, none, empty, depth + 1, w.(count := w.count + 1));
    }
  }

  lemma OneRoot(accepts: Visitor, root: Node, w: Progress)
    requires w.count < 8192
    ensures WalkRoots(accepts, Nodes([root]), w) == WalkAll(accepts, [root], 1, w.(count := w.count + 1))
  {
  }

  /** An empty child array is a level of its own: 32 nested nodes pass, and fail once the innermost lists no children. */
  lemma EmptyArrayIsALevel(accepts: Visitor, inner: nat, none: Nodes, empty: Nodes, w: Progress)
    requires inner + 1 == 32 && none.NoNodes? && empty.Nodes? && empty.items == [] && w.count + 32 <= 8192
    ensures WalkRoots(accepts, Nodes([Nest(inner, none)]), w) == Ok(w.(count := w.count + 32))
    ensures WalkRoots(accepts, Nodes([Nest(inner, empty)]), w) == Err(Oversized)
  {
    OneRoot(accepts, Nest(inner, none), w);
    OneRoot(accepts, Nest(inner, empty), w);
    NestWalked(accepts, inner, none, empty, 1, w.(count := w.count + 1));
  }
}
