/** The walk over NVD configuration nodes: an explicit stack against the recursive pre-order it stands for. */
module NvdWalk {
  import opened Wrappers

  datatype Match = Match(vulnerable: Option<bool>, body: nat)

  /** The `cpeMatch` field: missing, not an array, or an array. */
  datatype Matches = NoMatches | BadMatches | Matches(list: seq<Match>)

  /** A field of nodes, likewise. */
  datatype Nodes = NoNodes | BadNodes | Nodes(items: seq<Node>)

  datatype Node = Node(matches: Matches, children: Nodes)

  datatype NvdError = Malformed | Oversized | Refused

  /** What was handed to the visitor so far, and the nodes counted. */
  datatype Progress = Progress(visited: seq<Match>, count: nat)

  /** The visitor may judge a match by everything it was shown before. */
  type Visitor = seq<Match> -> bool

  // ---------------------------------------------------------------- the recursive walk

  predicate Relevant(m: Match) {
    m.vulnerable != Some(false)
  }

  function VisitMatches(accepts: Visitor, ms: seq<Match>, w: Progress): Result<Progress, NvdError> {
    if ms == [] then Ok(w)
    else if !Relevant(ms[0]) then VisitMatches(accepts, ms[1..], w)
    else if !accepts(w.visited + [ms[0]]) then Err(Refused)
    else VisitMatches(accepts, ms[1..], w.(visited := w.visited + [ms[0]]))
  }

  function VisitListing(accepts: Visitor, ms: Matches, w: Progress): Result<Progress, NvdError> {
    match ms
    case NoMatches => Ok(w)
    case BadMatches => Err(Malformed)
    case Matches(list) => VisitMatches(accepts, list, w)
  }

  /** An array of nodes may be entered at levels 1 to 32 while the node budget of 8192 lasts. */
  function Enter(length: nat, depth: nat, w: Progress): Result<Progress, NvdError> {
    if depth > 32 || length > (if w.count < 8192 then 8192 - w.count else 0) then Err(Oversized)
    else Ok(w.(count := w.count + length))
  }

  function Below(n: Node): seq<Node> {
    if n.children.Nodes? then n.children.items else []
  }

  /** A node's own matches, then the entry of its children. */
  function Open(accepts: Visitor, n: Node, depth: nat, w: Progress): Result<Progress, NvdError> {
    if depth > 32 then Err(Oversized)
    else
      var own := VisitListing(accepts, n.matches, w);
      if own.Err? then own
      else
        match n.children
        case NoNodes => own
        case BadNodes => Err(Malformed)
        case Nodes(items) => Enter(|items|, depth + 1, own.value)
  }

  /** Depth first, left to right, over an array already entered. */
  function WalkAll(accepts: Visitor, nodes: seq<Node>, depth: nat, w: Progress): Result<Progress, NvdError>
    decreases nodes
  {
    if nodes == [] then Ok(w)
    else
      var entered := Open(accepts, nodes[0], depth, w);
      assert nodes[0].children < nodes[0];
      if entered.Err? then entered
      else
        var below := if nodes[0].children.Nodes? then WalkAll(accepts, nodes[0].children.items, depth + 1, entered.value)
                     else entered;
        if below.Err? then below else WalkAll(accepts, nodes[1..], depth, below.value)
  }

  function WalkRoots(accepts: Visitor, roots: Nodes, w: Progress): Result<Progress, NvdError> {
    match roots
    case NoNodes => Ok(w)
    case BadNodes => Err(Malformed)
    case Nodes(nodes) =>
      var entered := Enter(|nodes|, 1, w);
      if entered.Err? then entered else WalkAll(accepts, nodes, 1, entered.value)
  }

  // ---------------------------------------------------------------- the explicit stack

  datatype Frame = Frame(node: Node, depth: nat)

  function ThenStack(accepts: Visitor, r: Result<Progress, NvdError>, stack: seq<Frame>): Result<Progress, NvdError>
    decreases |stack|, 1
  {
    if r.Err? then r else WalkStack(accepts, stack, r.value)
  }

  /** What is left to do: the frames from the top of the stack, which is its end. */
  function WalkStack(accepts: Visitor, stack: seq<Frame>, w: Progress): Result<Progress, NvdError>
    decreases |stack|, 0
  {
    if stack == [] then Ok(w)
    else
      var top := stack[|stack| - 1];
      ThenStack(accepts, WalkAll(accepts, [top.node], top.depth, w), stack[..|stack| - 1])
  }

  /** The frames of an array, last node first. */
  function Reversed(nodes: seq<Node>, depth: nat): seq<Frame> {
    if nodes == [] then [] else Reversed(nodes[1..], depth) + [Frame(nodes[0], depth)]
  }

  /** How many nodes an array holds at all levels. */
  function Size(nodes: seq<Node>): nat
    decreases nodes
  {
    if nodes == [] then 0
    else
      assert nodes[0].children < nodes[0];
      1 + (if nodes[0].children.Nodes? then Size(nodes[0].children.items) else 0) + Size(nodes[1..])
  }

  function StackSize(stack: seq<Frame>): nat {
    if stack == [] then 0 else Size([stack[|stack| - 1].node]) + StackSize(stack[..|stack| - 1])
  }

  lemma SizeOne(n: Node)
    ensures Size([n]) == 1 + Size(Below(n))
  {
    assert [n][1..] == [];
    assert Size([]) == 0;
  }

  lemma WalkOne(accepts: Visitor, n: Node, depth: nat, w: Progress)
    ensures WalkAll(accepts, [n], depth, w) ==
            if Open(accepts, n, depth, w).Err? then Open(accepts, n, depth, w)
            else WalkAll(accepts, Below(n), depth + 1, Open(accepts, n, depth, w).value)
  {
    assert [n][1..] == [];
  }

  lemma StackSnoc(accepts: Visitor, stack: seq<Frame>, f: Frame, w: Progress)
    ensures WalkStack(accepts, stack + [f], w) == ThenStack(accepts, WalkAll(accepts, [f.node], f.depth, w), stack)
    ensures StackSize(stack + [f]) == StackSize(stack) + Size([f.node])
  {
    assert (stack + [f])[..|stack|] == stack;
  }

  lemma WalkCons(accepts: Visitor, nodes: seq<Node>, depth: nat, w: Progress)
    requires nodes != []
    ensures var first := WalkAll(accepts, [nodes[0]], depth, w);
            WalkAll(accepts, nodes, depth, w) ==
            if first.Err? then first else WalkAll(accepts, nodes[1..], depth, first.value)
  {
    WalkOne(accepts, nodes[0], depth, w);
  }

  /** Pushing an array in reverse does the whole array before what was on the stack. */
  lemma {:induction false} PushedStack(accepts: Visitor, stack: seq<Frame>, nodes: seq<Node>, depth: nat, w: Progress)
    ensures WalkStack(accepts, stack + Reversed(nodes, depth), w) == ThenStack(accepts, WalkAll(accepts, nodes, depth, w), stack)
    ensures StackSize(stack + Reversed(nodes, depth)) == StackSize(stack) + Size(nodes)
  {
    if nodes == [] {
      assert stack + [] == stack;
    } else {
      var rest, f := stack + Reversed(nodes[1..], depth), Frame(nodes[0], depth);
      assert stack + Reversed(nodes, depth) == rest + [f];
      StackSnoc(accepts, rest, f, w);
      WalkCons(accepts, nodes, depth, w);
      SizeOne(nodes[0]);
      PushedStackSize(stack, nodes[1..], depth);
      var first := WalkAll(accepts, [nodes[0]], depth, w);
      if first.Ok? {
        PushedStack(accepts, stack, nodes[1..], depth, first.value);
      }
    }
  }

  lemma {:induction false} PushedStackSize(stack: seq<Frame>, nodes: seq<Node>, depth: nat)
    ensures StackSize(stack + Reversed(nodes, depth)) == StackSize(stack) + Size(nodes)
  {
    if nodes == [] {
      assert stack + [] == stack;
    } else {
      var rest, f := stack + Reversed(nodes[1..], depth), Frame(nodes[0], depth);
      assert stack + Reversed(nodes, depth) == rest + [f];
      assert (rest + [f])[..|rest|] == rest;
      SizeOne(nodes[0]);
      PushedStackSize(stack, nodes[1..], depth);
    }
  }

  method PushNodes(stack: seq<Frame>, nodes: seq<Node>, depth: nat, w: Progress)
    returns (r: Result<Progress, NvdError>, after: seq<Frame>)
    ensures r == Enter(|nodes|, depth, w)
    ensures r.Ok? ==> after == stack + Reversed(nodes, depth)
  {
    after := stack;
    if depth > 32 || |nodes| > (if w.count < 8192 then 8192 - w.count else 0) {
      return Err(Oversized), after;
    }
    var i := |nodes|;
    while i > 0
      invariant 0 <= i <= |nodes| && after == stack + Reversed(nodes[i..], depth)
    {
      i := i - 1;
      assert nodes[i..][1..] == nodes[i + 1..];
      after := after + [Frame(nodes[i], depth)];
    }
    assert nodes[0..] == nodes;
    return Ok(w.(count := w.count + |nodes|)), after;
  }

  method VisitAll(accepts: Visitor, ms: seq<Match>, w: Progress) returns (r: Result<Progress, NvdError>)
    ensures r == VisitMatches(accepts, ms, w)
  {
    var now := w;
    for i := 0 to |ms|
      invariant VisitMatches(accepts, ms[i..], now) == VisitMatches(accepts, ms, w)
    {
      assert ms[i..][1..] == ms[i + 1..];
      if ms[i].vulnerable != Some(false) {
        if !accepts(now.visited + [ms[i]]) {
          return Err(Refused);
        }
        now := now.(visited := now.visited + [ms[i]]);
      }
    }
    return Ok(now);
  }

  /** Does one popped node, leaving its children on the stack. */
  method VisitNode(accepts: Visitor, stack: seq<Frame>, n: Node, depth: nat, w: Progress)
    returns (r: Result<Progress, NvdError>, after: seq<Frame>)
    ensures r == Open(accepts, n, depth, w)
    ensures r.Ok? ==> after == stack + Reversed(Below(n), depth + 1)
  {
    after := stack;
    if depth > 32 {
      return Err(Oversized), after;
    }
    r := Ok(w);
    match n.matches {
      case NoMatches =>
      case BadMatches => return Err(Malformed), after;
      case Matches(list) => r := VisitAll(accepts, list, w);
    }
    if r.Err? {
      return r, after;
    }
    match n.children {
      case NoNodes => assert stack + [] == stack;
      case BadNodes => return Err(Malformed), after;
      case Nodes(items) => r, after := PushNodes(stack, items, depth + 1, r.value);
    }
  }

  /** The walk with an explicit stack; the nodes still under the stack bound the rounds left. */
  method VisitNodesIterative(accepts: Visitor, roots: Nodes, w: Progress) returns (r: Result<Progress, NvdError>)
    ensures r == WalkRoots(accepts, roots, w)
  {
    if roots.NoNodes? {
      return Ok(w);
    }
    if roots.BadNodes? {
      return Err(Malformed);
    }
    var pushed, stack := PushNodes([], roots.items, 1, w);
    if pushed.Err? {
      return pushed;
    }
    var now := pushed.value;
    assert [] + Reversed(roots.items, 1) == stack;
    PushedStack(accepts, [], roots.items, 1, now);
    while stack != []
      invariant WalkStack(accepts, stack, now) == WalkRoots(accepts, roots, w)
      decreases StackSize(stack)
    {
      var top, rest := stack[|stack| - 1], stack[..|stack| - 1];
      assert stack == rest + [top];
      StackSnoc(accepts, rest, top, now);
      WalkOne(accepts, top.node, top.depth, now);
      SizeOne(top.node);
      var entered, after := VisitNode(accepts, rest, top.node, top.depth, now);
      if entered.Err? {
        return entered;
      }
      PushedStack(accepts, rest, Below(top.node), top.depth + 1, entered.value);
      stack, now := after, entered.value;
    }
    return Ok(now);
  }
}
