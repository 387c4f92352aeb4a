/** The identity engine: a worklist over merge edges, and fields updated in place. */
module IdentityEngine {
  import opened Wrappers
  import opened IdentityGraph
  import opened IdentityModel
  import opened IdentityCoherence
  import opened IdentityRuns

  // ---------------------------------------------------------------- classes

  function Vertices(edges: Edges, id: Device): set<Device> {
    {id} + (set k | k in edges :: edges[k].a) + (set k | k in edges :: edges[k].b)
  }

  function Other(e: Edge, x: Device): Option<Device> {
    if !e.active then None else if e.a == x then Some(e.b) else if e.b == x then Some(e.a) else None
  }

  /** Every neighbour of `x` over an edge outside `rest` has been seen. */
  ghost predicate SeenNeighbours(edges: Edges, x: Device, rest: set<nat>, seen: set<Device>) {
    forall k, y :: k in edges && k !in rest && Joins(edges[k], x, y) ==> y in seen
  }

  /** Adds the neighbours of `x` that are new to `seen` and queues them. */
  method Visit(edges: Edges, id: Device, x: Device, seen0: set<Device>, q0: seq<Device>)
    returns (seen: set<Device>, q: seq<Device>)
    requires x in seen0 && forall y :: y in seen0 ==> Connected(edges, id, y)
    requires seen0 <= Vertices(edges, id)
    ensures seen0 <= seen <= Vertices(edges, id) && forall y :: y in seen ==> Connected(edges, id, y)
    ensures SeenNeighbours(edges, x, {}, seen)
    ensures q0 <= q && forall y :: y in q <==> y in q0 || (y in seen && y !in seen0)
    ensures seen == seen0 ==> q == q0
  {
    seen, q := seen0, q0;
    var rest := edges.Keys;
    while rest != {}
      invariant rest <= edges.Keys && seen0 <= seen <= Vertices(edges, id)
      invariant forall y :: y in seen ==> Connected(edges, id, y)
      invariant SeenNeighbours(edges, x, rest, seen)
      invariant q0 <= q && forall y :: y in q <==> y in q0 || (y in seen && y !in seen0)
      invariant seen == seen0 ==> q == q0
      decreases rest
    {
      var k :| k in rest;
      rest := rest - {k};
      var y := Other(edges[k], x);
      if y.Some? && y.value !in seen {
        assert Joins(edges[k], x, y.value);
        OneStep(edges, x, y.value);
        Transitive(edges, id, x, y.value);
        seen, q := seen + {y.value}, q + [y.value];
      }
    }
  }

  /** Breadth first from `id`: exactly the devices connected to it. */
  method Component(edges: Edges, id: Device) returns (seen: set<Device>)
    ensures forall y :: y in seen <==> Connected(edges, id, y)
  {
    seen := {id};
    Reflexive(edges, id);
    var q := [id];
    while q != []
      invariant id in seen && seen <= Vertices(edges, id)
      invariant forall y :: y in seen ==> Connected(edges, id, y)
      invariant forall y :: y in q ==> y in seen
      invariant forall u :: u in seen && u !in q ==> SeenNeighbours(edges, u, {}, seen)
      decreases Vertices(edges, id) - seen, |q|
    {
      var x := q[0];
      assert q == [x] + q[1..];
      seen, q := Visit(edges, id, x, seen, q[1..]);
    }
    ComponentComplete(edges, id, seen);
  }

  lemma ComponentComplete(edges: Edges, id: Device, seen: set<Device>)
    requires id in seen && forall u :: u in seen ==> SeenNeighbours(edges, u, {}, seen)
    ensures forall y :: Connected(edges, id, y) ==> y in seen
  {
    var closed := iset d | d in seen;
    forall u, v | u in closed && Adjacent(edges, u, v) ensures v in closed {
      var k :| k in edges && Joins(edges[k], u, v);
    }
    forall y | Connected(edges, id, y) ensures y in seen {
      ClosedStays(edges, closed, id, y);
    }
  }

  method Canon(c: set<Device>) returns (least: Device)
    requires c != {}
    ensures least in c && forall y :: y in c ==> least <= y
  {
    least :| least in c;
    var rest := c;
    while rest != {}
      invariant rest <= c && least in c && forall y :: y in c && y !in rest ==> least <= y
      decreases rest
    {
      var y :| y in rest;
      rest := rest - {y};
      if y < least {
        least := y;
      }
    }
  }

  ghost predicate IsClass(c: set<Device>, edges: Edges, x: Device) {
    forall y :: y in c <==> Connected(edges, x, y)
  }

  ghost predicate Covered(out: seq<set<Device>>, d: Device) {
    exists i :: 0 <= i < |out| && d in out[i]
  }

  /** `out` lists the class of each of `roots`, no class twice. */
  ghost predicate Classes(out: seq<set<Device>>, roots: seq<Device>, edges: Edges) {
    && |out| == |roots|
    && (forall i :: 0 <= i < |out| ==> IsClass(out[i], edges, roots[i]))
    && forall i, j :: 0 <= i < j < |out| ==> out[i] !! out[j]
  }

  lemma ClassesApart(edges: Edges, x: Device, y: Device, c: set<Device>, d: set<Device>)
    requires IsClass(c, edges, x) && IsClass(d, edges, y) && y !in c
    ensures c !! d
  {
    forall z | z in c && z in d ensures false {
      Symmetric(edges, y, z);
      Transitive(edges, x, z, y);
    }
  }

  lemma ClassesGrow(out: seq<set<Device>>, roots: seq<Device>, edges: Edges, id: Device, c: set<Device>)
    requires Classes(out, roots, edges) && !Covered(out, id) && IsClass(c, edges, id)
    ensures Classes(out + [c], roots + [id], edges)
  {
    forall i | 0 <= i < |out| ensures out[i] !! c {
      ClassesApart(edges, roots[i], id, out[i], c);
    }
  }

  lemma CoveredMore(out: seq<set<Device>>, c: set<Device>, d: Device)
    ensures Covered(out + [c], d) <==> Covered(out, d) || d in c
  {
    var out' := out + [c];
    if i :| 0 <= i < |out| && d in out[i] {
      assert d in out'[i];
    }
    if d in c {
      assert d in out'[|out|];
    }
  }

  /** One component per device not yet seen: the classes of the devices, each once. */
  method Components(edges: Edges, devices: set<Device>) returns (out: seq<set<Device>>, ghost roots: seq<Device>)
    ensures Classes(out, roots, edges) && (forall r :: r in roots ==> r in devices)
    ensures forall d :: d in devices ==> Covered(out, d)
  {
    out, roots := [], [];
    var rest := devices;
    var seen: set<Device> := {};
    while rest != {}
      invariant rest <= devices && forall d :: d in seen <==> Covered(out, d)
      invariant forall d :: d in devices && d !in rest ==> d in seen
      invariant Classes(out, roots, edges) && forall r :: r in roots ==> r in devices
      decreases rest
    {
      var id :| id in rest;
      rest := rest - {id};
      if id !in seen {
        var c := Component(edges, id);
        Reflexive(edges, id);
        assert IsClass(c, edges, id);
        ClassesGrow(out, roots, edges, id, c);
        forall d ensures Covered(out + [c], d) <==> Covered(out, d) || d in c {
          CoveredMore(out, c, d);
        }
        seen, out, roots := seen + c, out + [c], roots + [id];
      }
    }
  }

  // ---------------------------------------------------------------- eviction

  /** A class nobody has a reason to keep. */
  predicate Removable(s: Identity, c: set<Device>, stale: set<Device>) {
    && c <= stale && (forall d :: d in s.owners ==> d !in c)
    && forall p :: p in s.proposals && p.status == Pending ==> p.left !in c && p.right !in c
  }

  lemma RemovableClass(s: Identity, c: set<Device>, stale: set<Device>, x: Device, d: Device)
    requires IsClass(c, s.edges, x) && d in c
    ensures Removable(s, c, stale) <==> forall y :: Connected(s.edges, d, y) ==> y in stale && !Touched(s, y)
  {
    forall y ensures y in c <==> Connected(s.edges, d, y) {
      if Connected(s.edges, d, y) {
        Transitive(s.edges, x, d, y);
      }
      if y in c {
        Symmetric(s.edges, x, d);
        Transitive(s.edges, d, x, y);
      }
    }
    if Removable(s, c, stale) {
      forall y | Connected(s.edges, d, y) ensures y in stale && !Touched(s, y) {
        assert y in c;
      }
    }
    if forall y :: Connected(s.edges, d, y) ==> y in stale && !Touched(s, y) {
      forall y | y in c ensures y in stale && !Touched(s, y) {
        assert Connected(s.edges, d, y);
      }
      forall p | p in s.proposals && p.status == Pending ensures p.left !in c && p.right !in c {
        assert Touched(s, p.left) && Touched(s, p.right);
      }
    }
  }

  /** The devices of every class that may go. */
  method StaleDevices(s: Identity, stale: set<Device>) returns (gone: set<Device>)
    requires Coherent(s)
    ensures IsGone(gone, s, stale)
  {
    var comps, roots := Components(s.edges, s.devices);
    gone := {};
    for i := 0 to |comps|
      invariant forall d :: d in gone <==> exists j :: 0 <= j < i && d in comps[j] && Removable(s, comps[j], stale)
    {
      if Removable(s, comps[i], stale) {
        gone := gone + comps[i];
      }
    }
    forall d ensures d in gone <==>
      d in s.devices && forall y :: Connected(s.edges, d, y) ==> y in stale && !Touched(s, y)
    {
      GoneIff(s, stale, comps, roots, gone, d);
    }
  }

  lemma GoneIff(
    s: Identity, stale: set<Device>, comps: seq<set<Device>>, roots: seq<Device>, gone: set<Device>, d: Device)
    requires Coherent(s) && Classes(comps, roots, s.edges) && (forall r :: r in roots ==> r in s.devices)
    requires forall x :: x in s.devices ==> Covered(comps, x)
    requires d in gone <==> exists j :: 0 <= j < |comps| && d in comps[j] && Removable(s, comps[j], stale)
    ensures d in gone <==>
            d in s.devices && forall y :: Connected(s.edges, d, y) ==> y in stale && !Touched(s, y)
  {
    if d in gone {
      var j :| 0 <= j < |comps| && d in comps[j] && Removable(s, comps[j], stale);
      assert IsClass(comps[j], s.edges, roots[j]) && roots[j] in roots;
      ClassKnown(s, roots[j], d);
      RemovableClass(s, comps[j], stale, roots[j], d);
    } else if d in s.devices {
      assert Covered(comps, d);
      var j :| 0 <= j < |comps| && d in comps[j];
      assert IsClass(comps[j], s.edges, roots[j]);
      RemovableClass(s, comps[j], stale, roots[j], d);
    }
  }

  method KeepProposals(proposals: seq<Proposal>, gone: set<Device>) returns (kept: seq<Proposal>)
    ensures kept == KeptProposals(proposals, gone)
  {
    kept := [];
    for i := 0 to |proposals|
      invariant kept == KeptProposals(proposals[..i], gone)
    {
      assert proposals[..i + 1][..i] == proposals[..i];
      if proposals[i].left !in gone && proposals[i].right !in gone {
        kept := kept + [proposals[i]];
      }
    }
    assert proposals[..|proposals|] == proposals;
  }

  method KeepAudit(audit: seq<AuditRecord>, proposals: seq<Proposal>, gone: set<Device>) returns (kept: seq<AuditRecord>)
    ensures kept == KeptAudit(audit, proposals, gone)
  {
    kept := [];
    for i := 0 to |audit|
      invariant kept == KeptAudit(audit[..i], proposals, gone)
    {
      assert audit[..i + 1][..i] == audit[..i];
      if !Dropped(proposals, gone, audit[i].proposal) {
        kept := kept + [audit[i]];
      }
    }
    assert audit[..|audit|] == audit;
  }

  // ---------------------------------------------------------------- the engine

  lemma DecideState(cfg: IdentityConfig, s: Identity, id: nat, accept: bool, i: nat) returns (after: Identity)
    requires Coherent(s) && |s.audit| < cfg.maxAuditRecords && (accept ==> |s.edges| < cfg.maxMergeEdges)
    requires i == Position(s.proposals, id, Pending) && i < |s.proposals|
    ensures var p, status := s.proposals[i], if accept then Accepted else Rejected;
            after == Identity(
              s.ids, s.devices, s.proposals[i := p.(status := status)],
              if accept then s.edges[id := Edge(p.left, p.right, true)] else s.edges,
              s.audit + [AuditRecord(id, status)], s.owners, s.nextProposal)
    ensures Decide(cfg, s, id, accept) == Ok(after) && Coherent(after)
  {
    after := Decide(cfg, s, id, accept).value;
    DecideCoherent(cfg, s, id, accept);
  }

  lemma UndoState(cfg: IdentityConfig, s: Identity, id: nat, i: nat) returns (after: Identity)
    requires Coherent(s) && |s.audit| < cfg.maxAuditRecords
    requires i == Position(s.proposals, id, Accepted) && i < |s.proposals|
    ensures after == Identity(
              s.ids, s.devices, s.proposals[i := s.proposals[i].(status := Undone)],
              if id in s.edges then s.edges[id := s.edges[id].(active := false)] else s.edges,
              s.audit + [AuditRecord(id, Undone)], s.owners, s.nextProposal)
    ensures Undo(cfg, s, id) == Ok(after) && Coherent(after)
  {
    after := Undo(cfg, s, id).value;
    UndoCoherent(cfg, s, id);
  }

  class Engine {
    const cfg: IdentityConfig
    var ids: seq<Device>
    var devices: set<Device>
    var proposals: seq<Proposal>
    var edges: Edges
    var audit: seq<AuditRecord>
    var owners: seq<Device>
    var nextProposal: nat

    function State(): Identity
      reads this
    {
      Identity(ids, devices, proposals, edges, audit, owners, nextProposal)
    }

    ghost predicate Valid()
      reads this
    {
      Coherent(State())
    }

    constructor (config: IdentityConfig, source: seq<Device>)
      ensures Valid() && State() == NewIdentity(config, source) && cfg == config
    {
      cfg, ids := config, Supply(config, source);
      devices, proposals, edges, audit, owners, nextProposal := {}, [], map[], [], [], 1;
    }

    static method Create(config: IdentityConfig, source: seq<Device>) returns (r: Option<Engine>)
      ensures r.Some? <==> ValidIdentity(config)
      ensures r.Some? ==> fresh(r.value) && r.value.Valid() && r.value.State() == NewIdentity(config, source) && r.value.cfg == config
    {
      if !ValidIdentity(config) {
        return None;
      }
      var engine := new Engine(config, source);
      return Some(engine);
    }

    method ResolveDevice(id: Device) returns (r: Result<Device, IdentityError>)
      ensures r == Resolve(cfg, State(), id)
    {
      var refusal := ComponentRefusal(cfg, State(), id);
      if refusal.Some? {
        return Err(refusal.value);
      }
      var c := Component(edges, id);
      Reflexive(edges, id);
      var root := Canon(c);
      assert IsRoot(root, edges, id);
      return Ok(root);
    }

    method ProposeMerge(a: Device, b: Device, valid: bool) returns (r: Result<nat, IdentityError>)
      requires Valid()
      modifies this
      ensures Valid()
      ensures r.Ok? ==> Propose(cfg, old(State()), a, b, valid) == Ok(State()) && r.value == old(nextProposal)
      ensures r.Err? ==> Propose(cfg, old(State()), a, b, valid) == Err(r.error) && State() == old(State())
    {
      var first := ResolveDevice(a);
      if first.Err? {
        return Err(first.error);
      }
      var second := ResolveDevice(b);
      if second.Err? {
        return Err(second.error);
      }
      if !valid {
        return Err(InvalidInput);
      }
      if ProposalsRefusal(cfg, State(), 1).Some? {
        return Err(Capacity);
      }
      InsertedCoherent(State(), a, b);
      var id := nextProposal;
      proposals, nextProposal := proposals + [Proposal(id, a, b, Pending)], nextProposal + 1;
      return Ok(id);
    }

    /** Inserts one pending proposal per match, all with the new device. */
    method ProposeAll(matches: seq<Device>, other: Device)
      modifies this`proposals, this`nextProposal
      ensures State() == InsertAll(old(State()), matches, other)
    {
      for i := 0 to |matches|
        invariant State() == InsertAll(old(State()), matches[..i], other)
      {
        assert matches[..i + 1][..i] == matches[..i];
        proposals, nextProposal := proposals + [Proposal(nextProposal, matches[i], other, Pending)], nextProposal + 1;
      }
      assert matches[..|matches|] == matches;
    }

    /** `matches` are the roots of the classes the new device's evidence matches. */
    method EnrolDevice(incoming: nat, matches: seq<Device>) returns (r: Result<Device, IdentityError>)
      requires Valid() && forall d :: d in matches ==> d in devices
      modifies this
      ensures Valid()
      ensures r.Ok? ==> Enrol(cfg, old(State()), incoming, matches) == Ok(State()) && [r.value] + ids == old(ids)
      ensures r.Err? ==> Enrol(cfg, old(State()), incoming, matches) == Err(r.error) && State() == old(State())
    {
      if incoming > cfg.maxFacts || |devices| >= cfg.maxDevices {
        return Err(Capacity);
      }
      if ComponentsRefusal(cfg, State()).Some? || ProposalsRefusal(cfg, State(), |matches|).Some? {
        return Err(Capacity);
      }
      if ids == [] {
        return Err(IdSourceExhausted);
      }
      var next := ids[0];
      if next in devices {
        return Err(InvalidInput);
      }
      EnrolCoherent(cfg, State(), incoming, matches);
      ids, devices := ids[1..], devices + {next};
      assert State() == Admitted(old(State()));
      ProposeAll(matches, next);
      return Ok(next);
    }

    /** Puts the new proposals, edges and audit trail in place. */
    method Record(newProposals: seq<Proposal>, newEdges: Edges, newAudit: seq<AuditRecord>)
      modifies this`proposals, this`edges, this`audit
      ensures State() == old(State()).(proposals := newProposals, edges := newEdges, audit := newAudit)
    {
      proposals, edges, audit := newProposals, newEdges, newAudit;
    }

    method DecideMerge(id: nat, accept: bool) returns (r: Result<(), IdentityError>)
      requires Valid()
      modifies this
      ensures Valid()
      ensures r.Ok? ==> Decide(cfg, old(State()), id, accept) == Ok(State())
      ensures r.Err? ==> Decide(cfg, old(State()), id, accept) == Err(r.error) && State() == old(State())
    {
      if |audit| >= cfg.maxAuditRecords {
        return Err(Capacity);
      }
      var i := FindAt(proposals, id, Pending);
      if i == |proposals| {
        return Err(ProposalNotFound);
      }
      if accept && |edges| >= cfg.maxMergeEdges {
        return Err(Capacity);
      }
      ghost var after := DecideState(cfg, State(), id, accept, i);
      var p, status := proposals[i], if accept then Accepted else Rejected;
      Record(proposals[i := p.(status := status)],
             if accept then edges[id := Edge(p.left, p.right, true)] else edges,
             audit + [AuditRecord(id, status)]);
      assert State() == after;
      return Ok(());
    }

    method UndoMerge(id: nat) returns (r: Result<(), IdentityError>)
      requires Valid()
      modifies this
      ensures Valid()
      ensures r.Ok? ==> Undo(cfg, old(State()), id) == Ok(State())
      ensures r.Err? ==> Undo(cfg, old(State()), id) == Err(r.error) && State() == old(State())
    {
      if |audit| >= cfg.maxAuditRecords {
        return Err(Capacity);
      }
      var i := FindAt(proposals, id, Accepted);
      if i == |proposals| {
        return Err(CannotUndo);
      }
      ghost var after := UndoState(cfg, State(), id, i);
      Record(proposals[i := proposals[i].(status := Undone)],
             if id in edges then edges[id := edges[id].(active := false)] else edges,
             audit + [AuditRecord(id, Undone)]);
      assert State() == after;
      return Ok(());
    }

    /** `stale` are the devices with no live and no recent evidence. */
    method EvictStale(stale: set<Device>) returns (r: Result<set<Device>, IdentityError>)
      requires Valid()
      modifies this
      ensures Valid()
      ensures r.Ok? ==> IsGone(r.value, old(State()), stale) && State() == Evicted(old(State()), r.value)
      ensures r.Err? ==> ComponentsRefusal(cfg, old(State())) == Some(r.error) && State() == old(State())
    {
      var refusal := ComponentsRefusal(cfg, State());
      if refusal.Some? {
        return Err(refusal.value);
      }
      var gone := StaleDevices(State(), stale);
      EvictedCoherent(State(), gone, stale);
      var keptProposals := KeepProposals(proposals, gone);
      var keptAudit := KeepAudit(audit, proposals, gone);
      devices, edges := devices - gone, Without(edges, gone);
      proposals, audit := keptProposals, keptAudit;
      return Ok(gone);
    }
  }

  method FindAt(proposals: seq<Proposal>, id: nat, status: Status) returns (i: nat)
    ensures i == Position(proposals, id, status)
  {
    i := 0;
    while i < |proposals| && !(proposals[i].id == id && proposals[i].status == status)
      invariant i <= |proposals| && Position(proposals, id, status) == i + Position(proposals[i..], id, status)
    {
      assert proposals[i..][1..] == proposals[i + 1..];
      i := i + 1;
    }
  }
}
