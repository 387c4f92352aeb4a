/** Eviction, whole runs of the identity engine, and what they mean for resolving a device. */
module IdentityRuns {
  import opened Wrappers
  import opened IdentityGraph
  import opened IdentityModel
  import opened IdentityCoherence

  // ---------------------------------------------------------------- eviction

  /** What is evicted are whole classes. */
  lemma GoneSevered(s: Identity, gone: set<Device>, stale: set<Device>)
    requires Coherent(s) && IsGone(gone, s, stale)
    ensures Severed(s.edges, gone)
  {
    forall x, y | Adjacent(s.edges, x, y) && x in gone ensures y in gone {
      GoneSpreads(s, gone, stale, x, y);
    }
    forall x, y | Adjacent(s.edges, x, y) && y in gone ensures x in gone {
      assert Adjacent(s.edges, y, x);
      GoneSpreads(s, gone, stale, y, x);
    }
  }

  lemma GoneSpreads(s: Identity, gone: set<Device>, stale: set<Device>, x: Device, y: Device)
    requires Coherent(s) && IsGone(gone, s, stale) && x in gone && Adjacent(s.edges, x, y)
    ensures y in gone
  {
    OneStep(s.edges, x, y);
    ClassKnown(s, x, y);
    forall z | Connected(s.edges, y, z) ensures z in stale && !Touched(s, z) {
      Transitive(s.edges, x, y, z);
    }
  }

  lemma {:induction false} KeptExactly(ps: seq<Proposal>, gone: set<Device>, p: Proposal)
    ensures p in KeptProposals(ps, gone) <==> p in ps && p.left !in gone && p.right !in gone
  {
    if ps != [] {
      KeptExactly(ps[..|ps| - 1], gone, p);
      assert ps == ps[..|ps| - 1] + [ps[|ps| - 1]];
    }
  }

  lemma {:induction false} KeptSequenced(ps: seq<Proposal>, gone: set<Device>, next: nat)
    requires Sequenced(ps, next)
    ensures Sequenced(KeptProposals(ps, gone), next)
  {
    if ps != [] {
      var init, p := ps[..|ps| - 1], ps[|ps| - 1];
      assert forall q :: q in init ==> q in ps && q.id < p.id;
      KeptSequenced(init, gone, next);
      forall q | q in KeptProposals(init, gone) ensures 0 < q.id < p.id {
        KeptExactly(init, gone, q);
      }
    }
  }

  lemma {:induction false} KeptActions(audit: seq<AuditRecord>, ps: seq<Proposal>, gone: set<Device>, id: nat)
    requires !Dropped(ps, gone, id)
    ensures Actions(KeptAudit(audit, ps, gone), id) == Actions(audit, id)
  {
    if audit != [] {
      var init, a := audit[..|audit| - 1], audit[|audit| - 1];
      KeptActions(init, ps, gone, id);
      if !Dropped(ps, gone, a.proposal) {
        ActionsSnoc(KeptAudit(init, ps, gone), a, id);
      }
    }
  }

  lemma {:induction false} KeptAuditExactly(audit: seq<AuditRecord>, ps: seq<Proposal>, gone: set<Device>, a: AuditRecord)
    ensures a in KeptAudit(audit, ps, gone) <==> a in audit && !Dropped(ps, gone, a.proposal)
  {
    if audit != [] {
      KeptAuditExactly(audit[..|audit| - 1], ps, gone, a);
      assert audit == audit[..|audit| - 1] + [audit[|audit| - 1]];
    }
  }

  lemma KeptKnown(s: Identity, gone: set<Device>, id: nat)
    requires Coherent(s) && Known(s.proposals, id) && !Dropped(s.proposals, gone, id)
    ensures Known(KeptProposals(s.proposals, gone), id)
  {
    var p :| p in s.proposals && p.id == id;
    KeptExactly(s.proposals, gone, p);
  }

  lemma EvictedAudited(s: Identity, gone: set<Device>)
    requires Coherent(s)
    ensures Audited(KeptProposals(s.proposals, gone), KeptAudit(s.audit, s.proposals, gone))
  {
    var ps, audit := KeptProposals(s.proposals, gone), KeptAudit(s.audit, s.proposals, gone);
    forall p | p in ps ensures Actions(audit, p.id) == History(p.status) {
      KeptExactly(s.proposals, gone, p);
      forall q | q in s.proposals && q.id == p.id ensures q == p {
        SameIdSame(s.proposals, s.nextProposal, p, q);
      }
      KeptActions(s.audit, s.proposals, gone, p.id);
    }
    forall a | a in audit ensures Known(ps, a.proposal) {
      KeptAuditExactly(s.audit, s.proposals, gone, a);
      KeptKnown(s, gone, a.proposal);
    }
  }

  lemma EvictedMirrored(s: Identity, gone: set<Device>)
    requires Coherent(s)
    ensures Mirrored(KeptProposals(s.proposals, gone), Without(s.edges, gone))
  {
    var ps, edges := KeptProposals(s.proposals, gone), Without(s.edges, gone);
    forall p | p in ps ensures EdgeOf(p, edges) {
      KeptExactly(s.proposals, gone, p);
      assert EdgeOf(p, s.edges);
    }
    forall id | id in edges ensures Known(ps, id) {
      var p :| p in s.proposals && p.id == id;
      assert EdgeOf(p, s.edges);
      KeptExactly(s.proposals, gone, p);
    }
  }

  lemma EvictedHoused(s: Identity, gone: set<Device>, stale: set<Device>)
    requires Coherent(s) && IsGone(gone, s, stale)
    ensures Housed(Evicted(s, gone))
  {
    forall p | p in KeptProposals(s.proposals, gone) ensures p.left in s.devices - gone && p.right in s.devices - gone {
      KeptExactly(s.proposals, gone, p);
    }
    forall d | d in s.owners ensures d in s.devices - gone {
      Reflexive(s.edges, d);
      assert Touched(s, d);
    }
  }

  lemma EvictedCoherent(s: Identity, gone: set<Device>, stale: set<Device>)
    requires Coherent(s) && IsGone(gone, s, stale)
    ensures Coherent(Evicted(s, gone))
  {
    KeptSequenced(s.proposals, gone, s.nextProposal);
    EvictedAudited(s, gone);
    EvictedMirrored(s, gone);
    EvictedHoused(s, gone, stale);
  }

  // ---------------------------------------------------------------- runs

  /** `gone` is what an eviction removes given which devices hold only dead, old evidence. */
  datatype IdentityOp =
    | EnrolOp(incoming: nat, matches: seq<Device>)
    | ProposeOp(left: Device, right: Device, valid: bool)
    | DecideOp(id: nat, accept: bool)
    | UndoOp(undone: nat)
    | AnnotateOp(device: Device, keyOk: bool)
    | EvictOp(stale: set<Device>, gone: set<Device>)

  ghost function Attempt(cfg: IdentityConfig, s: Identity, op: IdentityOp): Result<Identity, IdentityError> {
    match op
    case EnrolOp(incoming, matches) =>
      if forall d :: d in matches ==> d in s.devices then Enrol(cfg, s, incoming, matches) else Err(InvalidInput)
    case ProposeOp(left, right, valid) => Propose(cfg, s, left, right, valid)
    case DecideOp(id, accept) => Decide(cfg, s, id, accept)
    case UndoOp(id) => Undo(cfg, s, id)
    case AnnotateOp(device, keyOk) => Annotate(cfg, s, device, keyOk)
    case EvictOp(stale, gone) =>
      if ComponentsRefusal(cfg, s).None? && IsGone(gone, s, stale) then Ok(Evicted(s, gone)) else Err(Capacity)
  }

  ghost function Step(cfg: IdentityConfig, s: Identity, op: IdentityOp): Identity {
    match Attempt(cfg, s, op) case Ok(after) => after case Err(_) => s
  }

  /** A run of an engine that takes its identifiers from `source`. */
  ghost function Run(cfg: IdentityConfig, source: seq<Device>, ops: seq<IdentityOp>): Identity {
    if ops == [] then NewIdentity(cfg, source) else Step(cfg, Run(cfg, source, ops[..|ops| - 1]), ops[|ops| - 1])
  }

  lemma EnrolCoherent(cfg: IdentityConfig, s: Identity, incoming: nat, matches: seq<Device>)
    requires Coherent(s) && Enrol(cfg, s, incoming, matches).Ok? && forall d :: d in matches ==> d in s.devices
    ensures Coherent(Enrol(cfg, s, incoming, matches).value)
  {
    AdmittedCoherent(s);
    InsertAllCoherent(Admitted(s), matches, s.ids[0]);
  }

  lemma AnnotateCoherent(cfg: IdentityConfig, s: Identity, id: Device, keyOk: bool)
    requires Coherent(s) && Annotate(cfg, s, id, keyOk).Ok?
    ensures Coherent(Annotate(cfg, s, id, keyOk).value)
  {
    ClassKnown(s, id, Root(s.edges, id));
  }

  lemma StepCoherent(cfg: IdentityConfig, s: Identity, op: IdentityOp)
    requires Coherent(s)
    ensures Coherent(Step(cfg, s, op))
  {
    if Attempt(cfg, s, op).Ok? {
      match op {
        case EnrolOp(incoming, matches) => EnrolCoherent(cfg, s, incoming, matches);
        case ProposeOp(left, right, valid) => InsertedCoherent(s, left, right);
        case DecideOp(id, accept) => DecideCoherent(cfg, s, id, accept);
        case UndoOp(id) => UndoCoherent(cfg, s, id);
        case AnnotateOp(device, keyOk) => AnnotateCoherent(cfg, s, device, keyOk);
        case EvictOp(stale, gone) => EvictedCoherent(s, gone, stale);
      }
    }
  }

  /** In every reachable state the audit, the proposals and the edges agree. */
  lemma {:induction false} RunCoherent(cfg: IdentityConfig, source: seq<Device>, ops: seq<IdentityOp>)
    ensures Coherent(Run(cfg, source, ops))
  {
    if ops != [] {
      RunCoherent(cfg, source, ops[..|ops| - 1]);
      StepCoherent(cfg, Run(cfg, source, ops[..|ops| - 1]), ops[|ops| - 1]);
    }
  }

  // ---------------------------------------------------------------- what resolving means

  /** Resolving twice is resolving once, and two devices resolve alike exactly when they are connected. */
  lemma ResolveClasses(cfg: IdentityConfig, s: Identity, x: Device, y: Device)
    requires Coherent(s) && Resolve(cfg, s, x).Ok? && Resolve(cfg, s, y).Ok?
    ensures Resolve(cfg, s, Resolve(cfg, s, x).value) == Resolve(cfg, s, x)
    ensures Resolve(cfg, s, x) == Resolve(cfg, s, y) <==> Connected(s.edges, x, y)
  {
    ClassKnown(s, x, Root(s.edges, x));
    RootIdempotent(s.edges, x);
    SameRootIff(s.edges, x, y);
  }

  /** Accepting a proposal joins exactly the classes of its two devices. */
  lemma AcceptJoins(cfg: IdentityConfig, s: Identity, id: nat, p: Proposal, x: Device, y: Device)
    requires Coherent(s) && Decide(cfg, s, id, true).Ok?
    requires p in s.proposals && p.id == id
    ensures Connected(Decide(cfg, s, id, true).value.edges, x, y) <==> Joined(s.edges, p.left, p.right, x, y)
  {
    var i := Position(s.proposals, id, Pending);
    assert s.proposals[i] in s.proposals && EdgeOf(s.proposals[i], s.edges);
    SameIdSame(s.proposals, s.nextProposal, p, s.proposals[i]);
    AddEdge(s.edges, id, p.left, p.right, x, y);
  }

  /** An inactive edge joins nothing. */
  lemma InactiveEdge(edges: Edges, id: nat, e: Edge)
    requires id !in edges && !e.active
    ensures forall x, y :: Connected(edges[id := e], x, y) <==> Connected(edges, x, y)
  {
    var edges' := edges[id := e];
    forall x, y ensures Adjacent(edges', x, y) <==> Adjacent(edges, x, y) {
      if k :| k in edges && Joins(edges[k], x, y) {
        assert k in edges' && Joins(edges'[k], x, y);
      }
    }
    SameAdjacency(edges', edges);
  }

  lemma AcceptEdges(cfg: IdentityConfig, s: Identity, id: nat) returns (l: Device, r: Device)
    requires Coherent(s) && Decide(cfg, s, id, true).Ok?
    ensures id !in s.edges && Decide(cfg, s, id, true).value.edges == s.edges[id := Edge(l, r, true)]
  {
    var p := s.proposals[Position(s.proposals, id, Pending)];
    assert p in s.proposals && EdgeOf(p, s.edges);
    l, r := p.left, p.right;
  }

  lemma UndoEdges(cfg: IdentityConfig, s: Identity, id: nat)
    requires Undo(cfg, s, id).Ok? && id in s.edges
    ensures Undo(cfg, s, id).value.edges == s.edges[id := s.edges[id].(active := false)]
  {
  }

  lemma UndoneEdges(cfg: IdentityConfig, edges: Edges, accepted: Identity, id: nat, l: Device, r: Device)
    requires accepted.edges == edges[id := Edge(l, r, true)] && Undo(cfg, accepted, id).Ok?
    ensures Undo(cfg, accepted, id).value.edges == edges[id := Edge(l, r, false)]
  {
    UndoEdges(cfg, accepted, id);
  }

  lemma AcceptUndoEdges(cfg: IdentityConfig, s: Identity, id: nat) returns (e: Edge)
    requires Coherent(s) && Decide(cfg, s, id, true).Ok? && Undo(cfg, Decide(cfg, s, id, true).value, id).Ok?
    ensures id !in s.edges && !e.active
    ensures Undo(cfg, Decide(cfg, s, id, true).value, id).value.edges == s.edges[id := e]
  {
    var l, r := AcceptEdges(cfg, s, id);
    UndoneEdges(cfg, s.edges, Decide(cfg, s, id, true).value, id, l, r);
    e := Edge(l, r, false);
  }

  /** Accepting and then undoing restores what every device resolves to, within the work bound. */
  lemma AcceptUndoRestores(cfg: IdentityConfig, s: Identity, id: nat, x: Device)
    requires Coherent(s) && Decide(cfg, s, id, true).Ok? && Undo(cfg, Decide(cfg, s, id, true).value, id).Ok?
    ensures var after := Undo(cfg, Decide(cfg, s, id, true).value, id).value;
            && Root(after.edges, x) == Root(s.edges, x)
            && (Resolve(cfg, after, x).Ok? && Resolve(cfg, s, x).Ok? ==> Resolve(cfg, after, x) == Resolve(cfg, s, x))
  {
    var e := AcceptUndoEdges(cfg, s, id);
    var after := Undo(cfg, Decide(cfg, s, id, true).value, id).value;
    InactiveEdge(s.edges, id, e);
    SameConnectedSameRoot(after.edges, s.edges, x);
  }

  /** States with the same accepted merges have the same classes, whatever led to them. */
  lemma AcceptedDetermineClasses(s: Identity, t: Identity, x: Device)
    requires Coherent(s) && Coherent(t)
    requires forall u, v :: Merged(s.proposals, u, v) <==> Merged(t.proposals, u, v)
    ensures Root(s.edges, x) == Root(t.edges, x)
  {
    forall u, v ensures Adjacent(s.edges, u, v) <==> Adjacent(t.edges, u, v) {
      AdjacentIffAccepted(s, u, v);
      AdjacentIffAccepted(t, u, v);
    }
    SameAdjacency(s.edges, t.edges);
    SameConnectedSameRoot(s.edges, t.edges, x);
  }

  /** Eviction removes whole classes and leaves every survivor's class as it was. */
  lemma EvictionKeepsSurvivors(s: Identity, gone: set<Device>, stale: set<Device>, x: Device)
    requires Coherent(s) && IsGone(gone, s, stale) && x in s.devices && x !in gone
    ensures forall y :: Connected(Evicted(s, gone).edges, x, y) <==> Connected(s.edges, x, y)
    ensures forall y :: Connected(s.edges, x, y) ==> y in Evicted(s, gone).devices
    ensures Root(Evicted(s, gone).edges, x) == Root(s.edges, x)
  {
    GoneSevered(s, gone, stale);
    forall y ensures Connected(Without(s.edges, gone), x, y) <==> Connected(s.edges, x, y) {
      WithoutKeeps(s.edges, gone, x, y);
    }
    var kept := iset d | d !in gone;
    forall y | Connected(s.edges, x, y) ensures y in s.devices - gone {
      ClassKnown(s, x, y);
      ClosedStays(s.edges, kept, x, y);
    }
    SameConnectedSameRoot(Without(s.edges, gone), s.edges, x);
  }
}
