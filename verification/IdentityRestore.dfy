/** Which states of the identity engine survive being written to a checkpoint and restored. */
module IdentityRestore {
  import opened Wrappers
  import opened Sets
  import opened Sequences
  import opened IdentityGraph
  import opened IdentityModel
  import opened IdentityCoherence
  import opened IdentityRuns
  import opened IdentityCheckpoint
  import opened IdentitySupply

  // ---------------------------------------------------------------- capacities over runs

  ghost predicate Bounded(cfg: IdentityConfig, s: Identity) {
    && |s.devices| + |s.ids| <= cfg.maxDevices && |s.proposals| <= cfg.maxProposals && |s.edges| <= cfg.maxMergeEdges
    && |s.audit| <= cfg.maxAuditRecords && |s.owners| <= cfg.maxAuditRecords
  }

  lemma {:induction false} InsertAllSize(s: Identity, matches: seq<Device>, other: Device)
    ensures var after := InsertAll(s, matches, other);
            && |after.proposals| == |s.proposals| + |matches| && after.devices == s.devices && after.edges == s.edges
            && after.audit == s.audit && after.owners == s.owners && after.ids == s.ids
  {
    if matches != [] {
      InsertAllSize(s, matches[..|matches| - 1], other);
    }
  }

  lemma {:induction false} KeptProposalsSize(ps: seq<Proposal>, gone: set<Device>)
    ensures |KeptProposals(ps, gone)| <= |ps|
  {
    if ps != [] {
      KeptProposalsSize(ps[..|ps| - 1], gone);
    }
  }

  lemma {:induction false} KeptAuditSize(audit: seq<AuditRecord>, ps: seq<Proposal>, gone: set<Device>)
    ensures |KeptAudit(audit, ps, gone)| <= |audit|
  {
    if audit != [] {
      KeptAuditSize(audit[..|audit| - 1], ps, gone);
    }
  }

  lemma SubmapCard<K, V>(a: map<K, V>, b: map<K, V>)
    requires a.Keys <= b.Keys
    ensures |a| <= |b|
  {
    SubsetCard(a.Keys, b.Keys);
    assert |a.Keys| == |a| && |b.Keys| == |b|;
  }

  lemma EvictedBounded(cfg: IdentityConfig, s: Identity, gone: set<Device>)
    requires Bounded(cfg, s)
    ensures Bounded(cfg, Evicted(s, gone))
  {
    SubsetCard(s.devices - gone, s.devices);
    SubmapCard(Without(s.edges, gone), s.edges);
    KeptProposalsSize(s.proposals, gone);
    KeptAuditSize(s.audit, s.proposals, gone);
  }

  lemma UpdatedCard<V>(m: map<nat, V>, k: nat, v: V)
    ensures |m[k := v]| <= |m| + 1 && (k in m ==> |m[k := v]| == |m|)
  {
    var more := m[k := v];
    assert more.Keys == m.Keys + {k};
    assert |more.Keys| == |more| && |m.Keys| == |m|;
    if k in m {
      assert more.Keys == m.Keys;
    }
  }

  lemma DecideBounded(cfg: IdentityConfig, s: Identity, id: nat, accept: bool)
    requires Bounded(cfg, s) && Decide(cfg, s, id, accept).Ok?
    ensures Bounded(cfg, Decide(cfg, s, id, accept).value)
  {
    var p := s.proposals[Position(s.proposals, id, Pending)];
    UpdatedCard(s.edges, p.id, Edge(p.left, p.right, true));
  }

  lemma UndoBounded(cfg: IdentityConfig, s: Identity, id: nat)
    requires Bounded(cfg, s) && Undo(cfg, s, id).Ok?
    ensures Bounded(cfg, Undo(cfg, s, id).value)
  {
    if id in s.edges {
      UpdatedCard(s.edges, id, s.edges[id].(active := false));
    }
  }

  lemma EnrolBounded(cfg: IdentityConfig, s: Identity, incoming: nat, matches: seq<Device>)
    requires Bounded(cfg, s) && Enrol(cfg, s, incoming, matches).Ok?
    ensures Bounded(cfg, Enrol(cfg, s, incoming, matches).value)
  {
    InsertAllSize(Admitted(s), matches, s.ids[0]);
  }

  lemma StepBounded(cfg: IdentityConfig, s: Identity, op: IdentityOp)
    requires Bounded(cfg, s)
    ensures Bounded(cfg, Step(cfg, s, op))
  {
    if Attempt(cfg, s, op).Ok? {
      match op {
        case EnrolOp(incoming, matches) => EnrolBounded(cfg, s, incoming, matches);
        case ProposeOp(left, right, valid) =>
        case DecideOp(id, accept) => DecideBounded(cfg, s, id, accept);
        case UndoOp(id) => UndoBounded(cfg, s, id);
        case AnnotateOp(device, keyOk) =>
        case EvictOp(stale, gone) => EvictedBounded(cfg, s, gone);
      }
    }
  }

  /** Every reachable state keeps the limits, devices and identifiers together staying within the one for devices. */
  lemma {:induction false} RunBounded(cfg: IdentityConfig, source: seq<Device>, ops: seq<IdentityOp>)
    ensures Bounded(cfg, Run(cfg, source, ops))
  {
    if ops != [] {
      RunBounded(cfg, source, ops[..|ops| - 1]);
      StepBounded(cfg, Run(cfg, source, ops[..|ops| - 1]), ops[|ops| - 1]);
    }
  }

  // ---------------------------------------------------------------- listings

  ghost predicate OwnersAs(c: Checkpoint, s: Identity) {
    && |c.owners| == |s.owners| && c.nextOwner == |s.owners| + 1
    && forall i :: 0 <= i < |c.owners| ==> c.owners[i].sequence == i + 1 && c.owners[i].device == s.owners[i]
  }

  /** What the engine writes for a state: each device and each edge once, the rest as it stands, owner records numbered from one. */
  ghost predicate Lists(c: Checkpoint, s: Identity) {
    && c.version == 1 && c.ids == s.ids && c.proposals == s.proposals && c.audit == s.audit && c.nextProposal == s.nextProposal
    && NoRepeats(Named(c.facts)) && Elements(Named(c.facts)) == s.devices
    && Distinct(c.edges) && EdgeMap(c.edges) == s.edges
    && OwnersAs(c, s)
  }

  lemma {:induction false} EdgeMapKeys(list: seq<CheckpointEdge>, id: nat)
    ensures id in EdgeMap(list) <==> exists i :: 0 <= i < |list| && list[i].proposal == id
  {
    if list != [] {
      var init, last := list[..|list| - 1], list[|list| - 1];
      EdgeMapKeys(init, id);
      if i :| 0 <= i < |init| && init[i].proposal == id {
        assert list[i].proposal == id;
      }
      if i :| 0 <= i < |list| && list[i].proposal == id {
        assert i < |init| ==> init[i].proposal == id;
      }
    }
  }

  lemma {:induction false} EdgeMapCard(list: seq<CheckpointEdge>)
    requires Distinct(list)
    ensures |EdgeMap(list)| == |list|
  {
    if list != [] {
      var init, last := list[..|list| - 1], list[|list| - 1];
      EdgeMapCard(init);
      EdgeMapKeys(init, last.proposal);
      assert EdgeMap(list).Keys == EdgeMap(init).Keys + {last.proposal};
      assert |EdgeMap(list).Keys| == |EdgeMap(list)| && |EdgeMap(init).Keys| == |EdgeMap(init)|;
    }
  }

  /** Every set of edges can be listed. */
  lemma {:induction false} ListEdges(edges: Edges) returns (list: seq<CheckpointEdge>)
    ensures Distinct(list) && EdgeMap(list) == edges
    decreases edges.Keys
  {
    if edges == map[] {
      list := [];
    } else {
      var id :| id in edges;
      var rest := ListEdges(edges - {id});
      EdgeMapKeys(rest, id);
      list := rest + [CheckpointEdge(id, edges[id])];
      assert list[..|rest|] == rest;
      assert (edges - {id})[id := edges[id]] == edges;
    }
  }

  lemma OwnersListed(c: Checkpoint, s: Identity)
    requires OwnersAs(c, s) && forall d :: d in s.owners ==> d in s.devices
    ensures OwnedDevices(c.owners) == s.owners
    ensures OwnersSequenced(c.owners, s.devices, c.nextOwner) <==> forall o :: o in c.owners ==> o.ok
  {
    forall o | o in c.owners ensures 0 < o.sequence < c.nextOwner && o.device in s.devices {
      var i :| 0 <= i < |c.owners| && c.owners[i] == o;
      assert s.owners[i] in s.owners;
    }
  }

  /** A listing of a bounded state is within capacity. */
  lemma ListsWithin(cfg: IdentityConfig, c: Checkpoint, s: Identity)
    requires ValidIdentity(cfg) && Bounded(cfg, s) && Lists(c, s) && 0 < s.nextProposal
    ensures WithinCapacity(cfg, c)
  {
    EdgeMapCard(c.edges);
    ElementsCard(Named(c.facts));
  }

  /** A listing restores to the state it lists. */
  lemma ListsRestored(c: Checkpoint, s: Identity)
    requires Lists(c, s) && OwnedDevices(c.owners) == s.owners
    ensures Restored(c) == s
  {
  }

  /** The identifiers listed are apart exactly when those of the state are. */
  lemma ListsApart(c: Checkpoint, s: Identity)
    requires c.ids == s.ids && Elements(Named(c.facts)) == s.devices
    ensures NoRepeats(c.ids) && (forall d :: d in Named(c.facts) ==> d !in c.ids) <==> Apart(s)
  {
    assert forall d :: d in Named(c.facts) <==> d in s.devices;
  }

  /** Every record passes its own checks: proposals, owner annotations and stored facts. */
  ghost predicate RecordsValid(cfg: IdentityConfig, c: Checkpoint, valid: Proposal -> bool) {
    AllValid(c.proposals, valid) && FactsValid(cfg, c.facts) && forall o :: o in c.owners ==> o.ok
  }

  lemma ListsRestorableIff(cfg: IdentityConfig, c: Checkpoint, s: Identity, valid: Proposal -> bool)
    requires ValidIdentity(cfg) && Coherent(s) && Bounded(cfg, s) && Lists(c, s)
    ensures Restorable(cfg, c, valid) <==> Apart(s) && NoSelfMerge(s.proposals) && RecordsValid(cfg, c, valid)
    ensures Restored(c) == s
  {
    ListsWithin(cfg, c, s);
    OwnersListed(c, s);
    ListsRestored(c, s);
    ListsApart(c, s);
  }

  /**
   For every identifier source, run and listing of its state: the checkpoint is restored, to that very state, if and
   only if identifiers and devices are apart, no proposal merges a device with itself and every record passes its own checks.
   */
  lemma RunRestorableIff(
    cfg: IdentityConfig, source: seq<Device>, ops: seq<IdentityOp>, c: Checkpoint, valid: Proposal -> bool)
    requires ValidIdentity(cfg) && Lists(c, Run(cfg, source, ops))
    ensures Restorable(cfg, c, valid) <==>
            Apart(Run(cfg, source, ops)) && NoSelfMerge(Run(cfg, source, ops).proposals) && RecordsValid(cfg, c, valid)
    ensures Restored(c) == Run(cfg, source, ops)
  {
    RunCoherent(cfg, source, ops);
    RunBounded(cfg, source, ops);
    ListsRestorableIff(cfg, c, Run(cfg, source, ops), valid);
  }

  /** With a supply that repeats no identifier only self-merges and the records' own checks decide. */
  lemma SupplyRestorableIff(
    cfg: IdentityConfig, source: seq<Device>, ops: seq<IdentityOp>, c: Checkpoint, valid: Proposal -> bool)
    requires ValidIdentity(cfg) && Lists(c, Run(cfg, source, ops)) && NoRepeats(Supply(cfg, source))
    ensures Restorable(cfg, c, valid) <==> NoSelfMerge(Run(cfg, source, ops).proposals) && RecordsValid(cfg, c, valid)
  {
    RunApart(cfg, source, ops);
    RunRestorableIff(cfg, source, ops, c, valid);
  }

  // ---------------------------------------------------------------- checkpoints that are refused

  /** The source may repeat an identifier: the new engine is accepted, and no checkpoint of it is restored. */
  lemma RepeatedIdentifierRefused(cfg: IdentityConfig, d: Device, c: Checkpoint, valid: Proposal -> bool)
    requires ValidIdentity(cfg) && 2 <= cfg.maxDevices && Lists(c, Run(cfg, [d, d], []))
    ensures NoSelfMerge(c.proposals) && c.owners == [] && !Restorable(cfg, c, valid)
  {
    var s := Run(cfg, [d, d], []);
    assert s.ids == [d, d] && s.ids[0] == s.ids[1];
    RunRestorableIff(cfg, [d, d], [], c, valid);
  }

  lemma SelfProposed(cfg: IdentityConfig, s: Identity, d: Device)
    requires ValidIdentity(cfg) && s.devices == {d} && s.edges == map[] && s.proposals == [] && s.nextProposal == 1
    ensures Attempt(cfg, s, ProposeOp(d, d, true)) == Ok(Inserted(s, d, d))
    ensures Inserted(s, d, d).proposals == [Proposal(1, d, d, Pending)]
  {
    assert |s.devices| == 1 && |s.edges| == 0;
  }

  lemma SelfMergeRun(cfg: IdentityConfig, d: Device) returns (ops: seq<IdentityOp>)
    requires ValidIdentity(cfg)
    ensures Run(cfg, [d], ops).proposals == [Proposal(1, d, d, Pending)]
  {
    EnrolAlone(cfg, Run(cfg, [d], []), d);
    StepSnoc(cfg, [d], [], EnrolOp(0, []));
    var enrolled := [] + [EnrolOp(0, [])];
    SelfProposed(cfg, Run(cfg, [d], enrolled), d);
    StepSnoc(cfg, [d], enrolled, ProposeOp(d, d, true));
    ops := enrolled + [ProposeOp(d, d, true)];
  }

  /** The engine accepts a proposal to merge a device with itself, and no checkpoint of that state is restored. */
  lemma SelfMergeAccepted(cfg: IdentityConfig, d: Device, c: Checkpoint, valid: Proposal -> bool) returns (ops: seq<IdentityOp>)
    requires ValidIdentity(cfg)
    ensures Run(cfg, [d], ops).proposals == [Proposal(1, d, d, Pending)]
    ensures Lists(c, Run(cfg, [d], ops)) ==> !Restorable(cfg, c, valid)
  {
    ops := SelfMergeRun(cfg, d);
    assert Proposal(1, d, d, Pending) in Run(cfg, [d], ops).proposals;
    if Lists(c, Run(cfg, [d], ops)) {
      RunRestorableIff(cfg, [d], ops, c, valid);
    }
  }
}
