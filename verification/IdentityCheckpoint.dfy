/** Restoring an identity checkpoint: the checks in loops accept exactly the coherent states. */
module IdentityCheckpoint {
  import opened Wrappers
  import opened Sequences
  import opened IdentityGraph
  import opened IdentityModel
  import opened IdentityCoherence

  datatype CheckpointEdge = CheckpointEdge(proposal: nat, edge: Edge)

  /** `ok` says whether the key and value of the annotation pass their own checks. */
  datatype OwnerRecord = OwnerRecord(sequence: nat, device: Device, ok: bool)

  /** How many facts a device has; `ok` says whether each of them passes its own checks. */
  datatype StoredFacts = StoredFacts(device: Device, count: nat, ok: bool)

  /** `ids` are the identifiers still to be handed out, `facts` the devices with what is stored for them. */
  datatype Checkpoint = Checkpoint(
    version: nat,
    ids: seq<Device>,
    facts: seq<StoredFacts>,
    proposals: seq<Proposal>,
    edges: seq<CheckpointEdge>,
    audit: seq<AuditRecord>,
    owners: seq<OwnerRecord>,
    nextProposal: nat,
    nextOwner: nat)

  // ---------------------------------------------------------------- devices and owners

  predicate WithinCapacity(cfg: IdentityConfig, c: Checkpoint) {
    && ValidIdentity(cfg) && c.version == 1 && c.nextProposal != 0 && c.nextOwner != 0
    && |c.ids| <= cfg.maxDevices && |c.facts| <= cfg.maxDevices && |c.proposals| <= cfg.maxProposals
    && |c.edges| <= cfg.maxMergeEdges && |c.audit| <= cfg.maxAuditRecords && |c.owners| <= cfg.maxAuditRecords
    && |c.facts| + |c.ids| <= cfg.maxDevices
  }

  function Named(facts: seq<StoredFacts>): (r: seq<Device>)
    ensures |r| == |facts| && forall i :: 0 <= i < |facts| ==> r[i] == facts[i].device
  {
    if facts == [] then [] else Named(facts[..|facts| - 1]) + [facts[|facts| - 1].device]
  }

  predicate FactsValid(cfg: IdentityConfig, facts: seq<StoredFacts>) {
    forall f :: f in facts ==> f.count <= cfg.maxFacts && f.ok
  }

  /** Adds the listed devices to the known ones, refusing any that is known already. */
  method Learn(known: set<Device>, list: seq<Device>) returns (ok: bool, after: set<Device>)
    ensures ok <==> NoRepeats(list) && forall d :: d in list ==> d !in known
    ensures ok ==> after == known + Elements(list)
  {
    after := known;
    for i := 0 to |list|
      invariant after == known + Elements(list[..i])
      invariant NoRepeats(list[..i]) && forall d :: d in list[..i] ==> d !in known
    {
      assert list[i] in list;
      assert forall j :: 0 <= j < i ==> list[j] in list[..i];
      if list[i] in after {
        return false, after;
      }
      assert list[..i + 1] == list[..i] + [list[i]];
      after := after + {list[i]};
    }
    assert list[..|list|] == list;
    return true, after;
  }

  ghost predicate OwnersSequenced(owners: seq<OwnerRecord>, devices: set<Device>, next: nat) {
    && 0 < next && (forall o :: o in owners ==> 0 < o.sequence < next && o.device in devices && o.ok)
    && forall i, j :: 0 <= i < j < |owners| ==> owners[i].sequence < owners[j].sequence
  }

  method CheckOwners(owners: seq<OwnerRecord>, devices: set<Device>, next: nat) returns (ok: bool)
    ensures ok <==> OwnersSequenced(owners, devices, next)
  {
    if next == 0 {
      return false;
    }
    var last := 0;
    for i := 0 to |owners|
      invariant forall j :: 0 <= j < i ==> 0 < owners[j].sequence <= last && owners[j].device in devices && owners[j].ok
      invariant forall j, k :: 0 <= j < k < i ==> owners[j].sequence < owners[k].sequence
      invariant last == if i == 0 then 0 else owners[i - 1].sequence
    {
      var o := owners[i];
      assert o in owners;
      if o.sequence == 0 || o.sequence <= last || o.device !in devices || !o.ok {
        return false;
      }
      last := o.sequence;
    }
    return last < next;
  }

  // ---------------------------------------------------------------- proposals

  ghost predicate ProposalsHoused(proposals: seq<Proposal>, devices: set<Device>) {
    forall p :: p in proposals ==> p.left in devices && p.right in devices
  }

  ghost predicate NoSelfMerge(proposals: seq<Proposal>) {
    forall p :: p in proposals ==> p.left != p.right
  }

  method CheckProposals(proposals: seq<Proposal>, devices: set<Device>, next: nat) returns (ok: bool)
    ensures ok <==> Sequenced(proposals, next) && ProposalsHoused(proposals, devices) && NoSelfMerge(proposals)
  {
    if next == 0 {
      return false;
    }
    var last := 0;
    for i := 0 to |proposals|
      invariant forall j :: 0 <= j < i ==>
                  && 0 < proposals[j].id <= last && proposals[j].left in devices && proposals[j].right in devices
                  && proposals[j].left != proposals[j].right
      invariant forall j, k :: 0 <= j < k < i ==> proposals[j].id < proposals[k].id
      invariant last == if i == 0 then 0 else proposals[i - 1].id
    {
      var p := proposals[i];
      assert p in proposals;
      if p.id == 0 || p.left !in devices || p.right !in devices || p.left == p.right || p.id <= last {
        return false;
      }
      last := p.id;
    }
    if next <= last {
      return false;
    }
    return true;
  }

  // ---------------------------------------------------------------- edges

  ghost predicate Distinct(list: seq<CheckpointEdge>) {
    forall i, j :: 0 <= i < j < |list| ==> list[i].proposal != list[j].proposal
  }

  ghost function EdgeMap(list: seq<CheckpointEdge>): Edges {
    if list == [] then map[]
    else EdgeMap(list[..|list| - 1])[list[|list| - 1].proposal := list[|list| - 1].edge]
  }

  ghost predicate EdgesHoused(list: seq<CheckpointEdge>, devices: set<Device>) {
    forall e :: e in list ==> e.edge.a in devices && e.edge.b in devices
  }

  method BuildEdges(list: seq<CheckpointEdge>, devices: set<Device>) returns (ok: bool, edges: Edges)
    ensures ok <==> Distinct(list) && EdgesHoused(list, devices)
    ensures ok ==> edges == EdgeMap(list)
  {
    edges := map[];
    for i := 0 to |list|
      invariant edges == EdgeMap(list[..i])
      invariant Distinct(list[..i]) && EdgesHoused(list[..i], devices)
      invariant forall id :: id in edges <==> exists j :: 0 <= j < i && list[j].proposal == id
    {
      var e := list[i];
      assert e in list;
      if e.proposal in edges || e.edge.a !in devices || e.edge.b !in devices {
        return false, edges;
      }
      assert list[..i + 1][..i] == list[..i];
      assert list[..i + 1] == list[..i] + [e];
      edges := edges[e.proposal := e.edge];
    }
    assert list[..|list|] == list;
    return true, edges;
  }

  // ---------------------------------------------------------------- audit

  lemma {:induction false} ActionsPrefix(audit: seq<AuditRecord>, k: nat, id: nat)
    requires k <= |audit|
    ensures Actions(audit[..k], id) <= Actions(audit, id)
  {
    if k < |audit| {
      assert audit[..|audit| - 1][..k] == audit[..k];
      ActionsPrefix(audit[..|audit| - 1], k, id);
    } else {
      assert audit[..k] == audit;
    }
  }

  /** What the loop may see next when the whole history is the one its status allows. */
  lemma NextAction(before: Status, action: Status, status: Status)
    requires History(before) + [action] <= History(status)
    ensures Legal(before, action) && (status == action || (action == Accepted && status == Undone))
  {
    var seen, whole := History(before) + [action], History(status);
    assert forall i :: 0 <= i < |seen| ==> seen[i] == whole[i];
    assert seen[|seen| - 1] == action;
    if before != Pending {
      assert seen[0] == History(before)[0];
    }
  }

  function Prior(prior: map<nat, Status>, id: nat): Status {
    if id in prior then prior[id] else Pending
  }

  method FindProposal(proposals: seq<Proposal>, id: nat) returns (found: Option<Proposal>)
    ensures found.Some? <==> Known(proposals, id)
    ensures found.Some? ==> found.value in proposals && found.value.id == id
  {
    for i := 0 to |proposals|
      invariant forall p :: p in proposals[..i] ==> p.id != id
    {
      if proposals[i].id == id {
        return Some(proposals[i]);
      }
    }
    assert proposals[..|proposals|] == proposals;
    return None;
  }

  ghost predicate Replayed(audit: seq<AuditRecord>, prior: map<nat, Status>) {
    forall id :: Actions(audit, id) == History(Prior(prior, id))
  }

  lemma ReplayStep(audit: seq<AuditRecord>, prior: map<nat, Status>, a: AuditRecord)
    requires Replayed(audit, prior) && Legal(Prior(prior, a.proposal), a.action)
    ensures Replayed(audit + [a], prior[a.proposal := a.action])
  {
    var after := prior[a.proposal := a.action];
    forall id ensures Actions(audit + [a], id) == History(Prior(after, id)) {
      ActionsSnoc(audit, a, id);
      assert History(Prior(prior, a.proposal)) + [a.action] == History(a.action);
    }
  }

  /** A record the loop refuses is one no coherent audit holds. */
  lemma NextRecord(audit: seq<AuditRecord>, k: nat, id: nat, before: Status, status: Status)
    requires k < |audit| && id == audit[k].proposal
    requires Actions(audit[..k], id) == History(before) && Actions(audit, id) == History(status)
    ensures Legal(before, audit[k].action)
    ensures status == audit[k].action || (audit[k].action == Accepted && status == Undone)
  {
    assert audit[..k + 1] == audit[..k] + [audit[k]];
    ActionsSnoc(audit[..k], audit[k], id);
    ActionsPrefix(audit, k + 1, id);
    NextAction(before, audit[k].action, status);
  }

  method CheckAudit(proposals: seq<Proposal>, audit: seq<AuditRecord>) returns (ok: bool)
    ensures ok <==> Audited(proposals, audit)
  {
    var prior: map<nat, Status> := map[];
    for k := 0 to |audit|
      invariant Replayed(audit[..k], prior)
      invariant forall a :: a in audit[..k] ==> Known(proposals, a.proposal)
    {
      var a := audit[k];
      assert a in audit;
      var found := FindProposal(proposals, a.proposal);
      if found.None? {
        return false;
      }
      var p, before := found.value, Prior(prior, a.proposal);
      var legal := (before == Pending && (a.action == Accepted || a.action == Rejected))
                   || (before == Accepted && a.action == Undone);
      if !legal || (p.status != a.action && !(a.action == Accepted && p.status == Undone)) {
        assert !Audited(proposals, audit) by {
          if Audited(proposals, audit) {
            NextRecord(audit, k, p.id, before, p.status);
          }
        }
        return false;
      }
      ReplayStep(audit[..k], prior, a);
      assert audit[..k + 1] == audit[..k] + [a];
      prior := prior[a.proposal := a.action];
    }
    assert audit[..|audit|] == audit;
    ok := CheckStatuses(proposals, audit, prior);
  }

  lemma HistoryInjective(a: Status, b: Status)
    requires History(a) == History(b)
    ensures a == b
  {
    if History(a) != [] {
      assert History(a)[0] == History(b)[0];
    }
  }

  method CheckStatuses(proposals: seq<Proposal>, ghost audit: seq<AuditRecord>, prior: map<nat, Status>)
    returns (ok: bool)
    requires Replayed(audit, prior)
    ensures ok <==> forall p :: p in proposals ==> Actions(audit, p.id) == History(p.status)
  {
    for i := 0 to |proposals|
      invariant forall p :: p in proposals[..i] ==> Prior(prior, p.id) == p.status
    {
      var p := proposals[i];
      if Prior(prior, p.id) != p.status {
        assert p in proposals && Actions(audit, p.id) == History(Prior(prior, p.id));
        assert Actions(audit, p.id) != History(p.status) by {
          if History(Prior(prior, p.id)) == History(p.status) {
            HistoryInjective(Prior(prior, p.id), p.status);
          }
        }
        return false;
      }
      assert proposals[..i + 1] == proposals[..i] + [p];
    }
    assert proposals[..|proposals|] == proposals;
    return true;
  }

  // ---------------------------------------------------------------- edges against proposals

  ghost predicate EdgeBacked(id: nat, edges: Edges, proposals: seq<Proposal>)
    requires id in edges
  {
    exists p :: p in proposals && p.id == id && (p.status == Accepted || p.status == Undone)
      && edges[id] == Edge(p.left, p.right, p.status == Accepted)
  }

  lemma BackedIffMirrored(proposals: seq<Proposal>, edges: Edges, next: nat)
    requires Sequenced(proposals, next)
    ensures (forall id :: id in edges ==> EdgeBacked(id, edges, proposals)) && (forall p :: p in proposals ==> EdgePresence(p, edges))
            <==> Mirrored(proposals, edges)
  {
    if (forall id :: id in edges ==> EdgeBacked(id, edges, proposals)) && forall p :: p in proposals ==> EdgePresence(p, edges) {
      forall p | p in proposals ensures EdgeOf(p, edges) {
        if p.id in edges {
          assert EdgeBacked(p.id, edges, proposals);
          var q :| q in proposals && q.id == p.id && (q.status == Accepted || q.status == Undone)
                   && edges[p.id] == Edge(q.left, q.right, q.status == Accepted);
          SameIdSame(proposals, next, p, q);
        }
      }
      forall id | id in edges ensures Known(proposals, id) {
        assert EdgeBacked(id, edges, proposals);
      }
    }
    if Mirrored(proposals, edges) {
      forall id | id in edges ensures EdgeBacked(id, edges, proposals) {
        var p :| p in proposals && p.id == id;
        assert EdgeOf(p, edges);
      }
      forall p | p in proposals ensures EdgePresence(p, edges) {
        assert EdgeOf(p, edges);
      }
    }
  }

  predicate EdgePresence(p: Proposal, edges: Edges) {
    (p.status == Accepted || p.status == Undone) <==> p.id in edges
  }

  method CheckEdges(proposals: seq<Proposal>, edges: Edges, ghost next: nat) returns (ok: bool)
    requires Sequenced(proposals, next)
    ensures ok <==> Mirrored(proposals, edges)
  {
    BackedIffMirrored(proposals, edges, next);
    var rest := edges.Keys;
    while rest != {}
      invariant rest <= edges.Keys
      invariant forall id :: id in edges && id !in rest ==> EdgeBacked(id, edges, proposals)
      decreases rest
    {
      var id :| id in rest;
      rest := rest - {id};
      var found := FindProposal(proposals, id);
      if found.None? {
        assert !EdgeBacked(id, edges, proposals);
        return false;
      }
      var p, e := found.value, edges[id];
      if e.active != (p.status == Accepted) || e.a != p.left || e.b != p.right
         || !(p.status == Accepted || p.status == Undone) {
        assert !EdgeBacked(id, edges, proposals) by {
          forall q | q in proposals && q.id == id ensures q == p {
            SameIdSame(proposals, next, p, q);
          }
        }
        return false;
      }
    }
    for i := 0 to |proposals|
      invariant forall p :: p in proposals[..i] ==> EdgePresence(p, edges)
    {
      if !EdgePresence(proposals[i], edges) {
        assert proposals[i] in proposals;
        return false;
      }
      assert proposals[..i + 1] == proposals[..i] + [proposals[i]];
    }
    assert proposals[..|proposals|] == proposals;
    return true;
  }

  // ---------------------------------------------------------------- restoring

  function OwnedDevices(owners: seq<OwnerRecord>): (r: seq<Device>)
    ensures |r| == |owners| && forall i :: 0 <= i < |owners| ==> r[i] == owners[i].device
  {
    if owners == [] then [] else OwnedDevices(owners[..|owners| - 1]) + [owners[|owners| - 1].device]
  }

  ghost function Restored(c: Checkpoint): Identity {
    Identity(c.ids, Elements(Named(c.facts)), c.proposals, EdgeMap(c.edges), c.audit, OwnedDevices(c.owners), c.nextProposal)
  }

  ghost predicate AllValid(proposals: seq<Proposal>, valid: Proposal -> bool) {
    forall p :: p in proposals ==> valid(p)
  }

  /**
   What a restorable checkpoint is: within capacity, nothing listed twice, its parts in agreement, and every
   proposal between two devices. `valid` says which proposals have a valid score, families and reasons.
   */
  ghost predicate Restorable(cfg: IdentityConfig, c: Checkpoint, valid: Proposal -> bool) {
    && WithinCapacity(cfg, c)
    && NoRepeats(c.ids) && NoRepeats(Named(c.facts)) && (forall d :: d in Named(c.facts) ==> d !in c.ids)
    && FactsValid(cfg, c.facts)
    && AllValid(c.proposals, valid) && NoSelfMerge(c.proposals) && Distinct(c.edges)
    && OwnersSequenced(c.owners, Elements(Named(c.facts)), c.nextOwner)
    && Coherent(Restored(c))
  }

  lemma {:induction false} EdgeMapHas(list: seq<CheckpointEdge>, e: CheckpointEdge)
    requires Distinct(list) && e in list
    ensures e.proposal in EdgeMap(list) && EdgeMap(list)[e.proposal] == e.edge
  {
    var init, last := list[..|list| - 1], list[|list| - 1];
    if e in init {
      EdgeMapHas(init, e);
      var i :| 0 <= i < |init| && init[i] == e;
      assert list[i] == e && list[|list| - 1] == last;
    } else {
      assert list == init + [last];
    }
  }

  lemma MirroredHoused(c: Checkpoint, devices: set<Device>)
    requires Distinct(c.edges) && Mirrored(c.proposals, EdgeMap(c.edges)) && ProposalsHoused(c.proposals, devices)
    ensures EdgesHoused(c.edges, devices)
  {
    forall e | e in c.edges ensures e.edge.a in devices && e.edge.b in devices {
      EdgeMapHas(c.edges, e);
      var p :| p in c.proposals && p.id == e.proposal;
      assert EdgeOf(p, EdgeMap(c.edges));
    }
  }

  lemma OwnersHoused(c: Checkpoint)
    requires OwnersSequenced(c.owners, Elements(Named(c.facts)), c.nextOwner)
    ensures Coherent(Restored(c)) <==>
            && Sequenced(c.proposals, c.nextProposal) && ProposalsHoused(c.proposals, Elements(Named(c.facts)))
            && Audited(c.proposals, c.audit) && Mirrored(c.proposals, EdgeMap(c.edges))
  {
    forall d | d in OwnedDevices(c.owners) ensures d in Elements(Named(c.facts)) {
      var i :| 0 <= i < |c.owners| && OwnedDevices(c.owners)[i] == d;
      assert c.owners[i] in c.owners;
    }
  }

  /** The checks on proposals, edges and audit, once the devices are known. */
  method CheckGraph(c: Checkpoint, devices: set<Device>) returns (ok: bool, edges: Edges)
    ensures ok <==>
            && Sequenced(c.proposals, c.nextProposal) && ProposalsHoused(c.proposals, devices) && NoSelfMerge(c.proposals)
            && Distinct(c.edges) && Audited(c.proposals, c.audit) && Mirrored(c.proposals, EdgeMap(c.edges))
    ensures ok ==> edges == EdgeMap(c.edges)
  {
    var proposalsOk := CheckProposals(c.proposals, devices, c.nextProposal);
    if !proposalsOk {
      return false, map[];
    }
    var edgesOk;
    edgesOk, edges := BuildEdges(c.edges, devices);
    if !edgesOk {
      assert !(Distinct(c.edges) && Mirrored(c.proposals, EdgeMap(c.edges))) by {
        if Distinct(c.edges) && Mirrored(c.proposals, EdgeMap(c.edges)) {
          MirroredHoused(c, devices);
        }
      }
      return false, map[];
    }
    var auditOk := CheckAudit(c.proposals, c.audit);
    if !auditOk {
      return false, edges;
    }
    ok := CheckEdges(c.proposals, edges, c.nextProposal);
  }

  /** A checkpoint is restored, to the state it lists, exactly when it is restorable. */
  method FromCheckpoint(cfg: IdentityConfig, c: Checkpoint, valid: Proposal -> bool) returns (r: Option<Identity>)
    ensures r.Some? <==> Restorable(cfg, c, valid)
    ensures r.Some? ==> r.value == Restored(c)
  {
    if !WithinCapacity(cfg, c) {
      return None;
    }
    var idsOk, known := Learn({}, c.ids);
    if !idsOk {
      return None;
    }
    var factsOk;
    factsOk, known := Learn(known, Named(c.facts));
    if !factsOk || !FactsValid(cfg, c.facts) {
      return None;
    }
    var devices := Elements(Named(c.facts));
    if exists p :: p in c.proposals && !valid(p) {
      return None;
    }
    var ownersOk := CheckOwners(c.owners, devices, c.nextOwner);
    if !ownersOk {
      return None;
    }
    OwnersHoused(c);
    var graphOk, edges := CheckGraph(c, devices);
    if !graphOk {
      return None;
    }
    return Some(Identity(c.ids, devices, c.proposals, edges, c.audit, OwnedDevices(c.owners), c.nextProposal));
  }
}
