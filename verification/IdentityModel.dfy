/** The identity engine as values: identifiers to hand out, known devices, merge proposals, edges and the audit trail. */
module IdentityModel {
  import opened Wrappers
  import opened Naturals
  import opened IdentityGraph

  datatype Status = Pending | Accepted | Rejected | Undone

  datatype Proposal = Proposal(id: nat, left: Device, right: Device, status: Status)

  datatype AuditRecord = AuditRecord(proposal: nat, action: Status)

  datatype IdentityError = DeviceNotFound | Capacity | InvalidInput | ProposalNotFound | CannotUndo | IdSourceExhausted

  datatype IdentityConfig = IdentityConfig(
    maxDevices: nat, maxFacts: nat, maxProposals: nat, maxMergeEdges: nat, maxAuditRecords: nat, maxWork: nat)

  predicate ValidIdentity(cfg: IdentityConfig) {
    && 0 < cfg.maxDevices && 0 < cfg.maxFacts && 0 < cfg.maxProposals && 0 < cfg.maxMergeEdges
    && 0 < cfg.maxAuditRecords && 0 < cfg.maxWork
  }

  /**
   `ids` are the identifiers still to be handed out, the next one first; `owners` holds, for each owner annotation,
   the device it was recorded on.
   */
  datatype Identity = Identity(
    ids: seq<Device>,
    devices: set<Device>,
    proposals: seq<Proposal>,
    edges: Edges,
    audit: seq<AuditRecord>,
    owners: seq<Device>,
    nextProposal: nat)

  /** As many identifiers of the source as there may be devices. */
  function Supply(cfg: IdentityConfig, source: seq<Device>): seq<Device> {
    if |source| <= cfg.maxDevices then source else source[..cfg.maxDevices]
  }

  function NewIdentity(cfg: IdentityConfig, source: seq<Device>): Identity {
    Identity(Supply(cfg, source), {}, [], map[], [], [], 1)
  }

  // ---------------------------------------------------------------- queries

  function GraphWork(s: Identity): nat {
    |s.devices| * Max(|s.edges|, 1)
  }

  function ComponentRefusal(cfg: IdentityConfig, s: Identity, id: Device): Option<IdentityError> {
    if id !in s.devices then Some(DeviceNotFound)
    else if GraphWork(s) > cfg.maxWork then Some(Capacity)
    else None
  }

  /** The least device of the class, when the work bound admits the query. */
  ghost function Resolve(cfg: IdentityConfig, s: Identity, id: Device): Result<Device, IdentityError> {
    match ComponentRefusal(cfg, s, id)
    case Some(e) => Err(e)
    case None => Ok(Root(s.edges, id))
  }

  // ---------------------------------------------------------------- proposals

  function ProposalsRefusal(cfg: IdentityConfig, s: Identity, n: nat): Option<IdentityError> {
    if |s.proposals| + n > cfg.maxProposals || (n > 0 && s.nextProposal + n > 0xffff_ffff_ffff_ffff) then Some(Capacity)
    else None
  }

  function Inserted(s: Identity, left: Device, right: Device): Identity {
    s.(proposals := s.proposals + [Proposal(s.nextProposal, left, right, Pending)], nextProposal := s.nextProposal + 1)
  }

  /** `valid` says whether the score, families and reasons pass their own checks. */
  function Propose(cfg: IdentityConfig, s: Identity, a: Device, b: Device, valid: bool): Result<Identity, IdentityError> {
    match ComponentRefusal(cfg, s, a)
    case Some(e) => Err(e)
    case None =>
      match ComponentRefusal(cfg, s, b)
      case Some(e) => Err(e)
      case None =>
        if !valid then Err(InvalidInput)
        else
          match ProposalsRefusal(cfg, s, 1)
          case Some(e) => Err(e)
          case None => Ok(Inserted(s, a, b))
  }

  function InsertAll(s: Identity, matches: seq<Device>, other: Device): Identity {
    if matches == [] then s
    else Inserted(InsertAll(s, matches[..|matches| - 1], other), matches[|matches| - 1], other)
  }

  function ComponentsRefusal(cfg: IdentityConfig, s: Identity): Option<IdentityError> {
    if |s.edges| > cfg.maxMergeEdges then Some(Capacity)
    else if s.devices != {} && GraphWork(s) > cfg.maxWork then Some(Capacity)
    else None
  }

  /** The next identifier becomes a device. */
  function Admitted(s: Identity): Identity
    requires s.ids != []
  {
    s.(ids := s.ids[1..], devices := s.devices + {s.ids[0]})
  }

  /** A new device with `incoming` facts is proposed for merging with the root of every class its evidence matches. */
  function Enrol(cfg: IdentityConfig, s: Identity, incoming: nat, matches: seq<Device>): Result<Identity, IdentityError> {
    if incoming > cfg.maxFacts || |s.devices| >= cfg.maxDevices then Err(Capacity)
    else if ComponentsRefusal(cfg, s).Some? then Err(ComponentsRefusal(cfg, s).value)
    else if ProposalsRefusal(cfg, s, |matches|).Some? then Err(ProposalsRefusal(cfg, s, |matches|).value)
    else if s.ids == [] then Err(IdSourceExhausted)
    else if s.ids[0] in s.devices then Err(InvalidInput)
    else Ok(InsertAll(Admitted(s), matches, s.ids[0]))
  }

  // ---------------------------------------------------------------- decisions

  function Marked(s: Identity, i: nat, status: Status): Identity
    requires i < |s.proposals|
  {
    s.(proposals := s.proposals[i := s.proposals[i].(status := status)],
       audit := s.audit + [AuditRecord(s.proposals[i].id, status)])
  }

  function AcceptAt(s: Identity, i: nat): Identity
    requires i < |s.proposals|
  {
    var p := s.proposals[i];
    Marked(s.(edges := s.edges[p.id := Edge(p.left, p.right, true)]), i, Accepted)
  }

  function UndoAt(s: Identity, i: nat): Identity
    requires i < |s.proposals|
  {
    var id := s.proposals[i].id;
    Marked(if id in s.edges then s.(edges := s.edges[id := s.edges[id].(active := false)]) else s, i, Undone)
  }

  /** The index of the first proposal with this id and status, or the number of proposals. */
  function Position(proposals: seq<Proposal>, id: nat, status: Status): (i: nat)
    ensures i <= |proposals|
    ensures i < |proposals| ==> proposals[i].id == id && proposals[i].status == status
    ensures forall j :: 0 <= j < i ==> proposals[j].id != id || proposals[j].status != status
  {
    if proposals == [] then 0
    else if proposals[0].id == id && proposals[0].status == status then 0
    else 1 + Position(proposals[1..], id, status)
  }

  function Decide(cfg: IdentityConfig, s: Identity, id: nat, accept: bool): Result<Identity, IdentityError> {
    var i := Position(s.proposals, id, Pending);
    if |s.audit| >= cfg.maxAuditRecords then Err(Capacity)
    else if i == |s.proposals| then Err(ProposalNotFound)
    else if !accept then Ok(Marked(s, i, Rejected))
    else if |s.edges| >= cfg.maxMergeEdges then Err(Capacity)
    else Ok(AcceptAt(s, i))
  }

  function Undo(cfg: IdentityConfig, s: Identity, id: nat): Result<Identity, IdentityError> {
    var i := Position(s.proposals, id, Accepted);
    if |s.audit| >= cfg.maxAuditRecords then Err(Capacity)
    else if i == |s.proposals| then Err(CannotUndo)
    else Ok(UndoAt(s, i))
  }

  /** `keyOk` says whether the annotation's key and value pass their own checks. */
  ghost function Annotate(cfg: IdentityConfig, s: Identity, id: Device, keyOk: bool): Result<Identity, IdentityError> {
    match ComponentRefusal(cfg, s, id)
    case Some(e) => Err(e)
    case None =>
      if !keyOk then Err(InvalidInput)
      else if |s.owners| >= cfg.maxAuditRecords then Err(Capacity)
      else Ok(s.(owners := s.owners + [Root(s.edges, id)]))
  }

  // ---------------------------------------------------------------- eviction

  ghost predicate Touched(s: Identity, d: Device) {
    d in s.owners || exists p :: p in s.proposals && p.status == Pending && (p.left == d || p.right == d)
  }

  /** The devices whose whole class is stale, unannotated and free of pending proposals. */
  ghost predicate IsGone(gone: set<Device>, s: Identity, stale: set<Device>) {
    forall d :: d in gone <==>
      d in s.devices && forall y :: Connected(s.edges, d, y) ==> y in stale && !Touched(s, y)
  }

  function KeptProposals(proposals: seq<Proposal>, gone: set<Device>): seq<Proposal> {
    if proposals == [] then []
    else
      var p, kept := proposals[|proposals| - 1], KeptProposals(proposals[..|proposals| - 1], gone);
      if p.left in gone || p.right in gone then kept else kept + [p]
  }

  predicate Dropped(proposals: seq<Proposal>, gone: set<Device>, id: nat) {
    exists p :: p in proposals && p.id == id && (p.left in gone || p.right in gone)
  }

  function KeptAudit(audit: seq<AuditRecord>, proposals: seq<Proposal>, gone: set<Device>): seq<AuditRecord> {
    if audit == [] then []
    else
      var a, kept := audit[|audit| - 1], KeptAudit(audit[..|audit| - 1], proposals, gone);
      if Dropped(proposals, gone, a.proposal) then kept else kept + [a]
  }

  function Evicted(s: Identity, gone: set<Device>): Identity {
    s.(devices := s.devices - gone, edges := Without(s.edges, gone), proposals := KeptProposals(s.proposals, gone),
       audit := KeptAudit(s.audit, s.proposals, gone))
  }
}
