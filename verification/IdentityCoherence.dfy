/** What every operation keeps: the audit determines each status, and edges mirror the accepted proposals. */
module IdentityCoherence {
  import opened IdentityGraph
  import opened IdentityModel

  /** The actions recorded for one proposal, in order. */
  ghost function Actions(audit: seq<AuditRecord>, id: nat): seq<Status> {
    if audit == [] then []
    else
      var a, before := audit[|audit| - 1], Actions(audit[..|audit| - 1], id);
      if a.proposal == id then before + [a.action] else before
  }

  /** The only history a proposal of this status can have. */
  ghost function History(status: Status): seq<Status> {
    match status
    case Pending => []
    case Accepted => [Accepted]
    case Rejected => [Rejected]
    case Undone => [Accepted, Undone]
  }

  ghost predicate Known(proposals: seq<Proposal>, id: nat) {
    exists p :: p in proposals && p.id == id
  }

  ghost predicate Sequenced(proposals: seq<Proposal>, next: nat) {
    && 0 < next
    && (forall p :: p in proposals ==> 0 < p.id < next)
    && forall i, j :: 0 <= i < j < |proposals| ==> proposals[i].id < proposals[j].id
  }

  ghost predicate Audited(proposals: seq<Proposal>, audit: seq<AuditRecord>) {
    && (forall p :: p in proposals ==> Actions(audit, p.id) == History(p.status))
    && forall a :: a in audit ==> Known(proposals, a.proposal)
  }

  ghost predicate EdgeOf(p: Proposal, edges: Edges) {
    if p.status == Accepted || p.status == Undone
    then p.id in edges && edges[p.id] == Edge(p.left, p.right, p.status == Accepted)
    else p.id !in edges
  }

  ghost predicate Mirrored(proposals: seq<Proposal>, edges: Edges) {
    && (forall p :: p in proposals ==> EdgeOf(p, edges))
    && forall id :: id in edges ==> Known(proposals, id)
  }

  ghost predicate Housed(s: Identity) {
    && (forall p :: p in s.proposals ==> p.left in s.devices && p.right in s.devices)
    && forall d :: d in s.owners ==> d in s.devices
  }

  ghost predicate Coherent(s: Identity) {
    && Sequenced(s.proposals, s.nextProposal)
    && Audited(s.proposals, s.audit)
    && Mirrored(s.proposals, s.edges)
    && Housed(s)
  }

  /** Proposal ids are unique. */
  lemma SameIdSame(ps: seq<Proposal>, next: nat, p: Proposal, q: Proposal)
    requires Sequenced(ps, next) && p in ps && q in ps && p.id == q.id
    ensures p == q
  {
    var i :| 0 <= i < |ps| && ps[i] == p;
    var j :| 0 <= j < |ps| && ps[j] == q;
  }

  /** An accepted proposal names the two devices. */
  ghost predicate Merged(proposals: seq<Proposal>, x: Device, y: Device) {
    exists p :: p in proposals && p.status == Accepted && Joins(Edge(p.left, p.right, true), x, y)
  }

  /** Two devices are adjacent exactly when an accepted proposal names them. */
  lemma AdjacentIffAccepted(s: Identity, x: Device, y: Device)
    requires Mirrored(s.proposals, s.edges)
    ensures Adjacent(s.edges, x, y) <==> Merged(s.proposals, x, y)
  {
    if Adjacent(s.edges, x, y) {
      var id :| id in s.edges && Joins(s.edges[id], x, y);
      var p :| p in s.proposals && p.id == id;
      assert EdgeOf(p, s.edges);
    }
    if p :| p in s.proposals && p.status == Accepted && Joins(Edge(p.left, p.right, true), x, y) {
      assert EdgeOf(p, s.edges);
      assert p.id in s.edges && Joins(s.edges[p.id], x, y);
    }
  }

  /** A class never leaves the known devices. */
  lemma ClassKnown(s: Identity, x: Device, y: Device)
    requires Coherent(s) && x in s.devices && Connected(s.edges, x, y)
    ensures y in s.devices
  {
    var known := iset d | d in s.devices;
    forall u, v | u in known && Adjacent(s.edges, u, v) ensures v in known {
      AdjacentIffAccepted(s, u, v);
    }
    ClosedStays(s.edges, known, x, y);
  }

  // ---------------------------------------------------------------- proposing

  lemma {:induction false} UnknownSilent(audit: seq<AuditRecord>, id: nat)
    requires forall a :: a in audit ==> a.proposal != id
    ensures Actions(audit, id) == []
  {
    if audit != [] {
      UnknownSilent(audit[..|audit| - 1], id);
    }
  }

  lemma InsertedCoherent(s: Identity, left: Device, right: Device)
    requires Coherent(s) && left in s.devices && right in s.devices
    ensures Coherent(Inserted(s, left, right))
  {
    var p := Proposal(s.nextProposal, left, right, Pending);
    assert !Known(s.proposals, p.id);
    UnknownSilent(s.audit, p.id);
    forall q | q in s.proposals ensures q in s.proposals + [p] {
    }
    forall id | Known(s.proposals, id) ensures Known(s.proposals + [p], id) {
      var q :| q in s.proposals && q.id == id;
      assert q in s.proposals + [p];
    }
  }

  lemma {:induction false} InsertAllCoherent(s: Identity, matches: seq<Device>, other: Device)
    requires Coherent(s) && other in s.devices && forall d :: d in matches ==> d in s.devices
    ensures Coherent(InsertAll(s, matches, other)) && InsertAll(s, matches, other).devices == s.devices
  {
    if matches != [] {
      InsertAllCoherent(s, matches[..|matches| - 1], other);
      InsertedCoherent(InsertAll(s, matches[..|matches| - 1], other), matches[|matches| - 1], other);
    }
  }

  lemma AdmittedCoherent(s: Identity)
    requires Coherent(s) && s.ids != []
    ensures Coherent(Admitted(s))
  {
  }

  // ---------------------------------------------------------------- deciding and undoing

  lemma ActionsSnoc(audit: seq<AuditRecord>, a: AuditRecord, id: nat)
    ensures Actions(audit + [a], id) == if a.proposal == id then Actions(audit, id) + [a.action] else Actions(audit, id)
  {
    assert (audit + [a])[..|audit|] == audit;
  }

  /** A legal change of one proposal's status. */
  ghost predicate Legal(before: Status, after: Status) {
    (before == Pending && (after == Accepted || after == Rejected)) || (before == Accepted && after == Undone)
  }

  lemma MarkedKnown(s: Identity, i: nat, status: Status, id: nat)
    requires i < |s.proposals|
    ensures Known(Marked(s, i, status).proposals, id) <==> Known(s.proposals, id)
  {
    var ps, qs := s.proposals, Marked(s, i, status).proposals;
    if p :| p in ps && p.id == id {
      var j :| 0 <= j < |ps| && ps[j] == p;
      assert qs[j] in qs && qs[j].id == id;
    }
    if q :| q in qs && q.id == id {
      var j :| 0 <= j < |qs| && qs[j] == q;
      assert ps[j] in ps && ps[j].id == id;
    }
  }

  lemma MarkedSequenced(s: Identity, i: nat, status: Status)
    requires i < |s.proposals| && Sequenced(s.proposals, s.nextProposal)
    ensures Sequenced(Marked(s, i, status).proposals, s.nextProposal)
    ensures forall q :: q in Marked(s, i, status).proposals ==>
              q == s.proposals[i].(status := status) || (q in s.proposals && q.id != s.proposals[i].id)
    ensures forall id :: Known(Marked(s, i, status).proposals, id) <==> Known(s.proposals, id)
  {
    var ps, qs := s.proposals, Marked(s, i, status).proposals;
    assert ps[i] in ps;
    forall q | q in qs ensures q == ps[i].(status := status) || (q in ps && q.id != ps[i].id) {
      var j :| 0 <= j < |qs| && qs[j] == q;
      assert j != i ==> qs[j] == ps[j];
    }
    forall id ensures Known(qs, id) <==> Known(ps, id) {
      MarkedKnown(s, i, status, id);
    }
  }

  lemma MarkedAudited(s: Identity, i: nat, status: Status)
    requires i < |s.proposals| && Sequenced(s.proposals, s.nextProposal) && Audited(s.proposals, s.audit)
    requires Legal(s.proposals[i].status, status)
    ensures Audited(Marked(s, i, status).proposals, Marked(s, i, status).audit)
  {
    MarkedSequenced(s, i, status);
    var after := Marked(s, i, status);
    var a := AuditRecord(s.proposals[i].id, status);
    assert after.audit == s.audit + [a];
    assert s.proposals[i] in s.proposals;
    assert History(s.proposals[i].status) + [status] == History(status);
    forall q | q in after.proposals ensures Actions(after.audit, q.id) == History(q.status) {
      ActionsSnoc(s.audit, a, q.id);
    }
    forall b | b in after.audit ensures Known(after.proposals, b.proposal) {
      assert b in s.audit || b == a;
      assert Known(s.proposals, b.proposal);
    }
  }

  lemma MarkedMirrored(s: Identity, i: nat, status: Status, edges: Edges)
    requires i < |s.proposals| && Sequenced(s.proposals, s.nextProposal) && Mirrored(s.proposals, s.edges)
    requires EdgeOf(s.proposals[i].(status := status), edges)
    requires forall id :: id != s.proposals[i].id ==> (id in edges <==> id in s.edges)
    requires forall id :: id != s.proposals[i].id && id in edges ==> edges[id] == s.edges[id]
    ensures Mirrored(Marked(s, i, status).proposals, edges)
  {
    MarkedSequenced(s, i, status);
    assert s.proposals[i] in s.proposals;
    assert Known(s.proposals, s.proposals[i].id);
  }

  lemma MarkedHoused(s: Identity, i: nat, status: Status)
    requires i < |s.proposals| && Sequenced(s.proposals, s.nextProposal) && Housed(s)
    ensures Housed(Marked(s, i, status))
  {
    MarkedSequenced(s, i, status);
    assert s.proposals[i] in s.proposals;
  }

  lemma MarkedCoherent(s: Identity, i: nat, status: Status, edges: Edges)
    requires i < |s.proposals| && Coherent(s) && Legal(s.proposals[i].status, status)
    requires EdgeOf(s.proposals[i].(status := status), edges)
    requires forall id :: id != s.proposals[i].id ==> (id in edges <==> id in s.edges)
    requires forall id :: id != s.proposals[i].id && id in edges ==> edges[id] == s.edges[id]
    ensures Coherent(Marked(s.(edges := edges), i, status))
  {
    MarkedSequenced(s, i, status);
    MarkedAudited(s, i, status);
    MarkedMirrored(s, i, status, edges);
    MarkedHoused(s, i, status);
  }

  lemma AcceptCoherent(s: Identity, i: nat)
    requires i < |s.proposals| && Coherent(s) && s.proposals[i].status == Pending
    ensures Coherent(AcceptAt(s, i))
  {
    var p := s.proposals[i];
    MarkedCoherent(s, i, Accepted, s.edges[p.id := Edge(p.left, p.right, true)]);
  }

  lemma RejectCoherent(s: Identity, i: nat)
    requires i < |s.proposals| && Coherent(s) && s.proposals[i].status == Pending
    ensures Coherent(Marked(s, i, Rejected))
  {
    assert s.proposals[i] in s.proposals && EdgeOf(s.proposals[i], s.edges);
    MarkedCoherent(s, i, Rejected, s.edges);
  }

  lemma DecideCoherent(cfg: IdentityConfig, s: Identity, id: nat, accept: bool)
    requires Coherent(s) && Decide(cfg, s, id, accept).Ok?
    ensures Coherent(Decide(cfg, s, id, accept).value)
  {
    var i := Position(s.proposals, id, Pending);
    if accept {
      AcceptCoherent(s, i);
    } else {
      RejectCoherent(s, i);
    }
  }

  lemma UndoCoherent(cfg: IdentityConfig, s: Identity, id: nat)
    requires Coherent(s) && Undo(cfg, s, id).Ok?
    ensures Coherent(Undo(cfg, s, id).value)
  {
    var i := Position(s.proposals, id, Accepted);
    var p := s.proposals[i];
    assert p in s.proposals && EdgeOf(p, s.edges);
    MarkedCoherent(s, i, Undone, s.edges[id := s.edges[id].(active := false)]);
  }
}
