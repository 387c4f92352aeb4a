/** The probe scheduler's two lanes: round-robin hosts ahead of a low lane, with an index of what is queued. */
module ProbeQueue {
  import opened Wrappers
  import opened Sequences

  datatype Ip = V4(bits: nat) | V6(bits: nat)

  datatype Mode = Standard(variant: nat) | OwnerFullPort

  datatype Request = Request(interface: nat, target: Ip, probe: string, mode: Mode, approved: bool)

  datatype WorkId = WorkId(interface: nat, target: Ip, probe: string, mode: Mode)

  function IdOf(r: Request): WorkId {
    WorkId(r.interface, r.target, r.probe, r.mode)
  }

  datatype Queue = Queue(
    high: map<Ip, seq<Request>>,
    low: seq<Request>,
    hosts: seq<Ip>,
    queued: set<WorkId>,
    highSinceLow: nat,
    stopped: bool)

  function EmptyQueue(): Queue {
    Queue(map[], [], [], {}, 0, false)
  }

  // ---------------------------------------------------------------- what is well queued

  ghost predicate DistinctWork(lane: seq<Request>) {
    forall i, j :: 0 <= i < j < |lane| ==> IdOf(lane[i]) != IdOf(lane[j])
  }

  ghost predicate Holds(q: Queue, id: WorkId) {
    (exists r :: r in q.low && IdOf(r) == id) ||
    (id.target in q.high && exists r :: r in q.high[id.target] && IdOf(r) == id)
  }

  /** The hosts listed are exactly those with a non-empty queue, each listed once. */
  ghost predicate HostsListed(q: Queue) {
    && NoRepeats(q.hosts)
    && (forall h :: h in q.hosts <==> h in q.high)
    && forall h :: h in q.high ==> q.high[h] != []
  }

  /** Each lane holds its own kind of work, nothing twice. */
  ghost predicate LanesSorted(q: Queue) {
    && (forall r :: r in q.low ==> r.mode == OwnerFullPort)
    && DistinctWork(q.low)
    && forall h :: h in q.high ==>
         DistinctWork(q.high[h]) && forall r :: r in q.high[h] ==> r.target == h && r.mode != OwnerFullPort
  }

  /** The index holds exactly the identifiers of the work in the lanes. */
  ghost predicate Indexed(q: Queue) {
    forall id :: id in q.queued <==> Holds(q, id)
  }

  ghost predicate WellQueued(q: Queue) {
    HostsListed(q) && LanesSorted(q) && Indexed(q)
  }

  // ---------------------------------------------------------------- operations

  datatype QueueError = Cancelled | QueueFull

  function PushHigh(q: Queue, r: Request): Queue {
    q.(queued := q.queued + {IdOf(r)},
       hosts := if r.target in q.high then q.hosts else q.hosts + [r.target],
       high := q.high[r.target := (if r.target in q.high then q.high[r.target] else []) + [r]])
  }

  function PushLow(q: Queue, r: Request): Queue {
    q.(queued := q.queued + {IdOf(r)}, low := q.low + [r])
  }

  datatype Queueing = Queueing(after: Queue, added: bool)

  function Enqueue(capacity: nat, q: Queue, r: Request): Result<Queueing, QueueError> {
    if q.stopped then Err(Cancelled)
    else if |q.queued| >= capacity then Err(QueueFull)
    else if IdOf(r) in q.queued then Ok(Queueing(q, false))
    else if r.mode == OwnerFullPort then Ok(Queueing(PushLow(q, r), true))
    else Ok(Queueing(PushHigh(q, r), true))
  }

  /** The low lane goes first when it is alone or after 32 admissions from the high lane. */
  predicate ChoosesLow(q: Queue) {
    q.low != [] && (q.hosts == [] || q.highSinceLow >= 32)
  }

  function PopLow(q: Queue): Queue
    requires q.low != []
  {
    q.(low := q.low[1..], highSinceLow := 0, queued := q.queued - {IdOf(q.low[0])})
  }

  function PopHigh(q: Queue): Queue
    requires q.hosts != [] && q.hosts[0] in q.high && q.high[q.hosts[0]] != []
  {
    var h := q.hosts[0];
    var rest := q.high[h][1..];
    q.(high := if rest == [] then q.high - {h} else q.high[h := rest],
       hosts := if rest == [] then q.hosts[1..] else q.hosts[1..] + [h],
       highSinceLow := q.highSinceLow + 1,
       queued := q.queued - {IdOf(q.high[h][0])})
  }

  predicate ServesLow(q: Queue) {
    !q.stopped && q.low != [] && (ChoosesLow(q) || q.hosts == [])
  }

  predicate ServesHigh(q: Queue, h: Ip) {
    !q.stopped && !ChoosesLow(q) && q.hosts != [] && q.hosts[0] == h && h in q.high && q.high[h] != []
  }

  function Served(q: Queue): Option<Request> {
    if ServesLow(q) then Some(q.low[0])
    else if q.hosts != [] && ServesHigh(q, q.hosts[0]) then Some(q.high[q.hosts[0]][0])
    else None
  }

  /** The state after a dequeue; a listed host without work is unlisted. */
  function Next(q: Queue): Queue {
    if q.stopped then q
    else if ServesLow(q) then PopLow(q)
    else if q.hosts == [] then q.(highSinceLow := 0)
    else if ServesHigh(q, q.hosts[0]) then PopHigh(q)
    else q.(hosts := q.hosts[1..], high := q.high - {q.hosts[0]})
  }

  function Stopped(q: Queue): Queue {
    Queue(map[], [], [], {}, q.highSinceLow, true)
  }

  // ---------------------------------------------------------------- every operation keeps the queue

  lemma PushLowKeeps(q: Queue, r: Request)
    requires WellQueued(q) && IdOf(r) !in q.queued && r.mode == OwnerFullPort
    ensures WellQueued(PushLow(q, r))
  {
    var after := PushLow(q, r);
    forall x | x in q.low ensures IdOf(x) != IdOf(r) {
      assert Holds(q, IdOf(x));
    }
    forall id ensures id in after.queued <==> Holds(after, id) {
      assert id in q.queued <==> Holds(q, id);
      if Holds(q, id) && exists x :: x in q.low && IdOf(x) == id {
        var x :| x in q.low && IdOf(x) == id;
        assert x in after.low;
      }
      assert r in after.low;
    }
  }

  ghost function LaneOf(q: Queue, h: Ip): seq<Request> {
    if h in q.high then q.high[h] else []
  }

  lemma PushHighIndexed(q: Queue, r: Request, id: WorkId)
    requires WellQueued(q) && r.mode != OwnerFullPort
    ensures Holds(PushHigh(q, r), id) <==> Holds(q, id) || id == IdOf(r)
  {
    var after, lane := PushHigh(q, r), LaneOf(q, r.target);
    assert after.high[r.target] == lane + [r];
    if id.target == r.target {
      assert forall x :: x in lane + [r] <==> x in lane || x == r;
      assert r in after.high[r.target];
    }
  }

  lemma PushHighLanes(q: Queue, r: Request)
    requires WellQueued(q) && IdOf(r) !in q.queued && r.mode != OwnerFullPort
    ensures LanesSorted(PushHigh(q, r)) && HostsListed(PushHigh(q, r))
  {
    var after, lane := PushHigh(q, r), LaneOf(q, r.target);
    assert after.high[r.target] == lane + [r];
    forall x | x in lane ensures IdOf(x) != IdOf(r) && x.target == r.target && x.mode != OwnerFullPort {
      assert Holds(q, IdOf(x));
    }
    forall i | 0 <= i < |lane| ensures IdOf(lane[i]) != IdOf(r) {
      assert lane[i] in lane;
    }
  }

  lemma PushHighKeeps(q: Queue, r: Request)
    requires WellQueued(q) && IdOf(r) !in q.queued && r.mode != OwnerFullPort
    ensures WellQueued(PushHigh(q, r))
  {
    PushHighLanes(q, r);
    forall id ensures id in PushHigh(q, r).queued <==> Holds(PushHigh(q, r), id) {
      PushHighIndexed(q, r, id);
    }
  }

  lemma EnqueueKeeps(capacity: nat, q: Queue, r: Request)
    requires WellQueued(q) && Enqueue(capacity, q, r).Ok?
    ensures WellQueued(Enqueue(capacity, q, r).value.after)
  {
    if IdOf(r) !in q.queued {
      if r.mode == OwnerFullPort {
        PushLowKeeps(q, r);
      } else {
        PushHighKeeps(q, r);
      }
    }
  }

  /** Taking the first of a lane without repeats removes just that identifier. */
  lemma LaneRest(lane: seq<Request>, id: WorkId)
    requires lane != [] && DistinctWork(lane)
    ensures (exists r :: r in lane[1..] && IdOf(r) == id) <==> (exists r :: r in lane && IdOf(r) == id) && id != IdOf(lane[0])
    ensures DistinctWork(lane[1..])
  {
    assert lane == [lane[0]] + lane[1..];
    forall i | 0 <= i < |lane[1..]| ensures IdOf(lane[1..][i]) != IdOf(lane[0]) {
      assert lane[1..][i] == lane[i + 1];
    }
  }

  lemma PopLowKeeps(q: Queue)
    requires WellQueued(q) && q.low != []
    ensures WellQueued(PopLow(q))
  {
    var after, r := PopLow(q), q.low[0];
    assert forall x :: x in after.low ==> x in q.low;
    assert r in q.low;
    LaneRest(q.low, IdOf(r));
    forall id ensures id in after.queued <==> Holds(after, id) {
      assert id in q.queued <==> Holds(q, id);
      LaneRest(q.low, id);
    }
  }

  lemma PopHighHosts(q: Queue)
    requires WellQueued(q) && q.hosts != [] && q.hosts[0] in q.high
    ensures HostsListed(PopHigh(q))
  {
    var after, h := PopHigh(q), q.hosts[0];
    assert q.hosts == [h] + q.hosts[1..];
    assert h !in q.hosts[1..];
  }

  lemma PopHighLanes(q: Queue)
    requires WellQueued(q) && q.hosts != [] && q.hosts[0] in q.high
    ensures LanesSorted(PopHigh(q))
  {
    var after, h := PopHigh(q), q.hosts[0];
    LaneRest(q.high[h], IdOf(q.high[h][0]));
    assert forall r :: r in q.high[h][1..] ==> r in q.high[h];
  }

  lemma PopHighIndexed(q: Queue, id: WorkId)
    requires WellQueued(q) && q.hosts != [] && q.hosts[0] in q.high
    ensures Holds(PopHigh(q), id) <==> Holds(q, id) && id != IdOf(q.high[q.hosts[0]][0])
  {
    var after, h := PopHigh(q), q.hosts[0];
    var first := q.high[h][0];
    assert first in q.high[h];
    LaneRest(q.high[h], id);
    if id == IdOf(first) {
      assert forall r :: r in q.low ==> r.mode != first.mode;
    }
  }

  lemma PopHighKeeps(q: Queue)
    requires WellQueued(q) && q.hosts != [] && q.hosts[0] in q.high
    ensures WellQueued(PopHigh(q))
  {
    PopHighHosts(q);
    PopHighLanes(q);
    forall id ensures id in PopHigh(q).queued <==> Holds(PopHigh(q), id) {
      PopHighIndexed(q, id);
    }
  }

  /** With a well-kept queue every listed host can be served. */
  lemma FrontServable(q: Queue)
    requires WellQueued(q) && q.hosts != []
    ensures q.hosts[0] in q.high && q.high[q.hosts[0]] != []
  {
    assert q.hosts[0] in q.hosts;
  }

  lemma NextKeeps(q: Queue)
    requires WellQueued(q)
    ensures WellQueued(Next(q))
    ensures Served(q).None? <==> q.stopped || (q.low == [] && q.hosts == [])
  {
    if q.hosts != [] {
      FrontServable(q);
    }
    if !q.stopped {
      if ServesLow(q) {
        PopLowKeeps(q);
      } else if q.hosts != [] {
        PopHighKeeps(q);
      }
    }
  }
}
