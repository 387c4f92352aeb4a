/** Whole runs of the probe queue: the low lane is not starved and hosts take turns. */
module ProbeFairness {
  import opened Sequences
  import opened ProbeQueue

  datatype QueueOp = Add(request: Request) | Take | Halt

  ghost function Step(capacity: nat, q: Queue, op: QueueOp): Queue {
    match op
    case Add(r) => (match Enqueue(capacity, q, r) case Ok(done) => done.after case Err(_) => q)
    case Take => Next(q)
    case Halt => Stopped(q)
  }

  ghost function Run(capacity: nat, q: Queue, ops: seq<QueueOp>): Queue {
    if ops == [] then q else Step(capacity, Run(capacity, q, ops[..|ops| - 1]), ops[|ops| - 1])
  }

  lemma StepKeeps(capacity: nat, q: Queue, op: QueueOp)
    requires WellQueued(q)
    ensures WellQueued(Step(capacity, q, op))
  {
    match op {
      case Add(r) =>
        if Enqueue(capacity, q, r).Ok? {
          EnqueueKeeps(capacity, q, r);
        }
      case Take => NextKeeps(q);
      case Halt =>
    }
  }

  /** In every reachable state the index and the host list describe the lanes exactly. */
  lemma {:induction false} RunWellQueued(capacity: nat, q: Queue, ops: seq<QueueOp>)
    requires WellQueued(q)
    ensures WellQueued(Run(capacity, q, ops))
  {
    if ops != [] {
      RunWellQueued(capacity, q, ops[..|ops| - 1]);
      StepKeeps(capacity, Run(capacity, q, ops[..|ops| - 1]), ops[|ops| - 1]);
    }
  }

  lemma RunPrefix(capacity: nat, q: Queue, ops: seq<QueueOp>, k: nat)
    requires k < |ops|
    ensures Run(capacity, q, ops[..k + 1]) == Step(capacity, Run(capacity, q, ops[..k]), ops[k])
  {
    assert ops[..k + 1][..k] == ops[..k];
  }

  // ---------------------------------------------------------------- the low lane

  /** One successful dequeue: which lane it served, and whether low work was waiting. */
  datatype Serving = Serving(low: bool, waiting: bool)

  ghost function ServingsOf(q: Queue, op: QueueOp): seq<Serving> {
    if op.Take? && Served(q).Some? then [Serving(ServesLow(q), q.low != [])] else []
  }

  ghost function Servings(capacity: nat, q: Queue, ops: seq<QueueOp>): seq<Serving> {
    if ops == [] then []
    else Servings(capacity, q, ops[..|ops| - 1]) + ServingsOf(Run(capacity, q, ops[..|ops| - 1]), ops[|ops| - 1])
  }

  /** How many of the latest servings in a row passed over waiting low work. */
  ghost function PassedOver(servings: seq<Serving>): nat {
    if servings == [] then 0
    else
      var last := servings[|servings| - 1];
      if last.waiting && !last.low then 1 + PassedOver(servings[..|servings| - 1]) else 0
  }

  /** What each serving owes to those before it. */
  ghost predicate FairAt(servings: seq<Serving>, k: int)
    requires 0 <= k < |servings|
  {
    && (servings[k].waiting && PassedOver(servings[..k]) >= 32 ==> servings[k].low)
    && (PassedOver(servings[..k]) > 0 ==> servings[k].waiting)
  }

  ghost predicate Fair(servings: seq<Serving>) {
    forall k :: 0 <= k < |servings| ==> FairAt(servings, k)
  }

  /** While low work is being passed over it stays queued, and the queue counts how often. */
  ghost predicate Counts(q: Queue, servings: seq<Serving>) {
    q.stopped || (PassedOver(servings) > 0 ==> q.low != [] && q.highSinceLow >= PassedOver(servings))
  }

  lemma FairSnoc(servings: seq<Serving>, s: Serving)
    requires Fair(servings) && (s.waiting && PassedOver(servings) >= 32 ==> s.low)
    requires PassedOver(servings) > 0 ==> s.waiting
    ensures Fair(servings + [s])
  {
    var all := servings + [s];
    forall k | 0 <= k < |all| ensures FairAt(all, k) {
      assert all[..k] == servings[..k];
      if k < |servings| {
        assert FairAt(servings, k);
      } else {
        assert servings[..k] == servings;
      }
    }
  }

  lemma PassedOverSnoc(servings: seq<Serving>, s: Serving)
    ensures PassedOver(servings + [s]) == if s.waiting && !s.low then 1 + PassedOver(servings) else 0
  {
    assert (servings + [s])[..|servings|] == servings;
  }

  lemma TakeCounts(q: Queue, servings: seq<Serving>)
    requires WellQueued(q) && Counts(q, servings) && Fair(servings)
    ensures Counts(Next(q), servings + ServingsOf(q, Take)) && Fair(servings + ServingsOf(q, Take))
  {
    NextKeeps(q);
    if Served(q).Some? {
      var s := Serving(ServesLow(q), q.low != []);
      if q.hosts != [] {
        FrontServable(q);
      }
      FairSnoc(servings, s);
      PassedOverSnoc(servings, s);
    } else {
      assert servings + [] == servings;
    }
  }

  lemma StepCounts(capacity: nat, q: Queue, op: QueueOp, servings: seq<Serving>)
    requires WellQueued(q) && Counts(q, servings) && Fair(servings)
    ensures Counts(Step(capacity, q, op), servings + ServingsOf(q, op)) && Fair(servings + ServingsOf(q, op))
  {
    if op.Take? {
      TakeCounts(q, servings);
    } else {
      assert servings + [] == servings;
    }
  }

  lemma {:induction false} RunFair(capacity: nat, q: Queue, ops: seq<QueueOp>)
    requires WellQueued(q)
    ensures Fair(Servings(capacity, q, ops)) && Counts(Run(capacity, q, ops), Servings(capacity, q, ops))
  {
    if ops != [] {
      var init := ops[..|ops| - 1];
      RunFair(capacity, q, init);
      RunWellQueued(capacity, q, init);
      StepCounts(capacity, Run(capacity, q, init), ops[|ops| - 1], Servings(capacity, q, init));
    }
  }

  lemma {:induction false} PassedOverGrows(servings: seq<Serving>, i: nat, n: nat)
    requires Fair(servings) && i + n <= |servings| && i < |servings| && servings[i].waiting
    requires forall k :: i <= k < i + n ==> !servings[k].low
    ensures PassedOver(servings[..i + n]) >= n
    ensures i + n < |servings| ==> servings[i + n].waiting
  {
    if n > 0 {
      PassedOverGrows(servings, i, n - 1);
      assert servings[..i + n] == servings[..i + n - 1] + [servings[i + n - 1]];
      PassedOverSnoc(servings[..i + n - 1], servings[i + n - 1]);
      if i + n < |servings| {
        assert FairAt(servings, i + n);
      }
    }
  }

  /** Waiting low work is served within 33 consecutive successful dequeues. */
  lemma LowServedWithin33(capacity: nat, q: Queue, ops: seq<QueueOp>, i: nat)
    requires WellQueued(q) && i + 33 <= |Servings(capacity, q, ops)| && Servings(capacity, q, ops)[i].waiting
    ensures exists k :: i <= k < i + 33 && Servings(capacity, q, ops)[k].low
  {
    RunFair(capacity, q, ops);
    var servings := Servings(capacity, q, ops);
    assert FairAt(servings, i + 32);
    if forall k :: i <= k < i + 33 ==> !servings[k].low {
      PassedOverGrows(servings, i, 32);
    }
  }

  // ---------------------------------------------------------------- turns

  /** `h` is listed, and `g` is not listed ahead of it. */
  ghost predicate Ahead(hosts: seq<Ip>, h: Ip, g: Ip) {
    h in hosts && forall i, j :: 0 <= i < |hosts| && 0 <= j < |hosts| && hosts[i] == h && hosts[j] == g ==> i < j
  }

  lemma ServedGoesBehind(q: Queue, h: Ip, g: Ip)
    requires WellQueued(q) && ServesHigh(q, g) && h in q.hosts && h != g
    ensures Ahead(Next(q).hosts, h, g)
  {
    var rest := q.hosts[1..];
    FirstGoesBehind(q.hosts, h, g);
    assert Next(q).hosts == rest || Next(q).hosts == rest + [g];
  }

  lemma FirstGoesBehind(hosts: seq<Ip>, h: Ip, g: Ip)
    requires NoRepeats(hosts) && hosts != [] && hosts[0] == g && h in hosts && h != g
    ensures Ahead(hosts[1..], h, g) && Ahead(hosts[1..] + [g], h, g)
  {
    var rest := hosts[1..];
    assert hosts == [g] + rest;
    assert forall j :: 0 <= j < |rest| ==> rest[j] == hosts[j + 1];
    assert g !in rest;
  }

  lemma PushKeepsAhead(q: Queue, r: Request, h: Ip, g: Ip)
    requires WellQueued(q) && Ahead(q.hosts, h, g) && r.mode != OwnerFullPort
    ensures Ahead(PushHigh(q, r).hosts, h, g)
  {
    if r.target !in q.high {
      assert r.target !in q.hosts && r.target != h;
    }
  }

  lemma PopKeepsAhead(q: Queue, h: Ip, g: Ip)
    requires WellQueued(q) && h != g && Ahead(q.hosts, h, g) && q.hosts != [] && q.hosts[0] != h
    requires q.hosts[0] in q.high
    ensures q.hosts[0] != g && Ahead(PopHigh(q).hosts, h, g)
  {
    var i :| 0 <= i < |q.hosts| && q.hosts[i] == h;
    var rest := q.hosts[1..];
    assert rest[i - 1] == h;
    assert forall j :: 0 <= j < |rest| ==> rest[j] == q.hosts[j + 1];
  }

  lemma StepKeepsAhead(capacity: nat, q: Queue, op: QueueOp, h: Ip, g: Ip)
    requires WellQueued(q) && h != g && Ahead(q.hosts, h, g) && !q.stopped
    requires !(op.Take? && ServesHigh(q, h))
    ensures op.Halt? || (!Step(capacity, q, op).stopped && Ahead(Step(capacity, q, op).hosts, h, g))
    ensures !(op.Take? && ServesHigh(q, g))
  {
    FrontServable(q);
    match op {
      case Add(r) =>
        if Enqueue(capacity, q, r).Ok? && r.mode != OwnerFullPort {
          PushKeepsAhead(q, r, h, g);
        }
      case Take =>
        if !ServesLow(q) {
          PopKeepsAhead(q, h, g);
        }
      case Halt =>
    }
  }

  ghost predicate TakesFrom(capacity: nat, q: Queue, ops: seq<QueueOp>, k: int, h: Ip)
    requires 0 <= k < |ops|
  {
    ops[k].Take? && ServesHigh(Run(capacity, q, ops[..k]), h)
  }

  /** Stopped, or with `h` still ahead of `g`, after the first `k` operations. */
  ghost predicate AheadAfter(capacity: nat, q: Queue, ops: seq<QueueOp>, k: int, h: Ip, g: Ip)
    requires 0 <= k <= |ops|
  {
    Run(capacity, q, ops[..k]).stopped || Ahead(Run(capacity, q, ops[..k]).hosts, h, g)
  }

  lemma AheadFrom(capacity: nat, q: Queue, ops: seq<QueueOp>, i: nat, h: Ip, g: Ip)
    requires WellQueued(q) && h != g && i < |ops|
    requires TakesFrom(capacity, q, ops, i, g) && h in Run(capacity, q, ops[..i]).hosts
    ensures AheadAfter(capacity, q, ops, i + 1, h, g)
  {
    RunWellQueued(capacity, q, ops[..i]);
    RunPrefix(capacity, q, ops, i);
    ServedGoesBehind(Run(capacity, q, ops[..i]), h, g);
  }

  lemma StillAhead(capacity: nat, q: Queue, ops: seq<QueueOp>, k: nat, h: Ip, g: Ip)
    requires WellQueued(q) && h != g && k < |ops|
    requires AheadAfter(capacity, q, ops, k, h, g) && !TakesFrom(capacity, q, ops, k, h)
    ensures AheadAfter(capacity, q, ops, k + 1, h, g) && !TakesFrom(capacity, q, ops, k, g)
  {
    var before := Run(capacity, q, ops[..k]);
    RunWellQueued(capacity, q, ops[..k]);
    RunPrefix(capacity, q, ops, k);
    if !before.stopped {
      StepKeepsAhead(capacity, before, ops[k], h, g);
    }
  }

  lemma {:induction false} StaysAhead(capacity: nat, q: Queue, ops: seq<QueueOp>, h: Ip, g: Ip, i: nat, j: nat)
    requires WellQueued(q) && h != g && i < j <= |ops| && AheadAfter(capacity, q, ops, i + 1, h, g)
    requires forall k :: i < k < j ==> !TakesFrom(capacity, q, ops, k, h)
    ensures AheadAfter(capacity, q, ops, j, h, g)
  {
    if i + 1 < j {
      StaysAhead(capacity, q, ops, h, g, i, j - 1);
      StillAhead(capacity, q, ops, j - 1, h, g);
    }
  }

  lemma FrontNotBoth(capacity: nat, q: Queue, ops: seq<QueueOp>, k: nat, h: Ip, g: Ip)
    requires k < |ops| && h != g && TakesFrom(capacity, q, ops, k, g)
    ensures !TakesFrom(capacity, q, ops, k, h)
  {
  }

  /** Between two turns of one host, every other host that was queued has had a turn. */
  lemma HostsTakeTurns(capacity: nat, q: Queue, ops: seq<QueueOp>, h: Ip, g: Ip, i: nat, j: nat)
    requires WellQueued(q) && h != g && i < j < |ops|
    requires TakesFrom(capacity, q, ops, i, g) && TakesFrom(capacity, q, ops, j, g)
    requires h in Run(capacity, q, ops[..i]).hosts
    ensures exists k :: i < k < j && TakesFrom(capacity, q, ops, k, h)
  {
    if forall k :: i < k < j ==> !TakesFrom(capacity, q, ops, k, h) {
      AheadFrom(capacity, q, ops, i, h, g);
      StaysAhead(capacity, q, ops, h, g, i, j);
      FrontNotBoth(capacity, q, ops, j, h, g);
      StillAhead(capacity, q, ops, j, h, g);
    }
  }
}
