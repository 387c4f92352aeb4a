/** What one host and one network may be sent over whole runs, evictions of their buckets included. */
module ProbeShares {
  import opened Naturals
  import opened ProbeQueue
  import opened ProbeAdmission
  import opened ProbeRates

  // ---------------------------------------------------------------- periods

  lemma DivStep(x: nat, r: nat, p: nat)
    requires 0 < r
    ensures (x + r * p) / r == x / r + p
  {
    var q, m := x / r, x % r;
    assert x == r * q + m;
    assert x + r * p == r * (q + p) + m by { assert r * (q + p) == r * q + r * p; }
    DivUnique(x + r * p, r, q + p, m);
  }

  lemma DivUnique(x: nat, r: nat, q: nat, m: nat)
    requires 0 < r && x == r * q + m && m < r
    ensures x / r == q
  {
    DivAtLeast(x, r, q);
    DivDown(x, r);
    assert r * (q + 1) == r * q + r;
    if x / r > q {
      MulMonotone(r, q + 1, x / r);
    }
  }

  lemma DivMonotone(x: nat, y: nat, r: nat)
    requires 0 < r && x <= y
    ensures x / r <= y / r
  {
    DivDown(x, r);
    DivAtLeast(y, r, x / r);
  }

  lemma DivLess(x: nat, r: nat, n: nat)
    requires 0 < r && x < n * r
    ensures x / r < n
  {
    DivDown(x, r);
    if n <= x / r {
      MulMonotone(r, n, x / r);
    }
  }

  /** Whole periods from `start` to `clock`, counted one by one. */
  function ElapsedPeriods(start: nat, clock: nat, refill: nat): nat
    requires 0 < refill && start <= clock
    decreases clock - start
  {
    if clock - start < refill then 0 else 1 + ElapsedPeriods(start + refill, clock, refill)
  }

  lemma {:induction false} ElapsedIsQuotient(start: nat, clock: nat, refill: nat)
    requires 0 < refill && start <= clock
    ensures ElapsedPeriods(start, clock, refill) == (clock - start) / refill
    decreases clock - start
  {
    if clock - start < refill {
      DivLess(clock - start, refill, 1);
    } else {
      ElapsedIsQuotient(start + refill, clock, refill);
      DivStep(clock - (start + refill), refill, 1);
    }
  }

  lemma ElapsedMonotone(start: nat, clock: nat, now: nat, refill: nat)
    requires 0 < refill && start <= clock <= now
    ensures ElapsedPeriods(start, clock, refill) <= ElapsedPeriods(start, now, refill)
  {
    ElapsedIsQuotient(start, clock, refill);
    ElapsedIsQuotient(start, now, refill);
    DivMonotone(clock - start, now - start, refill);
  }

  // ---------------------------------------------------------------- one bucket that comes and goes

  /** An unused bucket is full again before it is dropped. */
  predicate FillsFirst(burst: nat, refill: nat, ttl: nat) {
    burst * refill <= ttl + 1
  }

  /** A kept bucket has given out no more than its burst and the periods credited; a dropped one no more than the periods. */
  ghost predicate Fair(
    buckets: map<Ip, Bucket>, k: Ip, spent: nat, burst: nat, start: nat, refill: nat, clock: nat)
    requires 0 < refill
  {
    if k in buckets then
      start <= buckets[k].last && spent + buckets[k].tokens <= burst + ElapsedPeriods(start, buckets[k].last, refill)
    else start <= clock && spent <= ElapsedPeriods(start, clock, refill)
  }

  lemma FairLater(
    buckets: map<Ip, Bucket>, k: Ip, spent: nat, burst: nat, start: nat, refill: nat, clock: nat, now: nat)
    requires 0 < refill && clock <= now && Fair(buckets, k, spent, burst, start, refill, clock)
    ensures Fair(buckets, k, spent, burst, start, refill, now)
  {
    if k !in buckets {
      ElapsedMonotone(start, clock, now, refill);
    }
  }

  lemma ElapsedAfter(start: nat, t: nat, p: nat, refill: nat)
    requires 0 < refill && start <= t
    ensures start <= t + refill * p && ElapsedPeriods(start, t + refill * p, refill) == ElapsedPeriods(start, t, refill) + p
  {
    ElapsedIsQuotient(start, t, refill);
    ElapsedIsQuotient(start, t + refill * p, refill);
    DivStep(t - start, refill, p);
  }

  lemma LastAfterCredit(b: Bucket, start: nat, now: nat, burst: nat, refill: nat, spent: nat)
    requires 0 < refill && burst <= 0xffff_ffff && start <= b.last && b.tokens <= burst
    requires spent + b.tokens <= burst + ElapsedPeriods(start, b.last, refill)
    ensures var after := Credited(b, now, burst, refill);
            start <= after.last && spent + after.tokens <= burst + ElapsedPeriods(start, after.last, refill)
  {
    if b.last < now && refill <= now - b.last {
      var p := Min(Periods(b, now, refill), 0xffff_ffff);
      ElapsedAfter(start, b.last, p, refill);
    }
  }

  /** A bucket may be dropped without harm when its time-to-live lets it fill up anyway. */
  lemma DroppedFair(b: Bucket, start: nat, now: nat, burst: nat, refill: nat, ttl: nat, spent: nat)
    requires 0 < refill && FillsFirst(burst, refill, ttl) && start <= b.last <= b.lastUsed && now - b.lastUsed > ttl
    requires spent + b.tokens <= burst + ElapsedPeriods(start, b.last, refill)
    ensures start <= now && spent <= ElapsedPeriods(start, now, refill)
  {
    ElapsedAfter(start, b.last, burst, refill);
    assert refill * burst == burst * refill;
    ElapsedMonotone(start, b.last + refill * burst, now, refill);
  }

  /** Dropping stale buckets keeps every key fair. */
  lemma FreshFair(
    buckets: map<Ip, Bucket>, k: Ip, spent: nat, burst: nat, start: nat, refill: nat, clock: nat, now: nat, ttl: nat)
    requires 0 < refill && FillsFirst(burst, refill, ttl) && clock <= now && SaneBuckets(buckets, burst, clock)
    requires Fair(buckets, k, spent, burst, start, refill, clock)
    ensures Fair(Fresh(buckets, now, ttl), k, spent, burst, start, refill, now)
  {
    if k in buckets && k !in Fresh(buckets, now, ttl) {
      DroppedFair(buckets[k], start, now, burst, refill, ttl, spent);
    } else if k !in buckets {
      ElapsedMonotone(start, clock, now, refill);
    }
  }

  /** Drawing on a bucket, kept or made anew, keeps its key fair. */
  lemma DrawnFair(
    buckets: map<Ip, Bucket>, k: Ip, spent: nat, burst: nat, start: nat, refill: nat, now: nat, cost: nat)
    requires 0 < refill && burst <= 0xffff_ffff && SaneBuckets(buckets, burst, now)
    requires Fair(buckets, k, spent, burst, start, refill, now)
    requires cost <= Credited(BucketAt(buckets, k, burst, now), now, burst, refill).tokens
    ensures var b := Take(Credited(BucketAt(buckets, k, burst, now), now, burst, refill), cost);
            Fair(buckets[k := b], k, spent + cost, burst, start, refill, now)
  {
    LastAfterCredit(BucketAt(buckets, k, burst, now), start, now, burst, refill, spent);
  }

  /** A total of at most a burst and one per whole period. */
  ghost predicate Within(spent: nat, burst: nat, start: nat, clock: nat, refill: nat)
    requires 0 < refill
  {
    start <= clock && spent <= burst + (clock - start) / refill
  }

  lemma FairBound(
    buckets: map<Ip, Bucket>, k: Ip, spent: nat, burst: nat, start: nat, refill: nat, clock: nat)
    requires 0 < refill && SaneBuckets(buckets, burst, clock) && Fair(buckets, k, spent, burst, start, refill, clock)
    ensures Within(spent, burst, start, clock, refill)
  {
    if k in buckets {
      ElapsedMonotone(start, buckets[k].last, clock, refill);
    }
    ElapsedIsQuotient(start, clock, refill);
  }

  // ---------------------------------------------------------------- runs

  ghost predicate Admits(cfg: BudgetConfig, a: Account, op: AdmissionOp)
    requires 0 < cfg.refill
  {
    op.Ask? && a.clock <= op.now && Decide(cfg, a.state, op.host, op.cost, op.now).Starts?
  }

  lemma FairAtStart(k: Ip, burst: nat, start: nat, refill: nat)
    requires 0 < refill
    ensures Fair(map[], k, 0, burst, start, refill, start)
  {
  }

  /** The cost a run admitted for one host. */
  ghost function HostSpent(cfg: BudgetConfig, start: nat, ops: seq<AdmissionOp>, host: Ip): nat
    requires 0 < cfg.refill
  {
    if ops == [] then 0
    else
      var init, op := ops[..|ops| - 1], ops[|ops| - 1];
      HostSpent(cfg, start, init, host) + if Admits(cfg, Run(cfg, start, init), op) && op.host == host then op.cost else 0
  }

  /** The cost a run admitted for one network. */
  ghost function SubnetSpent(cfg: BudgetConfig, start: nat, ops: seq<AdmissionOp>, net: Ip): nat
    requires 0 < cfg.refill
  {
    if ops == [] then 0
    else
      var init, op := ops[..|ops| - 1], ops[|ops| - 1];
      SubnetSpent(cfg, start, init, net)
      + if Admits(cfg, Run(cfg, start, init), op) && SubnetOf(op.host) == net then op.cost else 0
  }

  /** One family of buckets through one decision: the key drawn on, if any, and the cost. */
  lemma FamilyStep(
    buckets: map<Ip, Bucket>, after: map<Ip, Bucket>, k: Ip, drawn: Ip, spent: nat, burst: nat, start: nat, refill: nat,
    clock: nat, now: nat, ttl: nat, touched: bool, cost: nat)
    requires 0 < refill && burst <= 0xffff_ffff && FillsFirst(burst, refill, ttl) && clock <= now
    requires SaneBuckets(buckets, burst, clock) && Fair(buckets, k, spent, burst, start, refill, clock)
    requires var kept := Fresh(buckets, now, ttl);
             var b := Credited(BucketAt(kept, drawn, burst, now), now, burst, refill);
             cost <= b.tokens && after == if touched then kept[drawn := Take(b, cost)] else kept
    requires !touched ==> cost == 0
    ensures Fair(after, k, if k == drawn then spent + cost else spent, burst, start, refill, now)
  {
    FreshFair(buckets, k, spent, burst, start, refill, clock, now, ttl);
    SaneLater(buckets, burst, clock, now);
    if touched && k == drawn {
      DrawnFair(Fresh(buckets, now, ttl), k, spent, burst, start, refill, now, cost);
    }
  }

  function Paid(o: Outcome, cost: nat): nat {
    if o.Starts? then cost else 0
  }

  /** What a decision does to the two families. */
  lemma DecideFamilies(cfg: BudgetConfig, s: Admission, host: Ip, cost: nat, now: nat)
    requires 0 < cfg.refill && !Decide(cfg, s, host, cost, now).Busy?
    ensures var o, d := Decide(cfg, s, host, cost, now), DrawFor(cfg, Expired(cfg, s, now), host, now);
            var hosts, subnets := Fresh(s.hosts, now, cfg.ttl), Fresh(s.subnets, now, cfg.ttl);
            && Paid(o, cost) <= d.host.tokens && Paid(o, cost) <= d.subnet.tokens
            && o.after.hosts == (if o.Full? then hosts else hosts[host := Take(d.host, Paid(o, cost))])
            && o.after.subnets == (if o.Full? then subnets else subnets[SubnetOf(host) := Take(d.subnet, Paid(o, cost))])
  {
    var e := Expired(cfg, s, now);
    var d := DrawFor(cfg, e, host, now);
    assert Take(d.host, 0) == d.host && Take(d.subnet, 0) == d.subnet;
  }

  lemma HostStep(cfg: BudgetConfig, start: nat, a: Account, op: AdmissionOp, k: Ip, spent: nat)
    requires ValidBudget(cfg) && FillsFirst(HostBurst(cfg), cfg.refill, cfg.ttl) && Sound(cfg, start, a)
    requires Fair(a.state.hosts, k, spent, HostBurst(cfg), start, cfg.refill, a.clock)
    ensures var after := Step(cfg, a, op);
            Fair(after.state.hosts, k, spent + (if Admits(cfg, a, op) && op.host == k then op.cost else 0),
                 HostBurst(cfg), start, cfg.refill, after.clock)
  {
    if op.Ask? && a.clock <= op.now {
      var o := Decide(cfg, a.state, op.host, op.cost, op.now);
      if o.Busy? {
        FairLater(a.state.hosts, k, spent, HostBurst(cfg), start, cfg.refill, a.clock, op.now);
      } else {
        DecideFamilies(cfg, a.state, op.host, op.cost, op.now);
        FamilyStep(a.state.hosts, o.after.hosts, k, op.host, spent, HostBurst(cfg), start, cfg.refill, a.clock, op.now, cfg.ttl,
                   !o.Full?, Paid(o, op.cost));
      }
    }
  }

  lemma SubnetStep(cfg: BudgetConfig, start: nat, a: Account, op: AdmissionOp, k: Ip, spent: nat)
    requires ValidBudget(cfg) && FillsFirst(cfg.subnetBurst, cfg.refill, cfg.ttl) && Sound(cfg, start, a)
    requires Fair(a.state.subnets, k, spent, cfg.subnetBurst, start, cfg.refill, a.clock)
    ensures var after := Step(cfg, a, op);
            Fair(after.state.subnets, k, spent + (if Admits(cfg, a, op) && SubnetOf(op.host) == k then op.cost else 0),
                 cfg.subnetBurst, start, cfg.refill, after.clock)
  {
    if op.Ask? && a.clock <= op.now {
      var o := Decide(cfg, a.state, op.host, op.cost, op.now);
      if o.Busy? {
        FairLater(a.state.subnets, k, spent, cfg.subnetBurst, start, cfg.refill, a.clock, op.now);
      } else {
        DecideFamilies(cfg, a.state, op.host, op.cost, op.now);
        FamilyStep(a.state.subnets, o.after.subnets, k, SubnetOf(op.host), spent, cfg.subnetBurst, start, cfg.refill, a.clock,
                   op.now, cfg.ttl, !o.Full?, Paid(o, op.cost));
      }
    }
  }

  lemma {:induction false} RunHostFair(cfg: BudgetConfig, start: nat, ops: seq<AdmissionOp>, host: Ip)
    requires ValidBudget(cfg) && FillsFirst(HostBurst(cfg), cfg.refill, cfg.ttl)
    ensures var a := Run(cfg, start, ops);
            Fair(a.state.hosts, host, HostSpent(cfg, start, ops, host), HostBurst(cfg), start, cfg.refill, a.clock)
  {
    if ops == [] {
      FairAtStart(host, HostBurst(cfg), start, cfg.refill);
    } else {
      var init := ops[..|ops| - 1];
      RunHostFair(cfg, start, init, host);
      RunSound(cfg, start, init);
      HostStep(cfg, start, Run(cfg, start, init), ops[|ops| - 1], host, HostSpent(cfg, start, init, host));
    }
  }

  lemma {:induction false} RunSubnetFair(cfg: BudgetConfig, start: nat, ops: seq<AdmissionOp>, net: Ip)
    requires ValidBudget(cfg) && FillsFirst(cfg.subnetBurst, cfg.refill, cfg.ttl)
    ensures var a := Run(cfg, start, ops);
            Fair(a.state.subnets, net, SubnetSpent(cfg, start, ops, net), cfg.subnetBurst, start, cfg.refill, a.clock)
  {
    if ops == [] {
      FairAtStart(net, cfg.subnetBurst, start, cfg.refill);
    } else {
      var init := ops[..|ops| - 1];
      RunSubnetFair(cfg, start, init, net);
      RunSound(cfg, start, init);
      SubnetStep(cfg, start, Run(cfg, start, init), ops[|ops| - 1], net, SubnetSpent(cfg, start, init, net));
    }
  }

  /** With a time-to-live long enough to refill a host's bucket, no host is sent more than its burst and one per period. */
  lemma HostBounded(cfg: BudgetConfig, start: nat, ops: seq<AdmissionOp>, host: Ip)
    requires ValidBudget(cfg) && FillsFirst(HostBurst(cfg), cfg.refill, cfg.ttl)
    ensures Within(HostSpent(cfg, start, ops, host), HostBurst(cfg), start, Run(cfg, start, ops).clock, cfg.refill)
  {
    RunHostFair(cfg, start, ops, host);
    RunSound(cfg, start, ops);
    var a := Run(cfg, start, ops);
    FairBound(a.state.hosts, host, HostSpent(cfg, start, ops, host), HostBurst(cfg), start, cfg.refill, a.clock);
  }

  /** The same for networks. */
  lemma SubnetBounded(cfg: BudgetConfig, start: nat, ops: seq<AdmissionOp>, net: Ip)
    requires ValidBudget(cfg) && FillsFirst(cfg.subnetBurst, cfg.refill, cfg.ttl)
    ensures Within(SubnetSpent(cfg, start, ops, net), cfg.subnetBurst, start, Run(cfg, start, ops).clock, cfg.refill)
  {
    RunSubnetFair(cfg, start, ops, net);
    RunSound(cfg, start, ops);
    var a := Run(cfg, start, ops);
    FairBound(a.state.subnets, net, SubnetSpent(cfg, start, ops, net), cfg.subnetBurst, start, cfg.refill, a.clock);
  }

  // ---------------------------------------------------------------- shares of shares

  /** What a host is sent its network is sent, and what a network is sent is admitted at all. */
  lemma {:induction false} SharesNest(cfg: BudgetConfig, start: nat, ops: seq<AdmissionOp>, host: Ip, net: Ip)
    requires 0 < cfg.refill && SubnetOf(host) == net
    ensures HostSpent(cfg, start, ops, host) <= SubnetSpent(cfg, start, ops, net) <= Run(cfg, start, ops).spent
  {
    if ops != [] {
      SharesNest(cfg, start, ops[..|ops| - 1], host, net);
    }
  }

  lemma {:induction false} SubnetWithinAll(cfg: BudgetConfig, start: nat, ops: seq<AdmissionOp>, net: Ip)
    requires 0 < cfg.refill
    ensures SubnetSpent(cfg, start, ops, net) <= Run(cfg, start, ops).spent
  {
    if ops != [] {
      SubnetWithinAll(cfg, start, ops[..|ops| - 1], net);
    }
  }

  /** The global bucket bounds every share. */
  lemma AllWithin(cfg: BudgetConfig, start: nat, ops: seq<AdmissionOp>)
    requires ValidBudget(cfg)
    ensures Within(Run(cfg, start, ops).spent, cfg.globalBurst, start, Run(cfg, start, ops).clock, cfg.refill)
  {
    RunSound(cfg, start, ops);
    AdmittedBounded(cfg, start, ops);
  }

  lemma WithinLess(spent: nat, less: nat, burst: nat, more: nat, start: nat, clock: nat, refill: nat)
    requires 0 < refill && less <= spent && burst <= more && Within(spent, burst, start, clock, refill)
    ensures Within(less, more, start, clock, refill)
  {
  }

  // ---------------------------------------------------------------- room for a single bucket

  ghost predicate HostOf(buckets: map<Ip, Bucket>, net: Ip, h: Ip) {
    h in buckets && SubnetOf(h) == net
  }

  /** With one host bucket at most, that bucket accounts for all its network was sent. */
  ghost predicate SoleFair(
    buckets: map<Ip, Bucket>, net: Ip, spent: nat, burst: nat, start: nat, refill: nat, clock: nat)
    requires 0 < refill
  {
    && (forall g, h :: g in buckets && h in buckets ==> g == h)
    && (forall h :: HostOf(buckets, net, h) ==> Fair(buckets, h, spent, burst, start, refill, clock))
    && ((forall h :: !HostOf(buckets, net, h)) ==> start <= clock && spent <= ElapsedPeriods(start, clock, refill))
  }

  /** The parts of the predicate, put together for a table whose hosts of the network are at most `h`. */
  lemma SoleOf(
    buckets: map<Ip, Bucket>, net: Ip, h: Ip, spent: nat, burst: nat, start: nat, refill: nat, clock: nat)
    requires 0 < refill && (forall g, k :: g in buckets && k in buckets ==> g == k)
    requires forall g :: HostOf(buckets, net, g) ==> g == h
    requires SubnetOf(h) == net && Fair(buckets, h, spent, burst, start, refill, clock)
    ensures SoleFair(buckets, net, spent, burst, start, refill, clock)
  {
    assert h in buckets ==> HostOf(buckets, net, h);
  }

  lemma SoleLater(buckets: map<Ip, Bucket>, net: Ip, spent: nat, burst: nat, start: nat, refill: nat, clock: nat, now: nat)
    requires 0 < refill && clock <= now && SoleFair(buckets, net, spent, burst, start, refill, clock)
    ensures SoleFair(buckets, net, spent, burst, start, refill, now)
  {
    if forall h :: !HostOf(buckets, net, h) {
      ElapsedMonotone(start, clock, now, refill);
    }
  }

  /** A table without hosts of the network stays one. */
  lemma SoleNone(
    buckets: map<Ip, Bucket>, kept: map<Ip, Bucket>, net: Ip, spent: nat, burst: nat, start: nat, refill: nat, clock: nat)
    requires 0 < refill && SoleFair(buckets, net, spent, burst, start, refill, clock)
    requires kept.Keys <= buckets.Keys && forall h :: !HostOf(buckets, net, h)
    ensures SoleFair(kept, net, spent, burst, start, refill, clock)
  {
    assert forall h :: HostOf(kept, net, h) ==> HostOf(buckets, net, h);
  }

  lemma SoleFresh(
    buckets: map<Ip, Bucket>, net: Ip, spent: nat, burst: nat, start: nat, refill: nat, clock: nat, now: nat, ttl: nat)
    requires 0 < refill && FillsFirst(burst, refill, ttl) && clock <= now && SaneBuckets(buckets, burst, clock)
    requires SoleFair(buckets, net, spent, burst, start, refill, clock)
    ensures SoleFair(Fresh(buckets, now, ttl), net, spent, burst, start, refill, now)
  {
    var kept := Fresh(buckets, now, ttl);
    if h :| HostOf(buckets, net, h) {
      FreshFair(buckets, h, spent, burst, start, refill, clock, now, ttl);
      SoleOf(kept, net, h, spent, burst, start, refill, now);
    } else {
      SoleLater(buckets, net, spent, burst, start, refill, clock, now);
      SoleNone(buckets, kept, net, spent, burst, start, refill, now);
    }
  }

  lemma SoleDrawn(
    buckets: map<Ip, Bucket>, net: Ip, host: Ip, spent: nat, burst: nat, start: nat, refill: nat, now: nat, cost: nat)
    requires 0 < refill && burst <= 0xffff_ffff && SaneBuckets(buckets, burst, now)
    requires SoleFair(buckets, net, spent, burst, start, refill, now) && forall h :: h in buckets ==> h == host
    requires cost <= Credited(BucketAt(buckets, host, burst, now), now, burst, refill).tokens
    ensures var b := Take(Credited(BucketAt(buckets, host, burst, now), now, burst, refill), cost);
            SoleFair(buckets[host := b], net, if SubnetOf(host) == net then spent + cost else spent, burst, start, refill, now)
  {
    if SubnetOf(host) == net {
      assert host in buckets ==> HostOf(buckets, net, host);
      DrawnFair(buckets, host, spent, burst, start, refill, now, cost);
      var b := Take(Credited(BucketAt(buckets, host, burst, now), now, burst, refill), cost);
      assert HostOf(buckets[host := b], net, host);
    }
  }

  /** A table with room for one bucket holds the asked host's alone, or refuses the host. */
  lemma OneAtATime(buckets: map<Ip, Bucket>, host: Ip)
    requires !Crowded(buckets, host, 1) && forall g, h :: g in buckets && h in buckets ==> g == h
    ensures forall h :: h in buckets ==> h == host
  {
    if h :| h in buckets {
      assert h in buckets.Keys;
    }
  }

  lemma NotFull(cfg: BudgetConfig, s: Admission, host: Ip, cost: nat, now: nat)
    requires 0 < cfg.refill && !Decide(cfg, s, host, cost, now).Busy? && !Decide(cfg, s, host, cost, now).Full?
    ensures !Crowded(Fresh(s.hosts, now, cfg.ttl), host, cfg.stateCapacity)
  {
  }

  lemma SoleStep(cfg: BudgetConfig, start: nat, a: Account, op: AdmissionOp, net: Ip, spent: nat)
    requires ValidBudget(cfg) && cfg.stateCapacity == 1 && FillsFirst(HostBurst(cfg), cfg.refill, cfg.ttl) && Sound(cfg, start, a)
    requires SoleFair(a.state.hosts, net, spent, HostBurst(cfg), start, cfg.refill, a.clock)
    ensures var after := Step(cfg, a, op);
            SoleFair(after.state.hosts, net, spent + (if Admits(cfg, a, op) && SubnetOf(op.host) == net then op.cost else 0),
                     HostBurst(cfg), start, cfg.refill, after.clock)
  {
    if op.Ask? && a.clock <= op.now {
      var o := Decide(cfg, a.state, op.host, op.cost, op.now);
      if o.Busy? {
        SoleLater(a.state.hosts, net, spent, HostBurst(cfg), start, cfg.refill, a.clock, op.now);
      } else {
        SoleAsked(cfg, start, a, op.host, op.cost, op.now, net, spent);
      }
    }
  }

  lemma SoleAsked(cfg: BudgetConfig, start: nat, a: Account, host: Ip, cost: nat, now: nat, net: Ip, spent: nat)
    requires ValidBudget(cfg) && cfg.stateCapacity == 1 && FillsFirst(HostBurst(cfg), cfg.refill, cfg.ttl) && Sound(cfg, start, a)
    requires SoleFair(a.state.hosts, net, spent, HostBurst(cfg), start, cfg.refill, a.clock)
    requires a.clock <= now && !Decide(cfg, a.state, host, cost, now).Busy?
    ensures var o := Decide(cfg, a.state, host, cost, now);
            SoleFair(o.after.hosts, net, if SubnetOf(host) == net then spent + Paid(o, cost) else spent,
                     HostBurst(cfg), start, cfg.refill, now)
  {
    var o, kept := Decide(cfg, a.state, host, cost, now), Fresh(a.state.hosts, now, cfg.ttl);
    DecideFamilies(cfg, a.state, host, cost, now);
    SoleFresh(a.state.hosts, net, spent, HostBurst(cfg), start, cfg.refill, a.clock, now, cfg.ttl);
    SaneLater(a.state.hosts, HostBurst(cfg), a.clock, now);
    if !o.Full? {
      NotFull(cfg, a.state, host, cost, now);
      OneAtATime(kept, host);
      SoleDrawn(kept, net, host, spent, HostBurst(cfg), start, cfg.refill, now, Paid(o, cost));
    }
  }

  lemma SoleAtStart(net: Ip, burst: nat, start: nat, refill: nat)
    requires 0 < refill
    ensures SoleFair(map[], net, 0, burst, start, refill, start)
  {
  }

  lemma {:induction false} RunSoleFair(cfg: BudgetConfig, start: nat, ops: seq<AdmissionOp>, net: Ip)
    requires ValidBudget(cfg) && cfg.stateCapacity == 1 && FillsFirst(HostBurst(cfg), cfg.refill, cfg.ttl)
    ensures var a := Run(cfg, start, ops);
            SoleFair(a.state.hosts, net, SubnetSpent(cfg, start, ops, net), HostBurst(cfg), start, cfg.refill, a.clock)
  {
    if ops == [] {
      SoleAtStart(net, HostBurst(cfg), start, cfg.refill);
    } else {
      var init := ops[..|ops| - 1];
      RunSoleFair(cfg, start, init, net);
      RunSound(cfg, start, init);
      SoleStep(cfg, start, Run(cfg, start, init), ops[|ops| - 1], net, SubnetSpent(cfg, start, init, net));
    }
  }

  lemma SoleBound(
    buckets: map<Ip, Bucket>, net: Ip, spent: nat, burst: nat, start: nat, refill: nat, clock: nat)
    requires 0 < refill && SaneBuckets(buckets, burst, clock) && SoleFair(buckets, net, spent, burst, start, refill, clock)
    ensures Within(spent, burst, start, clock, refill)
  {
    if h :| HostOf(buckets, net, h) {
      FairBound(buckets, h, spent, burst, start, refill, clock);
    } else {
      ElapsedIsQuotient(start, clock, refill);
    }
  }

  /** Where only one bucket is kept, host buckets that refill before they are dropped bound networks too. */
  lemma SoleBounded(cfg: BudgetConfig, start: nat, ops: seq<AdmissionOp>, net: Ip)
    requires ValidBudget(cfg) && cfg.stateCapacity == 1 && FillsFirst(HostBurst(cfg), cfg.refill, cfg.ttl)
    ensures Within(SubnetSpent(cfg, start, ops, net), HostBurst(cfg), start, Run(cfg, start, ops).clock, cfg.refill)
  {
    RunSoleFair(cfg, start, ops, net);
    RunSound(cfg, start, ops);
    var a := Run(cfg, start, ops);
    SoleBound(a.state.hosts, net, SubnetSpent(cfg, start, ops, net), HostBurst(cfg), start, cfg.refill, a.clock);
  }

  // ---------------------------------------------------------------- the conditions

  ghost predicate HostsAlwaysBounded(cfg: BudgetConfig)
    requires 0 < cfg.refill
  {
    forall start: nat, ops, host ::
      Within(HostSpent(cfg, start, ops, host), HostBurst(cfg), start, Run(cfg, start, ops).clock, cfg.refill)
  }

  ghost predicate SubnetsAlwaysBounded(cfg: BudgetConfig)
    requires 0 < cfg.refill
  {
    forall start: nat, ops, net ::
      Within(SubnetSpent(cfg, start, ops, net), cfg.subnetBurst, start, Run(cfg, start, ops).clock, cfg.refill)
  }

  /** The bucket that decides for hosts: the smaller of the host's and its network's. */
  function SmallerBurst(cfg: BudgetConfig): nat {
    Min(HostBurst(cfg), cfg.subnetBurst)
  }

  /** The bucket that decides for networks; where only one state is kept, a host's bucket comes and goes with its network's. */
  function DecidingBurst(cfg: BudgetConfig): nat {
    if cfg.stateCapacity == 1 then SmallerBurst(cfg) else cfg.subnetBurst
  }

  lemma HostWithin(cfg: BudgetConfig, start: nat, ops: seq<AdmissionOp>, host: Ip)
    requires ValidBudget(cfg)
    requires cfg.globalBurst <= HostBurst(cfg) || FillsFirst(SmallerBurst(cfg), cfg.refill, cfg.ttl)
    ensures Within(HostSpent(cfg, start, ops, host), HostBurst(cfg), start, Run(cfg, start, ops).clock, cfg.refill)
  {
    var a, net, spent := Run(cfg, start, ops), SubnetOf(host), HostSpent(cfg, start, ops, host);
    SharesNest(cfg, start, ops, host, net);
    if cfg.globalBurst <= HostBurst(cfg) {
      AllWithin(cfg, start, ops);
      WithinLess(a.spent, spent, cfg.globalBurst, HostBurst(cfg), start, a.clock, cfg.refill);
    } else if HostBurst(cfg) <= cfg.subnetBurst {
      HostBounded(cfg, start, ops, host);
    } else {
      SubnetBounded(cfg, start, ops, net);
      WithinLess(SubnetSpent(cfg, start, ops, net), spent, cfg.subnetBurst, HostBurst(cfg), start, a.clock, cfg.refill);
    }
  }

  lemma SubnetWithin(cfg: BudgetConfig, start: nat, ops: seq<AdmissionOp>, net: Ip)
    requires ValidBudget(cfg)
    requires cfg.globalBurst <= cfg.subnetBurst || FillsFirst(DecidingBurst(cfg), cfg.refill, cfg.ttl)
    ensures Within(SubnetSpent(cfg, start, ops, net), cfg.subnetBurst, start, Run(cfg, start, ops).clock, cfg.refill)
  {
    var a, spent := Run(cfg, start, ops), SubnetSpent(cfg, start, ops, net);
    if cfg.globalBurst <= cfg.subnetBurst {
      AllWithin(cfg, start, ops);
      SubnetWithinAll(cfg, start, ops, net);
      WithinLess(a.spent, spent, cfg.globalBurst, cfg.subnetBurst, start, a.clock, cfg.refill);
    } else if DecidingBurst(cfg) == cfg.subnetBurst {
      SubnetBounded(cfg, start, ops, net);
    } else {
      SoleBounded(cfg, start, ops, net);
      WithinLess(spent, spent, HostBurst(cfg), cfg.subnetBurst, start, a.clock, cfg.refill);
    }
  }
}
