/** Runs that send a host or a network too much when buckets are dropped before they refill, and the exact conditions. */
module ProbeOverdraw {
  import opened Naturals
  import opened ProbeQueue
  import opened ProbeAdmission
  import opened ProbeRates
  import opened ProbeShares

  // ---------------------------------------------------------------- arithmetic

  lemma MulLess(k: nat, x: nat, y: nat)
    requires 0 < k && x < y
    ensures k * x < k * y
  {
  }

  // ---------------------------------------------------------------- an idle scheduler

  /** The end of the last whole period. */
  function PeriodEnd(start: nat, clock: nat, refill: nat): nat
    requires 0 < refill && start <= clock
    decreases clock - start
  {
    if clock - start < refill then start else PeriodEnd(start + refill, clock, refill)
  }

  lemma {:induction false} PeriodEndIs(start: nat, clock: nat, refill: nat)
    requires 0 < refill && start <= clock
    ensures PeriodEnd(start, clock, refill) == start + refill * ElapsedPeriods(start, clock, refill)
    decreases clock - start
  {
    if clock - start >= refill {
      PeriodEndIs(start + refill, clock, refill);
      var q := ElapsedPeriods(start + refill, clock, refill);
      assert refill * (1 + q) == refill + refill * q;
    }
  }

  /** Nothing is in flight, and the global bucket has lost nothing to its capacity. */
  ghost predicate Quiet(cfg: BudgetConfig, start: nat, a: Account)
    requires 0 < cfg.refill
  {
    && start <= a.clock && !a.state.stopped && a.state.active == 0 && a.state.activeHosts == map[]
    && a.state.global.last == PeriodEnd(start, a.clock, cfg.refill)
    && a.state.global.tokens + a.spent == cfg.globalBurst + ElapsedPeriods(start, a.clock, cfg.refill)
  }

  lemma CreditedPeriods(last: nat, start: nat, q: nat, now: nat, refill: nat)
    requires 0 < refill && last == start + refill * q && start <= now && q <= (now - start) / refill
    ensures last <= now && (now - last) / refill == (now - start) / refill - q
  {
    DivDown(now - start, refill);
    MulMonotone(refill, q, (now - start) / refill);
    DivStep(now - last, refill, q);
  }

  /** A bucket below its capacity is credited every period since the start. */
  lemma CreditedExactly(b: Bucket, start: nat, q: nat, now: nat, capacity: nat, refill: nat, spent: nat)
    requires 0 < refill && capacity <= 4096 && b.last == start + refill * q && b.tokens + spent == capacity + q && start <= now
    requires q <= (now - start) / refill <= spent
    ensures var q' := (now - start) / refill;
            var after := Credited(b, now, capacity, refill);
            after.last == start + refill * q' && after.tokens + spent == capacity + q'
  {
    var q' := (now - start) / refill;
    CreditedPeriods(b.last, start, q, now, refill);
    if now - b.last < refill {
      DivLess(now - b.last, refill, 1);
    } else {
      assert Periods(b, now, refill) == q' - q;
      assert refill * q + refill * (q' - q) == refill * q';
    }
  }

  lemma QuietCredit(cfg: BudgetConfig, start: nat, a: Account, now: nat)
    requires ValidBudget(cfg) && Quiet(cfg, start, a) && a.clock <= now
    requires ElapsedPeriods(start, now, cfg.refill) <= a.spent
    ensures var g := Credited(a.state.global, now, cfg.globalBurst, cfg.refill);
            && g.last == PeriodEnd(start, now, cfg.refill)
            && g.tokens + a.spent == cfg.globalBurst + ElapsedPeriods(start, now, cfg.refill)
  {
    var q := ElapsedPeriods(start, a.clock, cfg.refill);
    ElapsedMonotone(start, a.clock, now, cfg.refill);
    ElapsedIsQuotient(start, now, cfg.refill);
    PeriodEndIs(start, a.clock, cfg.refill);
    PeriodEndIs(start, now, cfg.refill);
    CreditedExactly(a.state.global, start, q, now, cfg.globalBurst, cfg.refill, a.spent);
  }

  // ---------------------------------------------------------------- one probe, started and finished

  function Probe(host: Ip, cost: nat, now: nat): seq<AdmissionOp> {
    [Ask(host, cost, now), Done(host)]
  }

  ghost predicate Fits(cfg: BudgetConfig, s: Admission, host: Ip, cost: nat, now: nat)
    requires 0 < cfg.refill
  {
    var e := Expired(cfg, s, now);
    && !Crowded(e.hosts, host, cfg.stateCapacity) && !Crowded(e.subnets, SubnetOf(host), cfg.stateCapacity)
    && Missing(DrawFor(cfg, e, host, now), cost) == 0
  }

  ghost function Probed(cfg: BudgetConfig, s: Admission, host: Ip, cost: nat, now: nat): Admission
    requires 0 < cfg.refill
  {
    var e := Expired(cfg, s, now);
    Drawn(e, host, Spend(DrawFor(cfg, e, host, now), cost))
  }

  lemma FitsStarts(cfg: BudgetConfig, s: Admission, host: Ip, cost: nat, now: nat)
    requires ValidBudget(cfg) && 0 < cost && !s.stopped && s.active == 0 && s.activeHosts == map[]
    requires Fits(cfg, s, host, cost, now)
    ensures Decide(cfg, s, host, cost, now) == Starts(Started(Probed(cfg, s, host, cost, now), host))
  {
  }

  lemma FinishStarted(s: Admission, host: Ip)
    requires s.active == 0 && s.activeHosts == map[]
    ensures Finish(Started(s, host), host) == s
  {
    assert Started(s, host).activeHosts - {host} == map[];
  }

  lemma RunSnoc(cfg: BudgetConfig, start: nat, ops: seq<AdmissionOp>, op: AdmissionOp, host: Ip)
    requires 0 < cfg.refill
    ensures Run(cfg, start, ops + [op]) == Step(cfg, Run(cfg, start, ops), op)
    ensures HostSpent(cfg, start, ops + [op], host) == HostSpent(cfg, start, ops, host)
              + if Admits(cfg, Run(cfg, start, ops), op) && op.host == host then op.cost else 0
    ensures SubnetSpent(cfg, start, ops + [op], SubnetOf(host)) == SubnetSpent(cfg, start, ops, SubnetOf(host))
              + if Admits(cfg, Run(cfg, start, ops), op) && SubnetOf(op.host) == SubnetOf(host) then op.cost else 0
  {
    assert (ops + [op])[..|ops|] == ops;
  }

  /** All that was admitted went to this host of this network. */
  ghost predicate Sent(cfg: BudgetConfig, start: nat, ops: seq<AdmissionOp>, host: Ip, net: Ip)
    requires 0 < cfg.refill
  {
    HostSpent(cfg, start, ops, host) == Run(cfg, start, ops).spent == SubnetSpent(cfg, start, ops, net)
  }

  lemma AskRuns(cfg: BudgetConfig, a: Account, host: Ip, cost: nat, now: nat)
    requires ValidBudget(cfg) && 0 < cost && a.clock <= now && !a.state.stopped && a.state.active == 0 && a.state.activeHosts == map[]
    requires Fits(cfg, a.state, host, cost, now)
    ensures Admits(cfg, a, Ask(host, cost, now))
    ensures Step(cfg, Step(cfg, a, Ask(host, cost, now)), Done(host)) ==
            Account(Probed(cfg, a.state, host, cost, now), a.spent + cost, now)
  {
    FitsStarts(cfg, a.state, host, cost, now);
    FinishStarted(Probed(cfg, a.state, host, cost, now), host);
  }

  /** A probe that fits leaves the scheduler as it was but for the buckets. */
  lemma ProbeRuns(cfg: BudgetConfig, start: nat, ops: seq<AdmissionOp>, host: Ip, cost: nat, now: nat)
    requires ValidBudget(cfg) && 0 < cost
    requires var a := Run(cfg, start, ops);
             a.clock <= now && !a.state.stopped && a.state.active == 0 && a.state.activeHosts == map[]
             && Fits(cfg, a.state, host, cost, now)
    ensures var a, more := Run(cfg, start, ops), ops + Probe(host, cost, now);
            && Run(cfg, start, more) == Account(Probed(cfg, a.state, host, cost, now), a.spent + cost, now)
            && HostSpent(cfg, start, more, host) == HostSpent(cfg, start, ops, host) + cost
            && SubnetSpent(cfg, start, more, SubnetOf(host)) == SubnetSpent(cfg, start, ops, SubnetOf(host)) + cost
  {
    var ask := Ask(host, cost, now);
    AskRuns(cfg, Run(cfg, start, ops), host, cost, now);
    RunSnoc(cfg, start, ops, ask, host);
    RunSnoc(cfg, start, ops + [ask], Done(host), host);
    assert ops + [ask] + [Done(host)] == ops + Probe(host, cost, now);
  }

  /** With credit to spare, a quiet scheduler is quiet again after the probe. */
  lemma ProbeQuiet(cfg: BudgetConfig, start: nat, ops: seq<AdmissionOp>, host: Ip, cost: nat, now: nat)
    requires ValidBudget(cfg) && 0 < cost && Quiet(cfg, start, Run(cfg, start, ops)) && Run(cfg, start, ops).clock <= now
    requires ElapsedPeriods(start, now, cfg.refill) <= Run(cfg, start, ops).spent
    requires Fits(cfg, Run(cfg, start, ops).state, host, cost, now)
    ensures Quiet(cfg, start, Run(cfg, start, ops + Probe(host, cost, now)))
  {
    QuietCredit(cfg, start, Run(cfg, start, ops), now);
    ProbeRuns(cfg, start, ops, host, cost, now);
  }

  lemma QuietAtStart(cfg: BudgetConfig, start: nat)
    requires ValidBudget(cfg)
    ensures Quiet(cfg, start, Run(cfg, start, []))
  {
  }

  // ---------------------------------------------------------------- one host, again and again

  /** Every bucket but the global one has expired. */
  ghost predicate AllStale(cfg: BudgetConfig, s: Admission, now: nat) {
    Fresh(s.hosts, now, cfg.ttl) == map[] && Fresh(s.subnets, now, cfg.ttl) == map[]
  }

  lemma StaleLater(cfg: BudgetConfig, s: Admission, clock: nat)
    requires Steady(cfg, s, clock)
    ensures AllStale(cfg, s, clock + cfg.ttl + 1)
  {
  }

  lemma CreditedNow(tokens: nat, now: nat, capacity: nat, refill: nat)
    requires 0 < refill
    ensures Credited(Bucket(tokens, now, now), now, capacity, refill) == Bucket(tokens, now, now)
  {
  }

  /** A host whose buckets have expired draws on full ones. */
  lemma StaleFits(cfg: BudgetConfig, s: Admission, host: Ip, cost: nat, now: nat)
    requires ValidBudget(cfg) && AllStale(cfg, s, now) && cost <= HostBurst(cfg) && cost <= cfg.subnetBurst
    requires cost <= Credited(s.global, now, cfg.globalBurst, cfg.refill).tokens
    ensures Fits(cfg, s, host, cost, now)
  {
    CreditedNow(HostBurst(cfg), now, HostBurst(cfg), cfg.refill);
    CreditedNow(cfg.subnetBurst, now, cfg.subnetBurst, cfg.refill);
  }

  lemma CycleStep(cfg: BudgetConfig, start: nat, ops: seq<AdmissionOp>, host: Ip, cost: nat, now: nat)
    requires ValidBudget(cfg) && 0 < cost && cost <= SmallerBurst(cfg)
    requires Quiet(cfg, start, Run(cfg, start, ops)) && Run(cfg, start, ops).clock <= now
    requires AllStale(cfg, Run(cfg, start, ops).state, now) && Sent(cfg, start, ops, host, SubnetOf(host))
    requires var spent, q := Run(cfg, start, ops).spent, ElapsedPeriods(start, now, cfg.refill);
             q <= spent && spent + cost <= cfg.globalBurst + q
    ensures var more := ops + Probe(host, cost, now);
            && Quiet(cfg, start, Run(cfg, start, more)) && Sent(cfg, start, more, host, SubnetOf(host))
            && Run(cfg, start, more).clock == now && Run(cfg, start, more).spent == Run(cfg, start, ops).spent + cost
  {
    var a := Run(cfg, start, ops);
    QuietCredit(cfg, start, a, now);
    StaleFits(cfg, a.state, host, cost, now);
    ProbeRuns(cfg, start, ops, host, cost, now);
    ProbeQuiet(cfg, start, ops, host, cost, now);
  }

  /** One token over what `bound` and the periods allow. */
  ghost predicate Exceeds(cfg: BudgetConfig, start: nat, a: Account, bound: nat)
    requires 0 < cfg.refill
  {
    start <= a.clock && a.spent == bound + 1 + ElapsedPeriods(start, a.clock, cfg.refill)
  }

  ghost predicate Behind(cfg: BudgetConfig, start: nat, a: Account, burst: nat, bound: nat, k: nat)
    requires 0 < cfg.refill
  {
    && start <= a.clock == start + k * (cfg.ttl + 1) && a.spent == (k + 1) * burst
    && a.spent < bound + 1 + ElapsedPeriods(start, a.clock, cfg.refill)
  }

  lemma NextClock(k: nat, l: nat)
    ensures (k + 1) * l == k * l + l
  {
  }

  /** The burst of every cycle outweighs the periods it lasts. */
  lemma SpentAhead(start: nat, k: nat, l: nat, burst: nat, refill: nat)
    requires 0 < refill && l < burst * refill
    ensures 0 <= (k + 1) * l && ElapsedPeriods(start, start + (k + 1) * l, refill) <= (k + 1) * burst
  {
    MulLess(k + 1, l, burst * refill);
    assert (k + 1) * (burst * refill) == ((k + 1) * burst) * refill;
    DivLess((k + 1) * l, refill, (k + 1) * burst);
    ElapsedIsQuotient(start, start + (k + 1) * l, refill);
  }

  lemma StaleAfter(cfg: BudgetConfig, start: nat, ops: seq<AdmissionOp>)
    requires ValidBudget(cfg)
    ensures AllStale(cfg, Run(cfg, start, ops).state, Run(cfg, start, ops).clock + (cfg.ttl + 1))
  {
    RunSound(cfg, start, ops);
    StaleLater(cfg, Run(cfg, start, ops).state, Run(cfg, start, ops).clock);
  }

  /** One more cycle: the burst, or less if that is enough to exceed the bound. */
  lemma CycleOnce(cfg: BudgetConfig, start: nat, host: Ip, burst: nat, bound: nat, ops: seq<AdmissionOp>, now: nat, q: nat)
    returns (more: seq<AdmissionOp>)
    requires ValidBudget(cfg) && 0 < burst <= SmallerBurst(cfg) && bound < cfg.globalBurst
    requires Quiet(cfg, start, Run(cfg, start, ops)) && Sent(cfg, start, ops, host, SubnetOf(host))
    requires now == Run(cfg, start, ops).clock + (cfg.ttl + 1) && q == ElapsedPeriods(start, now, cfg.refill)
    requires q <= Run(cfg, start, ops).spent < bound + 1 + q
    ensures Quiet(cfg, start, Run(cfg, start, more)) && Sent(cfg, start, more, host, SubnetOf(host))
    ensures var a := Run(cfg, start, more);
            a.clock == now && (Exceeds(cfg, start, a, bound) || a.spent == Run(cfg, start, ops).spent + burst < bound + 1 + q)
  {
    StaleAfter(cfg, start, ops);
    var cost := Min(burst, bound + 1 + q - Run(cfg, start, ops).spent);
    CycleStep(cfg, start, ops, host, cost, now);
    more := ops + Probe(host, cost, now);
  }

  lemma CycleNext(cfg: BudgetConfig, start: nat, host: Ip, burst: nat, bound: nat, k: nat, ops: seq<AdmissionOp>)
    returns (more: seq<AdmissionOp>)
    requires ValidBudget(cfg) && 0 < burst <= SmallerBurst(cfg) && bound < cfg.globalBurst
    requires !FillsFirst(burst, cfg.refill, cfg.ttl)
    requires Quiet(cfg, start, Run(cfg, start, ops)) && Sent(cfg, start, ops, host, SubnetOf(host))
    requires Behind(cfg, start, Run(cfg, start, ops), burst, bound, k)
    ensures Quiet(cfg, start, Run(cfg, start, more)) && Sent(cfg, start, more, host, SubnetOf(host))
    ensures Exceeds(cfg, start, Run(cfg, start, more), bound) || Behind(cfg, start, Run(cfg, start, more), burst, bound, k + 1)
  {
    var a := Run(cfg, start, ops);
    var now := a.clock + (cfg.ttl + 1);
    NextClock(k, cfg.ttl + 1);
    NextClock(k + 1, burst);
    SpentAhead(start, k, cfg.ttl + 1, burst, cfg.refill);
    ElapsedMonotone(start, a.clock, now, cfg.refill);
    more := CycleOnce(cfg, start, host, burst, bound, ops, now, ElapsedPeriods(start, now, cfg.refill));
  }

  lemma CycleFirst(cfg: BudgetConfig, start: nat, host: Ip, burst: nat, bound: nat) returns (ops: seq<AdmissionOp>)
    requires ValidBudget(cfg) && 0 < burst <= SmallerBurst(cfg) && burst <= bound < cfg.globalBurst
    ensures Quiet(cfg, start, Run(cfg, start, ops)) && Sent(cfg, start, ops, host, SubnetOf(host))
    ensures Behind(cfg, start, Run(cfg, start, ops), burst, bound, 0)
  {
    QuietAtStart(cfg, start);
    CycleStep(cfg, start, [], host, burst, start);
    ops := [] + Probe(host, burst, start);
  }

  lemma {:induction false} Cycles(cfg: BudgetConfig, start: nat, host: Ip, burst: nat, bound: nat, k: nat)
    returns (ops: seq<AdmissionOp>)
    requires ValidBudget(cfg) && 0 < burst <= SmallerBurst(cfg) && burst <= bound < cfg.globalBurst
    requires !FillsFirst(burst, cfg.refill, cfg.ttl)
    ensures Quiet(cfg, start, Run(cfg, start, ops)) && Sent(cfg, start, ops, host, SubnetOf(host))
    ensures Exceeds(cfg, start, Run(cfg, start, ops), bound) || Behind(cfg, start, Run(cfg, start, ops), burst, bound, k)
  {
    if k == 0 {
      ops := CycleFirst(cfg, start, host, burst, bound);
    } else {
      ops := Cycles(cfg, start, host, burst, bound, k - 1);
      if !Exceeds(cfg, start, Run(cfg, start, ops), bound) {
        ops := CycleNext(cfg, start, host, burst, bound, k - 1, ops);
      }
    }
  }

  /** After enough cycles the burst gained in each has added up. */
  lemma NotBehindForever(l: nat, burst: nat, refill: nat, n: nat)
    requires 0 < refill && l < burst * refill
    ensures var k := refill * n; n + (k * l) / refill <= (k + 1) * burst
  {
    var k := refill * n;
    assert k * l == refill * (n * l);
    DivStep(0, refill, n * l);
    MulMonotone(n, l + 1, burst * refill);
    assert n * (burst * refill) == k * burst;
    assert n * (l + 1) == n * l + n;
    NextClock(k, burst);
  }

  lemma CaughtUp(cfg: BudgetConfig, start: nat, a: Account, burst: nat, bound: nat, k: nat)
    requires 0 < cfg.refill && !FillsFirst(burst, cfg.refill, cfg.ttl) && k == cfg.refill * (bound + 1)
    ensures !Behind(cfg, start, a, burst, bound, k)
  {
    NotBehindForever(cfg.ttl + 1, burst, cfg.refill, bound + 1);
    if start <= a.clock {
      ElapsedIsQuotient(start, a.clock, cfg.refill);
    }
  }

  /** A host that empties the smaller bucket over and over, each time just after both were dropped, is sent too much. */
  lemma OneHostOverdraws(cfg: BudgetConfig, start: nat, host: Ip, bound: nat) returns (ops: seq<AdmissionOp>)
    requires ValidBudget(cfg) && SmallerBurst(cfg) <= bound < cfg.globalBurst
    requires !FillsFirst(SmallerBurst(cfg), cfg.refill, cfg.ttl)
    ensures Sent(cfg, start, ops, host, SubnetOf(host)) && Exceeds(cfg, start, Run(cfg, start, ops), bound)
  {
    var k := cfg.refill * (bound + 1);
    ops := Cycles(cfg, start, host, SmallerBurst(cfg), bound, k);
    CaughtUp(cfg, start, Run(cfg, start, ops), SmallerBurst(cfg), bound, k);
  }

  // ---------------------------------------------------------------- two hosts of one network

  /** Two hosts that each draw one token a period take two of their network, which is credited one. */
  datatype Pair = Pair(a: Ip, b: Ip, net: Ip)

  predicate IsPair(p: Pair) {
    p.a != p.b && SubnetOf(p.a) == p.net && SubnetOf(p.b) == p.net
  }

  /** Both hosts drew last at `t`, and their network has `left` tokens. */
  ghost predicate Draining(cfg: BudgetConfig, s: Admission, p: Pair, t: nat, left: nat)
    requires ValidBudget(cfg)
  {
    TwoHosts(cfg, s, p, t, t) && s.subnets == map[p.net := Bucket(left, t, t)]
  }

  /** Each host is one token short of full, credited up to `t` and `u`. */
  ghost predicate TwoHosts(cfg: BudgetConfig, s: Admission, p: Pair, t: nat, u: nat)
    requires ValidBudget(cfg)
  {
    && s.hosts.Keys == {p.a, p.b}
    && s.hosts[p.a] == Bucket(HostBurst(cfg) - 1, t, t) && s.hosts[p.b] == Bucket(HostBurst(cfg) - 1, u, u)
  }

  lemma CreditedOnce(tokens: nat, t: nat, capacity: nat, refill: nat)
    requires 0 < refill && tokens < capacity
    ensures Credited(Bucket(tokens, t, t), t + refill, capacity, refill) == Bucket(tokens + 1, t + refill, t + refill)
  {
    DivStep(0, refill, 1);
  }

  /** The first host draws when every bucket has expired. */
  lemma FirstDraws(cfg: BudgetConfig, s: Admission, p: Pair, now: nat)
    requires ValidBudget(cfg) && IsPair(p) && AllStale(cfg, s, now)
    requires 1 <= Credited(s.global, now, cfg.globalBurst, cfg.refill).tokens
    ensures Fits(cfg, s, p.a, 1, now)
    ensures var after := Probed(cfg, s, p.a, 1, now);
            && after.hosts == map[p.a := Bucket(HostBurst(cfg) - 1, now, now)]
            && after.subnets == map[p.net := Bucket(cfg.subnetBurst - 1, now, now)]
  {
    CreditedNow(HostBurst(cfg), now, HostBurst(cfg), cfg.refill);
    CreditedNow(cfg.subnetBurst, now, cfg.subnetBurst, cfg.refill);
  }

  /** While no bucket expires, one token comes out of the host's bucket and out of its network's. */
  lemma KeptDraw(cfg: BudgetConfig, s: Admission, host: Ip, now: nat, h: Bucket, n: Bucket)
    requires ValidBudget(cfg) && Fresh(s.hosts, now, cfg.ttl) == s.hosts && Fresh(s.subnets, now, cfg.ttl) == s.subnets
    requires !Crowded(s.hosts, host, cfg.stateCapacity) && SubnetOf(host) in s.subnets
    requires h == Credited(BucketAt(s.hosts, host, HostBurst(cfg), now), now, HostBurst(cfg), cfg.refill) && 1 <= h.tokens
    requires n == Credited(s.subnets[SubnetOf(host)], now, cfg.subnetBurst, cfg.refill) && 1 <= n.tokens
    requires 1 <= Credited(s.global, now, cfg.globalBurst, cfg.refill).tokens
    ensures Fits(cfg, s, host, 1, now)
    ensures Probed(cfg, s, host, 1, now).hosts == s.hosts[host := h.(tokens := h.tokens - 1)]
    ensures Probed(cfg, s, host, 1, now).subnets == s.subnets[SubnetOf(host) := n.(tokens := n.tokens - 1)]
  {
  }

  lemma OneUncrowded(h: Ip, bucket: Bucket, host: Ip, capacity: nat)
    requires 2 <= capacity
    ensures !Crowded(map[h := bucket], host, capacity)
  {
    assert |map[h := bucket]| == 1;
  }

  /** The second host draws at the same time. */
  lemma SecondDraws(cfg: BudgetConfig, s: Admission, p: Pair, now: nat, tokens: nat)
    requires ValidBudget(cfg) && IsPair(p) && 2 <= cfg.stateCapacity && 0 < tokens
    requires s.hosts == map[p.a := Bucket(HostBurst(cfg) - 1, now, now)] && s.subnets == map[p.net := Bucket(tokens, now, now)]
    requires 1 <= Credited(s.global, now, cfg.globalBurst, cfg.refill).tokens
    ensures Fits(cfg, s, p.b, 1, now) && Draining(cfg, Probed(cfg, s, p.b, 1, now), p, now, tokens - 1)
  {
    CreditedNow(HostBurst(cfg), now, HostBurst(cfg), cfg.refill);
    CreditedNow(tokens, now, cfg.subnetBurst, cfg.refill);
    OneUncrowded(p.a, s.hosts[p.a], p.b, cfg.stateCapacity);
    KeptDraw(cfg, s, p.b, now, Bucket(HostBurst(cfg), now, now), Bucket(tokens, now, now));
  }

  lemma DrainingKept(cfg: BudgetConfig, s: Admission, p: Pair, t: nat, now: nat, left: nat)
    requires ValidBudget(cfg) && Draining(cfg, s, p, t, left) && t <= now <= t + cfg.ttl
    ensures Fresh(s.hosts, now, cfg.ttl) == s.hosts && Fresh(s.subnets, now, cfg.ttl) == s.subnets
  {
  }

  /** A period later the first host draws again. */
  lemma FirstDrawsAgain(cfg: BudgetConfig, s: Admission, p: Pair, t: nat, now: nat, left: nat)
    requires ValidBudget(cfg) && IsPair(p) && cfg.refill <= cfg.ttl && now == t + cfg.refill
    requires Draining(cfg, s, p, t, left) && left < cfg.subnetBurst
    requires 1 <= Credited(s.global, now, cfg.globalBurst, cfg.refill).tokens
    ensures Fits(cfg, s, p.a, 1, now)
    ensures var after := Probed(cfg, s, p.a, 1, now);
            TwoHosts(cfg, after, p, now, t) && after.subnets == map[p.net := Bucket(left, now, now)]
  {
    CreditedOnce(HostBurst(cfg) - 1, t, HostBurst(cfg), cfg.refill);
    CreditedOnce(left, t, cfg.subnetBurst, cfg.refill);
    DrainingKept(cfg, s, p, t, now, left);
    KeptDraw(cfg, s, p.a, now, Bucket(HostBurst(cfg), now, now), Bucket(left + 1, now, now));
  }

  lemma SecondDrawsAgain(cfg: BudgetConfig, s: Admission, p: Pair, t: nat, now: nat, left: nat)
    requires ValidBudget(cfg) && IsPair(p) && cfg.refill <= cfg.ttl && now == t + cfg.refill && 0 < left
    requires TwoHosts(cfg, s, p, now, t) && s.subnets == map[p.net := Bucket(left, now, now)]
    requires 1 <= Credited(s.global, now, cfg.globalBurst, cfg.refill).tokens
    ensures Fits(cfg, s, p.b, 1, now) && Draining(cfg, Probed(cfg, s, p.b, 1, now), p, now, left - 1)
  {
    CreditedOnce(HostBurst(cfg) - 1, t, HostBurst(cfg), cfg.refill);
    CreditedNow(left, now, cfg.subnetBurst, cfg.refill);
    KeptDraw(cfg, s, p.b, now, Bucket(HostBurst(cfg), now, now), Bucket(left, now, now));
  }

  /** All that was admitted went to this network. */
  ghost predicate ToNet(cfg: BudgetConfig, start: nat, ops: seq<AdmissionOp>, net: Ip)
    requires 0 < cfg.refill
  {
    SubnetSpent(cfg, start, ops, net) == Run(cfg, start, ops).spent
  }

  /** One token to one host of the network. */
  lemma TokenRuns(cfg: BudgetConfig, start: nat, ops: seq<AdmissionOp>, host: Ip, now: nat)
    requires ValidBudget(cfg) && Quiet(cfg, start, Run(cfg, start, ops)) && Run(cfg, start, ops).clock <= now
    requires ElapsedPeriods(start, now, cfg.refill) <= Run(cfg, start, ops).spent
    requires Fits(cfg, Run(cfg, start, ops).state, host, 1, now) && ToNet(cfg, start, ops, SubnetOf(host))
    ensures var a, more := Run(cfg, start, ops), ops + Probe(host, 1, now);
            && Run(cfg, start, more) == Account(Probed(cfg, a.state, host, 1, now), a.spent + 1, now)
            && Quiet(cfg, start, Run(cfg, start, more)) && ToNet(cfg, start, more, SubnetOf(host))
  {
    ProbeRuns(cfg, start, ops, host, 1, now);
    ProbeQuiet(cfg, start, ops, host, 1, now);
  }

  /** Where a run stands: quiet, all to one network, at a given time with a given total. */
  ghost predicate Stands(cfg: BudgetConfig, start: nat, ops: seq<AdmissionOp>, net: Ip, clock: nat, spent: nat)
    requires 0 < cfg.refill
  {
    && Quiet(cfg, start, Run(cfg, start, ops)) && ToNet(cfg, start, ops, net)
    && Run(cfg, start, ops).clock == clock && Run(cfg, start, ops).spent == spent
  }

  lemma CreditLeft(cfg: BudgetConfig, start: nat, a: Account, now: nat)
    requires ValidBudget(cfg) && Quiet(cfg, start, a) && a.clock <= now
    requires ElapsedPeriods(start, now, cfg.refill) <= a.spent < cfg.globalBurst + ElapsedPeriods(start, now, cfg.refill)
    ensures 1 <= Credited(a.state.global, now, cfg.globalBurst, cfg.refill).tokens
  {
    QuietCredit(cfg, start, a, now);
  }

  /** The first round, once every bucket has expired. */
  lemma RoundFirst(cfg: BudgetConfig, start: nat, ops: seq<AdmissionOp>, p: Pair, clock: nat, spent: nat, now: nat)
    returns (more: seq<AdmissionOp>)
    requires ValidBudget(cfg) && IsPair(p) && 2 <= cfg.stateCapacity && 2 <= cfg.subnetBurst
    requires Stands(cfg, start, ops, p.net, clock, spent) && start <= clock <= now && AllStale(cfg, Run(cfg, start, ops).state, now)
    requires ElapsedPeriods(start, now, cfg.refill) <= spent && spent + 2 <= cfg.globalBurst + ElapsedPeriods(start, now, cfg.refill)
    ensures Stands(cfg, start, more, p.net, now, spent + 2)
    ensures Draining(cfg, Run(cfg, start, more).state, p, now, cfg.subnetBurst - 2)
  {
    CreditLeft(cfg, start, Run(cfg, start, ops), now);
    FirstDraws(cfg, Run(cfg, start, ops).state, p, now);
    TokenRuns(cfg, start, ops, p.a, now);
    var half := ops + Probe(p.a, 1, now);
    CreditLeft(cfg, start, Run(cfg, start, half), now);
    SecondDraws(cfg, Run(cfg, start, half).state, p, now, cfg.subnetBurst - 1);
    TokenRuns(cfg, start, half, p.b, now);
    more := half + Probe(p.b, 1, now);
  }

  /** The next round, a period later. */
  lemma RoundNext(cfg: BudgetConfig, start: nat, ops: seq<AdmissionOp>, p: Pair, t: nat, spent: nat, left: nat, now: nat)
    returns (more: seq<AdmissionOp>)
    requires ValidBudget(cfg) && IsPair(p) && cfg.refill <= cfg.ttl && now == t + cfg.refill
    requires Stands(cfg, start, ops, p.net, t, spent) && start <= t
    requires Draining(cfg, Run(cfg, start, ops).state, p, t, left) && 0 < left < cfg.subnetBurst
    requires ElapsedPeriods(start, now, cfg.refill) <= spent && spent + 2 <= cfg.globalBurst + ElapsedPeriods(start, now, cfg.refill)
    ensures Stands(cfg, start, more, p.net, now, spent + 2)
    ensures Draining(cfg, Run(cfg, start, more).state, p, now, left - 1)
  {
    CreditLeft(cfg, start, Run(cfg, start, ops), now);
    FirstDrawsAgain(cfg, Run(cfg, start, ops).state, p, t, now, left);
    TokenRuns(cfg, start, ops, p.a, now);
    var half := ops + Probe(p.a, 1, now);
    CreditLeft(cfg, start, Run(cfg, start, half), now);
    SecondDrawsAgain(cfg, Run(cfg, start, half).state, p, t, now, left);
    TokenRuns(cfg, start, half, p.b, now);
    more := half + Probe(p.b, 1, now);
  }

  /** When round `i` takes place: a period after the one before. */
  function RoundTime(t0: nat, i: nat, refill: nat): (t: nat)
    ensures t0 <= t
  {
    if i == 0 then t0 else RoundTime(t0, i - 1, refill) + refill
  }

  lemma ElapsedNext(start: nat, t: nat, refill: nat)
    requires 0 < refill && start <= t
    ensures ElapsedPeriods(start, t + refill, refill) == ElapsedPeriods(start, t, refill) + 1
  {
    ElapsedIsQuotient(start, t, refill);
    ElapsedIsQuotient(start, t + refill, refill);
    DivStep(t - start, refill, 1);
  }

  lemma {:induction false} ElapsedRounds(start: nat, t0: nat, i: nat, refill: nat)
    requires 0 < refill && start <= t0
    ensures ElapsedPeriods(start, RoundTime(t0, i, refill), refill) == ElapsedPeriods(start, t0, refill) + i
  {
    if i > 0 {
      ElapsedRounds(start, t0, i - 1, refill);
      ElapsedNext(start, RoundTime(t0, i - 1, refill), refill);
    }
  }

  /** Where the rounds from a given total stand after round `i`. */
  ghost predicate AfterRound(cfg: BudgetConfig, start: nat, ops: seq<AdmissionOp>, p: Pair, t: nat, spent: nat, i: nat)
    requires ValidBudget(cfg) && i + 2 <= cfg.subnetBurst
  {
    && Stands(cfg, start, ops, p.net, t, spent + 2 * (i + 1))
    && Draining(cfg, Run(cfg, start, ops).state, p, t, cfg.subnetBurst - 2 - i)
  }

  lemma RoundAfter(
    cfg: BudgetConfig, start: nat, ops: seq<AdmissionOp>, p: Pair, t: nat, now: nat, spent: nat, q0: nat, i: nat)
    returns (more: seq<AdmissionOp>)
    requires ValidBudget(cfg) && IsPair(p) && cfg.refill <= cfg.ttl && 0 < i && i + 2 <= cfg.subnetBurst
    requires start <= t && now == t + cfg.refill
    requires AfterRound(cfg, start, ops, p, t, spent, i - 1) && ElapsedPeriods(start, now, cfg.refill) == q0 + i
    requires q0 <= spent && spent + 2 + i <= cfg.globalBurst + q0
    ensures AfterRound(cfg, start, more, p, now, spent, i)
  {
    more := RoundNext(cfg, start, ops, p, t, spent + 2 * i, cfg.subnetBurst - 1 - i, now);
  }

  lemma RoundZero(cfg: BudgetConfig, start: nat, ops: seq<AdmissionOp>, p: Pair, clock: nat, spent: nat, t0: nat)
    returns (more: seq<AdmissionOp>)
    requires ValidBudget(cfg) && IsPair(p) && 2 <= cfg.stateCapacity && 2 <= cfg.subnetBurst
    requires Stands(cfg, start, ops, p.net, clock, spent) && start <= clock <= t0 && AllStale(cfg, Run(cfg, start, ops).state, t0)
    requires ElapsedPeriods(start, t0, cfg.refill) <= spent && spent + 2 <= cfg.globalBurst + ElapsedPeriods(start, t0, cfg.refill)
    ensures AfterRound(cfg, start, more, p, t0, spent, 0)
  {
    more := RoundFirst(cfg, start, ops, p, clock, spent, t0);
  }

  /** Rounds 0 to `i` from `t0`: two tokens each, and one period less to show for it. */
  lemma {:induction false} Rounds(
    cfg: BudgetConfig, start: nat, ops: seq<AdmissionOp>, p: Pair, clock: nat, spent: nat, t0: nat, q0: nat, i: nat)
    returns (more: seq<AdmissionOp>)
    requires ValidBudget(cfg) && IsPair(p) && 2 <= cfg.stateCapacity && cfg.refill <= cfg.ttl && i + 2 <= cfg.subnetBurst
    requires Stands(cfg, start, ops, p.net, clock, spent) && start <= clock <= t0 && AllStale(cfg, Run(cfg, start, ops).state, t0)
    requires q0 == ElapsedPeriods(start, t0, cfg.refill) && q0 <= spent && spent + 2 + i <= cfg.globalBurst + q0
    ensures AfterRound(cfg, start, more, p, RoundTime(t0, i, cfg.refill), spent, i)
  {
    if i == 0 {
      more := RoundZero(cfg, start, ops, p, clock, spent, t0);
    } else {
      var t, now := RoundTime(t0, i - 1, cfg.refill), RoundTime(t0, i, cfg.refill);
      var before := Rounds(cfg, start, ops, p, clock, spent, t0, q0, i - 1);
      ElapsedRounds(start, t0, i, cfg.refill);
      more := RoundAfter(cfg, start, before, p, t, now, spent, q0, i);
    }
  }

  // ---------------------------------------------------------------- draining a network twice

  /** The first draining of the network, down to nothing. */
  lemma FirstDraining(cfg: BudgetConfig, start: nat, p: Pair) returns (ops: seq<AdmissionOp>)
    requires ValidBudget(cfg) && IsPair(p) && 2 <= cfg.stateCapacity && cfg.refill <= cfg.ttl
    requires 2 <= cfg.subnetBurst < cfg.globalBurst
    ensures Stands(cfg, start, ops, p.net, RoundTime(start, cfg.subnetBurst - 2, cfg.refill), 2 * (cfg.subnetBurst - 1))
  {
    QuietAtStart(cfg, start);
    assert AllStale(cfg, Run(cfg, start, []).state, start);
    ops := Rounds(cfg, start, [], p, start, 0, start, 0, cfg.subnetBurst - 2);
  }

  lemma ElapsedFrom(start: nat, wait: nat, refill: nat)
    requires 0 < refill
    ensures ElapsedPeriods(start, start + wait, refill) == wait / refill
  {
    ElapsedIsQuotient(start, start + wait, refill);
  }

  /** How far the periods have come when the network's bucket has been dropped. */
  lemma ElapsedWait(start: nat, i: nat, wait: nat, refill: nat)
    requires 0 < refill
    ensures ElapsedPeriods(start, RoundTime(start, i, refill) + wait, refill) == i + wait / refill
  {
    RoundTimeShifts(start, i, wait, refill);
    ElapsedRounds(start, start + wait, i, refill);
    ElapsedFrom(start, wait, refill);
  }

  lemma {:induction false} RoundTimeShifts(t0: nat, i: nat, wait: nat, refill: nat)
    ensures RoundTime(t0, i, refill) + wait == RoundTime(t0 + wait, i, refill)
  {
    if i > 0 {
      RoundTimeShifts(t0, i - 1, wait, refill);
    }
  }

  /** After as many rounds as periods passed in waiting, one token too many has been sent. */
  lemma RoundsExceed(cfg: BudgetConfig, start: nat, ops: seq<AdmissionOp>, p: Pair, t: nat, periods: nat)
    requires ValidBudget(cfg) && 0 < periods < cfg.subnetBurst && start <= t
    requires AfterRound(cfg, start, ops, p, t, 2 * (cfg.subnetBurst - 1), periods - 1)
    requires ElapsedPeriods(start, t, cfg.refill) == cfg.subnetBurst - 2 + periods + (periods - 1)
    ensures ToNet(cfg, start, ops, p.net) && Exceeds(cfg, start, Run(cfg, start, ops), cfg.subnetBurst)
  {
  }

  /** The second draining, once the network's bucket was dropped before it could refill. */
  lemma SecondDraining(cfg: BudgetConfig, start: nat, p: Pair, first: seq<AdmissionOp>, t: nat, t1: nat, periods: nat)
    returns (ops: seq<AdmissionOp>)
    requires ValidBudget(cfg) && IsPair(p) && 2 <= cfg.stateCapacity && cfg.refill <= cfg.ttl
    requires 2 <= cfg.subnetBurst < cfg.globalBurst && 0 < periods < cfg.subnetBurst
    requires start <= t && Stands(cfg, start, first, p.net, t, 2 * (cfg.subnetBurst - 1)) && t1 == t + (cfg.ttl + 1)
    requires ElapsedPeriods(start, t1, cfg.refill) == cfg.subnetBurst - 2 + periods
    ensures ToNet(cfg, start, ops, p.net) && Exceeds(cfg, start, Run(cfg, start, ops), cfg.subnetBurst)
  {
    StaleAfter(cfg, start, first);
    ops := Rounds(cfg, start, first, p, t, 2 * (cfg.subnetBurst - 1), t1, cfg.subnetBurst - 2 + periods, periods - 1);
    ElapsedRounds(start, t1, periods - 1, cfg.refill);
    RoundsExceed(cfg, start, ops, p, RoundTime(t1, periods - 1, cfg.refill), periods);
  }

  /** A refill shorter than the time-to-live, with which the network's bucket yet does not refill before it is dropped. */
  lemma WaitPeriods(cfg: BudgetConfig) returns (periods: nat)
    requires ValidBudget(cfg) && FillsFirst(HostBurst(cfg), cfg.refill, cfg.ttl)
    requires !FillsFirst(cfg.subnetBurst, cfg.refill, cfg.ttl)
    ensures periods == (cfg.ttl + 1) / cfg.refill && 0 < periods < cfg.subnetBurst && cfg.refill <= cfg.ttl
  {
    periods := (cfg.ttl + 1) / cfg.refill;
    DivLess(cfg.ttl + 1, cfg.refill, cfg.subnetBurst);
    MulMonotone(cfg.refill, 2, HostBurst(cfg));
    DivAtLeast(cfg.ttl + 1, cfg.refill, 1);
  }

  /** Two hosts drain their network, wait until its bucket is dropped, and drain it again: it is sent too much. */
  lemma TwoHostsOverdraw(cfg: BudgetConfig, start: nat, p: Pair) returns (ops: seq<AdmissionOp>)
    requires ValidBudget(cfg) && IsPair(p) && 2 <= cfg.stateCapacity && cfg.subnetBurst < cfg.globalBurst
    requires FillsFirst(HostBurst(cfg), cfg.refill, cfg.ttl) && !FillsFirst(cfg.subnetBurst, cfg.refill, cfg.ttl)
    ensures ToNet(cfg, start, ops, p.net) && Exceeds(cfg, start, Run(cfg, start, ops), cfg.subnetBurst)
  {
    var periods := WaitPeriods(cfg);
    var first := FirstDraining(cfg, start, p);
    var t := RoundTime(start, cfg.subnetBurst - 2, cfg.refill);
    ElapsedWait(start, cfg.subnetBurst - 2, cfg.ttl + 1, cfg.refill);
    ops := SecondDraining(cfg, start, p, first, t, t + (cfg.ttl + 1), periods);
  }

  // ---------------------------------------------------------------- exactly when

  lemma ExceedsNotWithin(cfg: BudgetConfig, start: nat, a: Account, bound: nat)
    requires 0 < cfg.refill && Exceeds(cfg, start, a, bound)
    ensures !Within(a.spent, bound, start, a.clock, cfg.refill)
  {
    ElapsedIsQuotient(start, a.clock, cfg.refill);
  }

  lemma HostOverdrawn(cfg: BudgetConfig, start: nat, host: Ip) returns (ops: seq<AdmissionOp>)
    requires ValidBudget(cfg) && HostBurst(cfg) < cfg.globalBurst && !FillsFirst(SmallerBurst(cfg), cfg.refill, cfg.ttl)
    ensures !Within(HostSpent(cfg, start, ops, host), HostBurst(cfg), start, Run(cfg, start, ops).clock, cfg.refill)
  {
    ops := OneHostOverdraws(cfg, start, host, HostBurst(cfg));
    ExceedsNotWithin(cfg, start, Run(cfg, start, ops), HostBurst(cfg));
  }

  lemma SmallerFills(cfg: BudgetConfig)
    requires FillsFirst(SmallerBurst(cfg), cfg.refill, cfg.ttl) && !FillsFirst(cfg.subnetBurst, cfg.refill, cfg.ttl)
    ensures FillsFirst(HostBurst(cfg), cfg.refill, cfg.ttl)
  {
  }

  lemma SubnetOverdrawn(cfg: BudgetConfig, start: nat, p: Pair) returns (ops: seq<AdmissionOp>)
    requires ValidBudget(cfg) && IsPair(p) && cfg.subnetBurst < cfg.globalBurst
    requires !FillsFirst(DecidingBurst(cfg), cfg.refill, cfg.ttl)
    ensures !Within(SubnetSpent(cfg, start, ops, p.net), cfg.subnetBurst, start, Run(cfg, start, ops).clock, cfg.refill)
  {
    if FillsFirst(SmallerBurst(cfg), cfg.refill, cfg.ttl) {
      SmallerFills(cfg);
      ops := TwoHostsOverdraw(cfg, start, p);
    } else {
      ops := OneHostOverdraws(cfg, start, p.a, cfg.subnetBurst);
    }
    ExceedsNotWithin(cfg, start, Run(cfg, start, ops), cfg.subnetBurst);
  }

  lemma HostsWithin(cfg: BudgetConfig)
    requires ValidBudget(cfg)
    requires cfg.globalBurst <= HostBurst(cfg) || FillsFirst(SmallerBurst(cfg), cfg.refill, cfg.ttl)
    ensures HostsAlwaysBounded(cfg)
  {
    forall start: nat, ops, host
      ensures Within(HostSpent(cfg, start, ops, host), HostBurst(cfg), start, Run(cfg, start, ops).clock, cfg.refill)
    {
      HostWithin(cfg, start, ops, host);
    }
  }

  lemma SubnetsWithin(cfg: BudgetConfig)
    requires ValidBudget(cfg)
    requires cfg.globalBurst <= cfg.subnetBurst || FillsFirst(DecidingBurst(cfg), cfg.refill, cfg.ttl)
    ensures SubnetsAlwaysBounded(cfg)
  {
    forall start: nat, ops, net
      ensures Within(SubnetSpent(cfg, start, ops, net), cfg.subnetBurst, start, Run(cfg, start, ops).clock, cfg.refill)
    {
      SubnetWithin(cfg, start, ops, net);
    }
  }

  /**
   For every valid budget: no run sends a host more than its burst and one per period, if and only if the
   global burst is no larger or the smaller of the host's and the network's bucket refills before it is dropped.
   */
  lemma HostsBoundedIff(cfg: BudgetConfig, host: Ip)
    requires ValidBudget(cfg)
    ensures HostsAlwaysBounded(cfg) <==>
            cfg.globalBurst <= HostBurst(cfg) || FillsFirst(SmallerBurst(cfg), cfg.refill, cfg.ttl)
  {
    if cfg.globalBurst <= HostBurst(cfg) || FillsFirst(SmallerBurst(cfg), cfg.refill, cfg.ttl) {
      HostsWithin(cfg);
    } else {
      var ops := HostOverdrawn(cfg, cfg.ttl, host);
    }
  }

  /**
   For every valid budget: the same for networks, where the network's bucket decides unless only one state is
   kept, in which case the smaller of the two does again.
   */
  lemma SubnetsBoundedIff(cfg: BudgetConfig, p: Pair)
    requires ValidBudget(cfg) && IsPair(p)
    ensures SubnetsAlwaysBounded(cfg) <==>
            cfg.globalBurst <= cfg.subnetBurst || FillsFirst(DecidingBurst(cfg), cfg.refill, cfg.ttl)
  {
    if cfg.globalBurst <= cfg.subnetBurst || FillsFirst(DecidingBurst(cfg), cfg.refill, cfg.ttl) {
      SubnetsWithin(cfg);
    } else {
      var ops := SubnetOverdrawn(cfg, cfg.ttl, p);
    }
  }
}
