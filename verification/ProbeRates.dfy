/** What the token buckets guarantee: a bound on everything admitted, and deadlines that are kept. */
module ProbeRates {
  import opened Naturals
  import opened ProbeQueue
  import opened ProbeAdmission

  // ---------------------------------------------------------------- one bucket

  /** No more tokens than the bucket holds, and credited no further than it was last used. */
  ghost predicate Sane(b: Bucket, capacity: nat, now: nat) {
    b.tokens <= capacity && b.last <= b.lastUsed <= now
  }

  lemma MulMonotone(r: nat, a: nat, b: nat)
    requires a <= b
    ensures r * a <= r * b
  {
  }

  lemma DivAtLeast(x: nat, r: nat, n: nat)
    requires 0 < r && r * n <= x
    ensures n <= x / r
  {
    var q := x / r;
    assert x < r * (q + 1);
    if q < n {
      MulMonotone(r, q + 1, n);
    }
  }

  lemma DivDown(x: nat, r: nat)
    requires 0 < r
    ensures r * (x / r) <= x
  {
  }

  lemma CreditedSane(b: Bucket, now: nat, capacity: nat, refill: nat)
    requires 0 < refill && Sane(b, capacity, now)
    ensures Sane(Credited(b, now, capacity, refill), capacity, now)
    ensures Credited(b, now, capacity, refill).lastUsed == now
    ensures b.tokens <= Credited(b, now, capacity, refill).tokens
  {
    if b.last < now && refill <= now - b.last {
      var p := Periods(b, now, refill);
      DivDown(now - b.last, refill);
      MulMonotone(refill, Min(p, 0xffff_ffff), p);
    }
  }

  /** After `n` periods an intact bucket holds what it held and `n` more, or is full. */
  lemma CreditedGains(b: Bucket, now: nat, later: nat, n: nat, capacity: nat, refill: nat)
    requires 0 < refill && b.last <= now && now + refill * n <= later && b.tokens <= capacity
    ensures Credited(b, later, capacity, refill).tokens >= Min(b.tokens + n, capacity)
  {
    if n > 0 {
      MulMonotone(refill, 1, n);
      DivAtLeast(later - b.last, refill, n);
    }
  }

  // ---------------------------------------------------------------- the bound on what is admitted

  /** `spent` never exceeds the burst and one token per whole period the global bucket was credited. */
  ghost predicate Bounded(b: Bucket, spent: nat, burst: nat, start: nat, refill: nat, credited: nat) {
    b.last == start + refill * credited && spent + b.tokens <= burst + credited
  }

  /** Crediting keeps the bound, also when the credited time is clamped. */
  lemma CreditedBounded(b: Bucket, spent: nat, burst: nat, start: nat, refill: nat, credited: nat, now: nat)
    returns (after: nat)
    requires 0 < refill && burst <= 0xffff_ffff && Bounded(b, spent, burst, start, refill, credited)
    ensures Bounded(Credited(b, now, burst, refill), spent, burst, start, refill, after)
  {
    if b.last < now && refill <= now - b.last {
      var p := Min(Periods(b, now, refill), 0xffff_ffff);
      after := credited + p;
      assert refill * (credited + p) == refill * credited + refill * p;
    } else {
      after := credited;
    }
  }

  ghost predicate Credible(b: Bucket, spent: nat, burst: nat, start: nat, refill: nat) {
    exists credited: nat :: Bounded(b, spent, burst, start, refill, credited)
  }

  lemma CreditedCredible(b: Bucket, spent: nat, burst: nat, start: nat, refill: nat, now: nat)
    requires 0 < refill && burst <= 0xffff_ffff && Credible(b, spent, burst, start, refill)
    ensures Credible(Credited(b, now, burst, refill), spent, burst, start, refill)
  {
    var credited: nat :| Bounded(b, spent, burst, start, refill, credited);
    var after := CreditedBounded(b, spent, burst, start, refill, credited, now);
  }

  lemma SpentCredible(b: Bucket, spent: nat, burst: nat, start: nat, refill: nat, cost: nat)
    requires Credible(b, spent, burst, start, refill) && cost <= b.tokens
    ensures Credible(Take(b, cost), spent + cost, burst, start, refill)
  {
    var credited: nat :| Bounded(b, spent, burst, start, refill, credited);
    assert Bounded(Take(b, cost), spent + cost, burst, start, refill, credited);
  }

  lemma CredibleBound(b: Bucket, spent: nat, burst: nat, start: nat, refill: nat, now: nat)
    requires 0 < refill && Credible(b, spent, burst, start, refill) && b.last <= now && start <= now
    ensures spent <= burst + (now - start) / refill
  {
    var credited: nat :| Bounded(b, spent, burst, start, refill, credited);
    DivAtLeast(now - start, refill, credited);
  }

  // ---------------------------------------------------------------- whole runs

  datatype AdmissionOp = Ask(host: Ip, cost: nat, now: nat) | Done(finished: Ip) | Halt

  datatype Account = Account(state: Admission, spent: nat, clock: nat)

  ghost predicate SaneBuckets(buckets: map<Ip, Bucket>, capacity: nat, now: nat) {
    forall k :: k in buckets ==> Sane(buckets[k], capacity, now)
  }

  /** What holds between calls. */
  ghost predicate Steady(cfg: BudgetConfig, a: Admission, now: nat) {
    && Sane(a.global, cfg.globalBurst, now)
    && SaneBuckets(a.hosts, HostBurst(cfg), now)
    && SaneBuckets(a.subnets, cfg.subnetBurst, now)
  }

  ghost function After(o: Outcome, s: Admission): Admission {
    if o.Busy? then s else o.after
  }

  /** A clock that stands still at worst. */
  ghost function Step(cfg: BudgetConfig, a: Account, op: AdmissionOp): Account
    requires 0 < cfg.refill
  {
    match op
    case Ask(host, cost, now) =>
      if now < a.clock then a
      else
        var o := Decide(cfg, a.state, host, cost, now);
        Account(After(o, a.state), if o.Starts? then a.spent + cost else a.spent, now)
    case Done(host) => a.(state := Finish(a.state, host))
    case Halt => a.(state := a.state.(stopped := true))
  }

  ghost function Run(cfg: BudgetConfig, start: nat, ops: seq<AdmissionOp>): Account
    requires 0 < cfg.refill
  {
    if ops == [] then Account(NewAdmission(cfg, start), 0, start)
    else Step(cfg, Run(cfg, start, ops[..|ops| - 1]), ops[|ops| - 1])
  }

  ghost predicate Sound(cfg: BudgetConfig, start: nat, a: Account) {
    && start <= a.clock && Steady(cfg, a.state, a.clock)
    && Credible(a.state.global, a.spent, cfg.globalBurst, start, cfg.refill)
  }

  lemma SaneLater(buckets: map<Ip, Bucket>, capacity: nat, now: nat, later: nat)
    requires SaneBuckets(buckets, capacity, now) && now <= later
    ensures SaneBuckets(buckets, capacity, later)
  {
  }

  lemma DrawSane(cfg: BudgetConfig, s: Admission, host: Ip, now: nat)
    requires 0 < cfg.refill && Steady(cfg, s, now)
    ensures var d := DrawFor(cfg, s, host, now);
            && Sane(d.global, cfg.globalBurst, now) && Sane(d.host, HostBurst(cfg), now)
            && Sane(d.subnet, cfg.subnetBurst, now)
            && d.host.lastUsed == now && d.subnet.lastUsed == now
  {
    CreditedSane(s.global, now, cfg.globalBurst, cfg.refill);
    CreditedSane(BucketAt(s.hosts, host, HostBurst(cfg), now), now, HostBurst(cfg), cfg.refill);
    CreditedSane(BucketAt(s.subnets, SubnetOf(host), cfg.subnetBurst, now), now, cfg.subnetBurst, cfg.refill);
  }

  lemma ExpiredSteady(cfg: BudgetConfig, s: Admission, now: nat, later: nat)
    requires Steady(cfg, s, now) && now <= later
    ensures Steady(cfg, Expired(cfg, s, later), later)
  {
    SaneLater(s.hosts, HostBurst(cfg), now, later);
    SaneLater(s.subnets, cfg.subnetBurst, now, later);
  }

  lemma DrawnSteady(cfg: BudgetConfig, s: Admission, host: Ip, d: Draw, now: nat)
    requires Steady(cfg, s, now)
    requires Sane(d.global, cfg.globalBurst, now) && Sane(d.host, HostBurst(cfg), now) && Sane(d.subnet, cfg.subnetBurst, now)
    ensures Steady(cfg, Drawn(s, host, d), now)
  {
  }

  lemma DecideSteady(cfg: BudgetConfig, s: Admission, host: Ip, cost: nat, now: nat, later: nat)
    requires 0 < cfg.refill && Steady(cfg, s, now) && now <= later
    ensures Steady(cfg, After(Decide(cfg, s, host, cost, later), s), later)
  {
    SaneLater(s.hosts, HostBurst(cfg), now, later);
    SaneLater(s.subnets, cfg.subnetBurst, now, later);
    if !Limited(cfg, s, host, cost) {
      var e := Expired(cfg, s, later);
      ExpiredSteady(cfg, s, now, later);
      DrawSane(cfg, e, host, later);
      var d := DrawFor(cfg, e, host, later);
      DrawnSteady(cfg, e, host, d, later);
      DrawnSteady(cfg, e, host, Spend(d, cost), later);
    }
  }

  lemma DecideCredible(cfg: BudgetConfig, s: Admission, host: Ip, cost: nat, now: nat, spent: nat, start: nat)
    requires ValidBudget(cfg) && Credible(s.global, spent, cfg.globalBurst, start, cfg.refill)
    ensures var o := Decide(cfg, s, host, cost, now);
            Credible(After(o, s).global, if o.Starts? then spent + cost else spent, cfg.globalBurst, start, cfg.refill)
  {
    CreditedCredible(s.global, spent, cfg.globalBurst, start, cfg.refill, now);
    var o := Decide(cfg, s, host, cost, now);
    if o.Starts? {
      var d := DrawFor(cfg, Expired(cfg, s, now), host, now);
      SpentCredible(d.global, spent, cfg.globalBurst, start, cfg.refill, cost);
    }
  }

  lemma StepSound(cfg: BudgetConfig, start: nat, a: Account, op: AdmissionOp)
    requires ValidBudget(cfg) && Sound(cfg, start, a)
    ensures Sound(cfg, start, Step(cfg, a, op))
  {
    match op {
      case Ask(host, cost, now) =>
        if a.clock <= now {
          DecideSteady(cfg, a.state, host, cost, a.clock, now);
          DecideCredible(cfg, a.state, host, cost, now, a.spent, start);
        }
      case Done(host) =>
      case Halt =>
    }
  }

  lemma {:induction false} RunSound(cfg: BudgetConfig, start: nat, ops: seq<AdmissionOp>)
    requires ValidBudget(cfg)
    ensures Sound(cfg, start, Run(cfg, start, ops))
  {
    if ops == [] {
      assert Bounded(Bucket(cfg.globalBurst, start, start), 0, cfg.globalBurst, start, cfg.refill, 0);
    } else {
      RunSound(cfg, start, ops[..|ops| - 1]);
      StepSound(cfg, start, Run(cfg, start, ops[..|ops| - 1]), ops[|ops| - 1]);
    }
  }

  /** Everything admitted since the start fits the burst and one token per elapsed period. */
  lemma AdmittedBounded(cfg: BudgetConfig, start: nat, ops: seq<AdmissionOp>)
    requires ValidBudget(cfg)
    ensures var a := Run(cfg, start, ops); a.spent <= cfg.globalBurst + (a.clock - start) / cfg.refill
  {
    RunSound(cfg, start, ops);
    var a := Run(cfg, start, ops);
    CredibleBound(a.state.global, a.spent, cfg.globalBurst, start, cfg.refill, a.clock);
  }

  // ---------------------------------------------------------------- deadlines

  /** A request refused for lack of tokens can be met at all. */
  ghost predicate Affordable(cfg: BudgetConfig, cost: nat) {
    cost <= cfg.globalBurst && cost <= HostBurst(cfg) && cost <= cfg.subnetBurst
  }

  /** Either the bucket used at the refusal is still there, or every bucket is gone. */
  lemma KeptOrEmpty(buckets: map<Ip, Bucket>, k: Ip, capacity: nat, now: nat, later: nat, ttl: nat)
    requires SaneBuckets(buckets, capacity, now) && k in buckets && buckets[k].lastUsed == now && now <= later
    ensures if later - now <= ttl then k in Fresh(buckets, later, ttl) else Fresh(buckets, later, ttl) == map[]
  {
  }

  /** Enough tokens after the missing periods, whether the bucket was kept or made anew. */
  lemma EnoughLater(
    buckets: map<Ip, Bucket>, k: Ip, capacity: nat, refill: nat, ttl: nat, cost: nat, n: nat, now: nat, later: nat)
    requires 0 < refill && SaneBuckets(buckets, capacity, now) && k in buckets && buckets[k].lastUsed == now
    requires cost <= capacity && cost <= buckets[k].tokens + n && now + refill * n <= later
    ensures cost <= Credited(BucketAt(Fresh(buckets, later, ttl), k, capacity, later), later, capacity, refill).tokens
  {
    KeptOrEmpty(buckets, k, capacity, now, later, ttl);
    if later - now <= ttl {
      CreditedGains(buckets[k], now, later, n, capacity, refill);
    }
  }

  lemma NeverCrowded(buckets: map<Ip, Bucket>, k: Ip, capacity: nat, now: nat, later: nat, ttl: nat, states: nat)
    requires SaneBuckets(buckets, capacity, now) && k in buckets && buckets[k].lastUsed == now && now <= later && 0 < states
    ensures !Crowded(Fresh(buckets, later, ttl), k, states)
  {
    KeptOrEmpty(buckets, k, capacity, now, later, ttl);
  }

  /** Both buckets of the host were used just now, and `n` more tokens each would cover the cost. */
  ghost predicate ShortBy(s: Admission, host: Ip, cost: nat, n: nat, now: nat) {
    && host in s.hosts && s.hosts[host].lastUsed == now
    && SubnetOf(host) in s.subnets && s.subnets[SubnetOf(host)].lastUsed == now
    && cost <= s.global.tokens + n && cost <= s.hosts[host].tokens + n && cost <= s.subnets[SubnetOf(host)].tokens + n
  }

  /** What a refusal for lack of tokens leaves behind. */
  lemma ShortShape(cfg: BudgetConfig, s: Admission, host: Ip, cost: nat, clock: nat, now: nat) returns (n: nat)
    requires 0 < cfg.refill && Steady(cfg, s, clock) && clock <= now
    requires Decide(cfg, s, host, cost, now).Short?
    ensures var o := Decide(cfg, s, host, cost, now);
            && o.deadline == now + cfg.refill * n && ShortBy(o.after, host, cost, n, now)
            && Steady(cfg, o.after, now) && !Limited(cfg, o.after, host, cost)
  {
    var e := Expired(cfg, s, now);
    ExpiredSteady(cfg, s, clock, now);
    DrawSane(cfg, e, host, now);
    var d := DrawFor(cfg, e, host, now);
    DrawnSteady(cfg, e, host, d, now);
    n := Missing(d, cost);
  }

  lemma MeetsDeadline(cfg: BudgetConfig, s: Admission, host: Ip, cost: nat, n: nat, now: nat, later: nat)
    requires ValidBudget(cfg) && Steady(cfg, s, now) && !Limited(cfg, s, host, cost)
    requires ShortBy(s, host, cost, n, now) && now + cfg.refill * n <= later && Affordable(cfg, cost)
    ensures Decide(cfg, s, host, cost, later).Starts?
  {
    NeverCrowded(s.hosts, host, HostBurst(cfg), now, later, cfg.ttl, cfg.stateCapacity);
    NeverCrowded(s.subnets, SubnetOf(host), cfg.subnetBurst, now, later, cfg.ttl, cfg.stateCapacity);
    CreditedGains(s.global, now, later, n, cfg.globalBurst, cfg.refill);
    EnoughLater(s.hosts, host, HostBurst(cfg), cfg.refill, cfg.ttl, cost, n, now, later);
    EnoughLater(s.subnets, SubnetOf(host), cfg.subnetBurst, cfg.refill, cfg.ttl, cost, n, now, later);
  }

  /** A cost above a bucket's capacity is never admitted. */
  lemma NeverAffordable(cfg: BudgetConfig, s: Admission, host: Ip, cost: nat, clock: nat, now: nat)
    requires 0 < cfg.refill && Steady(cfg, s, clock) && clock <= now && Decide(cfg, s, host, cost, now).Starts?
    ensures Affordable(cfg, cost)
  {
    ExpiredSteady(cfg, s, clock, now);
    DrawSane(cfg, Expired(cfg, s, now), host, now);
  }

  lemma AskedAgain(cfg: BudgetConfig, s: Admission, host: Ip, cost: nat, n: nat, now: nat, later: nat)
    requires ValidBudget(cfg) && Steady(cfg, s, now) && !Limited(cfg, s, host, cost)
    requires ShortBy(s, host, cost, n, now) && now + cfg.refill * n <= later
    ensures Decide(cfg, s, host, cost, later).Starts? <==> Affordable(cfg, cost)
  {
    if Affordable(cfg, cost) {
      MeetsDeadline(cfg, s, host, cost, n, now, later);
    } else if Decide(cfg, s, host, cost, later).Starts? {
      NeverAffordable(cfg, s, host, cost, now, later);
    }
  }

  /** Asked again at or after the promised time, a request is admitted exactly when every bucket could ever hold its cost. */
  lemma DeadlineKeptIff(cfg: BudgetConfig, s: Admission, host: Ip, cost: nat, clock: nat, now: nat, later: nat)
    requires ValidBudget(cfg) && Steady(cfg, s, clock) && clock <= now
    requires Decide(cfg, s, host, cost, now).Short? && Decide(cfg, s, host, cost, now).deadline <= later
    ensures Decide(cfg, Decide(cfg, s, host, cost, now).after, host, cost, later).Starts? <==> Affordable(cfg, cost)
  {
    var n := ShortShape(cfg, s, host, cost, clock, now);
    AskedAgain(cfg, Decide(cfg, s, host, cost, now).after, host, cost, n, now, later);
  }

  /** In every reachable state. */
  lemma DeadlinesKept(cfg: BudgetConfig, start: nat, ops: seq<AdmissionOp>, host: Ip, cost: nat, now: nat, later: nat)
    requires ValidBudget(cfg) && Run(cfg, start, ops).clock <= now
    requires Decide(cfg, Run(cfg, start, ops).state, host, cost, now).Short?
    requires Decide(cfg, Run(cfg, start, ops).state, host, cost, now).deadline <= later
    ensures Decide(cfg, Decide(cfg, Run(cfg, start, ops).state, host, cost, now).after, host, cost, later).Starts?
            <==> Affordable(cfg, cost)
  {
    RunSound(cfg, start, ops);
    DeadlineKeptIff(cfg, Run(cfg, start, ops).state, host, cost, Run(cfg, start, ops).clock, now, later);
  }

  /** A cost just above the host's capacity is given a time to come back at, and is not admitted then or ever after. */
  lemma UnaffordableNeverStarts(cfg: BudgetConfig, host: Ip, now: nat, later: nat)
    requires ValidBudget(cfg)
    ensures var cost, s := HostBurst(cfg) + 1, NewAdmission(cfg, now);
            && cost <= 255 && Decide(cfg, s, host, cost, now).Short?
            && (Decide(cfg, s, host, cost, now).deadline <= later ==>
                  !Decide(cfg, Decide(cfg, s, host, cost, now).after, host, cost, later).Starts?)
  {
    var cost, s := HostBurst(cfg) + 1, NewAdmission(cfg, now);
    assert Steady(cfg, s, now);
    if Decide(cfg, s, host, cost, now).deadline <= later {
      DeadlineKeptIff(cfg, s, host, cost, now, now, later);
    }
  }
}
