/** The probe scheduler: lanes, concurrency counts and buckets updated in place. */
module ProbeScheduler {
  import opened Wrappers
  import opened Naturals
  import Q = ProbeQueue
  import A = ProbeAdmission

  /** A bucket brought up to date; says whether it holds a token. */
  method Available(b: A.Bucket, now: nat, capacity: nat, refill: nat) returns (after: A.Bucket, some: bool)
    requires 0 < refill
    ensures after == A.Credited(b, now, capacity, refill) && (some <==> after.tokens > 0)
  {
    var tokens, last := b.tokens, b.last;
    if now > last && now - last >= refill {
      var periods := (now - last) / refill;
      tokens := Min(tokens + periods, capacity);
      last := last + refill * Min(periods, 0xffff_ffff);
    }
    after := A.Bucket(tokens, last, now);
    some := tokens > 0;
  }

  method RetainFresh(buckets: map<Q.Ip, A.Bucket>, now: nat, ttl: nat) returns (kept: map<Q.Ip, A.Bucket>)
    ensures kept == A.Fresh(buckets, now, ttl)
  {
    kept := map[];
    var rest := buckets.Keys;
    while rest != {}
      invariant rest <= buckets.Keys
      invariant forall k :: k in kept <==> k in buckets && k !in rest && Monus(now, buckets[k].lastUsed) <= ttl
      invariant forall k :: k in kept ==> kept[k] == buckets[k]
      decreases rest
    {
      var k :| k in rest;
      rest := rest - {k};
      if Monus(now, buckets[k].lastUsed) <= ttl {
        kept := kept[k := buckets[k]];
      }
    }
  }

  method NextExpiry(buckets: map<Q.Ip, A.Bucket>, ttl: nat) returns (deadline: nat)
    requires buckets != map[]
    ensures A.IsExpiry(deadline, buckets, ttl)
  {
    var first :| first in buckets.Keys;
    deadline := buckets[first].lastUsed + ttl;
    var rest := buckets.Keys;
    while rest != {}
      invariant rest <= buckets.Keys
      invariant exists k :: k in buckets && deadline == buckets[k].lastUsed + ttl
      invariant forall k :: k in buckets && k !in rest ==> deadline <= buckets[k].lastUsed + ttl
      decreases rest
    {
      var k :| k in rest;
      rest := rest - {k};
      if buckets[k].lastUsed + ttl < deadline {
        deadline := buckets[k].lastUsed + ttl;
      }
    }
  }

  /** Durations are nanoseconds. */
  datatype SchedulerConfig = SchedulerConfig(
    budgets: A.BudgetConfig, queueCapacity: nat, baseBackoff: nat, maxBackoff: nat, jitterPercent: nat,
    maxRetryAttempts: nat, credentialTimeout: nat)

  predicate ValidScheduler(config: SchedulerConfig) {
    && A.ValidBudget(config.budgets) && 0 < config.queueCapacity <= 4096
    && 0 < config.baseBackoff <= config.maxBackoff && config.jitterPercent <= 25
    && 0 < config.maxRetryAttempts <= 16 && 0 < config.credentialTimeout <= 30_000_000_000
  }

  class Scheduler {
    const cfg: A.BudgetConfig
    const capacity: nat
    var high: map<Q.Ip, seq<Q.Request>>
    var low: seq<Q.Request>
    var hosts: seq<Q.Ip>
    var queued: set<Q.WorkId>
    var highSinceLow: nat
    var stopped: bool
    var active: nat
    var activeHosts: map<Q.Ip, nat>
    var globalRate: A.Bucket
    var hostRates: map<Q.Ip, A.Bucket>
    var subnetRates: map<Q.Ip, A.Bucket>

    ghost function Lanes(): Q.Queue
      reads this
    {
      Q.Queue(high, low, hosts, queued, highSinceLow, stopped)
    }

    ghost function Budget(): A.Admission
      reads this
    {
      A.Admission(stopped, active, activeHosts, globalRate, hostRates, subnetRates)
    }

    ghost predicate Valid()
      reads this
    {
      A.ValidBudget(cfg) && Q.WellQueued(Lanes())
    }

    constructor (config: A.BudgetConfig, queueCapacity: nat, now: nat)
      requires A.ValidBudget(config)
      ensures Valid() && Lanes() == Q.EmptyQueue() && Budget() == A.NewAdmission(config, now)
      ensures cfg == config && capacity == queueCapacity
    {
      cfg, capacity := config, queueCapacity;
      high, low, hosts, queued, highSinceLow, stopped := map[], [], [], {}, 0, false;
      active, activeHosts := 0, map[];
      globalRate := A.Bucket(config.globalBurst, now, now);
      hostRates, subnetRates := map[], map[];
    }

    static method Create(config: SchedulerConfig, now: nat) returns (r: Option<Scheduler>)
      ensures r.Some? <==> ValidScheduler(config)
      ensures r.Some? ==> fresh(r.value) && r.value.Valid() && r.value.cfg == config.budgets && r.value.capacity == config.queueCapacity
      ensures r.Some? ==> r.value.Lanes() == Q.EmptyQueue() && r.value.Budget() == A.NewAdmission(config.budgets, now)
    {
      if !ValidScheduler(config) {
        return None;
      }
      var scheduler := new Scheduler(config.budgets, config.queueCapacity, now);
      return Some(scheduler);
    }

    method Enqueue(r: Q.Request) returns (done: Result<bool, Q.QueueError>)
      requires Valid()
      modifies this
      ensures Valid() && Budget() == old(Budget())
      ensures match Q.Enqueue(capacity, old(Lanes()), r)
              case Ok(queueing) => done == Ok(queueing.added) && Lanes() == queueing.after
              case Err(e) => done == Err(e) && Lanes() == old(Lanes())
    {
      if stopped {
        return Err(Q.Cancelled);
      }
      if |queued| >= capacity {
        return Err(Q.QueueFull);
      }
      if Q.IdOf(r) in queued {
        return Ok(false);
      }
      if r.mode == Q.OwnerFullPort {
        AddLow(r);
      } else {
        AddHigh(r);
      }
      return Ok(true);
    }

    method AddLow(r: Q.Request)
      requires Valid() && Q.IdOf(r) !in queued && r.mode == Q.OwnerFullPort
      modifies this
      ensures Valid() && Lanes() == Q.PushLow(old(Lanes()), r) && Budget() == old(Budget())
    {
      Q.PushLowKeeps(Lanes(), r);
      queued := queued + {Q.IdOf(r)};
      low := low + [r];
    }

    method AddHigh(r: Q.Request)
      requires Valid() && Q.IdOf(r) !in queued && r.mode != Q.OwnerFullPort
      modifies this
      ensures Valid() && Lanes() == Q.PushHigh(old(Lanes()), r) && Budget() == old(Budget())
    {
      Q.PushHighKeeps(Lanes(), r);
      queued := queued + {Q.IdOf(r)};
      var lane := [];
      if r.target in high {
        lane := high[r.target];
      } else {
        hosts := hosts + [r.target];
      }
      high := high[r.target := lane + [r]];
    }

    method ServeLow() returns (r: Q.Request)
      requires Valid() && Q.ServesLow(Lanes())
      modifies this
      ensures Lanes() == Q.PopLow(old(Lanes())) && r == old(low[0]) && Valid() && Budget() == old(Budget())
    {
      Q.PopLowKeeps(Lanes());
      highSinceLow := 0;
      r := low[0];
      low := low[1..];
      queued := queued - {Q.IdOf(r)};
    }

    method ServeHigh() returns (r: Q.Request)
      requires Valid() && hosts != [] && Q.ServesHigh(Lanes(), hosts[0])
      modifies this
      ensures Lanes() == Q.PopHigh(old(Lanes())) && r == old(high[hosts[0]][0]) && Valid() && Budget() == old(Budget())
    {
      Q.PopHighKeeps(Lanes());
      var host := hosts[0];
      hosts := hosts[1..];
      r := high[host][0];
      var rest := high[host][1..];
      if rest == [] {
        high := high - {host};
      } else {
        high := high[host := rest];
        hosts := hosts + [host];
      }
      highSinceLow := highSinceLow + 1;
      queued := queued - {Q.IdOf(r)};
    }

    method NextRequest() returns (r: Option<Q.Request>)
      requires Valid()
      modifies this
      ensures Valid() && Budget() == old(Budget())
      ensures r == Q.Served(old(Lanes())) && Lanes() == Q.Next(old(Lanes()))
    {
      Q.NextKeeps(Lanes());
      if stopped {
        return None;
      }
      var chooseLow := low != [] && (hosts == [] || highSinceLow >= 32);
      if chooseLow {
        var request := ServeLow();
        return Some(request);
      } else if hosts != [] {
        Q.FrontServable(Lanes());
        var request := ServeHigh();
        return Some(request);
      } else {
        highSinceLow := 0;
        return None;
      }
    }

    method Stop()
      requires Valid()
      modifies this
      ensures Valid() && Lanes() == Q.Stopped(old(Lanes())) && Budget() == old(Budget()).(stopped := true)
    {
      stopped := true;
      high, low, hosts, queued := map[], [], [], {};
    }

    /** The three buckets of a request, brought up to date. */
    method Refreshed(host: Q.Ip, now: nat) returns (d: A.Draw)
      requires 0 < cfg.refill
      ensures d == A.DrawFor(cfg, Budget(), host, now)
    {
      var hostBucket := A.BucketAt(hostRates, host, A.HostBurst(cfg), now);
      var netBucket := A.BucketAt(subnetRates, A.SubnetOf(host), cfg.subnetBurst, now);
      var global, some := Available(globalRate, now, cfg.globalBurst, cfg.refill);
      hostBucket, some := Available(hostBucket, now, A.HostBurst(cfg), cfg.refill);
      netBucket, some := Available(netBucket, now, cfg.subnetBurst, cfg.refill);
      d := A.Draw(global, hostBucket, netBucket);
    }

    method Store(host: Q.Ip, d: A.Draw)
      modifies this`globalRate, this`hostRates, this`subnetRates
      ensures Budget() == A.Drawn(old(Budget()), host, d)
    {
      globalRate := d.global;
      hostRates, subnetRates := hostRates[host := d.host], subnetRates[A.SubnetOf(host) := d.subnet];
    }

    /** Draws the cost from all three buckets, or from none. */
    method DrawTokens(host: Q.Ip, cost: nat, now: nat) returns (r: A.Decision)
      requires 0 < cfg.refill
      modifies this`globalRate, this`hostRates, this`subnetRates, this`active, this`activeHosts
      ensures var d := A.DrawFor(cfg, old(Budget()), host, now);
              if A.Missing(d, cost) > 0
              then r == A.EligibleAt(now + cfg.refill * A.Missing(d, cost)) && Budget() == A.Drawn(old(Budget()), host, d)
              else r == A.Admitted && Budget() == A.Started(A.Drawn(old(Budget()), host, A.Spend(d, cost)), host)
    {
      var d := Refreshed(host, now);
      var missing := A.Missing(d, cost);
      if missing > 0 {
        Store(host, d);
        return A.EligibleAt(now + cfg.refill * missing);
      }
      Store(host, A.Spend(d, cost));
      active := active + 1;
      activeHosts := activeHosts[host := (if host in activeHosts then activeHosts[host] else 0) + 1];
      return A.Admitted;
    }

    method EvictState(now: nat)
      modifies this`hostRates, this`subnetRates
      ensures Budget() == A.Expired(cfg, old(Budget()), now)
    {
      var freshHosts := RetainFresh(hostRates, now, cfg.ttl);
      var freshSubnets := RetainFresh(subnetRates, now, cfg.ttl);
      hostRates, subnetRates := freshHosts, freshSubnets;
    }

    method AdmissionDecision(host: Q.Ip, cost: nat, now: nat) returns (r: A.Decision)
      requires 0 < cfg.refill && 0 < cfg.stateCapacity
      modifies this`globalRate, this`hostRates, this`subnetRates, this`active, this`activeHosts
      ensures match A.Decide(cfg, old(Budget()), host, cost, now)
              case Busy => r == A.ConcurrencyLimited && Budget() == old(Budget())
              case Full(after, crowd) => r.EligibleAt? && A.IsExpiry(r.deadline, crowd, cfg.ttl) && Budget() == after
              case Short(after, deadline) => r == A.EligibleAt(deadline) && Budget() == after
              case Starts(after) => r == A.Admitted && Budget() == after
    {
      if stopped || cost == 0 || active >= cfg.globalConcurrency
         || (if host in activeHosts then activeHosts[host] else 0) >= cfg.hostConcurrency {
        return A.ConcurrencyLimited;
      }
      EvictState(now);
      if A.Crowded(hostRates, host, cfg.stateCapacity) {
        var deadline := NextExpiry(hostRates, cfg.ttl);
        return A.EligibleAt(deadline);
      }
      if A.Crowded(subnetRates, A.SubnetOf(host), cfg.stateCapacity) {
        var deadline := NextExpiry(subnetRates, cfg.ttl);
        return A.EligibleAt(deadline);
      }
      r := DrawTokens(host, cost, now);
    }

    method FinishProbe(host: Q.Ip)
      requires Valid()
      modifies this
      ensures Valid() && Lanes() == old(Lanes()) && Budget() == A.Finish(old(Budget()), host)
    {
      if active > 0 {
        active := active - 1;
      }
      if host in activeHosts {
        if activeHosts[host] <= 1 {
          activeHosts := activeHosts - {host};
        } else {
          activeHosts := activeHosts[host := activeHosts[host] - 1];
        }
      }
    }
  }
}
