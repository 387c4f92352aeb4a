/** Admission of probes: concurrency limits and three token buckets refilled by a monotonic clock. */
module ProbeAdmission {
  import opened Naturals
  import opened ProbeQueue

  /** The /24 or /64 network of an address. */
  function SubnetOf(ip: Ip): Ip {
    match ip
    case V4(bits) => V4(bits - bits % 0x100)
    case V6(bits) => V6(bits - bits % 0x1_0000_0000_0000_0000)
  }

  /** Times are nanoseconds since the clock started. */
  datatype Bucket = Bucket(tokens: nat, last: nat, lastUsed: nat)

  datatype BudgetConfig = BudgetConfig(
    globalConcurrency: nat, hostConcurrency: nat, globalBurst: nat, subnetBurst: nat, refill: nat,
    stateCapacity: nat, ttl: nat)

  predicate ValidBudget(cfg: BudgetConfig) {
    && 0 < cfg.globalConcurrency <= 256 && 0 < cfg.hostConcurrency <= 16
    && cfg.hostConcurrency <= cfg.globalConcurrency
    && 0 < cfg.globalBurst <= 4096 && 0 < cfg.subnetBurst <= 1024
    && 0 < cfg.refill <= 3_600_000_000_000
    && 0 < cfg.stateCapacity <= 4096 && 0 < cfg.ttl
  }

  function HostBurst(cfg: BudgetConfig): nat {
    4 * cfg.hostConcurrency
  }

  /** Whole refill periods since the bucket was last credited. */
  function Periods(b: Bucket, now: nat, refill: nat): nat
    requires 0 < refill
  {
    if b.last < now then (now - b.last) / refill else 0
  }

  /** Credits whole periods; the credited time advances by at most 2^32 - 1 of them. */
  function Credited(b: Bucket, now: nat, capacity: nat, refill: nat): Bucket
    requires 0 < refill
  {
    if b.last < now && refill <= now - b.last then
      var periods := Periods(b, now, refill);
      Bucket(Min(b.tokens + periods, capacity), b.last + refill * Min(periods, 0xffff_ffff), now)
    else b.(lastUsed := now)
  }

  datatype Admission = Admission(
    stopped: bool,
    active: nat,
    activeHosts: map<Ip, nat>,
    global: Bucket,
    hosts: map<Ip, Bucket>,
    subnets: map<Ip, Bucket>)

  function NewAdmission(cfg: BudgetConfig, now: nat): Admission {
    Admission(false, 0, map[], Bucket(cfg.globalBurst, now, now), map[], map[])
  }

  datatype Decision = Admitted | ConcurrencyLimited | EligibleAt(deadline: nat)

  function ActiveOn(s: Admission, host: Ip): nat {
    if host in s.activeHosts then s.activeHosts[host] else 0
  }

  predicate Limited(cfg: BudgetConfig, s: Admission, host: Ip, cost: nat) {
    s.stopped || cost == 0 || s.active >= cfg.globalConcurrency || ActiveOn(s, host) >= cfg.hostConcurrency
  }

  function Fresh(buckets: map<Ip, Bucket>, now: nat, ttl: nat): map<Ip, Bucket> {
    map k | k in buckets && Monus(now, buckets[k].lastUsed) <= ttl :: buckets[k]
  }

  function BucketAt(buckets: map<Ip, Bucket>, k: Ip, burst: nat, now: nat): Bucket {
    if k in buckets then buckets[k] else Bucket(burst, now, now)
  }

  predicate Crowded(buckets: map<Ip, Bucket>, k: Ip, capacity: nat) {
    |buckets| >= capacity && k !in buckets
  }

  /** The instant the least recently used bucket expires. */
  ghost predicate IsExpiry(deadline: nat, buckets: map<Ip, Bucket>, ttl: nat) {
    && (exists k :: k in buckets && deadline == buckets[k].lastUsed + ttl)
    && forall k :: k in buckets ==> deadline <= buckets[k].lastUsed + ttl
  }

  /** The three buckets a request draws on. */
  datatype Draw = Draw(global: Bucket, host: Bucket, subnet: Bucket)

  function DrawFor(cfg: BudgetConfig, s: Admission, host: Ip, now: nat): Draw
    requires 0 < cfg.refill
  {
    Draw(Credited(s.global, now, cfg.globalBurst, cfg.refill),
         Credited(BucketAt(s.hosts, host, HostBurst(cfg), now), now, HostBurst(cfg), cfg.refill),
         Credited(BucketAt(s.subnets, SubnetOf(host), cfg.subnetBurst, now), now, cfg.subnetBurst, cfg.refill))
  }

  function Missing(d: Draw, cost: nat): nat {
    Max(Max(Monus(cost, d.global.tokens), Monus(cost, d.host.tokens)), Monus(cost, d.subnet.tokens))
  }

  function Expired(cfg: BudgetConfig, s: Admission, now: nat): Admission {
    s.(hosts := Fresh(s.hosts, now, cfg.ttl), subnets := Fresh(s.subnets, now, cfg.ttl))
  }

  function Drawn(s: Admission, host: Ip, d: Draw): Admission {
    s.(global := d.global, hosts := s.hosts[host := d.host], subnets := s.subnets[SubnetOf(host) := d.subnet])
  }

  function Take(b: Bucket, cost: nat): Bucket {
    b.(tokens := Monus(b.tokens, cost))
  }

  function Spend(d: Draw, cost: nat): Draw {
    Draw(Take(d.global, cost), Take(d.host, cost), Take(d.subnet, cost))
  }

  function Started(s: Admission, host: Ip): Admission {
    s.(active := s.active + 1, activeHosts := s.activeHosts[host := ActiveOn(s, host) + 1])
  }

  /** `Full` when no bucket can be kept for the request; its deadline is when the next one expires. */
  datatype Outcome =
    | Busy
    | Full(after: Admission, crowd: map<Ip, Bucket>)
    | Short(after: Admission, deadline: nat)
    | Starts(after: Admission)

  function Decide(cfg: BudgetConfig, s: Admission, host: Ip, cost: nat, now: nat): Outcome
    requires 0 < cfg.refill
  {
    if Limited(cfg, s, host, cost) then Busy
    else
      var e := Expired(cfg, s, now);
      if Crowded(e.hosts, host, cfg.stateCapacity) then Full(e, e.hosts)
      else if Crowded(e.subnets, SubnetOf(host), cfg.stateCapacity) then Full(e, e.subnets)
      else
        var d := DrawFor(cfg, e, host, now);
        if Missing(d, cost) > 0 then Short(Drawn(e, host, d), now + cfg.refill * Missing(d, cost))
        else Starts(Started(Drawn(e, host, Spend(d, cost)), host))
  }

  function Finish(s: Admission, host: Ip): Admission {
    s.(active := Monus(s.active, 1),
       activeHosts := if host !in s.activeHosts then s.activeHosts
                      else if s.activeHosts[host] <= 1 then s.activeHosts - {host}
                      else s.activeHosts[host := s.activeHosts[host] - 1])
  }
}
