/**
 Event-time flow rollups as values: what one `observe` and one watermark advance do to the
 engine's maps, written as functions of the state before the call.

 Times are nanoseconds since the epoch; buckets are whole seconds.
 */
module FlowModel {
  import opened Wrappers
  import opened Accounting

  /** `timestamp()`: whole seconds, rounded towards the past. */
  function Secs(t: int): int {
    t / 1_000_000_000
  }

  function Nanos(secs: int): int {
    secs * 1_000_000_000
  }

  predicate WholeSecond(t: int) {
    t % 1_000_000_000 == 0
  }

  datatype Protocol = Tcp | Udp | Icmp | OtherProtocol

  datatype Destination = OnHost | Lan | Internet | UnknownDestination

  datatype Kind = Gateway | Bridge | Mirror | RouterCounter | LocalCollector | Inference

  datatype Coverage = Complete | RouterReported | LocalOnly | Estimated

  datatype Resolution = Second | Minute | Hour

  datatype Metadata = Metadata(ip: Option<string>, domain: Option<string>)

  datatype Dimension = Dimension(
    device: string, protocol: Protocol, destination: Destination, iface: nat, metadata: Option<Metadata>)

  datatype SecondKey = SecondKey(epoch: int, dim: Dimension)

  datatype SourceKey = SourceKey(base: SecondKey, source: nat)

  datatype RollupKey = RollupKey(resolution: Resolution, bucket: int, dim: Dimension)

  datatype Rollup = Rollup(bytes: ByteCount, coverage: Coverage)

  datatype ReplayEntry = ReplayEntry(arrival: int, device: string)

  datatype FlowError =
    | ConfigError | Capacity | UnknownSource | Replay | TooLate | Time | FutureSkew
    | Interface | MetadataError | Overflow | OutputLimit | WorkLimit

  datatype Config = Config(
    lateness: int, futureSkew: int, replayTtl: int, correctionRetention: int, maxDomainBytes: nat,
    maxDevices: nat, maxSources: nat, maxOpenRows: nat, maxReplayIds: nat,
    maxFinalizedRows: nat, maxOutputs: nat, maxWork: nat)

  predicate ValidConfig(cfg: Config) {
    && 0 <= cfg.lateness && 0 <= cfg.futureSkew && 0 < cfg.replayTtl
    && cfg.lateness <= cfg.correctionRetention && cfg.lateness <= cfg.replayTtl
    && 0 < cfg.maxDomainBytes && 0 < cfg.maxDevices && 0 < cfg.maxSources && 0 < cfg.maxOpenRows && 0 < cfg.maxReplayIds
    && 0 < cfg.maxFinalizedRows && 0 < cfg.maxOutputs && 0 < cfg.maxWork
  }

  /** `metadata` is the outcome of normalising the destination metadata. */
  datatype Observation = Observation(
    replayId: nat, event: int, arrival: int, device: string, bytes: ByteCount, protocol: Protocol,
    destination: Destination, iface: nat, source: nat, metadata: Result<Option<Metadata>, FlowError>)

  datatype State = State(
    seconds: map<SourceKey, ByteCount>,
    replay: map<nat, ReplayEntry>,
    lastArrival: Option<int>,
    watermark: Option<int>,
    emitted: map<RollupKey, Rollup>)

  function Empty(): State {
    State(map[], map[], None, None, map[])
  }

  datatype Change = Upsert(rollup: Rollup) | Correction(rollup: Rollup) | Retire

  type Registry = map<nat, Kind>

  // ---------------------------------------------------------------- coverage and selection

  function CoverageOf(kind: Kind): Coverage {
    match kind
    case Gateway => Complete
    case Bridge => Complete
    case Mirror => Complete
    case RouterCounter => RouterReported
    case LocalCollector => LocalOnly
    case Inference => Estimated
  }

  function Rank(c: Coverage): nat {
    match c
    case Complete => 4
    case RouterReported => 3
    case LocalOnly => 2
    case Estimated => 1
  }

  function Merge(a: Coverage, b: Coverage): Coverage {
    if a == b then a else Estimated
  }

  predicate Registered(seconds: map<SourceKey, ByteCount>, sources: Registry) {
    forall r :: r in seconds ==> r.source in sources
  }

  function SourceRank(sources: Registry, s: nat): nat {
    if s in sources then Rank(CoverageOf(sources[s])) else 0
  }

  /** Source `s` is at least as good as `t`: higher visibility, then the smaller id. */
  predicate Beats(sources: Registry, s: nat, t: nat) {
    var rs, rt := SourceRank(sources, s), SourceRank(sources, t);
    rs > rt || (rs == rt && s <= t)
  }

  ghost predicate Wins(seconds: map<SourceKey, ByteCount>, sources: Registry, base: SecondKey, s: nat) {
    && s in sources && SourceKey(base, s) in seconds
    && forall r :: r in seconds && r.base == base ==> Beats(sources, s, r.source)
  }

  /** The seconds that have closed at watermark `w`. */
  function ClosedBases(seconds: map<SourceKey, ByteCount>, w: int): set<SecondKey> {
    set r | r in seconds && r.base.epoch + 1 <= Secs(w) :: r.base
  }

  /** `row` carries the bytes and the visibility of the best source that reported `base`. */
  ghost predicate IsBestRow(seconds: map<SourceKey, ByteCount>, sources: Registry, base: SecondKey, row: Rollup)
  {
    exists s :: Wins(seconds, sources, base, s) &&
      row == Rollup(seconds[SourceKey(base, s)], CoverageOf(sources[s]))
  }

  /** One row per closed second, from the best source that reported it. */
  ghost predicate IsSelection(
    selected: map<SecondKey, Rollup>, seconds: map<SourceKey, ByteCount>, sources: Registry, w: int)
  {
    && selected.Keys == ClosedBases(seconds, w)
    && forall base :: base in selected ==> IsBestRow(seconds, sources, base, selected[base])
  }

  /** No two sources can both win a second. */
  lemma BestRowUnique(seconds: map<SourceKey, ByteCount>, sources: Registry, k: SecondKey, a: Rollup, b: Rollup)
    requires IsBestRow(seconds, sources, k, a) && IsBestRow(seconds, sources, k, b)
    ensures a == b
  {
    var s :| Wins(seconds, sources, k, s) && a == Rollup(seconds[SourceKey(k, s)], CoverageOf(sources[s]));
    var t :| Wins(seconds, sources, k, t) && b == Rollup(seconds[SourceKey(k, t)], CoverageOf(sources[t]));
    assert Beats(sources, s, t) && Beats(sources, t, s);
  }

  /** The selection is determined by the open rows. */
  lemma SelectionUnique(
    a: map<SecondKey, Rollup>, b: map<SecondKey, Rollup>, seconds: map<SourceKey, ByteCount>, sources: Registry, w: int)
    requires IsSelection(a, seconds, sources, w) && IsSelection(b, seconds, sources, w)
    ensures a == b
  {
    assert a.Keys == b.Keys;
    forall base | base in a ensures a[base] == b[base] {
      BestRowUnique(seconds, sources, base, a[base], b[base]);
    }
  }

  // ---------------------------------------------------------------- rows, parents and retirement

  function Width(res: Resolution): int {
    match res
    case Second => 1
    case Minute => 60
    case Hour => 3600
  }

  function Bucket(res: Resolution, epoch: int): int {
    match res
    case Second => epoch
    case Minute => epoch / 60 * 60
    case Hour => epoch / 3600 * 3600
  }

  /** The row of resolution `res` that a second belongs to. */
  function RowKey(res: Resolution, k: SecondKey): RollupKey {
    RollupKey(res, Bucket(res, k.epoch), k.dim)
  }

  predicate Retired(key: RollupKey, w: Option<int>, lateness: int) {
    w.Some? && w.value > Nanos(key.bucket + Width(key.resolution)) + lateness
  }

  function AdjustParent(
    rows: map<RollupKey, Rollup>, res: Resolution, base: SecondKey, prior: Option<Rollup>, row: Rollup)
    : Result<map<RollupKey, Rollup>, FlowError>
  {
    var key := RowKey(res, base);
    var parent := if key in rows then rows[key] else Rollup(ByteCount(0, 0), row.coverage);
    var before := if prior.Some? then prior.value.bytes else ByteCount(0, 0);
    if !Covers(parent.bytes, before) then Err(Overflow)
    else
      var bytes := ByteCount(
        parent.bytes.upload - before.upload + row.bytes.upload,
        parent.bytes.download - before.download + row.bytes.download);
      if !Fits(bytes) then Err(Overflow)
      else Ok(rows[key := Rollup(bytes, Merge(parent.coverage, row.coverage))])
  }

  /** Stores one selected second and moves the difference into its minute and its hour. */
  function Revise(rows: map<RollupKey, Rollup>, base: SecondKey, row: Rollup)
    : Result<map<RollupKey, Rollup>, FlowError>
  {
    var key := RowKey(Second, base);
    if key in rows && rows[key] == row then Ok(rows)
    else
      var prior := if key in rows then Some(rows[key]) else None;
      match AdjustParent(rows[key := row], Minute, base, prior, row)
      case Err(e) => Err(e)
      case Ok(minuteDone) => AdjustParent(minuteDone, Hour, base, prior, row)
  }

  function ReviseAll(rows: map<RollupKey, Rollup>, order: seq<SecondKey>, selected: map<SecondKey, Rollup>)
    : Result<map<RollupKey, Rollup>, FlowError>
    requires forall k :: k in order ==> k in selected
  {
    if order == [] then Ok(rows)
    else
      var n := |order| - 1;
      match ReviseAll(rows, order[..n], selected)
      case Err(e) => Err(e)
      case Ok(done) => Revise(done, order[n], selected[order[n]])
  }

  function LiveRows(rows: map<RollupKey, Rollup>, w: int, lateness: int): map<RollupKey, Rollup> {
    map key | key in rows && !Retired(key, Some(w), lateness) :: rows[key]
  }

  function OpenRows(seconds: map<SourceKey, ByteCount>, cutoff: int): map<SourceKey, ByteCount> {
    map r | r in seconds && r.base.epoch + 1 >= cutoff :: seconds[r]
  }

  /** Dropping whole seconds of open rows does not change who wins the seconds that stay. */
  lemma BestRowOfKeptRows(seconds: map<SourceKey, ByteCount>, sources: Registry, cutoff: int, k: SecondKey, row: Rollup)
    requires IsBestRow(seconds, sources, k, row) && k.epoch + 1 >= cutoff
    ensures IsBestRow(OpenRows(seconds, cutoff), sources, k, row)
  {
    var s :| Wins(seconds, sources, k, s) && row == Rollup(seconds[SourceKey(k, s)], CoverageOf(sources[s]));
    assert Wins(OpenRows(seconds, cutoff), sources, k, s);
  }

  function RecentReplays(replay: map<nat, ReplayEntry>, cutoff: int): map<nat, ReplayEntry> {
    map id | id in replay && replay[id].arrival >= cutoff :: replay[id]
  }

  function ActiveDevices(seconds: map<SourceKey, ByteCount>, replay: map<nat, ReplayEntry>): set<string> {
    (set r | r in seconds :: r.base.dim.device) + (set id | id in replay :: replay[id].device)
  }

  /** What a consumer of the change feed is told, one entry per changed row. */
  function Diff(before: map<RollupKey, Rollup>, after: map<RollupKey, Rollup>): map<RollupKey, Change> {
    map key | key in before.Keys + after.Keys && (key !in before || key !in after || before[key] != after[key]) ::
      if key !in after then Retire else if key !in before then Upsert(after[key]) else Correction(after[key])
  }

  // ---------------------------------------------------------------- the two calls

  function KeyOf(o: Observation): SourceKey
    requires o.metadata.Ok?
  {
    SourceKey(
      SecondKey(Secs(o.event), Dimension(o.device, o.protocol, o.destination, o.iface, o.metadata.value)),
      o.source)
  }

  function LateEdge(cfg: Config, o: Observation): int {
    Nanos(Secs(o.event) + 1) + cfg.lateness
  }

  /** The per-source row after adding the observation to it. */
  function RaisedRow(seconds: map<SourceKey, ByteCount>, o: Observation): ByteCount
    requires o.metadata.Ok?
  {
    if KeyOf(o) in seconds
    then ByteCount(seconds[KeyOf(o)].upload + o.bytes.upload, seconds[KeyOf(o)].download + o.bytes.download)
    else o.bytes
  }

  /** The first check an observation fails, if any. */
  function Refusal(cfg: Config, sources: Registry, s: State, o: Observation): Option<FlowError> {
    if o.source !in sources then Some(UnknownSource)
    else if o.iface == 0 then Some(Interface)
    else if !Fits(o.bytes) then Some(Overflow)
    else if s.lastArrival.Some? && o.arrival < s.lastArrival.value then Some(Time)
    else if o.event > o.arrival + cfg.futureSkew then Some(FutureSkew)
    else if o.arrival > LateEdge(cfg, o) then Some(TooLate)
    else if s.watermark.Some? && s.watermark.value > LateEdge(cfg, o) then Some(TooLate)
    else if 3 * |s.replay| + |s.seconds| + 1 > cfg.maxWork then Some(WorkLimit)
    else
      var recent := RecentReplays(s.replay, o.arrival - cfg.replayTtl);
      if o.replayId in recent then Some(Replay)
      else if |recent| >= cfg.maxReplayIds then Some(Capacity)
      else if o.metadata.Err? then Some(o.metadata.error)
      else
        var active := ActiveDevices(s.seconds, recent);
        if o.device !in active && |active| >= cfg.maxDevices then Some(Capacity)
        else if KeyOf(o) !in s.seconds && |s.seconds| >= cfg.maxOpenRows then Some(Capacity)
        else if !Fits(RaisedRow(s.seconds, o)) then Some(Overflow)
        else None
  }

  function Observe(cfg: Config, sources: Registry, s: State, o: Observation): Result<State, FlowError> {
    match Refusal(cfg, sources, s, o)
    case Some(e) => Err(e)
    case None =>
      var recent := RecentReplays(s.replay, o.arrival - cfg.replayTtl);
      Ok(s.(
         seconds := s.seconds[KeyOf(o) := RaisedRow(s.seconds, o)],
         replay := recent[o.replayId := ReplayEntry(o.arrival, o.device)],
         lastArrival := Some(o.arrival)))
  }

  /** `order` lists exactly the given keys, each once: one way of walking a map. */
  ghost predicate IsOrder<K(!new)>(order: seq<K>, keys: set<K>) {
    && (forall k :: k in order <==> k in keys)
    && forall i, j :: 0 <= i < j < |order| ==> order[i] != order[j]
  }

  function CacheHorizon(cfg: Config): int {
    if cfg.correctionRetention < cfg.lateness then cfg.correctionRetention else cfg.lateness
  }

  /** The checks an advance makes before it looks at any row. */
  function AdvanceRefusal(cfg: Config, s: State, next: int, now: int): Option<FlowError> {
    if next > now then Some(FutureSkew)
    else if s.lastArrival.Some? && now < s.lastArrival.value then Some(Time)
    else if s.watermark.Some? && next < s.watermark.value then Some(Time)
    else if 8 * |s.seconds| + 4 * |s.emitted| > cfg.maxWork then Some(WorkLimit)
    else None
  }

  /** The state once `live` is published: open rows and replay ids that aged out are gone. */
  function Pruned(cfg: Config, s: State, live: map<RollupKey, Rollup>, next: int, now: int): State {
    State(
      OpenRows(s.seconds, Secs(next - CacheHorizon(cfg))),
      RecentReplays(s.replay, now - cfg.replayTtl),
      Some(now), Some(next), live)
  }

  /** Retires what has aged out of the revised rows, within the output and capacity limits. */
  function Settle(cfg: Config, s: State, rows: map<RollupKey, Rollup>, next: int, now: int)
    : Result<(State, map<RollupKey, Change>), FlowError>
  {
    var live := LiveRows(rows, next, cfg.lateness);
    var changes := Diff(s.emitted, live);
    if |live| > cfg.maxFinalizedRows then Err(Capacity)
    else if 8 * |s.seconds| + 4 * |s.emitted| + |s.emitted.Keys + live.Keys| > cfg.maxWork then Err(WorkLimit)
    else if |changes| > cfg.maxOutputs then Err(OutputLimit)
    else Ok((Pruned(cfg, s, live, next, now), changes))
  }

  /** `selected` are the best rows of the closed seconds and `order` is the order they are walked in. */
  function Advance(
    cfg: Config, s: State, selected: map<SecondKey, Rollup>, order: seq<SecondKey>, next: int, now: int)
    : Result<(State, map<RollupKey, Change>), FlowError>
    requires forall k :: k in order ==> k in selected
  {
    match AdvanceRefusal(cfg, s, next, now)
    case Some(e) => Err(e)
    case None =>
      match ReviseAll(s.emitted, order, selected)
      case Err(e) => Err(e)
      case Ok(rows) => Settle(cfg, s, rows, next, now)
  }
}
