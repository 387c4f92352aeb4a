/**
 The live bandwidth adapter as values: current one-second rows, emitted baselines, and the cache of
 pending per-device samples.
 */
module LiveModel {
  import opened Wrappers
  import opened Accounting
  import opened Naturals
  import opened FlowModel

  datatype LiveError = ConfigInvalid | Clock | OverCapacity | OverWork | SumOverflow

  datatype LiveConfig = LiveConfig(minInterval: nat, maxDevices: nat, maxPending: nat, maxWork: nat, maxRows: nat)

  predicate ValidLiveConfig(cfg: LiveConfig) {
    250 <= cfg.minInterval && 0 < cfg.maxDevices && 0 < cfg.maxPending && 0 < cfg.maxWork && 0 < cfg.maxRows
  }

  datatype Sample = Sample(delta: ByteCount, coverage: Coverage, observedAt: int)

  datatype RowChange =
    | Put(key: RollupKey, row: Rollup)
    | Drop(key: RollupKey, cacheOnly: bool)

  datatype Live = Live(
    current: map<RollupKey, Rollup>,
    emitted: map<RollupKey, ByteCount>,
    baselines: map<RollupKey, ByteCount>,
    pending: map<string, Sample>,
    lastTick: Option<int>,
    lastEmit: Option<int>,
    lastEmittedAt: Option<int>)

  function EmptyLive(): Live {
    Live(map[], map[], map[], map[], None, None, None)
  }

  // ---------------------------------------------------------------- samples of the current rows

  /** The bytes of a row not yet reported. */
  function Delta(row: Rollup, emitted: map<RollupKey, ByteCount>, key: RollupKey): ByteCount {
    if key in emitted
    then ByteCount(Monus(row.bytes.upload, emitted[key].upload), Monus(row.bytes.download, emitted[key].download))
    else row.bytes
  }

  function Deltas(rows: map<RollupKey, Rollup>, emitted: map<RollupKey, ByteCount>): map<RollupKey, ByteCount> {
    map key | key in rows :: Delta(rows[key], emitted, key)
  }

  /** The rows of a device that have something to report. */
  function Active(deltas: map<RollupKey, ByteCount>, device: string): set<RollupKey> {
    set key | key in deltas && key.dim.device == device && !IsZero(deltas[key])
  }

  /** The coverage all the rows share, or `Estimated` when they differ. */
  ghost predicate SharedCoverage(c: Coverage, rows: map<RollupKey, Rollup>, keys: set<RollupKey>)
    requires keys <= rows.Keys
  {
    || (forall key :: key in keys ==> rows[key].coverage == c)
    || (c == Estimated && exists j, k :: j in keys && k in keys && rows[j].coverage != rows[k].coverage)
  }

  /** One device's sample: the sum of what its rows have not reported, their coverage and their second. */
  ghost predicate IsSample(sample: Sample, rows: map<RollupKey, Rollup>, deltas: map<RollupKey, ByteCount>, device: string)
    requires deltas.Keys == rows.Keys
  {
    var active := Active(deltas, device);
    && active != {} && sample.delta == Total(active, deltas)
    && SharedCoverage(sample.coverage, rows, active)
    && forall key :: key in active ==> key.bucket == sample.observedAt
  }

  ghost predicate IsSamples(samples: map<string, Sample>, rows: map<RollupKey, Rollup>, deltas: map<RollupKey, ByteCount>)
    requires deltas.Keys == rows.Keys
  {
    && (forall device :: device in samples <==> Active(deltas, device) != {})
    && forall device :: device in samples ==> IsSample(samples[device], rows, deltas, device)
  }

  /** Each device's sum fits 64 bits in each direction. */
  ghost predicate SumsFit(deltas: map<RollupKey, ByteCount>) {
    forall device: string ::
      var total := Total(Active(deltas, device), deltas);
      total.upload <= U64_MAX && total.download <= U64_MAX
  }

  function Baselines(rows: map<RollupKey, Rollup>, deltas: map<RollupKey, ByteCount>): map<RollupKey, ByteCount>
    requires deltas.Keys == rows.Keys
  {
    map key | key in rows && !IsZero(deltas[key]) :: rows[key].bytes
  }

  predicate Shrunk(row: Rollup, emitted: map<RollupKey, ByteCount>, key: RollupKey) {
    key in emitted && !Covers(row.bytes, emitted[key])
  }

  /** Baselines after a downward correction: each direction follows its own row down. */
  function Reset(rows: map<RollupKey, Rollup>, emitted: map<RollupKey, ByteCount>): map<RollupKey, ByteCount> {
    map key | key in emitted ::
      if key in rows
      then ByteCount(Min(emitted[key].upload, rows[key].bytes.upload), Min(emitted[key].download, rows[key].bytes.download))
      else emitted[key]
  }

  // ---------------------------------------------------------------- folding a batch of changes

  datatype Staged = Staged(
    next: map<RollupKey, Rollup>, emitted: map<RollupKey, ByteCount>, baselines: map<RollupKey, ByteCount>,
    traffic: bool, retired: set<string>)

  function OfOthers<V>(m: map<RollupKey, V>, device: string): map<RollupKey, V> {
    map key | key in m && key.dim.device != device :: m[key]
  }

  /** A row older than the device's current second is ignored; a newer one supersedes them all. */
  function PutRow(st: Staged, key: RollupKey, row: Rollup): Staged {
    if exists k :: k in st.next && k.dim.device == key.dim.device && key.bucket < k.bucket then st
    else if exists k :: k in st.next && k.dim.device == key.dim.device && k.bucket < key.bucket then
      Staged(OfOthers(st.next, key.dim.device)[key := row], OfOthers(st.emitted, key.dim.device),
             OfOthers(st.baselines, key.dim.device), true, st.retired)
    else st.(next := st.next[key := row], traffic := true)
  }

  function DropRow(st: Staged, key: RollupKey): Staged {
    if key !in st.next then st
    else Staged(st.next - {key}, st.emitted - {key}, st.baselines - {key}, st.traffic, st.retired + {key.dim.device})
  }

  function ApplyChange(st: Staged, c: RowChange): Staged {
    match c
    case Put(key, row) => if key.resolution == Second then PutRow(st, key, row) else st
    case Drop(key, cacheOnly) => if cacheOnly && key.resolution == Second then DropRow(st, key) else st
  }

  function Fold(st: Staged, changes: seq<RowChange>): Staged {
    if changes == [] then st
    else ApplyChange(Fold(st, changes[..|changes| - 1]), changes[|changes| - 1])
  }

  // ---------------------------------------------------------------- the two calls

  function Devices<V>(m: map<RollupKey, V>): set<string> {
    set key | key in m :: key.dim.device
  }

  /** The pending samples of the given devices are replaced by, or dropped for lack of, fresh ones. */
  function Sync(pending: map<string, Sample>, devices: set<string>, samples: map<string, Sample>): map<string, Sample> {
    map device | device in pending.Keys + samples.Keys && (if device in devices then device in samples else device in pending) ::
      if device in devices then samples[device] else pending[device]
  }

  function ReplaceRefusal(cfg: LiveConfig, s: Live, tick: int, samples: map<string, Sample>): Option<LiveError> {
    if s.lastTick.Some? && tick < s.lastTick.value then Some(Clock)
    else if |samples| > cfg.maxWork then Some(OverWork)
    else if !(samples.Keys <= s.pending.Keys) && |s.pending.Keys + samples.Keys| > cfg.maxPending then Some(OverCapacity)
    else if |s.pending.Keys + samples.Keys| > cfg.maxDevices then Some(OverCapacity)
    else None
  }

  function Stage(s: Live): Staged {
    Staged(s.current, s.emitted, s.baselines, false, {})
  }

  /** A batch without traffic only resamples the devices that lost a row. */
  function Quietened(s: Live, st: Staged, samples: map<string, Sample>): Live {
    Live(st.next, Reset(st.next, st.emitted), st.baselines, Sync(s.pending, st.retired, samples),
         s.lastTick, s.lastEmit, s.lastEmittedAt)
  }

  /** A batch with traffic resamples every device that has or had a row. */
  function Refreshed(s: Live, st: Staged, tick: int, samples: map<string, Sample>): Live {
    Live(st.next, Reset(st.next, st.emitted), Baselines(st.next, Deltas(st.next, st.emitted)),
         Sync(s.pending + samples, Devices(st.next) + Devices(s.current), samples),
         Some(tick), s.lastEmit, s.lastEmittedAt)
  }

  /** `samples` are the samples of the staged rows. */
  ghost function Apply(cfg: LiveConfig, s: Live, tick: int, changes: seq<RowChange>, samples: map<string, Sample>)
    : Result<Live, LiveError>
  {
    var st := Fold(Stage(s), changes);
    if |changes| > cfg.maxWork then Err(OverWork)
    else if |st.next| > cfg.maxRows then Err(OverCapacity)
    else if !SumsFit(Deltas(st.next, st.emitted)) then Err(SumOverflow)
    else if !st.traffic then Ok(Quietened(s, st, samples))
    else
      match ReplaceRefusal(cfg, s, tick, samples)
      case Some(e) => Err(e)
      case None => Ok(Refreshed(s, st, tick, samples))
  }

  /** `samples` are the samples of the rows the batch leaves. */
  ghost predicate SamplesOf(s: Live, changes: seq<RowChange>, samples: map<string, Sample>) {
    var st := Fold(Stage(s), changes);
    IsSamples(samples, st.next, Deltas(st.next, st.emitted))
  }

  datatype FrameSample = FrameSample(delta: ByteCount, uploadRate: nat, downloadRate: nat, coverage: Coverage)

  datatype Frame = Frame(interval: int, observedAt: int, emittedAt: int, samples: map<string, FrameSample>)

  /** Bytes per second over `ms` milliseconds, rounded down. */
  function Rate(bytes: nat, ms: int): nat
    requires 0 < ms
  {
    bytes * 1000 / ms
  }

  predicate RateFits(sample: Sample) {
    sample.delta.upload * 1000 <= U64_MAX && sample.delta.download * 1000 <= U64_MAX
  }

  function Interval(cfg: LiveConfig, s: Live, tick: int): int {
    if s.lastEmit.Some? then tick - s.lastEmit.value else cfg.minInterval
  }

  /** The frame reports exactly the pending samples, at the latest second among them. */
  ghost predicate IsFrame(frame: Frame, cfg: LiveConfig, s: Live, tick: int, at: int) {
    && frame.interval == Interval(cfg, s, tick) && 0 < frame.interval && frame.emittedAt == at
    && (exists device :: device in s.pending && s.pending[device].observedAt == frame.observedAt)
    && (forall device :: device in s.pending ==> s.pending[device].observedAt <= frame.observedAt)
    && frame.samples.Keys == s.pending.Keys
    && forall device :: device in s.pending ==>
         frame.samples[device] == FrameSample(
           s.pending[device].delta, Rate(s.pending[device].delta.upload, frame.interval),
           Rate(s.pending[device].delta.download, frame.interval), s.pending[device].coverage)
  }

  datatype Flushing = Refused(error: LiveError) | Idle(after: Live) | Emits(after: Live)

  /** Reporting the pending samples moves their baselines into the emitted ones. */
  function Flushed(s: Live, tick: int, at: int): Live {
    Live(s.current, s.emitted + s.baselines, map[], map[], Some(tick), Some(tick), Some(at))
  }

  function Flush(cfg: LiveConfig, s: Live, tick: int, at: int): Flushing {
    if (s.lastTick.Some? && tick < s.lastTick.value) || (s.lastEmit.Some? && tick < s.lastEmit.value)
       || (s.lastEmittedAt.Some? && at < s.lastEmittedAt.value) then Refused(Clock)
    else if s.pending == map[] then Idle(s.(lastTick := Some(tick)))
    else if Interval(cfg, s, tick) < cfg.minInterval then Idle(s)
    else if |s.pending| > cfg.maxWork then Refused(OverWork)
    else if exists device :: device in s.pending && !RateFits(s.pending[device]) then Refused(SumOverflow)
    else Emits(Flushed(s, tick, at))
  }

  /** What a flush can do to the adapter. */
  lemma FlushOutcomes(cfg: LiveConfig, s: Live, tick: int, at: int)
    ensures match Flush(cfg, s, tick, at)
            case Refused(_) => true
            case Idle(after) => after == s || after == s.(lastTick := Some(tick))
            case Emits(after) =>
              after == Flushed(s, tick, at) && (s.lastEmit.Some? ==> tick - s.lastEmit.value >= cfg.minInterval)
  {
  }
}
