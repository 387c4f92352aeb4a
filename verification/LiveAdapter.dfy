/** The live adapter itself: fields replaced in place, proved against the value model. */
module LiveAdapter {
  import opened Wrappers
  import opened Accounting
  import opened Naturals
  import opened FlowModel
  import opened LiveModel
  import opened LiveSync
  import opened Sets

  datatype CurrentSamples = CurrentSamples(
    byDevice: map<string, Sample>, baselines: map<RollupKey, ByteCount>, resets: map<RollupKey, ByteCount>)

  // ---------------------------------------------------------------- sampling the current rows

  /** A sample of the given rows of one device. */
  ghost predicate SampleOver(
    sample: Sample, rows: map<RollupKey, Rollup>, deltas: map<RollupKey, ByteCount>, keys: set<RollupKey>)
    requires deltas.Keys == rows.Keys && keys <= rows.Keys
  {
    && keys != {} && sample.delta == Total(keys, deltas)
    && SharedCoverage(sample.coverage, rows, keys)
    && forall key :: key in keys ==> key.bucket == sample.observedAt
  }

  lemma FirstRow(sample: Sample, rows: map<RollupKey, Rollup>, deltas: map<RollupKey, ByteCount>, key: RollupKey)
    requires deltas.Keys == rows.Keys && key in rows
    requires sample == Sample(deltas[key], rows[key].coverage, key.bucket)
    ensures SampleOver(sample, rows, deltas, {key})
  {
    TotalPull({key}, deltas, key);
    assert {key} - {key} == {};
  }

  lemma NextRow(
    sample: Sample, sample': Sample, rows: map<RollupKey, Rollup>, deltas: map<RollupKey, ByteCount>,
    keys: set<RollupKey>, key: RollupKey)
    requires deltas.Keys == rows.Keys && keys <= rows.Keys && key in rows && key !in keys
    requires SampleOver(sample, rows, deltas, keys) && key.bucket == sample.observedAt
    requires sample'.observedAt == sample.observedAt && IsSum(sample'.delta, sample.delta, deltas[key])
    requires sample'.coverage == if sample.coverage == rows[key].coverage then sample.coverage else Estimated
    ensures SampleOver(sample', rows, deltas, keys + {key})
  {
    TotalPull(keys + {key}, deltas, key);
    assert keys + {key} - {key} == keys;
    var first :| first in keys;
    assert first in keys + {key} && key in keys + {key};
  }

  /** A part of a device's rows that does not fit 64 bits shows that the whole does not. */
  lemma PartOverflows(deltas: map<RollupKey, ByteCount>, device: string, part: set<RollupKey>)
    requires part <= Active(deltas, device)
    requires var total := Total(part, deltas); total.upload > U64_MAX || total.download > U64_MAX
    ensures !SumsFit(deltas)
  {
    var active := Active(deltas, device);
    TotalUnion(part, active - part, deltas);
    assert part + (active - part) == active;
  }

  function ResetOf(row: Rollup, emitted: ByteCount): ByteCount {
    ByteCount(Min(emitted.upload, row.bytes.upload), Min(emitted.download, row.bytes.download))
  }

  /** What the pass has sampled when only the rows in `rest` are still to come. */
  ghost predicate SampledBut(
    out: map<string, Sample>, rows: map<RollupKey, Rollup>, deltas: map<RollupKey, ByteCount>, rest: set<RollupKey>)
    requires deltas.Keys == rows.Keys
  {
    && (forall device :: device in out <==> Active(deltas, device) - rest != {})
    && forall device :: device in out ==>
         SampleOver(out[device], rows, deltas, Active(deltas, device) - rest) && SampleFits(out[device])
  }

  predicate SampleFits(sample: Sample) {
    sample.delta.upload <= U64_MAX && sample.delta.download <= U64_MAX
  }

  ghost predicate BaselinedBut(
    baselines: map<RollupKey, ByteCount>, rows: map<RollupKey, Rollup>, deltas: map<RollupKey, ByteCount>,
    rest: set<RollupKey>)
    requires deltas.Keys == rows.Keys
  {
    && (forall key :: key in baselines <==> key in rows && key !in rest && !IsZero(deltas[key]))
    && forall key :: key in baselines ==> baselines[key] == rows[key].bytes
  }

  ghost predicate ResetBut(
    resets: map<RollupKey, ByteCount>, rows: map<RollupKey, Rollup>, emitted: map<RollupKey, ByteCount>,
    rest: set<RollupKey>)
  {
    && (forall key :: key in resets <==> key in rows && key !in rest && Shrunk(rows[key], emitted, key))
    && forall key :: key in resets ==> resets[key] == ResetOf(rows[key], emitted[key])
  }

  /** The sample of the row's device once the row is added to what was sampled before. */
  function Grown(out: map<string, Sample>, row: Rollup, delta: ByteCount, key: RollupKey): Sample {
    if key.dim.device in out then
      var x := out[key.dim.device];
      Sample(ByteCount(x.delta.upload + delta.upload, x.delta.download + delta.download),
             if x.coverage == row.coverage then x.coverage else Estimated, x.observedAt)
    else Sample(delta, row.coverage, key.bucket)
  }

  lemma SkipRow(
    out: map<string, Sample>, rows: map<RollupKey, Rollup>, deltas: map<RollupKey, ByteCount>, rest: set<RollupKey>,
    key: RollupKey)
    requires deltas.Keys == rows.Keys && key in rows && IsZero(deltas[key])
    requires SampledBut(out, rows, deltas, rest)
    ensures SampledBut(out, rows, deltas, rest - {key})
  {
    assert forall device :: Active(deltas, device) - (rest - {key}) == Active(deltas, device) - rest;
  }

  lemma GrownSample(
    out: map<string, Sample>, rows: map<RollupKey, Rollup>, deltas: map<RollupKey, ByteCount>, rest: set<RollupKey>,
    key: RollupKey)
    requires deltas.Keys == rows.Keys && key in rows && key in rest && !IsZero(deltas[key])
    requires forall j, k :: j in rows && k in rows && j.dim.device == k.dim.device ==> j.bucket == k.bucket
    requires SampledBut(out, rows, deltas, rest)
    ensures var active := Active(deltas, key.dim.device);
            SampleOver(Grown(out, rows[key], deltas[key], key), rows, deltas, active - (rest - {key}))
  {
    var device := key.dim.device;
    var part := Active(deltas, device) - rest;
    assert Active(deltas, device) - (rest - {key}) == part + {key};
    var sample := Grown(out, rows[key], deltas[key], key);
    if device in out {
      var first :| first in part;
      assert first in rows && first.dim.device == device;
      NextRow(out[device], sample, rows, deltas, part, key);
    } else {
      assert part + {key} == {key};
      FirstRow(sample, rows, deltas, key);
    }
  }

  lemma OtherDevices(deltas: map<RollupKey, ByteCount>, rest: set<RollupKey>, key: RollupKey, device: string)
    requires key.dim.device != device
    ensures Active(deltas, device) - (rest - {key}) == Active(deltas, device) - rest
  {
  }

  lemma TakeRow(
    out: map<string, Sample>, rows: map<RollupKey, Rollup>, deltas: map<RollupKey, ByteCount>, rest: set<RollupKey>,
    key: RollupKey, sample: Sample)
    requires deltas.Keys == rows.Keys && SampledBut(out, rows, deltas, rest)
    requires var active := Active(deltas, key.dim.device); SampleOver(sample, rows, deltas, active - (rest - {key}))
    requires SampleFits(sample)
    ensures SampledBut(out[key.dim.device := sample], rows, deltas, rest - {key})
  {
    forall device | device != key.dim.device
      ensures Active(deltas, device) - (rest - {key}) == Active(deltas, device) - rest
    {
      OtherDevices(deltas, rest, key, device);
    }
  }

  /** Adds one row to the samples taken so far, unless a sum overflows. */
  method AddRow(
    out: map<string, Sample>, rows: map<RollupKey, Rollup>, delta: ByteCount, key: RollupKey,
    ghost deltas: map<RollupKey, ByteCount>, ghost rest: set<RollupKey>)
    returns (r: Result<map<string, Sample>, LiveError>)
    requires deltas.Keys == rows.Keys && key in rows && key in rest && delta == deltas[key]
    requires forall j, k :: j in rows && k in rows && j.dim.device == k.dim.device ==> j.bucket == k.bucket
    requires SampledBut(out, rows, deltas, rest)
    ensures r.Ok? ==> SampledBut(r.value, rows, deltas, rest - {key})
    ensures r.Err? ==> !SumsFit(deltas) && r.error == SumOverflow
  {
    if IsZero(delta) {
      SkipRow(out, rows, deltas, rest, key);
      return Ok(out);
    }
    var sample := Grown(out, rows[key], delta, key);
    GrownSample(out, rows, deltas, rest, key);
    if !SampleFits(sample) {
      PartOverflows(deltas, key.dim.device, Active(deltas, key.dim.device) - (rest - {key}));
      return Err(SumOverflow);
    }
    TakeRow(out, rows, deltas, rest, key, sample);
    return Ok(out[key.dim.device := sample]);
  }

  /** One pass over the current rows, stopping at the first sum that overflows. */
  method SamplesForCurrent(next: map<RollupKey, Rollup>, emitted: map<RollupKey, ByteCount>)
    returns (r: Result<CurrentSamples, LiveError>)
    requires Shaped(next, emitted)
    ensures r.Ok? <==> SumsFit(Deltas(next, emitted))
    ensures r.Err? ==> r.error == SumOverflow
    ensures r.Ok? ==> IsSamples(r.value.byDevice, next, Deltas(next, emitted))
    ensures r.Ok? ==> r.value.baselines == Baselines(next, Deltas(next, emitted))
    ensures r.Ok? ==> emitted + r.value.resets == Reset(next, emitted)
  {
    ghost var deltas := Deltas(next, emitted);
    var out: map<string, Sample> := map[];
    var baselines: map<RollupKey, ByteCount> := map[];
    var resets: map<RollupKey, ByteCount> := map[];
    var rest := next.Keys;
    NoneSampled(next, deltas);
    while rest != {}
      invariant rest <= next.Keys
      invariant SampledBut(out, next, deltas, rest)
      invariant BaselinedBut(baselines, next, deltas, rest)
      invariant ResetBut(resets, next, emitted, rest)
      decreases rest
    {
      var key :| key in rest;
      var row := next[key];
      if Shrunk(row, emitted, key) {
        resets := resets[key := ResetOf(row, emitted[key])];
      }
      var delta := Delta(row, emitted, key);
      assert delta == deltas[key];
      var grown := AddRow(out, next, delta, key, deltas, rest);
      match grown {
        case Err(e) => return Err(e);
        case Ok(samples) => out := samples;
      }
      if !IsZero(delta) {
        baselines := baselines[key := row.bytes];
      }
      rest := rest - {key};
    }
    AllSampled(out, next, deltas);
    AllBaselined(baselines, next, deltas);
    AllReset(resets, next, emitted);
    return Ok(CurrentSamples(out, baselines, resets));
  }

  lemma NoneSampled(rows: map<RollupKey, Rollup>, deltas: map<RollupKey, ByteCount>)
    requires deltas.Keys == rows.Keys
    ensures SampledBut(map[], rows, deltas, rows.Keys)
  {
    assert forall device :: Active(deltas, device) - rows.Keys == {};
  }

  lemma AllSampled(out: map<string, Sample>, rows: map<RollupKey, Rollup>, deltas: map<RollupKey, ByteCount>)
    requires deltas.Keys == rows.Keys && SampledBut(out, rows, deltas, {})
    ensures IsSamples(out, rows, deltas) && SumsFit(deltas)
  {
    forall device: string
      ensures device in out <==> Active(deltas, device) != {}
      ensures device in out ==> IsSample(out[device], rows, deltas, device)
      ensures Total(Active(deltas, device), deltas).upload <= U64_MAX
      ensures Total(Active(deltas, device), deltas).download <= U64_MAX
    {
      assert Active(deltas, device) - {} == Active(deltas, device);
    }
  }

  lemma AllBaselined(
    baselines: map<RollupKey, ByteCount>, rows: map<RollupKey, Rollup>, deltas: map<RollupKey, ByteCount>)
    requires deltas.Keys == rows.Keys && BaselinedBut(baselines, rows, deltas, {})
    ensures baselines == Baselines(rows, deltas)
  {
  }

  lemma AllReset(resets: map<RollupKey, ByteCount>, rows: map<RollupKey, Rollup>, emitted: map<RollupKey, ByteCount>)
    requires ResetBut(resets, rows, emitted, {})
    ensures emitted + resets == Reset(rows, emitted)
  {
    forall key | key in emitted ensures (emitted + resets)[key] == Reset(rows, emitted)[key] {
    }
  }

  // ---------------------------------------------------------------- the coalescer

  lemma MoreKeys<K>(a: set<K>, b: set<K>, key: K)
    requires a <= b && key in b && key !in a
    ensures |a| < |b|
  {
    SubsetCard(a + {key}, b);
  }

  /** `next` is `pending` with every sample but those of the devices in `rest`. */
  ghost predicate InsertedBut<K(!new), V>(
    next: map<K, V>, pending: map<K, V>, samples: map<K, V>, rest: set<K>)
  {
    && (forall k :: k in next <==> k in pending || (k in samples && k !in rest))
    && forall k :: k in next ==> next[k] == if k in samples && k !in rest then samples[k] else pending[k]
  }

  lemma InsertOne<K(!new), V>(
    next: map<K, V>, pending: map<K, V>, samples: map<K, V>, rest: set<K>, k: K)
    requires InsertedBut(next, pending, samples, rest) && k in rest && k in samples
    ensures InsertedBut(next[k := samples[k]], pending, samples, rest - {k})
    ensures |next[k := samples[k]]| == if k in next then |next| else |next| + 1
  {
    InsertCard(next, k, samples[k]);
  }

  lemma InsertedAll<K(!new), V>(next: map<K, V>, pending: map<K, V>, samples: map<K, V>)
    requires InsertedBut(next, pending, samples, {})
    ensures next == pending + samples && |next| == |pending.Keys + samples.Keys|
  {
    assert next.Keys == pending.Keys + samples.Keys;
    assert next == pending + samples;
  }

  /** Inserts the samples one by one, refusing the first new device over the pending limit. */
  method Replace(cfg: LiveConfig, pending: map<string, Sample>, samples: map<string, Sample>)
    returns (r: Result<map<string, Sample>, LiveError>)
    ensures var all := |pending.Keys + samples.Keys|;
            r.Err? <==> (!(samples.Keys <= pending.Keys) && all > cfg.maxPending) || all > cfg.maxDevices
    ensures r.Ok? ==> r.value == pending + samples
    ensures r.Err? ==> r.error == OverCapacity
  {
    var next := pending;
    var rest := samples.Keys;
    while rest != {}
      invariant rest <= samples.Keys && InsertedBut(next, pending, samples, rest)
      invariant samples.Keys - rest <= pending.Keys || |next| <= cfg.maxPending
      decreases rest
    {
      var k :| k in rest;
      if k !in next && |next| >= cfg.maxPending {
        MoreKeys(next.Keys, pending.Keys + samples.Keys, k);
        assert |next.Keys| == |next|;
        return Err(OverCapacity);
      }
      InsertOne(next, pending, samples, rest, k);
      next := next[k := samples[k]];
      rest := rest - {k};
    }
    InsertedAll(next, pending, samples);
    if |next| > cfg.maxDevices {
      return Err(OverCapacity);
    }
    return Ok(next);
  }

  lemma InsertCard<K, V>(m: map<K, V>, k: K, v: V)
    ensures |m[k := v]| == if k in m then |m| else |m| + 1
  {
    assert m[k := v].Keys == m.Keys + {k};
    if k in m {
      assert m.Keys + {k} == m.Keys;
    }
  }

  /** Replaces or drops the pending sample of each given device. */
  method SyncDevices(pending: map<string, Sample>, devices: set<string>, samples: map<string, Sample>)
    returns (out: map<string, Sample>)
    ensures out == Sync(pending, devices, samples)
  {
    out := pending;
    var rest := devices;
    while rest != {}
      invariant rest <= devices && out == Sync(pending, devices - rest, samples)
      decreases rest
    {
      var device :| device in rest;
      ghost var done := devices - rest;
      rest := rest - {device};
      assert devices - rest == done + {device};
      if device in samples {
        out := out[device := samples[device]];
      } else {
        out := out - {device};
      }
    }
    assert devices - rest == devices;
  }

  /** The latest second among the pending samples. */
  method LatestSecond(pending: map<string, Sample>) returns (latest: int)
    requires pending != map[]
    ensures exists device :: device in pending && pending[device].observedAt == latest
    ensures forall device :: device in pending ==> pending[device].observedAt <= latest
  {
    var first :| first in pending.Keys;
    latest := pending[first].observedAt;
    var rest := pending.Keys;
    while rest != {}
      invariant rest <= pending.Keys
      invariant exists device :: device in pending && pending[device].observedAt == latest
      invariant forall device :: device in pending && device !in rest ==> pending[device].observedAt <= latest
      decreases rest
    {
      var device :| device in rest;
      rest := rest - {device};
      if latest < pending[device].observedAt {
        latest := pending[device].observedAt;
      }
    }
  }

  function FrameSampleOf(sample: Sample, interval: int): FrameSample
    requires 0 < interval
  {
    FrameSample(sample.delta, Rate(sample.delta.upload, interval), Rate(sample.delta.download, interval), sample.coverage)
  }

  /** One frame sample per pending device, unless a rate overflows 64 bits. */
  method FrameSamples(pending: map<string, Sample>, interval: int)
    returns (r: Result<map<string, FrameSample>, LiveError>)
    requires 0 < interval
    ensures r.Err? <==> exists device :: device in pending && !RateFits(pending[device])
    ensures r.Err? ==> r.error == SumOverflow
    ensures r.Ok? ==> r.value.Keys == pending.Keys
    ensures r.Ok? ==> forall device :: device in pending ==> r.value[device] == FrameSampleOf(pending[device], interval)
  {
    var out: map<string, FrameSample> := map[];
    var rest := pending.Keys;
    while rest != {}
      invariant rest <= pending.Keys && out.Keys == pending.Keys - rest
      invariant forall device :: device in out ==>
                  RateFits(pending[device]) && out[device] == FrameSampleOf(pending[device], interval)
      decreases rest
    {
      var device :| device in rest;
      if !RateFits(pending[device]) {
        return Err(SumOverflow);
      }
      rest := rest - {device};
      out := out[device := FrameSampleOf(pending[device], interval)];
    }
    assert forall device :: device in pending ==> device in out;
    return Ok(out);
  }

  // ---------------------------------------------------------------- the adapter

  /** Folds a batch over copies of the maps. */
  method FoldChanges(s: Live, changes: seq<RowChange>) returns (st: Staged)
    ensures st == Fold(Stage(s), changes)
  {
    st := Staged(s.current, s.emitted, s.baselines, false, {});
    for i := 0 to |changes|
      invariant st == Fold(Stage(s), changes[..i])
    {
      assert changes[..i + 1][..i] == changes[..i];
      st := ApplyChange(st, changes[i]);
    }
    assert changes[..|changes|] == changes;
  }

  /** A batch that carries traffic. */
  method ApplyTraffic(cfg: LiveConfig, s: Live, tick: int, st: Staged, sampled: CurrentSamples)
    returns (r: Result<Live, LiveError>)
    requires sampled.baselines == Baselines(st.next, Deltas(st.next, st.emitted))
    requires st.emitted + sampled.resets == Reset(st.next, st.emitted)
    ensures r == match ReplaceRefusal(cfg, s, tick, sampled.byDevice)
                 case Some(e) => Err(e)
                 case None => Ok(Refreshed(s, st, tick, sampled.byDevice))
  {
    if s.lastTick.Some? && tick < s.lastTick.value {
      return Err(Clock);
    }
    if |sampled.byDevice| > cfg.maxWork {
      return Err(OverWork);
    }
    var replaced := Replace(cfg, s.pending, sampled.byDevice);
    if replaced.Err? {
      return Err(replaced.error);
    }
    var synced := SyncDevices(replaced.value, Devices(st.next) + Devices(s.current), sampled.byDevice);
    return Ok(Live(st.next, st.emitted + sampled.resets, sampled.baselines, synced, Some(tick), s.lastEmit, s.lastEmittedAt));
  }

  /** `samples` are the samples of the rows the batch leaves. */
  method ApplyInner(cfg: LiveConfig, s: Live, tick: int, changes: seq<RowChange>)
    returns (r: Result<Live, LiveError>, ghost samples: map<string, Sample>)
    requires Shaped(s.current, s.emitted)
    ensures r == Apply(cfg, s, tick, changes, samples)
    ensures r.Ok? ==> SamplesOf(s, changes, samples)
  {
    samples := map[];
    if |changes| > cfg.maxWork {
      return Err(OverWork), samples;
    }
    var st := FoldChanges(s, changes);
    if |st.next| > cfg.maxRows {
      return Err(OverCapacity), samples;
    }
    FoldShaped(Stage(s), changes);
    var sampled := SamplesForCurrent(st.next, st.emitted);
    if sampled.Err? {
      return Err(sampled.error), samples;
    }
    samples := sampled.value.byDevice;
    if st.traffic {
      r := ApplyTraffic(cfg, s, tick, st, sampled.value);
    } else {
      var synced := SyncDevices(s.pending, st.retired, sampled.value.byDevice);
      r := Ok(Live(st.next, st.emitted + sampled.value.resets, st.baselines, synced, s.lastTick, s.lastEmit, s.lastEmittedAt));
    }
  }

  /** The coalescer's flush, with the frame it emits. */
  method FlushInner(cfg: LiveConfig, s: Live, tick: int, now: int) returns (r: Flushing, frame: Option<Frame>)
    requires 0 < cfg.minInterval
    ensures r == Flush(cfg, s, tick, now)
    ensures frame.Some? <==> r.Emits?
    ensures frame.Some? ==> IsFrame(frame.value, cfg, s, tick, now)
  {
    if (s.lastTick.Some? && tick < s.lastTick.value) || (s.lastEmit.Some? && tick < s.lastEmit.value)
       || (s.lastEmittedAt.Some? && now < s.lastEmittedAt.value) {
      return Refused(Clock), None;
    }
    if s.pending == map[] {
      return Idle(s.(lastTick := Some(tick))), None;
    }
    var interval := if s.lastEmit.Some? then tick - s.lastEmit.value else cfg.minInterval;
    if interval < cfg.minInterval {
      return Idle(s), None;
    }
    if |s.pending| > cfg.maxWork {
      return Refused(OverWork), None;
    }
    var observedAt := LatestSecond(s.pending);
    var samples := FrameSamples(s.pending, interval);
    if samples.Err? {
      return Refused(samples.error), None;
    }
    r := Emits(Live(s.current, s.emitted + s.baselines, map[], map[], Some(tick), Some(tick), Some(now)));
    frame := Some(Frame(interval, observedAt, now, samples.value));
  }

  class Adapter {
    const cfg: LiveConfig
    var current: map<RollupKey, Rollup>
    var emitted: map<RollupKey, ByteCount>
    var baselines: map<RollupKey, ByteCount>
    var pending: map<string, Sample>
    var lastTick: Option<int>
    var lastEmit: Option<int>
    var lastEmittedAt: Option<int>

    function State(): Live
      reads this
    {
      Live(current, emitted, baselines, pending, lastTick, lastEmit, lastEmittedAt)
    }

    /** The caches agree with a recomputation from the rows. */
    ghost predicate Valid()
      reads this
    {
      ValidLiveConfig(cfg) && Synced(State())
    }

    constructor (config: LiveConfig)
      requires ValidLiveConfig(config)
      ensures Valid() && State() == EmptyLive() && cfg == config
    {
      cfg := config;
      current, emitted, baselines, pending := map[], map[], map[], map[];
      lastTick, lastEmit, lastEmittedAt := None, None, None;
      new;
      NothingToReport(map[], map[]);
    }

    static method Create(config: LiveConfig) returns (r: Result<Adapter, LiveError>)
      ensures r.Ok? <==> ValidLiveConfig(config)
      ensures r.Ok? ==> fresh(r.value) && r.value.Valid() && r.value.State() == EmptyLive() && r.value.cfg == config
      ensures r.Err? ==> r.error == ConfigInvalid
    {
      if !ValidLiveConfig(config) {
        return Err(ConfigInvalid);
      }
      var adapter := new Adapter(config);
      return Ok(adapter);
    }

    /** Puts a staged copy in place. */
    method Become(staged: Live)
      modifies this
      ensures State() == staged
    {
      current, emitted, baselines, pending := staged.current, staged.emitted, staged.baselines, staged.pending;
      lastTick, lastEmit, lastEmittedAt := staged.lastTick, staged.lastEmit, staged.lastEmittedAt;
    }

    /** Applies a whole batch to a staged copy or, on any refusal, changes nothing. */
    method ApplyBatch(tick: int, changes: seq<RowChange>)
      returns (r: Result<(), LiveError>, ghost samples: map<string, Sample>)
      requires Valid()
      modifies this
      ensures Valid()
      ensures r.Ok? ==> SamplesOf(old(State()), changes, samples)
      ensures r.Ok? ==> Apply(cfg, old(State()), tick, changes, samples) == Ok(State())
      ensures r.Err? ==> Apply(cfg, old(State()), tick, changes, samples) == Err(r.error) && State() == old(State())
    {
      var staged;
      staged, samples := ApplyInner(cfg, State(), tick, changes);
      if staged.Err? {
        return Err(staged.error), samples;
      }
      ApplyKeepsSynced(cfg, State(), tick, changes, samples);
      Become(staged.value);
      return Ok(()), samples;
    }

    /** Emits the pending samples as one frame, at most once per interval. */
    method FlushPayload(tick: int, now: int) returns (r: Result<Option<Frame>, LiveError>)
      requires Valid()
      modifies this
      ensures Valid()
      ensures r.Err? ==> Flush(cfg, old(State()), tick, now) == Refused(r.error) && State() == old(State())
      ensures r.Ok? && r.value.None? ==> Flush(cfg, old(State()), tick, now) == Idle(State())
      ensures r.Ok? && r.value.Some? ==>
                Flush(cfg, old(State()), tick, now) == Emits(State()) && IsFrame(r.value.value, cfg, old(State()), tick, now)
    {
      var flushed, frame := FlushInner(cfg, State(), tick, now);
      FlushKeepsCaches(cfg, State(), tick, now);
      if flushed.Refused? {
        return Err(flushed.error);
      }
      Become(flushed.after);
      return Ok(frame);
    }
  }

  lemma FlushKeepsCaches(cfg: LiveConfig, s: Live, tick: int, at: int)
    requires Synced(s)
    ensures var r := Flush(cfg, s, tick, at); r.Refused? || Synced(r.after)
  {
    FlushOutcomes(cfg, s, tick, at);
    FlushKeepsSynced(s, tick, at);
  }
}
