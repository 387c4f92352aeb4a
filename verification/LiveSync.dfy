/** The cached samples and baselines always equal a fresh recomputation from the current rows. */
module LiveSync {
  import opened Accounting
  import opened FlowModel
  import opened LiveModel

  /** Only one-second rows, one second per device, and baselines only for rows that are current. */
  ghost predicate Shaped(rows: map<RollupKey, Rollup>, emitted: map<RollupKey, ByteCount>) {
    && (forall key :: key in rows ==> key.resolution == Second)
    && (forall j, k :: j in rows && k in rows && j.dim.device == k.dim.device ==> j.bucket == k.bucket)
    && emitted.Keys <= rows.Keys
  }

  ghost predicate NoneShrunk(rows: map<RollupKey, Rollup>, emitted: map<RollupKey, ByteCount>)
    requires emitted.Keys <= rows.Keys
  {
    forall key :: key in emitted ==> Covers(rows[key].bytes, emitted[key])
  }

  /** The cached baselines and samples are what a recomputation from the rows would give. */
  ghost predicate InSync(
    rows: map<RollupKey, Rollup>, emitted: map<RollupKey, ByteCount>, baselines: map<RollupKey, ByteCount>,
    pending: map<string, Sample>)
  {
    && Shaped(rows, emitted) && NoneShrunk(rows, emitted)
    && baselines == Baselines(rows, Deltas(rows, emitted))
    && IsSamples(pending, rows, Deltas(rows, emitted))
  }

  ghost predicate Synced(s: Live) {
    InSync(s.current, s.emitted, s.baselines, s.pending)
  }

  // ---------------------------------------------------------------- folding

  lemma ApplyChangeShaped(st: Staged, c: RowChange)
    requires Shaped(st.next, st.emitted)
    ensures Shaped(ApplyChange(st, c).next, ApplyChange(st, c).emitted)
  {
  }

  lemma {:induction false} FoldShaped(st: Staged, changes: seq<RowChange>)
    requires Shaped(st.next, st.emitted)
    ensures Shaped(Fold(st, changes).next, Fold(st, changes).emitted)
  {
    if changes != [] {
      FoldShaped(st, changes[..|changes| - 1]);
      ApplyChangeShaped(Fold(st, changes[..|changes| - 1]), changes[|changes| - 1]);
    }
  }

  /** Without traffic a batch only removes rows, with their baselines, and notes whose they were. */
  ghost predicate OnlyRemoved(a: Staged, b: Staged) {
    && b.next.Keys <= a.next.Keys && (forall key :: key in b.next ==> b.next[key] == a.next[key])
    && b.emitted == a.emitted - (a.next.Keys - b.next.Keys)
    && b.baselines == a.baselines - (a.next.Keys - b.next.Keys)
    && forall key :: key in a.next && key !in b.next ==> key.dim.device in b.retired
  }

  lemma {:induction false} FoldQuiet(st: Staged, changes: seq<RowChange>)
    requires !st.traffic
    ensures !Fold(st, changes).traffic ==> OnlyRemoved(st, Fold(st, changes))
  {
    if changes == [] {
      assert st.emitted - {} == st.emitted && st.baselines - {} == st.baselines;
    } else {
      var before := Fold(st, changes[..|changes| - 1]);
      FoldQuiet(st, changes[..|changes| - 1]);
      QuietStep(st, before, changes[|changes| - 1]);
    }
  }

  lemma QuietStep(st: Staged, before: Staged, c: RowChange)
    requires !before.traffic ==> OnlyRemoved(st, before)
    ensures !ApplyChange(before, c).traffic ==> !before.traffic && OnlyRemoved(st, ApplyChange(before, c))
  {
    var after := ApplyChange(before, c);
    if !after.traffic && after != before {
      assert after == DropRow(before, c.key) && c.key in before.next;
      var gone := st.next.Keys - before.next.Keys;
      assert st.next.Keys - after.next.Keys == gone + {c.key};
    }
  }

  // ---------------------------------------------------------------- samples

  /** Lowering a baseline to its row changes no unreported amount. */
  lemma ResetKeepsDeltas(rows: map<RollupKey, Rollup>, emitted: map<RollupKey, ByteCount>)
    requires emitted.Keys <= rows.Keys
    ensures Reset(rows, emitted).Keys == emitted.Keys
    ensures Deltas(rows, Reset(rows, emitted)) == Deltas(rows, emitted)
    ensures NoneShrunk(rows, Reset(rows, emitted))
  {
    forall key | key in rows
      ensures Delta(rows[key], Reset(rows, emitted), key) == Delta(rows[key], emitted, key)
    {
    }
  }

  lemma ResetIdle(rows: map<RollupKey, Rollup>, emitted: map<RollupKey, ByteCount>)
    requires emitted.Keys <= rows.Keys && NoneShrunk(rows, emitted)
    ensures Reset(rows, emitted) == emitted
  {
  }

  lemma SampledDevices(samples: map<string, Sample>, rows: map<RollupKey, Rollup>, deltas: map<RollupKey, ByteCount>)
    requires deltas.Keys == rows.Keys && IsSamples(samples, rows, deltas)
    ensures samples.Keys <= Devices(rows)
  {
    forall device | device in samples ensures device in Devices(rows) {
      var key :| key in Active(deltas, device);
      assert key in rows;
    }
  }

  lemma SyncAll(pending: map<string, Sample>, samples: map<string, Sample>, devices: set<string>)
    requires pending.Keys <= devices && samples.Keys <= devices
    ensures Sync(pending + samples, devices, samples) == samples
  {
  }

  /** Two row maps that agree on everything a device has to report. */
  ghost predicate Agree(
    device: string, rows: map<RollupKey, Rollup>, deltas: map<RollupKey, ByteCount>,
    rows': map<RollupKey, Rollup>, deltas': map<RollupKey, ByteCount>)
    requires deltas.Keys == rows.Keys && deltas'.Keys == rows'.Keys
  {
    && Active(deltas, device) == Active(deltas', device)
    && forall key :: key in Active(deltas, device) ==> rows[key] == rows'[key] && deltas[key] == deltas'[key]
  }

  lemma SampleTransfers(
    sample: Sample, device: string, rows: map<RollupKey, Rollup>, deltas: map<RollupKey, ByteCount>,
    rows': map<RollupKey, Rollup>, deltas': map<RollupKey, ByteCount>)
    requires deltas.Keys == rows.Keys && deltas'.Keys == rows'.Keys
    requires Agree(device, rows, deltas, rows', deltas')
    requires IsSample(sample, rows, deltas, device)
    ensures IsSample(sample, rows', deltas', device)
  {
    TotalAgrees(Active(deltas, device), deltas, deltas');
  }

  lemma TrafficKeepsSynced(s: Live, st: Staged, tick: int, samples: map<string, Sample>)
    requires Synced(s) && Shaped(st.next, st.emitted)
    requires IsSamples(samples, st.next, Deltas(st.next, st.emitted))
    ensures Synced(Refreshed(s, st, tick, samples))
  {
    ResetKeepsDeltas(st.next, st.emitted);
    SampledDevices(samples, st.next, Deltas(st.next, st.emitted));
    SampledDevices(s.pending, s.current, Deltas(s.current, s.emitted));
    SyncAll(s.pending, samples, Devices(st.next) + Devices(s.current));
  }

  /** What is left after a quiet batch has the deltas it had before. */
  lemma QuietDeltas(s: Live, st: Staged)
    requires Synced(s) && OnlyRemoved(Stage(s), st) && Shaped(st.next, st.emitted)
    ensures NoneShrunk(st.next, st.emitted)
    ensures forall key :: key in st.next ==> Deltas(st.next, st.emitted)[key] == Deltas(s.current, s.emitted)[key]
  {
  }

  lemma QuietBaselines(s: Live, st: Staged)
    requires Synced(s) && OnlyRemoved(Stage(s), st) && Shaped(st.next, st.emitted)
    ensures st.baselines == Baselines(st.next, Deltas(st.next, st.emitted))
  {
    QuietDeltas(s, st);
  }

  lemma KeptRowsAgree(
    device: string, rows: map<RollupKey, Rollup>, deltas: map<RollupKey, ByteCount>,
    rows': map<RollupKey, Rollup>, deltas': map<RollupKey, ByteCount>)
    requires deltas.Keys == rows.Keys && deltas'.Keys == rows'.Keys
    requires forall key :: key in rows' ==> key in rows && rows'[key] == rows[key] && deltas'[key] == deltas[key]
    requires forall key :: key in rows && key !in rows' ==> key.dim.device != device
    ensures Agree(device, rows, deltas, rows', deltas')
  {
  }

  lemma QuietDevice(s: Live, st: Staged, device: string)
    requires Synced(s) && OnlyRemoved(Stage(s), st) && Shaped(st.next, st.emitted)
    requires device !in st.retired
    ensures Agree(device, s.current, Deltas(s.current, s.emitted), st.next, Deltas(st.next, st.emitted))
  {
    QuietDeltas(s, st);
    KeptRowsAgree(device, s.current, Deltas(s.current, s.emitted), st.next, Deltas(st.next, st.emitted));
  }

  /** Keeping the old sample of every device but the given ones is right when their rows agree. */
  lemma SyncSome(
    pending: map<string, Sample>, samples: map<string, Sample>, devices: set<string>,
    rows: map<RollupKey, Rollup>, deltas: map<RollupKey, ByteCount>,
    rows': map<RollupKey, Rollup>, deltas': map<RollupKey, ByteCount>)
    requires deltas.Keys == rows.Keys && deltas'.Keys == rows'.Keys
    requires IsSamples(pending, rows, deltas) && IsSamples(samples, rows', deltas')
    requires forall device :: device !in devices ==> Agree(device, rows, deltas, rows', deltas')
    ensures IsSamples(Sync(pending, devices, samples), rows', deltas')
  {
    var synced := Sync(pending, devices, samples);
    forall device
      ensures device in synced <==> Active(deltas', device) != {}
      ensures device in synced ==> IsSample(synced[device], rows', deltas', device)
    {
      if device !in devices && device in pending {
        SampleTransfers(pending[device], device, rows, deltas, rows', deltas');
      }
    }
  }

  lemma QuietSamples(s: Live, st: Staged, samples: map<string, Sample>)
    requires Synced(s) && OnlyRemoved(Stage(s), st) && Shaped(st.next, st.emitted)
    requires IsSamples(samples, st.next, Deltas(st.next, st.emitted))
    ensures IsSamples(Sync(s.pending, st.retired, samples), st.next, Deltas(st.next, st.emitted))
  {
    var deltas, deltas' := Deltas(s.current, s.emitted), Deltas(st.next, st.emitted);
    forall device | device !in st.retired ensures Agree(device, s.current, deltas, st.next, deltas') {
      QuietDevice(s, st, device);
    }
    SyncSome(s.pending, samples, st.retired, s.current, deltas, st.next, deltas');
  }

  lemma QuietKeepsSynced(s: Live, st: Staged, samples: map<string, Sample>)
    requires Synced(s) && OnlyRemoved(Stage(s), st) && Shaped(st.next, st.emitted)
    requires IsSamples(samples, st.next, Deltas(st.next, st.emitted))
    ensures Reset(st.next, st.emitted) == st.emitted
    ensures Synced(Quietened(s, st, samples))
  {
    QuietDeltas(s, st);
    ResetIdle(st.next, st.emitted);
    QuietBaselines(s, st);
    QuietSamples(s, st, samples);
  }

  lemma StagedKeepsSynced(s: Live, st: Staged, tick: int, samples: map<string, Sample>)
    requires Synced(s) && Shaped(st.next, st.emitted)
    requires !st.traffic ==> OnlyRemoved(Stage(s), st)
    requires IsSamples(samples, st.next, Deltas(st.next, st.emitted))
    ensures Synced(if st.traffic then Refreshed(s, st, tick, samples) else Quietened(s, st, samples))
  {
    if st.traffic {
      TrafficKeepsSynced(s, st, tick, samples);
    } else {
      QuietKeepsSynced(s, st, samples);
    }
  }

  lemma ApplyShape(cfg: LiveConfig, s: Live, tick: int, changes: seq<RowChange>, samples: map<string, Sample>)
    requires Apply(cfg, s, tick, changes, samples).Ok?
    ensures var st := Fold(Stage(s), changes);
            Apply(cfg, s, tick, changes, samples).value ==
            if st.traffic then Refreshed(s, st, tick, samples) else Quietened(s, st, samples)
  {
  }

  /** Applying any batch of changes leaves the caches equal to a fresh recomputation. */
  lemma ApplyKeepsSynced(cfg: LiveConfig, s: Live, tick: int, changes: seq<RowChange>, samples: map<string, Sample>)
    requires Synced(s)
    requires var st := Fold(Stage(s), changes); IsSamples(samples, st.next, Deltas(st.next, st.emitted))
    requires Apply(cfg, s, tick, changes, samples).Ok?
    ensures Synced(Apply(cfg, s, tick, changes, samples).value)
  {
    FoldShaped(Stage(s), changes);
    FoldQuiet(Stage(s), changes);
    StagedKeepsSynced(s, Fold(Stage(s), changes), tick, samples);
    ApplyShape(cfg, s, tick, changes, samples);
  }

  // ---------------------------------------------------------------- flushing

  /** Everything current has been reported: each baseline is the row itself, none meaning zero. */
  ghost predicate AllReported(s: Live) {
    forall key :: key in s.current ==>
      if key in s.emitted then s.emitted[key] == s.current[key].bytes else IsZero(s.current[key].bytes)
  }

  lemma FlushReportsAll(s: Live, tick: int, at: int)
    requires Synced(s)
    ensures AllReported(Flushed(s, tick, at))
  {
    forall key | key in s.current
      ensures key in s.baselines <==> !IsZero(Delta(s.current[key], s.emitted, key))
    {
      assert Deltas(s.current, s.emitted)[key] == Delta(s.current[key], s.emitted, key);
    }
  }

  lemma NothingToReport(rows: map<RollupKey, Rollup>, emitted: map<RollupKey, ByteCount>)
    requires forall key :: key in rows ==>
               if key in emitted then emitted[key] == rows[key].bytes else IsZero(rows[key].bytes)
    ensures forall key :: key in rows ==> IsZero(Deltas(rows, emitted)[key])
    ensures Baselines(rows, Deltas(rows, emitted)) == map[]
    ensures IsSamples(map[], rows, Deltas(rows, emitted))
  {
    forall key | key in rows ensures IsZero(Deltas(rows, emitted)[key]) {
      assert IsZero(Delta(rows[key], emitted, key));
    }
  }

  lemma FlushKeepsSynced(s: Live, tick: int, at: int)
    requires Synced(s)
    ensures Synced(Flushed(s, tick, at))
  {
    FlushReportsAll(s, tick, at);
    NothingToReport(s.current, s.emitted + s.baselines);
  }
}
