/** Whole runs with any watermarks: exactly when the minute and hour rows equal the finalised history. */
module FlowExact {
  import opened Wrappers
  import opened Accounting
  import opened FlowModel
  import opened FlowLedger
  import opened FlowRuns
  import opened FlowHistory
  import opened FlowRecount

  // ---------------------------------------------------------------- what every call keeps

  /** An open row of a retired second belongs to a second finalised at its best row. */
  ghost predicate RetiredSettled(cfg: Config, sources: Registry, s: State, finals: Finals) {
    forall r :: r in s.seconds && Late(r.base, s.watermark, cfg.lateness) ==>
      r.base in finals && IsBestRow(s.seconds, sources, r.base, finals[r.base])
  }

  ghost predicate AllLive(rows: map<RollupKey, Rollup>, w: Option<int>, lateness: int) {
    forall key :: key in rows ==> !Retired(key, w, lateness)
  }

  /** The emitted rows exceed the exact ledger of the history by the excess. */
  ghost predicate Counted(
    cfg: Config, sources: Registry, s: State, finals: Finals, excess: Excess, exact: map<RollupKey, Rollup>)
  {
    && Ledger(exact, finals, s.watermark, cfg.lateness)
    && Tracks(s.emitted, exact, excess, s.watermark, cfg.lateness)
    && AllLive(s.emitted, s.watermark, cfg.lateness)
    && RetiredSettled(cfg, sources, s, finals)
  }

  lemma BooksCounted(cfg: Config, sources: Registry, s: State, finals: Finals)
    requires Books(cfg, sources, s, finals)
    ensures Counted(cfg, sources, s, finals, map[], s.emitted)
  {
  }

  /** Nothing is accepted into a retired second. */
  lemma AcceptedOnTime(cfg: Config, sources: Registry, s: State, o: Observation)
    requires Observe(cfg, sources, s, o).Ok?
    ensures o.metadata.Ok? && !Late(KeyOf(o).base, s.watermark, cfg.lateness)
    ensures Observe(cfg, sources, s, o).value.emitted == s.emitted
  {
  }

  lemma BestRowElsewhere(
    seconds: map<SourceKey, ByteCount>, key: SourceKey, bytes: ByteCount, sources: Registry, base: SecondKey, row: Rollup)
    requires base != key.base && IsBestRow(seconds, sources, base, row)
    ensures IsBestRow(seconds[key := bytes], sources, base, row)
  {
    var s :| Wins(seconds, sources, base, s) && row == Rollup(seconds[SourceKey(base, s)], CoverageOf(sources[s]));
    assert Wins(seconds[key := bytes], sources, base, s);
  }

  lemma ObserveCounted(
    cfg: Config, sources: Registry, s: State, finals: Finals, excess: Excess, exact: map<RollupKey, Rollup>, o: Observation)
    requires Counted(cfg, sources, s, finals, excess, exact) && Observe(cfg, sources, s, o).Ok?
    ensures Counted(cfg, sources, Observe(cfg, sources, s, o).value, finals, excess, exact)
  {
    AcceptedOnTime(cfg, sources, s, o);
    ObserveShape(cfg, sources, s, o);
    var after := Observe(cfg, sources, s, o).value;
    forall r | r in after.seconds && Late(r.base, s.watermark, cfg.lateness)
      ensures r.base in finals && IsBestRow(after.seconds, sources, r.base, finals[r.base])
    {
      assert r in s.seconds && r.base != KeyOf(o).base;
      BestRowElsewhere(s.seconds, KeyOf(o), RaisedRow(s.seconds, o), sources, r.base, finals[r.base]);
    }
  }

  /** A retired second is selected at the value it was finalised with. */
  lemma SelectedWalkable(
    cfg: Config, sources: Registry, s: State, finals: Finals, selected: map<SecondKey, Rollup>, order: seq<SecondKey>, next: int)
    requires RetiredSettled(cfg, sources, s, finals) && AllLive(s.emitted, s.watermark, cfg.lateness)
    requires IsSelection(selected, s.seconds, sources, next) && IsOrder(order, selected.Keys)
    ensures Walkable(s.emitted, finals, s.watermark, cfg.lateness, order, selected)
  {
    forall k | k in order && Late(k, s.watermark, cfg.lateness) ensures k in finals && finals[k] == selected[k] {
      assert k in ClosedBases(s.seconds, next);
      var r :| r in s.seconds && r.base == k;
      BestRowUnique(s.seconds, sources, k, finals[k], selected[k]);
    }
  }

  lemma LateIsClosed(base: SecondKey, next: int, lateness: int)
    requires 0 <= lateness && Late(base, Some(next), lateness)
    ensures base.epoch + 1 <= Secs(next)
  {
  }

  lemma KeptSettled(
    cfg: Config, sources: Registry, seconds: map<SourceKey, ByteCount>, after: State, finals: Finals,
    selected: map<SecondKey, Rollup>, next: int)
    requires 0 <= cfg.lateness && IsSelection(selected, seconds, sources, next)
    requires after.seconds == OpenRows(seconds, Secs(next - CacheHorizon(cfg))) && after.watermark == Some(next)
    ensures RetiredSettled(cfg, sources, after, finals + selected)
  {
    forall r | r in after.seconds && Late(r.base, Some(next), cfg.lateness)
      ensures r.base in selected && IsBestRow(after.seconds, sources, r.base, selected[r.base])
    {
      LateIsClosed(r.base, next, cfg.lateness);
      assert r.base in ClosedBases(seconds, next);
      BestRowOfKeptRows(seconds, sources, Secs(next - CacheHorizon(cfg)), r.base, selected[r.base]);
    }
  }

  lemma LiveTracks(
    rows: map<RollupKey, Rollup>, exact: map<RollupKey, Rollup>, excess: Excess, w: Option<int>, lateness: int, next: int)
    requires Tracks(rows, exact, excess, w, lateness) && (w.Some? ==> w.value <= next)
    ensures Tracks(LiveRows(rows, next, lateness), LiveRows(exact, next, lateness), excess, Some(next), lateness)
  {
    forall key | !Retired(key, Some(next), lateness)
      ensures RowTracks(LiveRows(rows, next, lateness), LiveRows(exact, next, lateness), excess, key)
    {
      assert RowTracks(rows, exact, excess, key);
    }
  }

  /** An advance to any watermark adds its recounts to the excess, and nothing else. */
  lemma AdvanceCounted(
    cfg: Config, sources: Registry, s: State, finals: Finals, excess: Excess, exact: map<RollupKey, Rollup>,
    selected: map<SecondKey, Rollup>, order: seq<SecondKey>, next: int, now: int) returns (exact': map<RollupKey, Rollup>)
    requires ValidConfig(cfg) && Counted(cfg, sources, s, finals, excess, exact)
    requires IsSelection(selected, s.seconds, sources, next) && IsOrder(order, selected.Keys)
    requires Advance(cfg, s, selected, order, next, now).Ok?
    ensures Counted(cfg, sources, Advance(cfg, s, selected, order, next, now).value.0, finals + selected,
                    Recounted(excess, order, selected, s.watermark, cfg.lateness), exact')
  {
    SelectedWalkable(cfg, sources, s, finals, selected, order, next);
    AdvanceShape(cfg, s, selected, order, next, now);
    var walked := WalkTracks(s.emitted, exact, excess, finals, s.watermark, cfg.lateness, order, selected);
    OverlayAll(finals, order, selected);
    exact' := LiveRows(walked, next, cfg.lateness);
    LiveRowsKeepLedger(walked, finals + selected, s.watermark, cfg.lateness, next);
    LiveTracks(ReviseAll(s.emitted, order, selected).value, walked,
               Recounted(excess, order, selected, s.watermark, cfg.lateness), s.watermark, cfg.lateness, next);
    KeptSettled(cfg, sources, s.seconds, Advance(cfg, s, selected, order, next, now).value.0, finals, selected, next);
  }

  // ---------------------------------------------------------------- when the rows are exact

  /** What a parent row holds: the history and the excess. */
  lemma CountedParent(
    cfg: Config, sources: Registry, s: State, finals: Finals, excess: Excess, exact: map<RollupKey, Rollup>, key: RollupKey)
    requires Counted(cfg, sources, s, finals, excess, exact) && key in s.emitted && key.resolution != Second
    ensures IsSum(s.emitted[key].bytes, BucketTotal(finals, key), At(excess, key))
    ensures Conservative(finals, key, s.emitted[key].coverage)
    ensures ParentRow(finals, key, s.emitted[key]) <==> IsZero(At(excess, key))
  {
    assert RowTracks(s.emitted, exact, excess, key);
    assert ParentRow(finals, key, exact[key]);
  }

  lemma CountedIff(cfg: Config, sources: Registry, s: State, finals: Finals, excess: Excess, exact: map<RollupKey, Rollup>)
    requires Counted(cfg, sources, s, finals, excess, exact)
    ensures ParentRows(s.emitted, finals) <==>
            forall key :: key in s.emitted && key.resolution != Second ==> IsZero(At(excess, key))
  {
    forall key | key in s.emitted && key.resolution != Second
      ensures ParentRow(finals, key, s.emitted[key]) <==> IsZero(At(excess, key))
    {
      CountedParent(cfg, sources, s, finals, excess, exact, key);
    }
  }

  /** An excess is nothing exactly when every recount into it was of nothing. */
  lemma {:induction false} RecountedZero(
    excess: Excess, order: seq<SecondKey>, selected: map<SecondKey, Rollup>, w: Option<int>, lateness: int, key: RollupKey)
    requires key.resolution != Second && forall k :: k in order ==> k in selected
    ensures IsZero(At(Recounted(excess, order, selected, w, lateness), key)) <==>
            IsZero(At(excess, key)) &&
            forall k :: k in order && Late(k, w, lateness) && RowKey(key.resolution, k) == key ==> IsZero(selected[k].bytes)
  {
    if order != [] {
      var n := |order| - 1;
      RecountedZero(excess, order[..n], selected, w, lateness, key);
      assert order == order[..n] + [order[n]];
      RecountZero(Recounted(excess, order[..n], selected, w, lateness), order[n], selected[order[n]].bytes, key);
    }
  }

  lemma RecountZero(excess: Excess, base: SecondKey, bytes: ByteCount, key: RollupKey)
    requires key.resolution != Second
    ensures IsZero(At(Recount(excess, base, bytes), key)) <==>
            IsZero(At(excess, key)) && (RowKey(key.resolution, base) == key ==> IsZero(bytes))
  {
  }

  // ---------------------------------------------------------------- every run

  /** The recounts of a whole run. */
  ghost function ExcessOf(cfg: Config, sources: Registry, ops: seq<Op>): Excess {
    if ops == [] then map[]
    else
      var init, op := ops[..|ops| - 1], ops[|ops| - 1];
      var t, before := Run(cfg, sources, init), ExcessOf(cfg, sources, init);
      if Advances(cfg, sources, t, op) then Recounted(before, op.order, op.selected, t.state.watermark, cfg.lateness)
      else before
  }

  lemma {:induction false} RunCounted(cfg: Config, sources: Registry, ops: seq<Op>) returns (exact: map<RollupKey, Rollup>)
    requires ValidConfig(cfg)
    ensures var t := Run(cfg, sources, ops);
            Counted(cfg, sources, t.state, t.finals, ExcessOf(cfg, sources, ops), exact)
  {
    if ops == [] {
      exact := map[];
    } else {
      var init, op := ops[..|ops| - 1], ops[|ops| - 1];
      var t, excess := Run(cfg, sources, init), ExcessOf(cfg, sources, init);
      exact := RunCounted(cfg, sources, init);
      match op {
        case ObserveOp(o) =>
          if Observe(cfg, sources, t.state, o).Ok? {
            ObserveCounted(cfg, sources, t.state, t.finals, excess, exact, o);
          }
        case AdvanceOp(selected, order, next, now) =>
          if Advances(cfg, sources, t, op) {
            exact := AdvanceCounted(cfg, sources, t.state, t.finals, excess, exact, selected, order, next, now);
          }
      }
    }
  }

  /** After any run whatever, a minute or hour row holds the finalised history and, once more for each, the recounts. */
  lemma ParentsCountedExactly(cfg: Config, sources: Registry, ops: seq<Op>, key: RollupKey)
    requires ValidConfig(cfg) && key in Run(cfg, sources, ops).state.emitted && key.resolution != Second
    ensures var t := Run(cfg, sources, ops);
            && IsSum(t.state.emitted[key].bytes, BucketTotal(t.finals, key), At(ExcessOf(cfg, sources, ops), key))
            && Conservative(t.finals, key, t.state.emitted[key].coverage)
  {
    var exact := RunCounted(cfg, sources, ops);
    var t := Run(cfg, sources, ops);
    CountedParent(cfg, sources, t.state, t.finals, ExcessOf(cfg, sources, ops), exact, key);
  }

  /** The seconds an operation counts again: those it selects although their rows had retired. */
  ghost function LateSelected(cfg: Config, sources: Registry, t: Trail, op: Op): map<SecondKey, Rollup> {
    if Advances(cfg, sources, t, op)
    then map k | k in op.selected && Late(k, t.state.watermark, cfg.lateness) :: op.selected[k]
    else map[]
  }

  /** The same for every operation of a run. */
  ghost function Recounts(cfg: Config, sources: Registry, ops: seq<Op>): seq<map<SecondKey, Rollup>> {
    if ops == [] then []
    else
      var init := ops[..|ops| - 1];
      Recounts(cfg, sources, init) + [LateSelected(cfg, sources, Run(cfg, sources, init), ops[|ops| - 1])]
  }

  /** No recount put any bytes into this row. */
  ghost predicate NothingInto(recounts: seq<map<SecondKey, Rollup>>, key: RollupKey) {
    forall i, base :: 0 <= i < |recounts| && base in recounts[i] && RowKey(key.resolution, base) == key ==>
      IsZero(recounts[i][base].bytes)
  }

  lemma NothingIntoSnoc(recounts: seq<map<SecondKey, Rollup>>, last: map<SecondKey, Rollup>, key: RollupKey)
    ensures NothingInto(recounts + [last], key) <==>
            NothingInto(recounts, key) &&
            forall base :: base in last && RowKey(key.resolution, base) == key ==> IsZero(last[base].bytes)
  {
    var all := recounts + [last];
    assert all[|recounts|] == last;
    assert forall i :: 0 <= i < |recounts| ==> all[i] == recounts[i];
  }

  lemma {:induction false} ExcessZeroIff(cfg: Config, sources: Registry, ops: seq<Op>, key: RollupKey)
    requires key.resolution != Second
    ensures IsZero(At(ExcessOf(cfg, sources, ops), key)) <==> NothingInto(Recounts(cfg, sources, ops), key)
  {
    if ops != [] {
      var n := |ops| - 1;
      var init, op := ops[..n], ops[n];
      var t := Run(cfg, sources, init);
      ExcessZeroIff(cfg, sources, init, key);
      NothingIntoSnoc(Recounts(cfg, sources, init), LateSelected(cfg, sources, t, op), key);
      if Advances(cfg, sources, t, op) {
        RecountedZero(ExcessOf(cfg, sources, init), op.order, op.selected, t.state.watermark, cfg.lateness, key);
      }
    }
  }

  /** Every recount was of nothing, or into parents that have retired since. */
  ghost predicate Harmless(recounts: seq<map<SecondKey, Rollup>>, w: Option<int>, lateness: int) {
    forall i, base, res: Resolution :: 0 <= i < |recounts| && base in recounts[i] && res != Second ==>
      IsZero(recounts[i][base].bytes) || Retired(RowKey(res, base), w, lateness)
  }

  ghost predicate AllFinal(recounts: seq<map<SecondKey, Rollup>>, finals: Finals) {
    forall i, base :: 0 <= i < |recounts| && base in recounts[i] ==> base in finals
  }

  lemma StepKeepsFinals(cfg: Config, sources: Registry, t: Trail, op: Op)
    ensures forall base :: base in t.finals || base in LateSelected(cfg, sources, t, op) ==>
              base in Step(cfg, sources, t, op).finals
  {
  }

  lemma {:induction false} RecountsFinal(cfg: Config, sources: Registry, ops: seq<Op>)
    ensures AllFinal(Recounts(cfg, sources, ops), Run(cfg, sources, ops).finals)
  {
    if ops != [] {
      RecountsFinal(cfg, sources, ops[..|ops| - 1]);
      StepKeepsFinals(cfg, sources, Run(cfg, sources, ops[..|ops| - 1]), ops[|ops| - 1]);
    }
  }

  lemma HarmlessIff(
    recounts: seq<map<SecondKey, Rollup>>, rows: map<RollupKey, Rollup>, exact: map<RollupKey, Rollup>, excess: Excess,
    finals: Finals, w: Option<int>, lateness: int)
    requires Ledger(exact, finals, w, lateness) && Tracks(rows, exact, excess, w, lateness) && AllLive(rows, w, lateness)
    requires AllFinal(recounts, finals)
    ensures Harmless(recounts, w, lateness) <==>
            forall key :: key in rows && key.resolution != Second ==> NothingInto(recounts, key)
  {
    if forall key :: key in rows && key.resolution != Second ==> NothingInto(recounts, key) {
      forall i, base, res: Resolution | 0 <= i < |recounts| && base in recounts[i] && res != Second
        ensures IsZero(recounts[i][base].bytes) || Retired(RowKey(res, base), w, lateness)
      {
        var key := RowKey(res, base);
        if !Retired(key, w, lateness) {
          assert key in exact && RowTracks(rows, exact, excess, key);
          assert NothingInto(recounts, key);
        }
      }
    }
  }

  /** After any run the minute and hour rows equal the finalised history if and only if every recount was harmless. */
  lemma RunExactIff(cfg: Config, sources: Registry, ops: seq<Op>)
    requires ValidConfig(cfg)
    ensures var t := Run(cfg, sources, ops);
            ParentRows(t.state.emitted, t.finals) <==>
            Harmless(Recounts(cfg, sources, ops), t.state.watermark, cfg.lateness)
  {
    var exact := RunCounted(cfg, sources, ops);
    var t, excess := Run(cfg, sources, ops), ExcessOf(cfg, sources, ops);
    CountedIff(cfg, sources, t.state, t.finals, excess, exact);
    RecountsFinal(cfg, sources, ops);
    HarmlessIff(Recounts(cfg, sources, ops), t.state.emitted, exact, excess, t.finals, t.state.watermark, cfg.lateness);
    forall key: RollupKey | key.resolution != Second
      ensures IsZero(At(excess, key)) <==> NothingInto(Recounts(cfg, sources, ops), key)
    {
      ExcessZeroIff(cfg, sources, ops, key);
    }
  }

  // ---------------------------------------------------------------- one cut and the advance after it

  /** The advance to `next` retires the row of this second and keeps its open rows. */
  predicate IsCut(cfg: Config, base: SecondKey, next: int) {
    !WholeSecond(next - cfg.lateness) && base.epoch + 1 == Secs(next - cfg.lateness)
  }

  /** Of the seconds an advance closes, those it retires but keeps open are exactly the cut ones. */
  lemma CutIff(cfg: Config, base: SecondKey, next: int)
    ensures IsCut(cfg, base, next) <==> base.epoch + 1 >= Secs(next - cfg.lateness) && Late(base, Some(next), cfg.lateness)
  {
    var x := next - cfg.lateness;
    assert x == Nanos(Secs(x)) + x % 1_000_000_000;
  }

  /** The observations between two advances; refused ones change nothing. */
  ghost function ObserveAll(cfg: Config, sources: Registry, t: Trail, obs: seq<Observation>): Trail {
    if obs == [] then t else ObserveStep(cfg, sources, ObserveAll(cfg, sources, t, obs[..|obs| - 1]), obs[|obs| - 1])
  }

  /** Observations neither add nor remove open rows of retired seconds. */
  ghost predicate SameRetired(cfg: Config, a: Trail, b: Trail) {
    && a.state.watermark == b.state.watermark && a.finals == b.finals
    && forall r: SourceKey :: Late(r.base, a.state.watermark, cfg.lateness) ==> (r in a.state.seconds <==> r in b.state.seconds)
  }

  lemma ObserveStepCounted(
    cfg: Config, sources: Registry, t: Trail, excess: Excess, exact: map<RollupKey, Rollup>, o: Observation)
    requires Counted(cfg, sources, t.state, t.finals, excess, exact)
    ensures var after := ObserveStep(cfg, sources, t, o);
            Counted(cfg, sources, after.state, after.finals, excess, exact) && SameRetired(cfg, t, after)
  {
    if Observe(cfg, sources, t.state, o).Ok? {
      ObserveCounted(cfg, sources, t.state, t.finals, excess, exact, o);
      AcceptedOnTime(cfg, sources, t.state, o);
      ObserveShape(cfg, sources, t.state, o);
    }
  }

  lemma {:induction false} ObserveAllCounted(
    cfg: Config, sources: Registry, t: Trail, excess: Excess, exact: map<RollupKey, Rollup>, obs: seq<Observation>)
    requires Counted(cfg, sources, t.state, t.finals, excess, exact)
    ensures var after := ObserveAll(cfg, sources, t, obs);
            Counted(cfg, sources, after.state, after.finals, excess, exact) && SameRetired(cfg, t, after)
  {
    if obs != [] {
      ObserveAllCounted(cfg, sources, t, excess, exact, obs[..|obs| - 1]);
      ObserveStepCounted(cfg, sources, ObserveAll(cfg, sources, t, obs[..|obs| - 1]), excess, exact, obs[|obs| - 1]);
    }
  }

  lemma {:induction false} NothingRecounted(
    order: seq<SecondKey>, selected: map<SecondKey, Rollup>, w: Option<int>, lateness: int)
    requires forall k :: k in order ==> k in selected && !Late(k, w, lateness)
    ensures Recounted(map[], order, selected, w, lateness) == map[]
  {
    if order != [] {
      NothingRecounted(order[..|order| - 1], selected, w, lateness);
    }
  }

  lemma OpenNotLate(cfg: Config, sources: Registry, s: State, selected: map<SecondKey, Rollup>, next: int)
    requires RowsOpen(cfg, s) && IsSelection(selected, s.seconds, sources, next)
    ensures forall k :: k in selected ==> !Late(k, s.watermark, cfg.lateness)
  {
    forall k | k in selected ensures !Late(k, s.watermark, cfg.lateness) {
      assert k in ClosedBases(s.seconds, next);
      var r :| r in s.seconds && r.base == k;
    }
  }

  /** The first advance, from kept books: the rows are exact, and what it leaves open but retired are the cut seconds. */
  lemma FirstAdvance(
    cfg: Config, sources: Registry, t: Trail, selected: map<SecondKey, Rollup>, order: seq<SecondKey>, next: int, now: int)
    returns (exact: map<RollupKey, Rollup>)
    requires ValidConfig(cfg) && Books(cfg, sources, t.state, t.finals)
    requires Advances(cfg, sources, t, AdvanceOp(selected, order, next, now))
    ensures var after := AdvanceStep(cfg, t, selected, order, next, now);
            && Counted(cfg, sources, after.state, after.finals, map[], exact)
            && after.finals == t.finals + selected && after.state.watermark == Some(next)
            && after.state.seconds == OpenRows(t.state.seconds, Secs(next - cfg.lateness))
  {
    BooksCounted(cfg, sources, t.state, t.finals);
    OpenNotLate(cfg, sources, t.state, selected, next);
    NothingRecounted(order, selected, t.state.watermark, cfg.lateness);
    exact := AdvanceCounted(cfg, sources, t.state, t.finals, map[], t.state.emitted, selected, order, next, now);
    AdvancedTrail(cfg, t, selected, order, next, now);
  }

  /** The retired seconds the second advance selects are the cut seconds of the first, at the same bytes. */
  lemma CutSelectedAgain(
    cfg: Config, sources: Registry, t: Trail, mid: Trail, selected: map<SecondKey, Rollup>, next: int,
    again: map<SecondKey, Rollup>, later: int, base: SecondKey)
    requires ValidConfig(cfg) && IsSelection(selected, t.state.seconds, sources, next) && next <= later
    requires mid.finals == t.finals + selected && mid.state.watermark == Some(next)
    requires forall r: SourceKey :: Late(r.base, Some(next), cfg.lateness) ==>
               (r in mid.state.seconds <==> r in OpenRows(t.state.seconds, Secs(next - cfg.lateness)))
    requires RetiredSettled(cfg, sources, mid.state, mid.finals)
    requires IsSelection(again, mid.state.seconds, sources, later)
    ensures base in again && Late(base, Some(next), cfg.lateness) <==> base in selected && IsCut(cfg, base, next)
    ensures base in again && Late(base, Some(next), cfg.lateness) ==> base in selected && again[base] == selected[base]
  {
    CutIff(cfg, base, next);
    if base in selected && IsCut(cfg, base, next) {
      CutStaysOpen(cfg, sources, t, mid, selected, next, later, base);
    }
    if base in again && Late(base, Some(next), cfg.lateness) {
      assert base in ClosedBases(mid.state.seconds, later);
      var r :| r in mid.state.seconds && r.base == base;
      LateIsClosed(base, next, cfg.lateness);
      assert r in t.state.seconds && base in ClosedBases(t.state.seconds, next);
      BestRowUnique(mid.state.seconds, sources, base, mid.finals[base], again[base]);
    }
  }

  lemma CutStaysOpen(
    cfg: Config, sources: Registry, t: Trail, mid: Trail, selected: map<SecondKey, Rollup>, next: int, later: int, base: SecondKey)
    requires ValidConfig(cfg) && IsSelection(selected, t.state.seconds, sources, next) && next <= later
    requires forall r: SourceKey :: Late(r.base, Some(next), cfg.lateness) ==>
               (r in mid.state.seconds <==> r in OpenRows(t.state.seconds, Secs(next - cfg.lateness)))
    requires base in selected && IsCut(cfg, base, next)
    ensures base in ClosedBases(mid.state.seconds, later)
  {
    CutIff(cfg, base, next);
    LateIsClosed(base, next, cfg.lateness);
    SecsMonotone(next, later);
    assert base in ClosedBases(t.state.seconds, next);
    var r :| r in t.state.seconds && r.base == base;
    assert r in mid.state.seconds;
  }

  /** Each second the first advance cut had no bytes, or its minute and hour have both retired at the second watermark. */
  ghost predicate HarmlessCuts(cfg: Config, selected: map<SecondKey, Rollup>, next: int, later: int) {
    forall base, res: Resolution :: base in selected && IsCut(cfg, base, next) && res != Second ==>
      IsZero(selected[base].bytes) || Retired(RowKey(res, base), Some(later), cfg.lateness)
  }

  /**
   From kept books, after an advance to any watermark, any observations, and another advance, the minute and hour
   rows equal the history if and only if the seconds the first advance cut were empty or have left no live parent.
   */
  lemma TwoAdvancesIff(
    cfg: Config, sources: Registry, t: Trail, selected: map<SecondKey, Rollup>, order: seq<SecondKey>, next: int, now: int,
    obs: seq<Observation>, again: map<SecondKey, Rollup>, walk: seq<SecondKey>, later: int, now': int)
    requires ValidConfig(cfg) && Books(cfg, sources, t.state, t.finals)
    requires Advances(cfg, sources, t, AdvanceOp(selected, order, next, now))
    requires var mid := ObserveAll(cfg, sources, AdvanceStep(cfg, t, selected, order, next, now), obs);
             Advances(cfg, sources, mid, AdvanceOp(again, walk, later, now'))
    ensures var mid := ObserveAll(cfg, sources, AdvanceStep(cfg, t, selected, order, next, now), obs);
            var after := AdvanceStep(cfg, mid, again, walk, later, now');
            ParentRows(after.state.emitted, after.finals) <==> HarmlessCuts(cfg, selected, next, later)
  {
    var exact := FirstAdvance(cfg, sources, t, selected, order, next, now);
    var first := AdvanceStep(cfg, t, selected, order, next, now);
    ObserveAllCounted(cfg, sources, first, map[], exact, obs);
    SecondAdvance(cfg, sources, t, ObserveAll(cfg, sources, first, obs), exact, selected, next, again, walk, later, now');
  }

  lemma SecondAdvance(
    cfg: Config, sources: Registry, t: Trail, mid: Trail, exact: map<RollupKey, Rollup>, selected: map<SecondKey, Rollup>, next: int,
    again: map<SecondKey, Rollup>, walk: seq<SecondKey>, later: int, now: int)
    requires ValidConfig(cfg) && IsSelection(selected, t.state.seconds, sources, next)
    requires Counted(cfg, sources, mid.state, mid.finals, map[], exact)
    requires mid.finals == t.finals + selected && mid.state.watermark == Some(next)
    requires forall r: SourceKey :: Late(r.base, Some(next), cfg.lateness) ==>
               (r in mid.state.seconds <==> r in OpenRows(t.state.seconds, Secs(next - cfg.lateness)))
    requires Advances(cfg, sources, mid, AdvanceOp(again, walk, later, now))
    ensures var after := AdvanceStep(cfg, mid, again, walk, later, now);
            ParentRows(after.state.emitted, after.finals) <==> HarmlessCuts(cfg, selected, next, later)
  {
    AdvancedTrail(cfg, mid, again, walk, later, now);
    var exact' := AdvanceCounted(cfg, sources, mid.state, mid.finals, map[], exact, again, walk, later, now);
    var after := AdvanceStep(cfg, mid, again, walk, later, now);
    var excess := Recounted(map[], walk, again, Some(next), cfg.lateness);
    CountedIff(cfg, sources, after.state, after.finals, excess, exact');
    forall base
      ensures base in again && Late(base, Some(next), cfg.lateness) <==> base in selected && IsCut(cfg, base, next)
      ensures base in again && Late(base, Some(next), cfg.lateness) ==> base in selected && again[base] == selected[base]
    {
      CutSelectedAgain(cfg, sources, t, mid, selected, next, again, later, base);
    }
    forall key: RollupKey | key.resolution != Second
      ensures IsZero(At(excess, key)) <==>
              forall base :: base in selected && IsCut(cfg, base, next) && RowKey(key.resolution, base) == key ==>
                IsZero(selected[base].bytes)
    {
      RecountedZero(map[], walk, again, Some(next), cfg.lateness, key);
    }
    CutsIntoLive(cfg, sources, after, excess, exact', selected, next, later);
  }

  lemma CutsIntoLive(
    cfg: Config, sources: Registry, after: Trail, excess: Excess, exact: map<RollupKey, Rollup>,
    selected: map<SecondKey, Rollup>, next: int, later: int)
    requires Counted(cfg, sources, after.state, after.finals, excess, exact) && after.state.watermark == Some(later)
    requires forall base :: base in selected ==> base in after.finals
    requires forall key: RollupKey :: key.resolution != Second ==>
               (IsZero(At(excess, key)) <==>
                forall base :: base in selected && IsCut(cfg, base, next) && RowKey(key.resolution, base) == key ==>
                  IsZero(selected[base].bytes))
    ensures (forall key :: key in after.state.emitted && key.resolution != Second ==> IsZero(At(excess, key)))
            <==> HarmlessCuts(cfg, selected, next, later)
  {
    if forall key :: key in after.state.emitted && key.resolution != Second ==> IsZero(At(excess, key)) {
      forall base, res: Resolution | base in selected && IsCut(cfg, base, next) && res != Second
        ensures IsZero(selected[base].bytes) || Retired(RowKey(res, base), Some(later), cfg.lateness)
      {
        var key := RowKey(res, base);
        if !Retired(key, Some(later), cfg.lateness) {
          assert key in exact && RowTracks(after.state.emitted, exact, excess, key);
        }
      }
    }
  }
}
