/** Whole runs of the live adapter: any sequence of change batches and flushes from an empty adapter. */
module LiveRuns {
  import opened Wrappers
  import opened Accounting
  import opened Naturals
  import opened FlowModel
  import opened LiveModel
  import opened LiveSync

  /** `samples` are the samples of the rows the batch leaves. */
  datatype LiveOp =
    | ApplyOp(tick: int, changes: seq<RowChange>, samples: map<string, Sample>)
    | FlushOp(tick: int, at: int)

  /**
   The adapter with what it has done: per row, the bytes reported since the row became current and
   the bytes its baseline was lowered by downward corrections; and the ticks of the emitted frames.
   */
  datatype Books = Books(
    live: Live, reported: map<RollupKey, ByteCount>, lowered: map<RollupKey, ByteCount>, frames: seq<int>)

  ghost function LoweredBy(
    lowered: map<RollupKey, ByteCount>, before: map<RollupKey, ByteCount>, after: map<RollupKey, ByteCount>)
    : map<RollupKey, ByteCount>
  {
    map key | key in before ::
      ByteCount(At(lowered, key).upload + Monus(before[key].upload, At(after, key).upload),
                At(lowered, key).download + Monus(before[key].download, At(after, key).download))
  }

  ghost function RaisedBy(reported: map<RollupKey, ByteCount>, s: Live): map<RollupKey, ByteCount> {
    map key | key in reported.Keys + s.baselines.Keys ::
      if key in s.baselines && key in s.current
      then ByteCount(At(reported, key).upload + Delta(s.current[key], s.emitted, key).upload,
                     At(reported, key).download + Delta(s.current[key], s.emitted, key).download)
      else At(reported, key)
  }

  ghost predicate Balanced(b: Books) {
    && b.reported.Keys == b.live.emitted.Keys && b.lowered.Keys == b.live.emitted.Keys
    && forall key :: key in b.live.emitted ==> IsSum(b.reported[key], b.live.emitted[key], b.lowered[key])
  }

  ghost predicate Paced(cfg: LiveConfig, b: Books) {
    && b.live.lastEmit == (if b.frames == [] then None else Some(b.frames[|b.frames| - 1]))
    && forall i :: 0 < i < |b.frames| ==> b.frames[i] - b.frames[i - 1] >= cfg.minInterval
  }

  // ---------------------------------------------------------------- the fold only forgets baselines

  ghost predicate SubMap(a: map<RollupKey, ByteCount>, b: map<RollupKey, ByteCount>) {
    forall key :: key in a ==> key in b && a[key] == b[key]
  }

  lemma {:induction false} FoldForgets(st: Staged, changes: seq<RowChange>)
    ensures SubMap(Fold(st, changes).emitted, st.emitted)
  {
    if changes != [] {
      var before := Fold(st, changes[..|changes| - 1]);
      FoldForgets(st, changes[..|changes| - 1]);
      assert SubMap(ApplyChange(before, changes[|changes| - 1]).emitted, before.emitted);
    }
  }

  lemma ResetLowers(rows: map<RollupKey, Rollup>, emitted: map<RollupKey, ByteCount>)
    ensures Reset(rows, emitted).Keys == emitted.Keys
    ensures forall key :: key in emitted ==> Covers(emitted[key], Reset(rows, emitted)[key])
  {
  }

  // ---------------------------------------------------------------- steps

  /** Rows that stayed current keep what they reported; a lowered baseline is booked as lowered. */
  ghost function Settled(b: Books, after: Live, kept: map<RollupKey, ByteCount>): Books {
    Books(after, map key | key in kept :: At(b.reported, key), LoweredBy(b.lowered, kept, after.emitted), b.frames)
  }

  lemma SettledBalanced(b: Books, after: Live, kept: map<RollupKey, ByteCount>)
    requires Balanced(b) && SubMap(kept, b.live.emitted)
    requires after.emitted.Keys == kept.Keys
    requires forall key :: key in kept ==> Covers(kept[key], after.emitted[key])
    ensures Balanced(Settled(b, after, kept))
  {
  }

  ghost function ApplyStep(cfg: LiveConfig, b: Books, tick: int, changes: seq<RowChange>, samples: map<string, Sample>): Books
  {
    match Apply(cfg, b.live, tick, changes, samples)
    case Err(_) => b
    case Ok(after) =>
      Settled(b, after, Fold(Stage(b.live), changes).emitted)
  }

  ghost function FlushStep(cfg: LiveConfig, b: Books, tick: int, at: int): Books {
    match Flush(cfg, b.live, tick, at)
    case Refused(_) => b
    case Idle(after) => b.(live := after)
    case Emits(after) => Framed(b, after, tick)
  }

  /** A frame books every delta of a pending row as reported. */
  ghost function Framed(b: Books, after: Live, tick: int): Books {
    Books(after, RaisedBy(b.reported, b.live), Extended(b.lowered, b.live.baselines.Keys), b.frames + [tick])
  }

  ghost function Extended(m: map<RollupKey, ByteCount>, keys: set<RollupKey>): map<RollupKey, ByteCount> {
    map key | key in m.Keys + keys :: At(m, key)
  }

  ghost predicate Sound(cfg: LiveConfig, b: Books) {
    Synced(b.live) && Balanced(b) && Paced(cfg, b)
  }

  lemma ApplyStepBalanced(cfg: LiveConfig, b: Books, tick: int, changes: seq<RowChange>, samples: map<string, Sample>)
    requires Balanced(b)
    ensures Balanced(ApplyStep(cfg, b, tick, changes, samples))
    ensures ApplyStep(cfg, b, tick, changes, samples).live.lastEmit == b.live.lastEmit
    ensures ApplyStep(cfg, b, tick, changes, samples).frames == b.frames
  {
    if Apply(cfg, b.live, tick, changes, samples).Ok? {
      ApplyShape(cfg, b.live, tick, changes, samples);
      FoldForgets(Stage(b.live), changes);
      var st := Fold(Stage(b.live), changes);
      ResetLowers(st.next, st.emitted);
      SettledBalanced(b, Apply(cfg, b.live, tick, changes, samples).value, st.emitted);
    }
  }

  lemma ApplyStepSound(cfg: LiveConfig, b: Books, tick: int, changes: seq<RowChange>, samples: map<string, Sample>)
    requires Sound(cfg, b) && SamplesOf(b.live, changes, samples)
    ensures Sound(cfg, ApplyStep(cfg, b, tick, changes, samples))
  {
    ApplyStepBalanced(cfg, b, tick, changes, samples);
    if Apply(cfg, b.live, tick, changes, samples).Ok? {
      ApplyKeepsSynced(cfg, b.live, tick, changes, samples);
    }
  }

  /** What a synced adapter's baselines are. */
  ghost predicate BaselinesFit(s: Live) {
    && (forall key :: key in s.baselines ==> key in s.current && s.baselines[key] == s.current[key].bytes)
    && (forall key :: key in s.emitted ==> key in s.current && Covers(s.current[key].bytes, s.emitted[key]))
  }

  lemma SyncedBaselinesFit(s: Live)
    requires Synced(s)
    ensures BaselinesFit(s)
  {
  }

  lemma FlushBalanced(b: Books, tick: int, at: int)
    requires BaselinesFit(b.live) && Balanced(b)
    ensures Balanced(Framed(b, Flushed(b.live, tick, at), tick))
  {
    var s := b.live;
    var after := Framed(b, Flushed(s, tick, at), tick);
    assert after.live.emitted.Keys == s.emitted.Keys + s.baselines.Keys;
    forall key | key in after.live.emitted
      ensures IsSum(after.reported[key], after.live.emitted[key], after.lowered[key])
    {
      RaisedBalances(b, key);
    }
  }

  lemma RaisedBalances(b: Books, key: RollupKey)
    requires BaselinesFit(b.live) && Balanced(b)
    requires key in b.live.emitted || key in b.live.baselines
    ensures IsSum(RaisedBy(b.reported, b.live)[key], (b.live.emitted + b.live.baselines)[key], At(b.lowered, key))
  {
    var s := b.live;
    if key in s.emitted {
      assert IsSum(b.reported[key], s.emitted[key], b.lowered[key]);
    }
  }

  lemma FramedSound(cfg: LiveConfig, b: Books, tick: int, at: int)
    requires Sound(cfg, b)
    requires b.live.lastEmit.Some? ==> tick - b.live.lastEmit.value >= cfg.minInterval
    ensures Sound(cfg, Framed(b, Flushed(b.live, tick, at), tick))
  {
    FlushKeepsSynced(b.live, tick, at);
    SyncedBaselinesFit(b.live);
    FlushBalanced(b, tick, at);
  }

  lemma IdleSound(cfg: LiveConfig, b: Books, after: Live)
    requires Sound(cfg, b)
    requires after.current == b.live.current && after.emitted == b.live.emitted && after.baselines == b.live.baselines
    requires after.pending == b.live.pending && after.lastEmit == b.live.lastEmit
    ensures Sound(cfg, b.(live := after))
  {
  }

  lemma FlushStepSound(cfg: LiveConfig, b: Books, tick: int, at: int)
    requires Sound(cfg, b)
    ensures Sound(cfg, FlushStep(cfg, b, tick, at))
  {
    FlushOutcomes(cfg, b.live, tick, at);
    match Flush(cfg, b.live, tick, at) {
      case Refused(_) => assert FlushStep(cfg, b, tick, at) == b;
      case Idle(after) => IdleSound(cfg, b, after);
      case Emits(after) => FramedSound(cfg, b, tick, at);
    }
  }

  ghost function Step(cfg: LiveConfig, b: Books, op: LiveOp): Books {
    match op
    case ApplyOp(tick, changes, samples) =>
      if SamplesOf(b.live, changes, samples) then ApplyStep(cfg, b, tick, changes, samples) else b
    case FlushOp(tick, at) => FlushStep(cfg, b, tick, at)
  }

  ghost function Run(cfg: LiveConfig, ops: seq<LiveOp>): Books {
    if ops == [] then Books(EmptyLive(), map[], map[], [])
    else Step(cfg, Run(cfg, ops[..|ops| - 1]), ops[|ops| - 1])
  }

  /**
   After any run the cached samples and baselines equal a fresh recomputation, every row has
   reported exactly its baseline plus what corrections took back, and frames keep their distance.
   */
  lemma {:induction false} RunIsSound(cfg: LiveConfig, ops: seq<LiveOp>)
    ensures Sound(cfg, Run(cfg, ops))
  {
    if ops == [] {
      NothingToReport(map[], map[]);
    } else {
      var before, op := Run(cfg, ops[..|ops| - 1]), ops[|ops| - 1];
      RunIsSound(cfg, ops[..|ops| - 1]);
      match op {
        case ApplyOp(tick, changes, samples) =>
          if SamplesOf(before.live, changes, samples) {
            ApplyStepSound(cfg, before, tick, changes, samples);
          }
        case FlushOp(tick, at) => FlushStepSound(cfg, before, tick, at);
      }
    }
  }

  /**
   Right after a frame, the bytes reported for a current row over its whole life are its bytes now
   plus whatever downward corrections took back.
   */
  lemma FrameSettlesAccounts(cfg: LiveConfig, ops: seq<LiveOp>, tick: int, at: int, key: RollupKey)
    requires Flush(cfg, Run(cfg, ops).live, tick, at).Emits?
    requires key in Run(cfg, ops).live.current
    ensures Accounted(Run(cfg, ops + [FlushOp(tick, at)]), key)
  {
    RunIsSound(cfg, ops);
    RunSnoc(cfg, ops, FlushOp(tick, at));
    FlushAccounts(cfg, Run(cfg, ops), tick, at, key);
  }

  ghost predicate Accounted(b: Books, key: RollupKey) {
    key in b.live.current && IsSum(At(b.reported, key), b.live.current[key].bytes, At(b.lowered, key))
  }

  lemma EmittingStep(cfg: LiveConfig, b: Books, tick: int, at: int)
    requires Flush(cfg, b.live, tick, at).Emits?
    ensures FlushStep(cfg, b, tick, at) == Framed(b, Flushed(b.live, tick, at), tick)
  {
    FlushOutcomes(cfg, b.live, tick, at);
  }

  lemma FlushAccounts(cfg: LiveConfig, b: Books, tick: int, at: int, key: RollupKey)
    requires Sound(cfg, b) && key in b.live.current
    requires Flush(cfg, b.live, tick, at).Emits?
    ensures Accounted(FlushStep(cfg, b, tick, at), key)
  {
    EmittingStep(cfg, b, tick, at);
    FramedAccounts(cfg, b, tick, at, key);
  }

  lemma RunSnoc(cfg: LiveConfig, ops: seq<LiveOp>, op: LiveOp)
    ensures Run(cfg, ops + [op]) == Step(cfg, Run(cfg, ops), op)
  {
    assert (ops + [op])[..|ops|] == ops;
  }

  lemma FramedAccounts(cfg: LiveConfig, b: Books, tick: int, at: int, key: RollupKey)
    requires Sound(cfg, b) && key in b.live.current
    ensures Accounted(Framed(b, Flushed(b.live, tick, at), tick), key)
  {
    SyncedBaselinesFit(b.live);
    FlushBalanced(b, tick, at);
    FlushReportsAll(b.live, tick, at);
  }

  // ---------------------------------------------------------------- rows that never shrink

  /** While the row stays current its bytes do not fall. */
  ghost predicate KeepsUp(before: Live, after: Live, key: RollupKey) {
    key in before.current && key in after.current ==> Covers(after.current[key].bytes, before.current[key].bytes)
  }

  /** At no operation of the run does the row lose bytes. */
  ghost predicate NeverShrinks(cfg: LiveConfig, ops: seq<LiveOp>, key: RollupKey) {
    ops == [] ||
    (NeverShrinks(cfg, ops[..|ops| - 1], key) && KeepsUp(Run(cfg, ops[..|ops| - 1]).live, Run(cfg, ops).live, key))
  }

  lemma NotLowered(lowered: map<RollupKey, ByteCount>, kept: map<RollupKey, ByteCount>, rows: map<RollupKey, Rollup>, key: RollupKey)
    requires IsZero(At(lowered, key)) && (key in kept ==> key in rows && Covers(rows[key].bytes, kept[key]))
    ensures IsZero(At(LoweredBy(lowered, kept, Reset(rows, kept)), key))
  {
  }

  lemma ApplyShapeRows(cfg: LiveConfig, s: Live, tick: int, changes: seq<RowChange>, samples: map<string, Sample>)
    requires Apply(cfg, s, tick, changes, samples).Ok?
    ensures var st, after := Fold(Stage(s), changes), Apply(cfg, s, tick, changes, samples).value;
            after.current == st.next && after.emitted == Reset(st.next, st.emitted)
  {
    ApplyShape(cfg, s, tick, changes, samples);
  }

  lemma ApplyNotLowered(
    cfg: LiveConfig, b: Books, tick: int, changes: seq<RowChange>, samples: map<string, Sample>, key: RollupKey)
    requires Sound(cfg, b) && IsZero(At(b.lowered, key))
    requires KeepsUp(b.live, ApplyStep(cfg, b, tick, changes, samples).live, key)
    ensures IsZero(At(ApplyStep(cfg, b, tick, changes, samples).lowered, key))
  {
    if Apply(cfg, b.live, tick, changes, samples).Ok? {
      var st := Fold(Stage(b.live), changes);
      ApplyShapeRows(cfg, b.live, tick, changes, samples);
      FoldForgets(Stage(b.live), changes);
      FoldShaped(Stage(b.live), changes);
      SyncedBaselinesFit(b.live);
      NotLowered(b.lowered, st.emitted, st.next, key);
    }
  }

  lemma FlushNotLowered(cfg: LiveConfig, b: Books, tick: int, at: int, key: RollupKey)
    requires IsZero(At(b.lowered, key))
    ensures IsZero(At(FlushStep(cfg, b, tick, at).lowered, key))
  {
  }

  /** The baseline of a row that never shrinks is never lowered. */
  lemma {:induction false} NeverLowered(cfg: LiveConfig, ops: seq<LiveOp>, key: RollupKey)
    requires NeverShrinks(cfg, ops, key)
    ensures IsZero(At(Run(cfg, ops).lowered, key))
  {
    if ops != [] {
      var before := Run(cfg, ops[..|ops| - 1]);
      NeverLowered(cfg, ops[..|ops| - 1], key);
      RunIsSound(cfg, ops[..|ops| - 1]);
      match ops[|ops| - 1] {
        case ApplyOp(tick, changes, samples) =>
          if SamplesOf(before.live, changes, samples) {
            ApplyNotLowered(cfg, before, tick, changes, samples, key);
          }
        case FlushOp(tick, at) => FlushNotLowered(cfg, before, tick, at, key);
      }
    }
  }

  /** Telescoping: right after a frame, a row that never shrank has reported exactly its bytes, none of them twice. */
  lemma FrameReportsBytes(cfg: LiveConfig, ops: seq<LiveOp>, tick: int, at: int, key: RollupKey)
    requires Flush(cfg, Run(cfg, ops).live, tick, at).Emits? && key in Run(cfg, ops).live.current
    requires NeverShrinks(cfg, ops, key)
    ensures ReportsBytes(Run(cfg, ops + [FlushOp(tick, at)]), key)
  {
    NeverLowered(cfg, ops, key);
    FrameSettlesAccounts(cfg, ops, tick, at, key);
    RunSnoc(cfg, ops, FlushOp(tick, at));
    FlushNotLowered(cfg, Run(cfg, ops), tick, at, key);
    NothingTakenBack(Run(cfg, ops + [FlushOp(tick, at)]), key);
  }

  ghost predicate ReportsBytes(b: Books, key: RollupKey) {
    key in b.live.current && At(b.reported, key) == b.live.current[key].bytes
  }

  lemma NothingTakenBack(b: Books, key: RollupKey)
    requires Accounted(b, key) && IsZero(At(b.lowered, key))
    ensures ReportsBytes(b, key)
  {
  }

  /** A frame reports each device the sum, over its current rows, of what those rows have not reported yet. */
  lemma FrameReportsDeltas(cfg: LiveConfig, ops: seq<LiveOp>, tick: int, at: int, frame: Frame, device: string)
    requires IsFrame(frame, cfg, Run(cfg, ops).live, tick, at) && device in frame.samples
    ensures var s := Run(cfg, ops).live;
            frame.samples[device].delta == Total(Active(Deltas(s.current, s.emitted), device), Deltas(s.current, s.emitted))
  {
    RunIsSound(cfg, ops);
  }
}
