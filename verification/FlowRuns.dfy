/** Whole runs of the flow engine: any sequence of observations and watermark advances from `new`. */
module FlowRuns {
  import opened Wrappers
  import opened Accounting
  import opened FlowModel
  import opened FlowLedger

  /** `selected` is what an advance selects, and `order` the order in which it walks the selection. */
  datatype Op =
    | ObserveOp(o: Observation)
    | AdvanceOp(selected: map<SecondKey, Rollup>, order: seq<SecondKey>, next: int, now: int)

  /** The engine after a run, with the history the run produced. */
  datatype Trail = Trail(state: State, finals: Finals, accepted: seq<Observation>)

  ghost function ObserveStep(cfg: Config, sources: Registry, t: Trail, o: Observation): Trail {
    match Observe(cfg, sources, t.state, o)
    case Err(_) => t
    case Ok(s) => t.(state := s, accepted := t.accepted + [o])
  }

  ghost function AdvanceStep(
    cfg: Config, t: Trail, selected: map<SecondKey, Rollup>, order: seq<SecondKey>, next: int, now: int): Trail
    requires forall k :: k in order ==> k in selected
  {
    match Advance(cfg, t.state, selected, order, next, now)
    case Err(_) => t
    case Ok(out) => Trail(out.0, t.finals + selected, t.accepted)
  }

  ghost function Step(cfg: Config, sources: Registry, t: Trail, op: Op): Trail {
    match op
    case ObserveOp(o) => ObserveStep(cfg, sources, t, o)
    case AdvanceOp(selected, order, next, now) =>
      if IsSelection(selected, t.state.seconds, sources, next) && IsOrder(order, selected.Keys)
      then AdvanceStep(cfg, t, selected, order, next, now)
      else t
  }

  ghost function Run(cfg: Config, sources: Registry, ops: seq<Op>): Trail {
    if ops == [] then Trail(Empty(), map[], [])
    else Step(cfg, sources, Run(cfg, sources, ops[..|ops| - 1]), ops[|ops| - 1])
  }

  ghost predicate WholeSeconds(cfg: Config, ops: seq<Op>) {
    forall i :: 0 <= i < |ops| && ops[i].AdvanceOp? ==> WholeSecond(ops[i].next - cfg.lateness)
  }

  lemma AdvanceStepKeepsBooks(
    cfg: Config, sources: Registry, t: Trail, selected: map<SecondKey, Rollup>, order: seq<SecondKey>, next: int, now: int)
    requires ValidConfig(cfg) && Books(cfg, sources, t.state, t.finals)
    requires selected.Keys == ClosedBases(t.state.seconds, next) && IsOrder(order, selected.Keys)
    requires !CutsOpenRow(cfg, t.state, next)
    ensures var after := AdvanceStep(cfg, t, selected, order, next, now);
            Books(cfg, sources, after.state, after.finals)
  {
    if Advance(cfg, t.state, selected, order, next, now).Ok? {
      AdvanceKeepsBooks(cfg, sources, t.state, t.finals, selected, order, next, now);
    }
  }

  lemma StepKeepsBooks(cfg: Config, sources: Registry, t: Trail, op: Op)
    requires ValidConfig(cfg) && Books(cfg, sources, t.state, t.finals)
    requires op.AdvanceOp? ==> WholeSecond(op.next - cfg.lateness)
    ensures var after := Step(cfg, sources, t, op); Books(cfg, sources, after.state, after.finals)
  {
    match op
    case ObserveOp(o) => ObserveKeepsBooks(cfg, sources, t.state, t.finals, o);
    case AdvanceOp(selected, order, next, now) =>
      if IsSelection(selected, t.state.seconds, sources, next) && IsOrder(order, selected.Keys) {
        WholeSecondsNeverCut(cfg, t.state, next);
        AdvanceStepKeepsBooks(cfg, sources, t, selected, order, next, now);
      }
  }

  lemma {:induction false} RunKeepsBooks(cfg: Config, sources: Registry, ops: seq<Op>)
    requires ValidConfig(cfg) && WholeSeconds(cfg, ops)
    ensures var t := Run(cfg, sources, ops); Books(cfg, sources, t.state, t.finals)
  {
    if ops != [] {
      RunKeepsBooks(cfg, sources, ops[..|ops| - 1]);
      StepKeepsBooks(cfg, sources, Run(cfg, sources, ops[..|ops| - 1]), ops[|ops| - 1]);
    }
  }

  /**
   After any run of observations and whole-second advances, every live minute and hour row holds
   exactly the sum over all seconds ever finalised in its bucket, and claims complete (or any other
   single) visibility only if every one of those seconds had it.
   */
  lemma ParentsEqualHistory(cfg: Config, sources: Registry, ops: seq<Op>, key: RollupKey)
    requires ValidConfig(cfg) && WholeSeconds(cfg, ops)
    requires key in Run(cfg, sources, ops).state.emitted && key.resolution != Second
    ensures var t := Run(cfg, sources, ops);
            && t.state.emitted[key].bytes == BucketTotal(t.finals, key)
            && Conservative(t.finals, key, t.state.emitted[key].coverage)
  {
    RunKeepsBooks(cfg, sources, ops);
  }

  // ---------------------------------------------------------------- replays

  ghost predicate Spaced(cfg: Config, accepted: seq<Observation>) {
    forall i, j :: 0 <= i < j < |accepted| && accepted[i].replayId == accepted[j].replayId ==>
      accepted[j].arrival - accepted[i].arrival > cfg.replayTtl
  }

  predicate InWindow(cfg: Config, o: Observation) {
    o.event <= o.arrival + cfg.futureSkew && o.arrival <= LateEdge(cfg, o)
  }

  /** Every accepted id is still remembered until the clock is more than the TTL past its arrival. */
  ghost predicate Remembered(cfg: Config, s: State, o: Observation) {
    && s.lastArrival.Some? && o.arrival <= s.lastArrival.value
    && (o.arrival >= s.lastArrival.value - cfg.replayTtl ==>
          o.replayId in s.replay && o.arrival <= s.replay[o.replayId].arrival)
  }

  ghost predicate ReplayGuard(cfg: Config, t: Trail) {
    && Spaced(cfg, t.accepted)
    && forall i :: 0 <= i < |t.accepted| ==> InWindow(cfg, t.accepted[i]) && Remembered(cfg, t.state, t.accepted[i])
  }

  lemma ObserveRemembers(cfg: Config, sources: Registry, s: State, o: Observation, earlier: Observation)
    requires Observe(cfg, sources, s, o).Ok?
    requires Remembered(cfg, s, earlier)
    ensures Remembered(cfg, Observe(cfg, sources, s, o).value, earlier)
    ensures earlier.replayId == o.replayId ==> o.arrival - earlier.arrival > cfg.replayTtl
  {
  }

  lemma AdvanceRemembers(
    cfg: Config, s: State, selected: map<SecondKey, Rollup>, order: seq<SecondKey>, next: int, now: int, earlier: Observation)
    requires forall k :: k in order ==> k in selected
    requires Advance(cfg, s, selected, order, next, now).Ok?
    requires Remembered(cfg, s, earlier)
    ensures Remembered(cfg, Advance(cfg, s, selected, order, next, now).value.0, earlier)
  {
  }

  lemma ObserveKeepsReplayGuard(cfg: Config, sources: Registry, t: Trail, o: Observation)
    requires 0 < cfg.replayTtl && ReplayGuard(cfg, t)
    ensures ReplayGuard(cfg, ObserveStep(cfg, sources, t, o))
  {
    var r := Observe(cfg, sources, t.state, o);
    if r.Ok? {
      var after := t.accepted + [o];
      forall i | 0 <= i < |after|
        ensures InWindow(cfg, after[i]) && Remembered(cfg, r.value, after[i])
        ensures i < |t.accepted| && after[i].replayId == o.replayId ==> o.arrival - after[i].arrival > cfg.replayTtl
      {
        if i < |t.accepted| {
          ObserveRemembers(cfg, sources, t.state, o, t.accepted[i]);
        }
      }
    }
  }

  lemma StepKeepsReplayGuard(cfg: Config, sources: Registry, t: Trail, op: Op)
    requires 0 < cfg.replayTtl && ReplayGuard(cfg, t)
    ensures ReplayGuard(cfg, Step(cfg, sources, t, op))
  {
    match op
    case ObserveOp(o) => ObserveKeepsReplayGuard(cfg, sources, t, o);
    case AdvanceOp(selected, order, next, now) =>
      if IsSelection(selected, t.state.seconds, sources, next) && IsOrder(order, selected.Keys) {
        if Advance(cfg, t.state, selected, order, next, now).Ok? {
          forall i | 0 <= i < |t.accepted|
            ensures Remembered(cfg, Advance(cfg, t.state, selected, order, next, now).value.0, t.accepted[i])
          {
            AdvanceRemembers(cfg, t.state, selected, order, next, now, t.accepted[i]);
          }
        }
      }
  }

  /** Over any run, two acceptances of one replay id are more than the TTL apart. */
  lemma {:induction false} ReplayIdsSpaced(cfg: Config, sources: Registry, ops: seq<Op>)
    requires ValidConfig(cfg)
    ensures Spaced(cfg, Run(cfg, sources, ops).accepted)
    ensures ReplayGuard(cfg, Run(cfg, sources, ops))
  {
    if ops != [] {
      ReplayIdsSpaced(cfg, sources, ops[..|ops| - 1]);
      StepKeepsReplayGuard(cfg, sources, Run(cfg, sources, ops[..|ops| - 1]), ops[|ops| - 1]);
    }
  }

  /** No run accepts one event (one replay id with one event time) twice. */
  ghost predicate AcceptsEventsOnce(cfg: Config, sources: Registry) {
    forall ops, i, j | 0 <= i < j < |Run(cfg, sources, ops).accepted| ::
      var accepted := Run(cfg, sources, ops).accepted;
      !(accepted[i].replayId == accepted[j].replayId && accepted[i].event == accepted[j].event)
  }

  lemma LongTtlAcceptsOnce(cfg: Config, sources: Registry, ops: seq<Op>, i: int, j: int)
    requires ValidConfig(cfg) && cfg.replayTtl >= cfg.lateness + cfg.futureSkew + Nanos(1)
    requires 0 <= i < j < |Run(cfg, sources, ops).accepted|
    ensures var accepted := Run(cfg, sources, ops).accepted;
            !(accepted[i].replayId == accepted[j].replayId && accepted[i].event == accepted[j].event)
  {
    ReplayIdsSpaced(cfg, sources, ops);
  }

  function ProbeEvent(source: nat, arrival: int): Observation {
    Observation(0, 0, arrival, "device", ByteCount(1, 0), Tcp, Internet, 1, source, Ok(None))
  }

  lemma FirstCopyAccepted(cfg: Config, sources: Registry, o: Observation)
    requires ValidConfig(cfg) && o.source in sources && -cfg.futureSkew <= o.arrival <= 0
    requires o == ProbeEvent(o.source, o.arrival)
    ensures Observe(cfg, sources, Empty(), o) ==
            Ok(State(map[KeyOf(o) := o.bytes], map[o.replayId := ReplayEntry(o.arrival, o.device)], Some(o.arrival), None, map[]))
  {
    assert RecentReplays(map[], o.arrival - cfg.replayTtl) == map[];
    assert ActiveDevices(map[], map[]) == {};
  }

  lemma LateCopyAccepted(cfg: Config, sources: Registry, s: State, early: Observation, late: Observation)
    requires ValidConfig(cfg) && cfg.replayTtl < cfg.lateness + cfg.futureSkew + Nanos(1)
    requires late.source in sources && cfg.maxWork >= 5
    requires early == ProbeEvent(late.source, -cfg.futureSkew)
    requires late == ProbeEvent(late.source, Nanos(1) + cfg.lateness)
    requires s.seconds == map[KeyOf(early) := early.bytes]
    requires s.replay == map[early.replayId := ReplayEntry(early.arrival, early.device)]
    requires s.lastArrival == Some(early.arrival) && s.watermark == None
    ensures Observe(cfg, sources, s, late).Ok?
  {
    assert RecentReplays(s.replay, late.arrival - cfg.replayTtl) == map[];
    assert KeyOf(late) == KeyOf(early) && KeyOf(early) in s.seconds;
    assert late.device == KeyOf(early).base.dim.device;
    assert late.device in ActiveDevices(s.seconds, map[]);
    assert |s.replay| == 1 && |s.seconds| == 1;
  }

  /** With a shorter TTL the first copy can be early, the second late, and the id forgotten in between. */
  lemma ShortTtlAcceptsTwice(cfg: Config, sources: Registry, source: nat)
    requires ValidConfig(cfg) && cfg.replayTtl < cfg.lateness + cfg.futureSkew + Nanos(1)
    requires source in sources && cfg.maxWork >= 5
    ensures var early, late := ProbeEvent(source, -cfg.futureSkew), ProbeEvent(source, Nanos(1) + cfg.lateness);
            Run(cfg, sources, [ObserveOp(early), ObserveOp(late)]).accepted == [early, late]
  {
    var early, late := ProbeEvent(source, -cfg.futureSkew), ProbeEvent(source, Nanos(1) + cfg.lateness);
    var ops := [ObserveOp(early), ObserveOp(late)];
    assert ops[..1] == [ops[0]] && ops[..1][..0] == [];
    FirstCopyAccepted(cfg, sources, early);
    var once := ObserveStep(cfg, sources, Trail(Empty(), map[], []), early);
    LateCopyAccepted(cfg, sources, once.state, early, late);
    assert Run(cfg, sources, ops[..1]) == once;
    assert Run(cfg, sources, ops) == ObserveStep(cfg, sources, once, late);
  }

  /** Nothing was accepted, or one observation that keeps every later call over the work limit. */
  ghost predicate AtMostOne(t: Trail) {
    if t.accepted == [] then t.state.seconds == map[] && t.state.replay == map[]
    else |t.accepted| == 1 && t.state.seconds != map[] && t.state.replay != map[]
  }

  lemma NonEmptyCard<K, V>(m: map<K, V>)
    requires m != map[]
    ensures 1 <= |m|
  {
    var k :| k in m;
    assert k in m.Keys;
  }

  lemma BusyRefuses(cfg: Config, sources: Registry, s: State)
    requires cfg.maxWork < 5 && s.seconds != map[] && s.replay != map[]
    ensures forall o :: Refusal(cfg, sources, s, o).Some?
    ensures forall next, now :: AdvanceRefusal(cfg, s, next, now).Some?
  {
    NonEmptyCard(s.seconds);
    NonEmptyCard(s.replay);
  }

  lemma FirstObserved(cfg: Config, sources: Registry, s: State, o: Observation)
    requires Observe(cfg, sources, s, o).Ok?
    ensures Observe(cfg, sources, s, o).value.seconds != map[] && Observe(cfg, sources, s, o).value.replay != map[]
  {
    var after := Observe(cfg, sources, s, o).value;
    assert KeyOf(o) in after.seconds && o.replayId in after.replay;
  }

  lemma EmptyAdvance(
    cfg: Config, s: State, selected: map<SecondKey, Rollup>, order: seq<SecondKey>, next: int, now: int)
    requires s.seconds == map[] && s.replay == map[] && forall k :: k in order ==> k in selected
    requires Advance(cfg, s, selected, order, next, now).Ok?
    ensures var after := Advance(cfg, s, selected, order, next, now).value.0; after.seconds == map[] && after.replay == map[]
  {
  }

  lemma TinyWorkStep(cfg: Config, sources: Registry, t: Trail, op: Op)
    requires cfg.maxWork < 5 && AtMostOne(t)
    ensures AtMostOne(Step(cfg, sources, t, op))
  {
    if t.accepted != [] {
      BusyRefuses(cfg, sources, t.state);
    } else {
      match op {
        case ObserveOp(o) =>
          if Observe(cfg, sources, t.state, o).Ok? {
            FirstObserved(cfg, sources, t.state, o);
          }
        case AdvanceOp(selected, order, next, now) =>
          if IsSelection(selected, t.state.seconds, sources, next) && IsOrder(order, selected.Keys)
             && Advance(cfg, t.state, selected, order, next, now).Ok? {
            EmptyAdvance(cfg, t.state, selected, order, next, now);
          }
      }
    }
  }

  lemma {:induction false} TinyWorkAcceptsOne(cfg: Config, sources: Registry, ops: seq<Op>)
    requires cfg.maxWork < 5
    ensures AtMostOne(Run(cfg, sources, ops))
  {
    if ops != [] {
      TinyWorkAcceptsOne(cfg, sources, ops[..|ops| - 1]);
      TinyWorkStep(cfg, sources, Run(cfg, sources, ops[..|ops| - 1]), ops[|ops| - 1]);
    }
  }

  /**
   The documentation promises that an expired replay id cannot be double counted because the lateness
   gate rejects the old event. That holds exactly when the TTL covers the whole acceptance window:
   lateness, plus allowed future skew, plus the width of the second; or when the work limit is so
   small that no run accepts two observations.
   */
  lemma EventsAcceptedOnceIff(cfg: Config, sources: Registry)
    requires ValidConfig(cfg) && sources != map[]
    ensures AcceptsEventsOnce(cfg, sources) <==>
            cfg.replayTtl >= cfg.lateness + cfg.futureSkew + Nanos(1) || cfg.maxWork < 5
  {
    if cfg.replayTtl >= cfg.lateness + cfg.futureSkew + Nanos(1) {
      forall ops, i, j | 0 <= i < j < |Run(cfg, sources, ops).accepted|
        ensures var accepted := Run(cfg, sources, ops).accepted;
                !(accepted[i].replayId == accepted[j].replayId && accepted[i].event == accepted[j].event)
      {
        LongTtlAcceptsOnce(cfg, sources, ops, i, j);
      }
    } else if cfg.maxWork < 5 {
      forall ops ensures |Run(cfg, sources, ops).accepted| <= 1 {
        TinyWorkAcceptsOne(cfg, sources, ops);
      }
    } else {
      var source :| source in sources;
      var early, late := ProbeEvent(source, -cfg.futureSkew), ProbeEvent(source, Nanos(1) + cfg.lateness);
      var ops := [ObserveOp(early), ObserveOp(late)];
      ShortTtlAcceptsTwice(cfg, sources, source);
      assert Run(cfg, sources, ops).accepted[0].event == Run(cfg, sources, ops).accepted[1].event;
    }
  }
}
