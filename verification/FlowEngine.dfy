/** The bounded flow engine: mutable maps updated in place, proved against the value model. */
module FlowEngine {
  import opened Wrappers
  import opened Accounting
  import opened FlowModel

  /** Walks the open rows once, in any order, keeping the best row seen for each closed second. */
  method SelectSeconds(seconds: map<SourceKey, ByteCount>, sources: Registry, w: int)
    returns (out: map<SecondKey, Rollup>)
    requires Registered(seconds, sources)
    ensures IsSelection(out, seconds, sources, w)
  {
    out := map[];
    var winners: map<SecondKey, nat> := map[];
    var rest := seconds.Keys;
    while rest != {}
      invariant rest <= seconds.Keys && out.Keys == winners.Keys
      invariant forall base :: base in winners <==>
                  exists r :: r in seconds.Keys - rest && r.base == base && r.base.epoch + 1 <= Secs(w)
      invariant forall base :: base in winners ==>
                  SourceKey(base, winners[base]) in seconds &&
                  out[base] == Rollup(seconds[SourceKey(base, winners[base])], CoverageOf(sources[winners[base]]))
      invariant forall r :: r in seconds.Keys - rest && r.base in winners ==> Beats(sources, winners[r.base], r.source)
      decreases rest
    {
      var k :| k in rest;
      rest := rest - {k};
      assert forall r :: r in seconds.Keys - rest <==> r == k || (r in seconds && r !in rest);
      if k.base.epoch + 1 > Secs(w) {
        continue;
      }
      var row := Rollup(seconds[k], CoverageOf(sources[k.source]));
      if k.base !in winners
         || SourceRank(sources, k.source) > SourceRank(sources, winners[k.base])
         || (SourceRank(sources, k.source) == SourceRank(sources, winners[k.base]) && k.source < winners[k.base]) {
        winners := winners[k.base := k.source];
        out := out[k.base := row];
      }
    }
    forall base | base in out ensures IsBestRow(seconds, sources, base, out[base]) {
      assert Wins(seconds, sources, base, winners[base]);
    }
  }

  lemma {:induction false} ReviseAllStops(
    rows: map<RollupKey, Rollup>, order: seq<SecondKey>, n: nat, selected: map<SecondKey, Rollup>)
    requires n <= |order| && forall k :: k in order ==> k in selected
    requires ReviseAll(rows, order[..n], selected).Err?
    ensures ReviseAll(rows, order, selected) == ReviseAll(rows, order[..n], selected)
  {
    if n < |order| {
      assert order[..|order| - 1][..n] == order[..n];
      ReviseAllStops(rows, order[..|order| - 1], n, selected);
    } else {
      assert order[..n] == order;
    }
  }

  /** Completes a partial walk to one that visits every key. */
  lemma {:induction false} CompleteOrder(done: seq<SecondKey>, rest: set<SecondKey>, keys: set<SecondKey>)
    returns (order: seq<SecondKey>)
    requires rest <= keys && IsOrder(done, keys - rest)
    ensures done <= order && IsOrder(order, keys)
    decreases rest
  {
    if rest == {} {
      order := done;
    } else {
      var k :| k in rest;
      order := CompleteOrder(done + [k], rest - {k}, keys);
    }
  }

  /** Applies the selected seconds one by one, stopping at the first that overflows. */
  method ReviseSelected(rows: map<RollupKey, Rollup>, selected: map<SecondKey, Rollup>)
    returns (r: Result<map<RollupKey, Rollup>, FlowError>, ghost order: seq<SecondKey>)
    ensures IsOrder(order, selected.Keys) && r == ReviseAll(rows, order, selected)
  {
    order := [];
    var proposed := rows;
    var rest := selected.Keys;
    while rest != {}
      invariant rest <= selected.Keys && IsOrder(order, selected.Keys - rest)
      invariant ReviseAll(rows, order, selected) == Ok(proposed)
      decreases rest
    {
      var base :| base in rest;
      rest := rest - {base};
      ghost var before := order;
      order := order + [base];
      assert order[..|order| - 1] == before;
      match Revise(proposed, base, selected[base]) {
        case Err(e) =>
          ghost var done := order;
          order := CompleteOrder(done, rest, selected.Keys);
          assert order[..|done|] == done;
          ReviseAllStops(rows, order, |done|, selected);
          return Err(e), order;
        case Ok(revised) => proposed := revised;
      }
    }
    return Ok(proposed), order;
  }

  /** What the feed says about one key. */
  function ChangeAt(before: map<RollupKey, Rollup>, after: map<RollupKey, Rollup>, key: RollupKey): Option<Change> {
    if key in after then
      if key !in before then Some(Upsert(after[key]))
      else if before[key] != after[key] then Some(Correction(after[key]))
      else None
    else if key in before then Some(Retire)
    else None
  }

  ghost predicate ChangesOf(
    changes: map<RollupKey, Change>, before: map<RollupKey, Rollup>, after: map<RollupKey, Rollup>, keys: set<RollupKey>)
  {
    && changes.Keys <= keys
    && forall key :: key in keys ==>
         ChangeAt(before, after, key) == if key in changes then Some(changes[key]) else None
  }

  lemma AllChanges(changes: map<RollupKey, Change>, before: map<RollupKey, Rollup>, after: map<RollupKey, Rollup>)
    requires ChangesOf(changes, before, after, before.Keys + after.Keys)
    ensures changes == Diff(before, after)
  {
    assert changes.Keys == Diff(before, after).Keys by {
      forall key | key in before.Keys + after.Keys
        ensures key in changes <==> key in Diff(before, after)
      {
        assert ChangeAt(before, after, key).Some? <==> key in Diff(before, after);
      }
    }
  }

  /** The change feed between two row maps, one entry per differing key. */
  method Changes(before: map<RollupKey, Rollup>, after: map<RollupKey, Rollup>, spent: nat, limit: nat)
    returns (r: Result<map<RollupKey, Change>, FlowError>)
    requires spent <= limit
    ensures r == if spent + |before.Keys + after.Keys| > limit then Err(WorkLimit) else Ok(Diff(before, after))
  {
    var changes: map<RollupKey, Change> := map[];
    var work := spent;
    var all := before.Keys + after.Keys;
    var rest := all;
    while rest != {}
      invariant rest <= all && work == spent + |all| - |rest| && work <= limit
      invariant ChangesOf(changes, before, after, all - rest)
      decreases rest
    {
      var key :| key in rest;
      rest := rest - {key};
      work := work + 1;
      if work > limit {
        return Err(WorkLimit);
      }
      match ChangeAt(before, after, key) {
        case Some(change) => changes := changes[key := change];
        case None =>
      }
    }
    assert all - rest == all;
    AllChanges(changes, before, after);
    return Ok(changes);
  }

  /** Retires and diffs the revised rows, within the limits of one call. */
  method Publish(cfg: Config, s: State, rows: map<RollupKey, Rollup>, next: int, now: int)
    returns (r: Result<map<RollupKey, Change>, FlowError>)
    requires 8 * |s.seconds| + 4 * |s.emitted| <= cfg.maxWork
    ensures match Settle(cfg, s, rows, next, now)
            case Ok(out) => r == Ok(out.1) && out.0 == Pruned(cfg, s, LiveRows(rows, next, cfg.lateness), next, now)
            case Err(e) => r == Err(e)
  {
    var live := LiveRows(rows, next, cfg.lateness);
    if |live| > cfg.maxFinalizedRows { return Err(Capacity); }
    r := Changes(s.emitted, live, 8 * |s.seconds| + 4 * |s.emitted|, cfg.maxWork);
    if r.Ok? && |r.value| > cfg.maxOutputs { return Err(OutputLimit); }
  }

  class Engine {
    const cfg: Config
    const sources: Registry
    var seconds: map<SourceKey, ByteCount>
    var replay: map<nat, ReplayEntry>
    var lastArrival: Option<int>
    var watermark: Option<int>
    var emitted: map<RollupKey, Rollup>

    ghost function Value(): State
      reads this
    {
      State(seconds, replay, lastArrival, watermark, emitted)
    }

    ghost predicate Valid()
      reads this
    {
      ValidConfig(cfg) && Registered(seconds, sources)
    }

    constructor (cfg: Config, sources: Registry)
      requires ValidConfig(cfg)
      ensures Valid() && Value() == Empty() && this.cfg == cfg && this.sources == sources
    {
      this.cfg, this.sources := cfg, sources;
      seconds, replay, lastArrival, watermark, emitted := map[], map[], None, None, map[];
    }

    /** Builds an engine from its closed source registry; ids must be distinct, present and few enough. */
    static method Create(cfg: Config, registrations: seq<(nat, Kind)>) returns (r: Result<Engine, FlowError>)
      ensures r.Ok? <==>
              && ValidConfig(cfg)
              && (forall i, j :: 0 <= i < j < |registrations| ==> registrations[i].0 != registrations[j].0)
              && 0 < |registrations| <= cfg.maxSources
      ensures r.Ok? ==> r.value.Valid() && fresh(r.value) && r.value.Value() == Empty() && r.value.cfg == cfg
      ensures r.Ok? ==> forall i :: 0 <= i < |registrations| ==>
                registrations[i].0 in r.value.sources && r.value.sources[registrations[i].0] == registrations[i].1
      ensures r.Ok? ==> |r.value.sources| == |registrations|
    {
      if !ValidConfig(cfg) {
        return Err(ConfigError);
      }
      var sources: Registry := map[];
      for n := 0 to |registrations|
        invariant |sources| == n
        invariant forall i, j :: 0 <= i < j < n ==> registrations[i].0 != registrations[j].0
        invariant forall id :: id in sources ==> exists i :: 0 <= i < n && registrations[i].0 == id
        invariant forall i :: 0 <= i < n ==>
                    registrations[i].0 in sources && sources[registrations[i].0] == registrations[i].1
      {
        var (id, kind) := registrations[n];
        if id in sources {
          return Err(ConfigError);
        }
        sources := sources[id := kind];
      }
      if |sources| > cfg.maxSources {
        return Err(Capacity);
      }
      if |sources| == 0 {
        return Err(ConfigError);
      }
      var engine := new Engine(cfg, sources);
      return Ok(engine);
    }

    /** The first check an observation fails, if any. */
    method Admit(o: Observation) returns (refusal: Option<FlowError>)
      ensures refusal == Refusal(cfg, sources, Value(), o)
    {
      if o.source !in sources { return Some(UnknownSource); }
      if o.iface == 0 { return Some(Interface); }
      if o.bytes.upload + o.bytes.download > U64_MAX { return Some(Overflow); }
      if lastArrival.Some? && o.arrival < lastArrival.value { return Some(Time); }
      if o.event > o.arrival + cfg.futureSkew { return Some(FutureSkew); }
      var lateEdge := Nanos(Secs(o.event) + 1) + cfg.lateness;
      if o.arrival > lateEdge { return Some(TooLate); }
      if watermark.Some? && watermark.value > lateEdge { return Some(TooLate); }
      if 3 * |replay| + |seconds| + 1 > cfg.maxWork { return Some(WorkLimit); }
      var recent := RecentReplays(replay, o.arrival - cfg.replayTtl);
      if o.replayId in recent { return Some(Replay); }
      if |recent| >= cfg.maxReplayIds { return Some(Capacity); }
      if o.metadata.Err? { return Some(o.metadata.error); }
      var active := ActiveDevices(seconds, recent);
      if o.device !in active && |active| >= cfg.maxDevices { return Some(Capacity); }
      if KeyOf(o) !in seconds && |seconds| >= cfg.maxOpenRows { return Some(Capacity); }
      if !Fits(RaisedRow(seconds, o)) { return Some(Overflow); }
      return None;
    }

    /** Admits one observation or refuses it for the first check it fails, leaving nothing changed. */
    method Observe(o: Observation) returns (r: Result<(), FlowError>)
      requires Valid()
      modifies this
      ensures Valid()
      ensures match FlowModel.Observe(cfg, sources, old(Value()), o)
              case Ok(s) => r == Ok(()) && Value() == s
              case Err(e) => r == Err(e) && Value() == old(Value())
    {
      var refusal := Admit(o);
      if refusal.Some? {
        return Err(refusal.value);
      }
      var raised := RaisedRow(seconds, o);
      replay := RecentReplays(replay, o.arrival - cfg.replayTtl)[o.replayId := ReplayEntry(o.arrival, o.device)];
      seconds := seconds[KeyOf(o) := raised];
      lastArrival := Some(o.arrival);
      return Ok(());
    }

    /** Installs the published rows and drops the open rows and replay ids that aged out. */
    method Commit(live: map<RollupKey, Rollup>, next: int, now: int)
      requires Valid()
      modifies this
      ensures Valid() && Value() == Pruned(cfg, old(Value()), live, next, now)
    {
      watermark, lastArrival, emitted := Some(next), Some(now), live;
      seconds := OpenRows(seconds, Secs(next - CacheHorizon(cfg)));
      replay := RecentReplays(replay, now - cfg.replayTtl);
    }

    /** Closes the seconds before `next`, revises their parents and retires what has aged out. */
    method AdvanceWatermark(next: int, now: int)
      returns (r: Result<map<RollupKey, Change>, FlowError>, ghost selected: map<SecondKey, Rollup>, ghost order: seq<SecondKey>)
      requires Valid()
      modifies this
      ensures Valid()
      ensures AdvanceRefusal(cfg, old(Value()), next, now).Some? ==>
                r == Err(AdvanceRefusal(cfg, old(Value()), next, now).value) && Value() == old(Value())
      ensures AdvanceRefusal(cfg, old(Value()), next, now).None? ==>
                && IsSelection(selected, old(seconds), sources, next) && IsOrder(order, selected.Keys)
                && match Advance(cfg, old(Value()), selected, order, next, now)
                   case Ok(out) => r == Ok(out.1) && Value() == out.0
                   case Err(e) => r == Err(e) && Value() == old(Value())
    {
      selected, order := map[], [];
      if next > now { return Err(FutureSkew), selected, order; }
      if lastArrival.Some? && now < lastArrival.value { return Err(Time), selected, order; }
      if watermark.Some? && next < watermark.value { return Err(Time), selected, order; }
      if 8 * |seconds| + 4 * |emitted| > cfg.maxWork { return Err(WorkLimit), selected, order; }
      var best := SelectSeconds(seconds, sources, next);
      selected := best;
      var rows;
      rows, order := ReviseSelected(emitted, best);
      if rows.Err? { return Err(rows.error), selected, order; }
      r := Publish(cfg, State(seconds, replay, lastArrival, watermark, emitted), rows.value, next, now);
      if r.Err? { return r, selected, order; }
      Commit(LiveRows(rows.value, next, cfg.lateness), next, now);
    }
  }
}
