/** What a consumer of the change feed can rely on. */
module FlowFeed {
  import opened Wrappers
  import opened Accounting
  import opened FlowModel
  import opened FlowLedger

  /** Replaying a batch of changes on a copy of the rows. */
  function Patch(rows: map<RollupKey, Rollup>, changes: map<RollupKey, Change>): map<RollupKey, Rollup> {
    map key | key in rows.Keys + changes.Keys && (key in changes ==> !changes[key].Retire?) ::
      if key in changes then changes[key].rollup else rows[key]
  }

  /** Applying the emitted changes to the previous rows gives exactly the new rows, and no change is idle. */
  lemma ChangesAreExact(before: map<RollupKey, Rollup>, after: map<RollupKey, Rollup>)
    ensures Patch(before, Diff(before, after)) == after
    ensures forall key :: key in Diff(before, after) ==>
              match Diff(before, after)[key]
              case Upsert(row) => key !in before && key in after && after[key] == row
              case Correction(row) => key in before && before[key] != row && key in after && after[key] == row
              case Retire => key in before && key !in after
  {
  }

  lemma {:induction false} SettledSecondsChangeNothing(
    rows: map<RollupKey, Rollup>, order: seq<SecondKey>, selected: map<SecondKey, Rollup>)
    requires forall k :: k in order ==> k in selected
    requires forall k :: k in order ==> RowKey(Second, k) in rows && rows[RowKey(Second, k)] == selected[k]
    ensures ReviseAll(rows, order, selected) == Ok(rows)
  {
    if order != [] {
      SettledSecondsChangeNothing(rows, order[..|order| - 1], selected);
    }
  }

  /** Every open row of a closed second belongs to a second finalised at its best row. */
  ghost predicate Settled(cfg: Config, sources: Registry, s: State, finals: Finals, w: int) {
    && Books(cfg, sources, s, finals) && s.watermark == Some(w)
    && OpenRows(s.seconds, Secs(w - CacheHorizon(cfg))) == s.seconds
    && forall k :: k in ClosedBases(s.seconds, w) ==> k in finals && IsBestRow(s.seconds, sources, k, finals[k])
  }

  /** An advance that cuts no open row leaves every closed second settled. */
  lemma AdvanceSettles(
    cfg: Config, sources: Registry, s: State, finals: Finals, next: int, now: int,
    selected: map<SecondKey, Rollup>, order: seq<SecondKey>)
    requires ValidConfig(cfg) && Books(cfg, sources, s, finals) && !CutsOpenRow(cfg, s, next)
    requires IsSelection(selected, s.seconds, sources, next) && IsOrder(order, selected.Keys)
    requires Advance(cfg, s, selected, order, next, now).Ok?
    ensures Settled(cfg, sources, Advance(cfg, s, selected, order, next, now).value.0, finals + selected, next)
  {
    AdvanceShape(cfg, s, selected, order, next, now);
    AdvanceKeepsBooks(cfg, sources, s, finals, selected, order, next, now);
    var cutoff := Secs(next - CacheHorizon(cfg));
    KeptRowsSettled(s.seconds, sources, finals, next, cutoff, selected);
  }

  lemma KeptRowsSettled(
    seconds: map<SourceKey, ByteCount>, sources: Registry, finals: Finals, next: int, cutoff: int, selected: map<SecondKey, Rollup>)
    requires IsSelection(selected, seconds, sources, next)
    ensures var kept := OpenRows(seconds, cutoff);
            && OpenRows(kept, cutoff) == kept
            && forall k :: k in ClosedBases(kept, next) ==>
                 k in finals + selected && IsBestRow(kept, sources, k, (finals + selected)[k])
  {
    var kept := OpenRows(seconds, cutoff);
    forall k | k in ClosedBases(kept, next)
      ensures k in selected && IsBestRow(kept, sources, k, selected[k])
    {
      assert k in ClosedBases(seconds, next);
      BestRowOfKeptRows(seconds, sources, cutoff, k, selected[k]);
    }
  }

  lemma IdleAdvance(
    cfg: Config, s: State, again: map<SecondKey, Rollup>, walk: seq<SecondKey>, next: int, later: int)
    requires forall k :: k in walk ==> k in again
    requires ReviseAll(s.emitted, walk, again) == Ok(s.emitted)
    requires LiveRows(s.emitted, next, cfg.lateness) == s.emitted
    requires OpenRows(s.seconds, Secs(next - CacheHorizon(cfg))) == s.seconds
    ensures match Advance(cfg, s, again, walk, next, later)
            case Ok(out) => out.1 == map[] && out.0.emitted == s.emitted && out.0.seconds == s.seconds
            case Err(e) => e == Time || e == FutureSkew || e == WorkLimit || e == Capacity
  {
    assert Diff(s.emitted, s.emitted) == map[];
  }

  lemma SettledRowsAgree(
    cfg: Config, sources: Registry, s: State, finals: Finals, w: int, again: map<SecondKey, Rollup>, walk: seq<SecondKey>)
    requires Settled(cfg, sources, s, finals, w)
    requires IsSelection(again, s.seconds, sources, w) && IsOrder(walk, again.Keys)
    ensures ReviseAll(s.emitted, walk, again) == Ok(s.emitted)
    ensures LiveRows(s.emitted, w, cfg.lateness) == s.emitted
  {
    forall k | k in walk
      ensures RowKey(Second, k) in s.emitted && s.emitted[RowKey(Second, k)] == again[k]
    {
      assert k in ClosedBases(s.seconds, w);
      BestRowUnique(s.seconds, sources, k, finals[k], again[k]);
    }
    SettledSecondsChangeNothing(s.emitted, walk, again);
  }

  /** Repeating a watermark with nothing observed in between emits nothing and changes no row. */
  lemma RepeatedWatermarkEmitsNothing(
    cfg: Config, sources: Registry, s: State, finals: Finals, w: int, later: int,
    again: map<SecondKey, Rollup>, walk: seq<SecondKey>)
    requires Settled(cfg, sources, s, finals, w)
    requires IsSelection(again, s.seconds, sources, w) && IsOrder(walk, again.Keys)
    ensures match Advance(cfg, s, again, walk, w, later)
            case Ok(out) => out.1 == map[] && out.0.emitted == s.emitted && out.0.seconds == s.seconds
            case Err(e) => e == Time || e == FutureSkew || e == WorkLimit || e == Capacity
  {
    SettledRowsAgree(cfg, sources, s, finals, w, again, walk);
    IdleAdvance(cfg, s, again, walk, w, later);
  }
}
