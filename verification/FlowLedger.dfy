/**
 The rollup ledger: live minute and hour rows, kept up to date by differences, always equal the
 plain sum of every second ever finalised in their bucket.
 */
module FlowLedger {
  import opened Wrappers
  import opened Accounting
  import opened FlowModel

  /** Every second finalised so far, at its latest value, whether or not its row has since retired. */
  type Finals = map<SecondKey, Rollup>

  ghost function Members(finals: Finals, key: RollupKey): set<SecondKey> {
    set k | k in finals && RowKey(key.resolution, k) == key
  }

  ghost function BytesOf(finals: Finals): map<SecondKey, ByteCount> {
    map k | k in finals :: finals[k].bytes
  }

  ghost function BucketTotal(finals: Finals, key: RollupKey): ByteCount {
    Total(Members(finals, key), BytesOf(finals))
  }

  /** A parent never claims more visibility than every second below it had. */
  ghost predicate Conservative(finals: Finals, key: RollupKey, claimed: Coverage) {
    claimed == Estimated || forall k :: k in Members(finals, key) ==> finals[k].coverage == claimed
  }

  ghost predicate ParentRow(finals: Finals, key: RollupKey, row: Rollup) {
    row.bytes == BucketTotal(finals, key) && Fits(row.bytes) && Conservative(finals, key, row.coverage)
  }

  /** The live second rows are exactly the finalised seconds that have not retired. */
  ghost predicate SecondRows(rows: map<RollupKey, Rollup>, finals: Finals, w: Option<int>, lateness: int) {
    && (forall k :: RowKey(Second, k) in rows <==> k in finals && !Retired(RowKey(Second, k), w, lateness))
    && (forall k :: k in finals && RowKey(Second, k) in rows ==> rows[RowKey(Second, k)] == finals[k])
  }

  /** No row outlives its window, and no finalised second has lost a parent that is still open. */
  ghost predicate RowsInWindow(rows: map<RollupKey, Rollup>, finals: Finals, w: Option<int>, lateness: int) {
    && (forall key :: key in rows ==> !Retired(key, w, lateness))
    && (forall res: Resolution, k :: k in finals && !Retired(RowKey(res, k), w, lateness) ==> RowKey(res, k) in rows)
  }

  ghost predicate ParentRows(rows: map<RollupKey, Rollup>, finals: Finals) {
    forall key :: key in rows && key.resolution != Second ==> ParentRow(finals, key, rows[key])
  }

  ghost predicate Ledger(rows: map<RollupKey, Rollup>, finals: Finals, w: Option<int>, lateness: int) {
    SecondRows(rows, finals, w, lateness) && RowsInWindow(rows, finals, w, lateness) && ParentRows(rows, finals)
  }

  lemma BucketTotalElsewhere(finals: Finals, base: SecondKey, row: Rollup, key: RollupKey)
    requires RowKey(key.resolution, base) != key
    ensures Members(finals[base := row], key) == Members(finals, key)
    ensures BucketTotal(finals[base := row], key) == BucketTotal(finals, key)
  {
    TotalAgrees(Members(finals, key), BytesOf(finals), BytesOf(finals[base := row]));
  }

  /** Revising one second moves its bucket's sum by exactly the difference. */
  lemma BucketTotalRevised(finals: Finals, base: SecondKey, row: Rollup, key: RollupKey)
    requires RowKey(key.resolution, base) == key
    ensures var prior := if base in finals then finals[base].bytes else ByteCount(0, 0);
            var before, after := BucketTotal(finals, key), BucketTotal(finals[base := row], key);
            && Covers(before, prior)
            && after.upload == before.upload - prior.upload + row.bytes.upload
            && after.download == before.download - prior.download + row.bytes.download
  {
    var revised := finals[base := row];
    var others := Members(finals, key) - {base};
    assert Members(revised, key) - {base} == others;
    TotalPull(Members(revised, key), BytesOf(revised), base);
    TotalAgrees(others, BytesOf(finals), BytesOf(revised));
    if base in finals {
      TotalPull(Members(finals, key), BytesOf(finals), base);
    } else {
      assert Members(finals, key) == others;
    }
  }

  lemma MergeStaysConservative(finals: Finals, base: SecondKey, row: Rollup, key: RollupKey, claimed: Coverage)
    requires Conservative(finals, key, claimed)
    ensures Conservative(finals[base := row], key, Merge(claimed, row.coverage))
  {
    forall k | k in Members(finals[base := row], key)
      ensures k == base || k in Members(finals, key)
    {
    }
  }

  lemma AdjustParentExact(
    rows: map<RollupKey, Rollup>, finals: Finals, res: Resolution, base: SecondKey, prior: Option<Rollup>, row: Rollup)
    requires var key := RowKey(res, base);
             if key in rows then ParentRow(finals, key, rows[key]) else Members(finals, key) == {}
    requires prior == if base in finals then Some(finals[base]) else None
    ensures var key := RowKey(res, base);
            var revised := finals[base := row];
            match AdjustParent(rows, res, base, prior, row)
            case Err(_) => !Fits(BucketTotal(revised, key))
            case Ok(out) => key in out && out == rows[key := out[key]] && ParentRow(revised, key, out[key])
  {
    var key := RowKey(res, base);
    BucketTotalRevised(finals, base, row, key);
    MergeStaysConservative(finals, base, row, key, if key in rows then rows[key].coverage else row.coverage);
  }

  /** Until a second retires, its minute and its hour cannot. */
  lemma ParentsOutlive(res: Resolution, k: SecondKey, w: Option<int>, lateness: int)
    requires Retired(RowKey(res, k), w, lateness)
    ensures Retired(RowKey(Second, k), w, lateness)
  {
  }

  /** A parent that is still open but has no row has no finalised seconds either. */
  lemma ParentRowOrEmpty(
    rows: map<RollupKey, Rollup>, finals: Finals, w: Option<int>, lateness: int, res: Resolution, base: SecondKey)
    requires res != Second
    requires Ledger(rows, finals, w, lateness)
    requires !Retired(RowKey(Second, base), w, lateness)
    ensures var key := RowKey(res, base);
            if key in rows then ParentRow(finals, key, rows[key]) else Members(finals, key) == {}
  {
    var key := RowKey(res, base);
    if key !in rows {
      if Retired(key, w, lateness) {
        ParentsOutlive(res, base, w, lateness);
      }
      assert forall k :: k in finals ==> RowKey(res, k) != key;
    }
  }

  /** `out` is `rows` with a new row for the second and for its two parents. */
  ghost predicate RevisedOnly(rows: map<RollupKey, Rollup>, base: SecondKey, row: Rollup, out: map<RollupKey, Rollup>) {
    var sec, min, hour := RowKey(Second, base), RowKey(Minute, base), RowKey(Hour, base);
    min in out && hour in out && out == rows[sec := row][min := out[min]][hour := out[hour]]
  }

  /** The second row has been stored and the minute adjusted; the hour follows. */
  lemma ReviseHour(
    rows: map<RollupKey, Rollup>, finals: Finals, base: SecondKey, row: Rollup, prior: Option<Rollup>,
    minuteDone: map<RollupKey, Rollup>)
    requires var hour := RowKey(Hour, base);
             if hour in rows then ParentRow(finals, hour, rows[hour]) else Members(finals, hour) == {}
    requires prior == if base in finals then Some(finals[base]) else None
    requires var min := RowKey(Minute, base);
             min in minuteDone && minuteDone == rows[RowKey(Second, base) := row][min := minuteDone[min]]
    ensures var revised := finals[base := row];
            var hour := RowKey(Hour, base);
            match AdjustParent(minuteDone, Hour, base, prior, row)
            case Err(_) => !Fits(BucketTotal(revised, hour))
            case Ok(out) =>
              RevisedOnly(rows, base, row, out) && ParentRow(revised, hour, out[hour]) &&
              out[RowKey(Minute, base)] == minuteDone[RowKey(Minute, base)]
  {
    AdjustParentExact(minuteDone, finals, Hour, base, prior, row);
  }

  lemma ReviseRows(rows: map<RollupKey, Rollup>, finals: Finals, w: Option<int>, lateness: int, base: SecondKey, row: Rollup)
    requires Ledger(rows, finals, w, lateness)
    requires !Retired(RowKey(Second, base), w, lateness)
    requires RowKey(Second, base) !in rows || rows[RowKey(Second, base)] != row
    ensures var revised := finals[base := row];
            var min, hour := RowKey(Minute, base), RowKey(Hour, base);
            match Revise(rows, base, row)
            case Err(_) => !Fits(BucketTotal(revised, min)) || !Fits(BucketTotal(revised, hour))
            case Ok(out) =>
              RevisedOnly(rows, base, row, out) && ParentRow(revised, min, out[min]) && ParentRow(revised, hour, out[hour])
  {
    var prior := if base in finals then Some(finals[base]) else None;
    var staged := rows[RowKey(Second, base) := row];
    ParentRowOrEmpty(rows, finals, w, lateness, Minute, base);
    ParentRowOrEmpty(rows, finals, w, lateness, Hour, base);
    AdjustParentExact(staged, finals, Minute, base, prior, row);
    var minuteDone := AdjustParent(staged, Minute, base, prior, row);
    assert prior == if RowKey(Second, base) in rows then Some(rows[RowKey(Second, base)]) else None;
    if minuteDone.Ok? {
      ReviseHour(rows, finals, base, row, prior, minuteDone.value);
    }
  }

  lemma RevisedWindow(
    rows: map<RollupKey, Rollup>, finals: Finals, w: Option<int>, lateness: int, base: SecondKey, row: Rollup,
    out: map<RollupKey, Rollup>)
    requires SecondRows(rows, finals, w, lateness) && RowsInWindow(rows, finals, w, lateness)
    requires !Retired(RowKey(Second, base), w, lateness)
    requires RevisedOnly(rows, base, row, out)
    ensures SecondRows(out, finals[base := row], w, lateness)
    ensures RowsInWindow(out, finals[base := row], w, lateness)
  {
    assert forall k :: RowKey(Second, k) in out <==> RowKey(Second, k) in rows || k == base;
    assert forall k :: RowKey(Second, k) in rows && k != base ==> out[RowKey(Second, k)] == rows[RowKey(Second, k)];
    forall res: Resolution ensures !Retired(RowKey(res, base), w, lateness) && RowKey(res, base) in out {
      if Retired(RowKey(res, base), w, lateness) {
        ParentsOutlive(res, base, w, lateness);
      }
    }
  }

  lemma RevisedParents(
    rows: map<RollupKey, Rollup>, finals: Finals, base: SecondKey, row: Rollup, out: map<RollupKey, Rollup>)
    requires ParentRows(rows, finals)
    requires RevisedOnly(rows, base, row, out)
    requires forall res: Resolution :: res != Second ==> ParentRow(finals[base := row], RowKey(res, base), out[RowKey(res, base)])
    ensures ParentRows(out, finals[base := row])
  {
    forall key | key in out && key.resolution != Second
      ensures ParentRow(finals[base := row], key, out[key])
    {
      if key != RowKey(key.resolution, base) {
        BucketTotalElsewhere(finals, base, row, key);
      }
    }
  }

  /**
   Revising one open second keeps the ledger exact. It fails only when the true sum of a bucket no
   longer fits 64 bits; the subtraction of the second's previous value never does.
   */
  lemma ReviseKeepsLedger(
    rows: map<RollupKey, Rollup>, finals: Finals, w: Option<int>, lateness: int, base: SecondKey, row: Rollup)
    requires Ledger(rows, finals, w, lateness)
    requires !Retired(RowKey(Second, base), w, lateness)
    ensures var revised := finals[base := row];
            match Revise(rows, base, row)
            case Err(e) =>
              e == Overflow && exists res: Resolution :: res != Second && !Fits(BucketTotal(revised, RowKey(res, base)))
            case Ok(out) => Ledger(out, revised, w, lateness)
  {
    if RowKey(Second, base) in rows && rows[RowKey(Second, base)] == row {
      assert finals[base := row] == finals;
    } else {
      ReviseRows(rows, finals, w, lateness, base, row);
      var r := Revise(rows, base, row);
      if r.Ok? {
        RevisedWindow(rows, finals, w, lateness, base, row, r.value);
        RevisedParents(rows, finals, base, row, r.value);
      }
    }
  }

  ghost function Overlay(finals: Finals, order: seq<SecondKey>, selected: map<SecondKey, Rollup>): Finals
    requires forall k :: k in order ==> k in selected
  {
    finals + (map k | k in order :: selected[k])
  }

  ghost predicate OverflowsAt(finals: Finals, done: seq<SecondKey>, selected: map<SecondKey, Rollup>, res: Resolution) {
    && done != [] && (forall k :: k in done ==> k in selected)
    && res != Second && !Fits(BucketTotal(Overlay(finals, done, selected), RowKey(res, done[|done| - 1])))
  }

  /** Some true bucket sum, at some point of the walk, is too large for 64 bits. */
  ghost predicate SumOverflows(finals: Finals, order: seq<SecondKey>, selected: map<SecondKey, Rollup>)
  {
    exists done, res: Resolution :: done <= order && OverflowsAt(finals, done, selected, res)
  }

  lemma OverlaySnoc(finals: Finals, order: seq<SecondKey>, selected: map<SecondKey, Rollup>)
    requires order != [] && forall k :: k in order ==> k in selected
    ensures var n := |order| - 1;
            Overlay(finals, order, selected) == Overlay(finals, order[..n], selected)[order[n] := selected[order[n]]]
  {
    var n := |order| - 1;
    assert order == order[..n] + [order[n]];
  }

  lemma SumOverflowsExtends(finals: Finals, init: seq<SecondKey>, order: seq<SecondKey>, selected: map<SecondKey, Rollup>)
    requires init <= order && SumOverflows(finals, init, selected)
    ensures SumOverflows(finals, order, selected)
  {
    var done, res: Resolution :| done <= init && OverflowsAt(finals, done, selected, res);
    assert done <= order;
  }

  lemma ReviseLast(
    done: map<RollupKey, Rollup>, finals: Finals, w: Option<int>, lateness: int,
    order: seq<SecondKey>, selected: map<SecondKey, Rollup>)
    requires order != [] && forall k :: k in order ==> k in selected
    requires Ledger(done, Overlay(finals, order[..|order| - 1], selected), w, lateness)
    requires !Retired(RowKey(Second, order[|order| - 1]), w, lateness)
    ensures match Revise(done, order[|order| - 1], selected[order[|order| - 1]])
            case Err(e) => e == Overflow && SumOverflows(finals, order, selected)
            case Ok(out) => Ledger(out, Overlay(finals, order, selected), w, lateness)
  {
    var n := |order| - 1;
    OverlaySnoc(finals, order, selected);
    ReviseKeepsLedger(done, Overlay(finals, order[..n], selected), w, lateness, order[n], selected[order[n]]);
    var r := Revise(done, order[n], selected[order[n]]);
    if r.Err? {
      var res: Resolution :| res != Second && !Fits(BucketTotal(Overlay(finals, order, selected), RowKey(res, order[n])));
      assert OverflowsAt(finals, order, selected, res);
    }
  }

  lemma {:induction false} ReviseAllKeepsLedger(
    rows: map<RollupKey, Rollup>, finals: Finals, w: Option<int>, lateness: int,
    order: seq<SecondKey>, selected: map<SecondKey, Rollup>)
    requires Ledger(rows, finals, w, lateness)
    requires forall k :: k in order ==> k in selected && !Retired(RowKey(Second, k), w, lateness)
    ensures match ReviseAll(rows, order, selected)
            case Err(e) => e == Overflow && SumOverflows(finals, order, selected)
            case Ok(out) => Ledger(out, Overlay(finals, order, selected), w, lateness)
  {
    if order == [] {
      assert Overlay(finals, order, selected) == finals;
    } else {
      var n := |order| - 1;
      ReviseAllKeepsLedger(rows, finals, w, lateness, order[..n], selected);
      match ReviseAll(rows, order[..n], selected) {
        case Err(_) => SumOverflowsExtends(finals, order[..n], order, selected);
        case Ok(done) => ReviseLast(done, finals, w, lateness, order, selected);
      }
    }
  }

  /** Dropping the rows that retire at a later watermark leaves the ledger of that watermark. */
  lemma LiveRowsKeepLedger(rows: map<RollupKey, Rollup>, finals: Finals, w: Option<int>, lateness: int, next: int)
    requires Ledger(rows, finals, w, lateness)
    requires w.Some? ==> w.value <= next
    ensures Ledger(LiveRows(rows, next, lateness), finals, Some(next), lateness)
  {
  }

  // ---------------------------------------------------------------- one call

  /** Every open per-source row still has its second row: neither window is wider than the other. */
  ghost predicate RowsOpen(cfg: Config, s: State) {
    forall r :: r in s.seconds ==> !Retired(RowKey(Second, r.base), s.watermark, cfg.lateness)
  }

  ghost predicate Books(cfg: Config, sources: Registry, s: State, finals: Finals) {
    Registered(s.seconds, sources) && RowsOpen(cfg, s) && Ledger(s.emitted, finals, s.watermark, cfg.lateness)
  }

  /**
   The advance keeps an open row whose second row it retires. A caller can test this before the call:
   the watermark less the lateness is not on a whole second, and a row sits on the second it cuts.
   */
  ghost predicate CutsOpenRow(cfg: Config, s: State, next: int) {
    && !WholeSecond(next - cfg.lateness)
    && exists r :: r in s.seconds && r.base.epoch + 1 == Secs(next - cfg.lateness)
  }

  lemma KeptRowsOpen(cfg: Config, seconds: map<SourceKey, ByteCount>, next: int)
    requires ValidConfig(cfg)
    ensures (forall r :: r in OpenRows(seconds, Secs(next - CacheHorizon(cfg))) ==>
                           !Retired(RowKey(Second, r.base), Some(next), cfg.lateness))
       <==> !(!WholeSecond(next - cfg.lateness) &&
              exists r :: r in seconds && r.base.epoch + 1 == Secs(next - cfg.lateness))
  {
    var x := next - cfg.lateness;
    assert x == Nanos(Secs(x)) + x % 1_000_000_000;
    if r :| r in seconds && r.base.epoch + 1 == Secs(x) {
      assert r in OpenRows(seconds, Secs(x));
      assert Retired(RowKey(Second, r.base), Some(next), cfg.lateness) <==> !WholeSecond(x);
    }
    forall r | r in OpenRows(seconds, Secs(x)) && Retired(RowKey(Second, r.base), Some(next), cfg.lateness)
      ensures !WholeSecond(x) && r.base.epoch + 1 == Secs(x)
    {
    }
  }

  /** What a successful advance leaves behind, and why one fails for overflow. */
  lemma AdvanceShape(cfg: Config, s: State, selected: map<SecondKey, Rollup>, order: seq<SecondKey>, next: int, now: int)
    requires forall k :: k in order ==> k in selected
    ensures var rows := ReviseAll(s.emitted, order, selected);
            match Advance(cfg, s, selected, order, next, now)
            case Err(e) => e == Overflow ==> rows.Err?
            case Ok(out) =>
              && rows.Ok? && out.0.emitted == LiveRows(rows.value, next, cfg.lateness)
              && out.0.seconds == OpenRows(s.seconds, Secs(next - CacheHorizon(cfg)))
              && out.0.watermark == Some(next)
              && (s.watermark.Some? ==> s.watermark.value <= next)
  {
  }

  lemma OverlayAll(finals: Finals, order: seq<SecondKey>, selected: map<SecondKey, Rollup>)
    requires IsOrder(order, selected.Keys)
    ensures Overlay(finals, order, selected) == finals + selected
  {
    assert (map k | k in order :: selected[k]) == selected;
  }

  lemma WalkKeepsLedger(
    rows: map<RollupKey, Rollup>, finals: Finals, w: Option<int>, lateness: int,
    order: seq<SecondKey>, selected: map<SecondKey, Rollup>)
    requires Ledger(rows, finals, w, lateness)
    requires forall k :: k in selected ==> !Retired(RowKey(Second, k), w, lateness)
    requires IsOrder(order, selected.Keys)
    ensures match ReviseAll(rows, order, selected)
            case Err(e) => e == Overflow && SumOverflows(finals, order, selected)
            case Ok(out) => Ledger(out, finals + selected, w, lateness)
  {
    OverlayAll(finals, order, selected);
    ReviseAllKeepsLedger(rows, finals, w, lateness, order, selected);
  }

  /** A successful advance keeps the ledger exact; one that overflows does so on a true bucket sum. */
  lemma AdvanceKeepsLedger(
    cfg: Config, s: State, finals: Finals, selected: map<SecondKey, Rollup>, order: seq<SecondKey>, next: int, now: int)
    requires RowsOpen(cfg, s) && Ledger(s.emitted, finals, s.watermark, cfg.lateness)
    requires selected.Keys == ClosedBases(s.seconds, next) && IsOrder(order, selected.Keys)
    ensures match Advance(cfg, s, selected, order, next, now)
            case Err(e) => e == Overflow ==> SumOverflows(finals, order, selected)
            case Ok(out) => Ledger(out.0.emitted, finals + selected, Some(next), cfg.lateness)
  {
    AdvanceShape(cfg, s, selected, order, next, now);
    WalkKeepsLedger(s.emitted, finals, s.watermark, cfg.lateness, order, selected);
    var rows := ReviseAll(s.emitted, order, selected);
    if Advance(cfg, s, selected, order, next, now).Ok? {
      LiveRowsKeepLedger(rows.value, finals + selected, s.watermark, cfg.lateness, next);
    }
  }

  lemma AdvanceKeepsWindows(cfg: Config, s: State, selected: map<SecondKey, Rollup>, order: seq<SecondKey>, next: int, now: int)
    requires ValidConfig(cfg)
    requires forall k :: k in order ==> k in selected
    requires Advance(cfg, s, selected, order, next, now).Ok?
    ensures var after := Advance(cfg, s, selected, order, next, now).value.0;
            && (forall r :: r in after.seconds ==> r in s.seconds)
            && (RowsOpen(cfg, after) <==> !CutsOpenRow(cfg, s, next))
  {
    AdvanceShape(cfg, s, selected, order, next, now);
    KeptRowsOpen(cfg, s.seconds, next);
  }

  /**
   One successful advance adds the selected seconds to the history. The rows then equal the enlarged
   history in any case; that no open row belongs to a retired second, which the books also ask for,
   holds if and only if the advance does not cut an open row.
   */
  lemma AdvanceKeepsBooks(
    cfg: Config, sources: Registry, s: State, finals: Finals, selected: map<SecondKey, Rollup>,
    order: seq<SecondKey>, next: int, now: int)
    requires ValidConfig(cfg) && Books(cfg, sources, s, finals)
    requires selected.Keys == ClosedBases(s.seconds, next) && IsOrder(order, selected.Keys)
    requires Advance(cfg, s, selected, order, next, now).Ok?
    ensures var after := Advance(cfg, s, selected, order, next, now).value.0;
            Books(cfg, sources, after, finals + selected) <==> !CutsOpenRow(cfg, s, next)
  {
    AdvanceKeepsLedger(cfg, s, finals, selected, order, next, now);
    AdvanceKeepsWindows(cfg, s, selected, order, next, now);
    AdvanceShape(cfg, s, selected, order, next, now);
  }

  /** A whole-second advance never cuts a row. */
  lemma WholeSecondsNeverCut(cfg: Config, s: State, next: int)
    requires WholeSecond(next - cfg.lateness)
    ensures !CutsOpenRow(cfg, s, next)
  {
  }

  lemma ObserveKeepsBooks(cfg: Config, sources: Registry, s: State, finals: Finals, o: Observation)
    requires Books(cfg, sources, s, finals)
    ensures Observe(cfg, sources, s, o).Ok? ==> Books(cfg, sources, Observe(cfg, sources, s, o).value, finals)
  {
  }
}
