/**
 Any watermark at all: a second whose row has retired while its open rows were kept is counted again
 by every later advance, and the minute and hour rows exceed the history by exactly those recounts.
 */
module FlowRecount {
  import opened Wrappers
  import opened Accounting
  import opened FlowModel
  import opened FlowLedger

  /** What each parent row holds beyond the history. */
  type Excess = map<RollupKey, ByteCount>

  function Raised(excess: Excess, key: RollupKey, bytes: ByteCount): Excess {
    excess[key := ByteCount(At(excess, key).upload + bytes.upload, At(excess, key).download + bytes.download)]
  }

  /** A second counted again goes into its minute and its hour once more. */
  function Recount(excess: Excess, base: SecondKey, bytes: ByteCount): Excess {
    Raised(Raised(excess, RowKey(Minute, base), bytes), RowKey(Hour, base), bytes)
  }

  predicate Late(base: SecondKey, w: Option<int>, lateness: int) {
    Retired(RowKey(Second, base), w, lateness)
  }

  /** The recounts of one walk: the selected seconds that had already retired. */
  function Recounted(excess: Excess, order: seq<SecondKey>, selected: map<SecondKey, Rollup>, w: Option<int>, lateness: int): Excess
    requires forall k :: k in order ==> k in selected
  {
    if order == [] then excess
    else
      var n := |order| - 1;
      var before := Recounted(excess, order[..n], selected, w, lateness);
      if Late(order[n], w, lateness) then Recount(before, order[n], selected[order[n]].bytes) else before
  }

  // ---------------------------------------------------------------- rows that exceed exact rows

  /** A parent row exceeds its exact counterpart by the excess, at the same coverage. */
  ghost predicate Exceeds(row: Rollup, exact: Rollup, excess: ByteCount) {
    IsSum(row.bytes, exact.bytes, excess) && row.coverage == exact.coverage
  }

  ghost predicate RowTracks(rows: map<RollupKey, Rollup>, exact: map<RollupKey, Rollup>, excess: Excess, key: RollupKey) {
    && (key in rows <==> key in exact)
    && (key !in rows ==> IsZero(At(excess, key)))
    && (key in rows && key in exact ==>
          if key.resolution == Second then rows[key] == exact[key] else Exceeds(rows[key], exact[key], At(excess, key)))
  }

  /** Among the rows that have not retired, `rows` is `exact` plus the excess. */
  ghost predicate Tracks(
    rows: map<RollupKey, Rollup>, exact: map<RollupKey, Rollup>, excess: Excess, w: Option<int>, lateness: int)
  {
    forall key :: !Retired(key, w, lateness) ==> RowTracks(rows, exact, excess, key)
  }

  // ---------------------------------------------------------------- revising an open second

  /** Adjusting a parent keeps what it holds in excess. */
  lemma AdjustTracks(
    rows: map<RollupKey, Rollup>, exact: map<RollupKey, Rollup>, excess: Excess, res: Resolution, base: SecondKey,
    prior: Option<Rollup>, row: Rollup)
    requires res != Second && RowTracks(rows, exact, excess, RowKey(res, base))
    requires AdjustParent(rows, res, base, prior, row).Ok?
    requires var key := RowKey(res, base);
             prior.Some? ==> key in exact && Covers(exact[key].bytes, prior.value.bytes)
    ensures AdjustParent(exact, res, base, prior, row).Ok?
    ensures var key := RowKey(res, base);
            var out, exact' := AdjustParent(rows, res, base, prior, row).value, AdjustParent(exact, res, base, prior, row).value;
            && key in out && out == rows[key := out[key]] && key in exact' && exact' == exact[key := exact'[key]]
            && RowTracks(out, exact', excess, key)
  {
  }

  /** What a ledger says a second's previous value leaves for its parents. */
  lemma PriorCovered(exact: map<RollupKey, Rollup>, finals: Finals, w: Option<int>, lateness: int, base: SecondKey, res: Resolution)
    requires res != Second && Ledger(exact, finals, w, lateness) && RowKey(Second, base) in exact
    ensures base in finals && exact[RowKey(Second, base)] == finals[base]
    ensures RowKey(res, base) in exact && Covers(exact[RowKey(res, base)].bytes, finals[base].bytes)
  {
    var key := RowKey(res, base);
    if Retired(key, w, lateness) {
      ParentsOutlive(res, base, w, lateness);
    }
    BucketTotalRevised(finals, base, finals[base], key);
  }

  /** Rows and exact rows changed alike at three keys. */
  ghost predicate ChangedAt(rows: map<RollupKey, Rollup>, out: map<RollupKey, Rollup>, base: SecondKey) {
    && RowKey(Second, base) in out && RowKey(Minute, base) in out && RowKey(Hour, base) in out
    && forall key :: key != RowKey(Second, base) && key != RowKey(Minute, base) && key != RowKey(Hour, base) ==>
         (key in out <==> key in rows) && (key in out ==> out[key] == rows[key])
  }

  lemma TracksElsewhere(
    rows: map<RollupKey, Rollup>, exact: map<RollupKey, Rollup>, out: map<RollupKey, Rollup>, exact': map<RollupKey, Rollup>,
    excess: Excess, w: Option<int>, lateness: int, base: SecondKey)
    requires Tracks(rows, exact, excess, w, lateness)
    requires ChangedAt(rows, out, base) && ChangedAt(exact, exact', base)
    requires forall res: Resolution :: RowTracks(out, exact', excess, RowKey(res, base))
    ensures Tracks(out, exact', excess, w, lateness)
  {
    forall key | !Retired(key, w, lateness) ensures RowTracks(out, exact', excess, key) {
      if key != RowKey(Second, base) && key != RowKey(Minute, base) && key != RowKey(Hour, base) {
        assert RowTracks(rows, exact, excess, key);
      }
    }
  }

  lemma OpenParents(base: SecondKey, w: Option<int>, lateness: int)
    requires !Late(base, w, lateness)
    ensures forall res: Resolution :: !Retired(RowKey(res, base), w, lateness)
  {
    forall res: Resolution ensures !Retired(RowKey(res, base), w, lateness) {
      if Retired(RowKey(res, base), w, lateness) {
        ParentsOutlive(res, base, w, lateness);
      }
    }
  }

  /** The minute and then the hour of a second whose row has changed. */
  lemma ParentsTrack(
    rows: map<RollupKey, Rollup>, exact: map<RollupKey, Rollup>, excess: Excess, base: SecondKey,
    prior: Option<Rollup>, row: Rollup)
    requires forall res: Resolution :: res != Second ==> RowTracks(rows, exact, excess, RowKey(res, base))
    requires prior.Some? ==> forall res: Resolution :: res != Second ==>
               RowKey(res, base) in exact && Covers(exact[RowKey(res, base)].bytes, prior.value.bytes)
    requires AdjustParent(rows, Minute, base, prior, row).Ok?
    requires AdjustParent(AdjustParent(rows, Minute, base, prior, row).value, Hour, base, prior, row).Ok?
    ensures AdjustParent(exact, Minute, base, prior, row).Ok?
    ensures AdjustParent(AdjustParent(exact, Minute, base, prior, row).value, Hour, base, prior, row).Ok?
    ensures var out := AdjustParent(AdjustParent(rows, Minute, base, prior, row).value, Hour, base, prior, row).value;
            var exact' := AdjustParent(AdjustParent(exact, Minute, base, prior, row).value, Hour, base, prior, row).value;
            var min, hour := RowKey(Minute, base), RowKey(Hour, base);
            && min in out && hour in out && out == rows[min := out[min]][hour := out[hour]]
            && min in exact' && hour in exact' && exact' == exact[min := exact'[min]][hour := exact'[hour]]
            && RowTracks(out, exact', excess, min) && RowTracks(out, exact', excess, hour)
  {
    AdjustTracks(rows, exact, excess, Minute, base, prior, row);
    AdjustTracks(AdjustParent(rows, Minute, base, prior, row).value, AdjustParent(exact, Minute, base, prior, row).value,
                 excess, Hour, base, prior, row);
  }

  /** With the second row stored, its parents are ready to be adjusted alike. */
  lemma StagedReady(
    rows: map<RollupKey, Rollup>, exact: map<RollupKey, Rollup>, excess: Excess, finals: Finals, w: Option<int>, lateness: int,
    base: SecondKey, row: Rollup, prior: Option<Rollup>, res: Resolution)
    requires Ledger(exact, finals, w, lateness) && Tracks(rows, exact, excess, w, lateness) && !Late(base, w, lateness)
    requires res != Second
    requires prior == if RowKey(Second, base) in rows then Some(rows[RowKey(Second, base)]) else None
    ensures var staged, exactStaged := rows[RowKey(Second, base) := row], exact[RowKey(Second, base) := row];
            && RowTracks(staged, exactStaged, excess, RowKey(res, base))
            && (prior.Some? ==>
                  RowKey(res, base) in exactStaged && Covers(exactStaged[RowKey(res, base)].bytes, prior.value.bytes))
  {
    OpenParents(base, w, lateness);
    assert RowTracks(rows, exact, excess, RowKey(Second, base));
    assert RowTracks(rows, exact, excess, RowKey(res, base));
    if prior.Some? {
      PriorCovered(exact, finals, w, lateness, base, res);
    }
  }

  ghost predicate Ready(rows: map<RollupKey, Rollup>, exact: map<RollupKey, Rollup>, excess: Excess, base: SecondKey, prior: Option<Rollup>) {
    && (forall res: Resolution :: res != Second ==> RowTracks(rows, exact, excess, RowKey(res, base)))
    && (prior.Some? ==> forall res: Resolution :: res != Second ==>
          RowKey(res, base) in exact && Covers(exact[RowKey(res, base)].bytes, prior.value.bytes))
  }

  lemma StagedTracks(
    rows: map<RollupKey, Rollup>, exact: map<RollupKey, Rollup>, excess: Excess, w: Option<int>, lateness: int,
    base: SecondKey, row: Rollup, prior: Option<Rollup>)
    requires Tracks(rows, exact, excess, w, lateness)
    requires Ready(rows[RowKey(Second, base) := row], exact[RowKey(Second, base) := row], excess, base, prior)
    requires RowKey(Second, base) in rows <==> RowKey(Second, base) in exact
    requires RowKey(Second, base) in rows ==> rows[RowKey(Second, base)] == exact[RowKey(Second, base)] != row
    requires prior == if RowKey(Second, base) in rows then Some(rows[RowKey(Second, base)]) else None
    requires Revise(rows, base, row).Ok?
    ensures Revise(exact, base, row).Ok?
    ensures Tracks(Revise(rows, base, row).value, Revise(exact, base, row).value, excess, w, lateness)
    ensures forall k :: k != base && RowKey(Second, k) in Revise(rows, base, row).value ==> RowKey(Second, k) in rows
  {
    var sec := RowKey(Second, base);
    ParentsTrack(rows[sec := row], exact[sec := row], excess, base, prior, row);
    TracksElsewhere(rows, exact, Revise(rows, base, row).value, Revise(exact, base, row).value, excess, w, lateness, base);
  }

  /** Revising an open second moves the row and its exact counterpart alike. */
  lemma ReviseTracks(
    rows: map<RollupKey, Rollup>, exact: map<RollupKey, Rollup>, excess: Excess, finals: Finals, w: Option<int>, lateness: int,
    base: SecondKey, row: Rollup)
    requires Ledger(exact, finals, w, lateness) && Tracks(rows, exact, excess, w, lateness) && !Late(base, w, lateness)
    requires Revise(rows, base, row).Ok?
    ensures Revise(exact, base, row).Ok?
    ensures Tracks(Revise(rows, base, row).value, Revise(exact, base, row).value, excess, w, lateness)
    ensures forall k :: k != base && RowKey(Second, k) in Revise(rows, base, row).value ==> RowKey(Second, k) in rows
  {
    var sec := RowKey(Second, base);
    assert RowTracks(rows, exact, excess, sec);
    if !(sec in rows && rows[sec] == row) {
      var prior := if sec in rows then Some(rows[sec]) else None;
      forall res: Resolution | res != Second
        ensures RowTracks(rows[sec := row], exact[sec := row], excess, RowKey(res, base))
        ensures prior.Some? ==> RowKey(res, base) in exact[sec := row]
                                && Covers(exact[sec := row][RowKey(res, base)].bytes, prior.value.bytes)
      {
        StagedReady(rows, exact, excess, finals, w, lateness, base, row, prior, res);
      }
      StagedTracks(rows, exact, excess, w, lateness, base, row, prior);
    }
  }

  // ---------------------------------------------------------------- counting a retired second again

  /** A parent that already holds the second keeps its coverage when the second is added again. */
  lemma SameCoverage(finals: Finals, key: RollupKey, base: SecondKey, claimed: Coverage)
    requires base in Members(finals, key) && Conservative(finals, key, claimed)
    ensures Merge(claimed, finals[base].coverage) == claimed
  {
  }

  lemma AdjustRecounts(
    rows: map<RollupKey, Rollup>, exact: map<RollupKey, Rollup>, excess: Excess, finals: Finals, w: Option<int>, lateness: int,
    res: Resolution, base: SecondKey)
    requires res != Second && Ledger(exact, finals, w, lateness) && base in finals
    requires !Retired(RowKey(res, base), w, lateness) && RowTracks(rows, exact, excess, RowKey(res, base))
    requires AdjustParent(rows, res, base, None, finals[base]).Ok?
    ensures var key := RowKey(res, base);
            var out := AdjustParent(rows, res, base, None, finals[base]).value;
            RowTracks(out, exact, Raised(excess, key, finals[base].bytes), key)
  {
    var key := RowKey(res, base);
    assert key in exact && base in Members(finals, key);
    SameCoverage(finals, key, base, exact[key].coverage);
  }

  lemma AdjustOnly(rows: map<RollupKey, Rollup>, res: Resolution, base: SecondKey, row: Rollup)
    requires AdjustParent(rows, res, base, None, row).Ok?
    ensures var key := RowKey(res, base);
            var out := AdjustParent(rows, res, base, None, row).value;
            key in out && out == rows[key := out[key]]
  {
  }

  lemma RowTracksSame(
    rows: map<RollupKey, Rollup>, rows': map<RollupKey, Rollup>, exact: map<RollupKey, Rollup>, excess: Excess, excess': Excess,
    key: RollupKey)
    requires RowTracks(rows, exact, excess, key) && At(excess, key) == At(excess', key)
    requires (key in rows <==> key in rows') && (key in rows ==> rows[key] == rows'[key])
    ensures RowTracks(rows', exact, excess', key)
  {
  }

  /** Counting a retired second again leaves its live parents holding its bytes once more. */
  lemma RecountTracks(
    rows: map<RollupKey, Rollup>, exact: map<RollupKey, Rollup>, excess: Excess, finals: Finals, w: Option<int>, lateness: int,
    base: SecondKey)
    requires Ledger(exact, finals, w, lateness) && Tracks(rows, exact, excess, w, lateness)
    requires Late(base, w, lateness) && base in finals && RowKey(Second, base) !in rows
    requires Revise(rows, base, finals[base]).Ok?
    ensures Tracks(Revise(rows, base, finals[base]).value, exact, Recount(excess, base, finals[base].bytes), w, lateness)
    ensures forall k :: k != base && RowKey(Second, k) in Revise(rows, base, finals[base]).value ==> RowKey(Second, k) in rows
  {
    var row, sec, min, hour := finals[base], RowKey(Second, base), RowKey(Minute, base), RowKey(Hour, base);
    var staged := rows[sec := row];
    var minuteDone := AdjustParent(staged, Minute, base, None, row).value;
    var out := AdjustParent(minuteDone, Hour, base, None, row).value;
    AdjustOnly(staged, Minute, base, row);
    AdjustOnly(minuteDone, Hour, base, row);
    var raised := Raised(excess, min, row.bytes);
    var after := Recount(excess, base, row.bytes);
    forall key | !Retired(key, w, lateness) ensures RowTracks(out, exact, after, key) {
      assert RowTracks(rows, exact, excess, key);
      if key == min {
        AdjustRecounts(staged, exact, excess, finals, w, lateness, Minute, base);
        RowTracksSame(minuteDone, out, exact, raised, after, key);
      } else if key == hour {
        RowTracksSame(rows, minuteDone, exact, excess, raised, key);
        AdjustRecounts(minuteDone, exact, raised, finals, w, lateness, Hour, base);
      } else {
        RowTracksSame(rows, out, exact, excess, after, key);
      }
    }
  }

  // ---------------------------------------------------------------- a whole walk

  /** Each selected second is open, or retired at the value it was finalised with. */
  ghost predicate Walkable(
    rows: map<RollupKey, Rollup>, finals: Finals, w: Option<int>, lateness: int, order: seq<SecondKey>, selected: map<SecondKey, Rollup>)
  {
    && (forall i, j :: 0 <= i < j < |order| ==> order[i] != order[j])
    && forall k :: k in order ==>
         k in selected
         && (Late(k, w, lateness) ==> k in finals && finals[k] == selected[k] && RowKey(Second, k) !in rows)
  }

  lemma WalkableInit(
    rows: map<RollupKey, Rollup>, finals: Finals, w: Option<int>, lateness: int, order: seq<SecondKey>, selected: map<SecondKey, Rollup>)
    requires order != [] && Walkable(rows, finals, w, lateness, order, selected)
    ensures Walkable(rows, finals, w, lateness, order[..|order| - 1], selected)
    ensures order[|order| - 1] !in order[..|order| - 1]
  {
  }

  /** A walk leaves rows that exceed an exact ledger by the excess and its own recounts. */
  lemma {:induction false} WalkTracks(
    rows: map<RollupKey, Rollup>, exact: map<RollupKey, Rollup>, excess: Excess, finals: Finals, w: Option<int>, lateness: int,
    order: seq<SecondKey>, selected: map<SecondKey, Rollup>) returns (exact': map<RollupKey, Rollup>)
    requires Ledger(exact, finals, w, lateness) && Tracks(rows, exact, excess, w, lateness)
    requires Walkable(rows, finals, w, lateness, order, selected)
    requires ReviseAll(rows, order, selected).Ok?
    ensures Ledger(exact', Overlay(finals, order, selected), w, lateness)
    ensures Tracks(ReviseAll(rows, order, selected).value, exact', Recounted(excess, order, selected, w, lateness), w, lateness)
    ensures forall k :: RowKey(Second, k) in ReviseAll(rows, order, selected).value ==> k in order || RowKey(Second, k) in rows
  {
    if order == [] {
      assert Overlay(finals, order, selected) == finals;
      exact' := exact;
    } else {
      var n := |order| - 1;
      WalkableInit(rows, finals, w, lateness, order, selected);
      var before := WalkTracks(rows, exact, excess, finals, w, lateness, order[..n], selected);
      exact' := WalkLast(rows, before, excess, finals, w, lateness, order, selected);
    }
  }

  /** One selected second, open or retired. */
  lemma StepTracks(
    rows: map<RollupKey, Rollup>, exact: map<RollupKey, Rollup>, excess: Excess, finals: Finals, w: Option<int>, lateness: int,
    base: SecondKey, row: Rollup) returns (exact': map<RollupKey, Rollup>)
    requires Ledger(exact, finals, w, lateness) && Tracks(rows, exact, excess, w, lateness)
    requires Late(base, w, lateness) ==> base in finals && finals[base] == row && RowKey(Second, base) !in rows
    requires Revise(rows, base, row).Ok?
    ensures Ledger(exact', finals[base := row], w, lateness)
    ensures var after := if Late(base, w, lateness) then Recount(excess, base, row.bytes) else excess;
            Tracks(Revise(rows, base, row).value, exact', after, w, lateness)
    ensures forall k :: k != base && RowKey(Second, k) in Revise(rows, base, row).value ==> RowKey(Second, k) in rows
  {
    if Late(base, w, lateness) {
      assert finals[base := row] == finals;
      RecountTracks(rows, exact, excess, finals, w, lateness, base);
      exact' := exact;
    } else {
      ReviseTracks(rows, exact, excess, finals, w, lateness, base, row);
      ReviseKeepsLedger(exact, finals, w, lateness, base, row);
      exact' := Revise(exact, base, row).value;
    }
  }

  /** What the last step of a walk finds. */
  lemma LastReady(
    rows: map<RollupKey, Rollup>, done: map<RollupKey, Rollup>, finals: Finals, w: Option<int>, lateness: int,
    order: seq<SecondKey>, selected: map<SecondKey, Rollup>)
    requires order != [] && Walkable(rows, finals, w, lateness, order, selected)
    requires forall k :: RowKey(Second, k) in done ==> k in order[..|order| - 1] || RowKey(Second, k) in rows
    ensures var init, base := order[..|order| - 1], order[|order| - 1];
            && base !in init && order == init + [base] && (forall k :: k in init ==> k in selected)
            && (Late(base, w, lateness) ==>
                  var so := Overlay(finals, init, selected);
                  base in so && so[base] == selected[base] && RowKey(Second, base) !in done)
  {
    WalkableInit(rows, finals, w, lateness, order, selected);
  }

  lemma WalkLast(
    rows: map<RollupKey, Rollup>, before: map<RollupKey, Rollup>, excess: Excess, finals: Finals, w: Option<int>, lateness: int,
    order: seq<SecondKey>, selected: map<SecondKey, Rollup>) returns (exact': map<RollupKey, Rollup>)
    requires order != [] && Walkable(rows, finals, w, lateness, order, selected)
    requires ReviseAll(rows, order, selected).Ok?
    requires var init := order[..|order| - 1];
             && Ledger(before, Overlay(finals, init, selected), w, lateness)
             && Tracks(ReviseAll(rows, init, selected).value, before, Recounted(excess, init, selected, w, lateness), w, lateness)
             && forall k :: RowKey(Second, k) in ReviseAll(rows, init, selected).value ==> k in init || RowKey(Second, k) in rows
    ensures Ledger(exact', Overlay(finals, order, selected), w, lateness)
    ensures Tracks(ReviseAll(rows, order, selected).value, exact', Recounted(excess, order, selected, w, lateness), w, lateness)
    ensures forall k :: RowKey(Second, k) in ReviseAll(rows, order, selected).value ==> k in order || RowKey(Second, k) in rows
  {
    var n := |order| - 1;
    var done := ReviseAll(rows, order[..n], selected).value;
    LastReady(rows, done, finals, w, lateness, order, selected);
    OverlaySnoc(finals, order, selected);
    exact' := StepTracks(
      done, before, Recounted(excess, order[..n], selected, w, lateness), Overlay(finals, order[..n], selected), w, lateness,
      order[n], selected[order[n]]);
  }
}
