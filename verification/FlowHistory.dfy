/** The finalised seconds against the accepted observations themselves. */
module FlowHistory {
  import opened Wrappers
  import opened Accounting
  import opened FlowModel
  import opened FlowLedger
  import opened FlowRuns

  // ---------------------------------------------------------------- sums over accepted observations

  ghost predicate IsFor(o: Observation, key: SourceKey) {
    o.metadata.Ok? && KeyOf(o) == key
  }

  ghost predicate Reported(accepted: seq<Observation>, key: SourceKey) {
    exists i :: 0 <= i < |accepted| && IsFor(accepted[i], key)
  }

  /** The bytes one source reported for one second, over the accepted observations. */
  ghost function AcceptedBytes(accepted: seq<Observation>, key: SourceKey): ByteCount {
    if accepted == [] then ByteCount(0, 0)
    else
      var before, o := AcceptedBytes(accepted[..|accepted| - 1], key), accepted[|accepted| - 1];
      if IsFor(o, key) then ByteCount(before.upload + o.bytes.upload, before.download + o.bytes.download) else before
  }

  lemma AcceptedSnoc(accepted: seq<Observation>, o: Observation, key: SourceKey)
    ensures !IsFor(o, key) ==> AcceptedBytes(accepted + [o], key) == AcceptedBytes(accepted, key)
    ensures IsFor(o, key) ==> IsSum(AcceptedBytes(accepted + [o], key), AcceptedBytes(accepted, key), o.bytes)
    ensures Reported(accepted + [o], key) <==> Reported(accepted, key) || IsFor(o, key)
  {
    var more := accepted + [o];
    assert more[..|accepted|] == accepted;
    assert more[|accepted|] == o;
    if i :| 0 <= i < |accepted| && IsFor(accepted[i], key) {
      assert IsFor(more[i], key);
    }
  }

  lemma {:induction false} NothingReported(accepted: seq<Observation>, key: SourceKey)
    requires !Reported(accepted, key)
    ensures IsZero(AcceptedBytes(accepted, key))
  {
    if accepted != [] {
      var init, last := accepted[..|accepted| - 1], accepted[|accepted| - 1];
      assert forall i :: 0 <= i < |init| ==> init[i] == accepted[i];
      assert !IsFor(accepted[|accepted| - 1], key);
      NothingReported(init, key);
    }
  }

  /** Observations of other rows change nothing. */
  lemma {:induction false} NothingSince(accepted: seq<Observation>, n: nat, key: SourceKey)
    requires n <= |accepted| && forall i :: n <= i < |accepted| ==> !IsFor(accepted[i], key)
    ensures AcceptedBytes(accepted[..n], key) == AcceptedBytes(accepted, key)
    ensures Reported(accepted[..n], key) <==> Reported(accepted, key)
  {
    if n == |accepted| {
      assert accepted[..n] == accepted;
    } else {
      var init, last := accepted[..|accepted| - 1], accepted[|accepted| - 1];
      assert init[..n] == accepted[..n] && accepted == init + [last];
      NothingSince(init, n, key);
      AcceptedSnoc(init, last, key);
    }
  }

  // ---------------------------------------------------------------- open rows

  /** The per-source rows of this second have been dropped at watermark `w`. */
  ghost predicate Dropped(cfg: Config, w: Option<int>, epoch: int) {
    w.Some? && epoch + 1 < Secs(w.value - cfg.lateness)
  }

  /** An open row holds exactly what its source reported; a row is missing only once dropped, and then finalised. */
  ghost predicate RowsExact(cfg: Config, t: Trail) {
    && (forall r :: r in t.state.seconds ==>
          && Reported(t.accepted, r) && t.state.seconds[r] == AcceptedBytes(t.accepted, r)
          && !Dropped(cfg, t.state.watermark, r.base.epoch))
    && forall r :: Reported(t.accepted, r) && r !in t.state.seconds ==>
         Dropped(cfg, t.state.watermark, r.base.epoch) && r.base in t.finals
  }

  lemma TooLateWhenDropped(cfg: Config, w: int, epoch: int)
    ensures Dropped(cfg, Some(w), epoch) ==> Nanos(epoch + 1) + cfg.lateness < w
  {
  }

  lemma AcceptedNotDropped(cfg: Config, sources: Registry, s: State, o: Observation)
    requires Observe(cfg, sources, s, o).Ok?
    ensures o.metadata.Ok? && !Dropped(cfg, s.watermark, KeyOf(o).base.epoch)
  {
    if s.watermark.Some? {
      TooLateWhenDropped(cfg, s.watermark.value, Secs(o.event));
    }
  }

  lemma ObservedRow(cfg: Config, sources: Registry, t: Trail, o: Observation)
    requires RowsExact(cfg, t) && Observe(cfg, sources, t.state, o).Ok?
    ensures o.metadata.Ok? && RaisedRow(t.state.seconds, o) == AcceptedBytes(t.accepted + [o], KeyOf(o))
  {
    AcceptedNotDropped(cfg, sources, t.state, o);
    AcceptedSnoc(t.accepted, o, KeyOf(o));
    if KeyOf(o) !in t.state.seconds {
      NothingReported(t.accepted, KeyOf(o));
    }
  }

  lemma ObserveShape(cfg: Config, sources: Registry, s: State, o: Observation)
    requires Observe(cfg, sources, s, o).Ok?
    ensures o.metadata.Ok?
    ensures var after := Observe(cfg, sources, s, o).value;
            && after.seconds == s.seconds[KeyOf(o) := RaisedRow(s.seconds, o)]
            && after.watermark == s.watermark
  {
  }

  lemma ObserveRowsExact(cfg: Config, sources: Registry, t: Trail, o: Observation)
    requires RowsExact(cfg, t)
    ensures RowsExact(cfg, ObserveStep(cfg, sources, t, o))
  {
    if Observe(cfg, sources, t.state, o).Ok? {
      ObserveShape(cfg, sources, t.state, o);
      ObservedRow(cfg, sources, t, o);
      AcceptedNotDropped(cfg, sources, t.state, o);
      RaisedRowsExact(cfg, t, ObserveStep(cfg, sources, t, o), o);
    }
  }

  lemma RaisedRowsExact(cfg: Config, t: Trail, after: Trail, o: Observation)
    requires RowsExact(cfg, t) && o.metadata.Ok? && !Dropped(cfg, t.state.watermark, KeyOf(o).base.epoch)
    requires after.accepted == t.accepted + [o] && after.finals == t.finals && after.state.watermark == t.state.watermark
    requires after.state.seconds == t.state.seconds[KeyOf(o) := AcceptedBytes(t.accepted + [o], KeyOf(o))]
    ensures RowsExact(cfg, after)
  {
    forall r
      ensures Reported(after.accepted, r) <==> Reported(t.accepted, r) || r == KeyOf(o)
      ensures r != KeyOf(o) ==> AcceptedBytes(after.accepted, r) == AcceptedBytes(t.accepted, r)
    {
      AcceptedSnoc(t.accepted, o, r);
    }
  }

  lemma SecsMonotone(a: int, b: int)
    requires a <= b
    ensures Secs(a) <= Secs(b)
  {
  }

  lemma AdvancedTrail(
    cfg: Config, t: Trail, selected: map<SecondKey, Rollup>, order: seq<SecondKey>, next: int, now: int)
    requires ValidConfig(cfg) && forall k :: k in order ==> k in selected
    requires Advance(cfg, t.state, selected, order, next, now).Ok?
    ensures var after := AdvanceStep(cfg, t, selected, order, next, now);
            && after.accepted == t.accepted && after.finals == t.finals + selected && after.state.watermark == Some(next)
            && after.state.seconds == OpenRows(t.state.seconds, Secs(next - cfg.lateness))
    ensures t.state.watermark.Some? ==> t.state.watermark.value <= next
  {
    AdvanceShape(cfg, t.state, selected, order, next, now);
  }

  lemma AdvanceRowsExact(
    cfg: Config, t: Trail, selected: map<SecondKey, Rollup>, order: seq<SecondKey>, next: int, now: int)
    requires ValidConfig(cfg) && RowsExact(cfg, t)
    requires selected.Keys == ClosedBases(t.state.seconds, next) && IsOrder(order, selected.Keys)
    ensures RowsExact(cfg, AdvanceStep(cfg, t, selected, order, next, now))
  {
    if Advance(cfg, t.state, selected, order, next, now).Ok? {
      AdvancedTrail(cfg, t, selected, order, next, now);
      SecsMonotone(next - cfg.lateness, next);
      if t.state.watermark.Some? {
        SecsMonotone(t.state.watermark.value - cfg.lateness, next - cfg.lateness);
      }
      PrunedRowsExact(cfg, t, AdvanceStep(cfg, t, selected, order, next, now), selected, next);
    }
  }

  lemma PrunedRowsExact(cfg: Config, t: Trail, after: Trail, selected: map<SecondKey, Rollup>, next: int)
    requires RowsExact(cfg, t) && selected.Keys == ClosedBases(t.state.seconds, next)
    requires after.accepted == t.accepted && after.finals == t.finals + selected && after.state.watermark == Some(next)
    requires after.state.seconds == OpenRows(t.state.seconds, Secs(next - cfg.lateness))
    requires Secs(next - cfg.lateness) <= Secs(next)
    requires t.state.watermark.Some? ==> Secs(t.state.watermark.value - cfg.lateness) <= Secs(next - cfg.lateness)
    ensures RowsExact(cfg, after)
  {
    forall r | r in t.state.seconds && r !in after.state.seconds
      ensures Dropped(cfg, Some(next), r.base.epoch) && r.base in after.finals
    {
      assert r.base in ClosedBases(t.state.seconds, next);
    }
  }

  // ---------------------------------------------------------------- finalised seconds

  /** `row` carries what the best source to report the second reported. */
  ghost predicate BestAccepted(accepted: seq<Observation>, sources: Registry, base: SecondKey, row: Rollup) {
    exists s :: BestSource(accepted, sources, base, s)
      && row == Rollup(AcceptedBytes(accepted, SourceKey(base, s)), CoverageOf(sources[s]))
  }

  ghost predicate BestSource(accepted: seq<Observation>, sources: Registry, base: SecondKey, s: nat) {
    && s in sources && Reported(accepted, SourceKey(base, s))
    && forall u :: Reported(accepted, SourceKey(base, u)) ==> Beats(sources, s, u)
  }

  /** How many observations had been accepted when the watermark last advanced. */
  ghost function Settled(cfg: Config, sources: Registry, ops: seq<Op>): nat {
    if ops == [] then 0
    else
      var init, op := ops[..|ops| - 1], ops[|ops| - 1];
      if Advances(cfg, sources, Run(cfg, sources, init), op) then |Run(cfg, sources, init).accepted|
      else Settled(cfg, sources, init)
  }

  ghost predicate Advances(cfg: Config, sources: Registry, t: Trail, op: Op) {
    && op.AdvanceOp? && IsSelection(op.selected, t.state.seconds, sources, op.next) && IsOrder(op.order, op.selected.Keys)
    && Advance(cfg, t.state, op.selected, op.order, op.next, op.now).Ok?
  }

  /**
   Every finalised second holds the best source's accepted bytes as of the last advance, every closed
   second reported by then is finalised, and nothing accepted since belongs to a dropped second.
   */
  ghost predicate FinalsExact(cfg: Config, sources: Registry, t: Trail, n: nat) {
    && n <= |t.accepted|
    && (forall base :: base in t.finals ==>
          t.state.watermark.Some? && base.epoch + 1 <= Secs(t.state.watermark.value)
          && BestAccepted(t.accepted[..n], sources, base, t.finals[base]))
    && (t.state.watermark.Some? ==>
          forall r :: Reported(t.accepted[..n], r) && r.base.epoch + 1 <= Secs(t.state.watermark.value) ==>
            r.base in t.finals)
    && forall i :: n <= i < |t.accepted| ==>
         t.accepted[i].metadata.Ok? && !Dropped(cfg, t.state.watermark, KeyOf(t.accepted[i]).base.epoch)
  }

  lemma ObserveFinalsExact(cfg: Config, sources: Registry, t: Trail, n: nat, o: Observation)
    requires FinalsExact(cfg, sources, t, n)
    ensures FinalsExact(cfg, sources, ObserveStep(cfg, sources, t, o), n)
  {
    if Observe(cfg, sources, t.state, o).Ok? {
      AcceptedNotDropped(cfg, sources, t.state, o);
      ObserveShape(cfg, sources, t.state, o);
      assert (t.accepted + [o])[..n] == t.accepted[..n];
    }
  }

  /** The best of the open rows is the best of the accepted observations. */
  lemma BestRowAccepted(cfg: Config, sources: Registry, t: Trail, base: SecondKey, row: Rollup)
    requires RowsExact(cfg, t) && IsBestRow(t.state.seconds, sources, base, row)
    ensures BestAccepted(t.accepted, sources, base, row)
  {
    var s :| Wins(t.state.seconds, sources, base, s) && row == Rollup(t.state.seconds[SourceKey(base, s)], CoverageOf(sources[s]));
    assert SourceKey(base, s) in t.state.seconds;
    forall u | Reported(t.accepted, SourceKey(base, u)) ensures Beats(sources, s, u) {
      assert SourceKey(base, u) in t.state.seconds;
    }
    assert BestSource(t.accepted, sources, base, s);
  }

  /** A dropped second has heard nothing since the last advance. */
  lemma DroppedUnchanged(cfg: Config, sources: Registry, t: Trail, n: nat, base: SecondKey, row: Rollup)
    requires FinalsExact(cfg, sources, t, n) && Dropped(cfg, t.state.watermark, base.epoch)
    requires BestAccepted(t.accepted[..n], sources, base, row)
    ensures BestAccepted(t.accepted, sources, base, row)
  {
    forall u
      ensures AcceptedBytes(t.accepted[..n], SourceKey(base, u)) == AcceptedBytes(t.accepted, SourceKey(base, u))
      ensures Reported(t.accepted[..n], SourceKey(base, u)) <==> Reported(t.accepted, SourceKey(base, u))
    {
      NothingSince(t.accepted, n, SourceKey(base, u));
    }
    var s :| BestSource(t.accepted[..n], sources, base, s)
             && row == Rollup(AcceptedBytes(t.accepted[..n], SourceKey(base, s)), CoverageOf(sources[s]));
    assert BestSource(t.accepted, sources, base, s);
  }

  lemma ReselectedOrDropped(cfg: Config, sources: Registry, t: Trail, n: nat, base: SecondKey, next: int)
    requires RowsExact(cfg, t) && FinalsExact(cfg, sources, t, n) && base in t.finals
    requires t.state.watermark.Some? ==> t.state.watermark.value <= next
    ensures base in ClosedBases(t.state.seconds, next) || Dropped(cfg, t.state.watermark, base.epoch)
  {
    SecsMonotone(t.state.watermark.value, next);
    var s :| BestSource(t.accepted[..n], sources, base, s);
    var i :| 0 <= i < n && IsFor(t.accepted[..n][i], SourceKey(base, s));
    assert IsFor(t.accepted[i], SourceKey(base, s));
    assert Reported(t.accepted, SourceKey(base, s));
  }

  lemma AdvanceFinals(cfg: Config, sources: Registry, t: Trail, n: nat, selected: map<SecondKey, Rollup>, next: int, base: SecondKey)
    requires RowsExact(cfg, t) && FinalsExact(cfg, sources, t, n) && IsSelection(selected, t.state.seconds, sources, next)
    requires t.state.watermark.Some? ==> t.state.watermark.value <= next
    requires base in t.finals + selected
    ensures base.epoch + 1 <= Secs(next) && BestAccepted(t.accepted, sources, base, (t.finals + selected)[base])
  {
    if base in selected {
      assert base in ClosedBases(t.state.seconds, next);
      BestRowAccepted(cfg, sources, t, base, selected[base]);
    } else {
      SecsMonotone(t.state.watermark.value, next);
      ReselectedOrDropped(cfg, sources, t, n, base, next);
      DroppedUnchanged(cfg, sources, t, n, base, t.finals[base]);
    }
  }

  /** Every closed second reported so far is finalised by the advance. */
  lemma ClosedFinal(cfg: Config, t: Trail, selected: map<SecondKey, Rollup>, next: int, r: SourceKey)
    requires RowsExact(cfg, t) && selected.Keys == ClosedBases(t.state.seconds, next)
    requires Reported(t.accepted, r) && r.base.epoch + 1 <= Secs(next)
    ensures r.base in t.finals + selected
  {
    if r in t.state.seconds {
      assert r.base in ClosedBases(t.state.seconds, next);
    }
  }

  /** The parts of exactness, put together for a trail whose last advance saw everything accepted. */
  lemma ExactOf(cfg: Config, sources: Registry, after: Trail, next: int)
    requires after.state.watermark == Some(next)
    requires forall base :: base in after.finals ==>
               base.epoch + 1 <= Secs(next) && BestAccepted(after.accepted, sources, base, after.finals[base])
    requires forall r :: Reported(after.accepted, r) && r.base.epoch + 1 <= Secs(next) ==> r.base in after.finals
    ensures FinalsExact(cfg, sources, after, |after.accepted|)
  {
    assert after.accepted[..|after.accepted|] == after.accepted;
  }

  lemma AdvanceFinalsExact(cfg: Config, sources: Registry, t: Trail, n: nat, op: Op)
    requires ValidConfig(cfg) && RowsExact(cfg, t) && FinalsExact(cfg, sources, t, n) && Advances(cfg, sources, t, op)
    ensures FinalsExact(cfg, sources, AdvanceStep(cfg, t, op.selected, op.order, op.next, op.now), |t.accepted|)
  {
    AdvancedTrail(cfg, t, op.selected, op.order, op.next, op.now);
    var after := AdvanceStep(cfg, t, op.selected, op.order, op.next, op.now);
    forall base | base in after.finals
      ensures base.epoch + 1 <= Secs(op.next) && BestAccepted(t.accepted, sources, base, after.finals[base])
    {
      AdvanceFinals(cfg, sources, t, n, op.selected, op.next, base);
    }
    forall r | Reported(t.accepted, r) && r.base.epoch + 1 <= Secs(op.next) ensures r.base in after.finals {
      ClosedFinal(cfg, t, op.selected, op.next, r);
    }
    ExactOf(cfg, sources, after, op.next);
  }

  lemma {:induction false} RunExact(cfg: Config, sources: Registry, ops: seq<Op>)
    requires ValidConfig(cfg)
    ensures RowsExact(cfg, Run(cfg, sources, ops))
    ensures FinalsExact(cfg, sources, Run(cfg, sources, ops), Settled(cfg, sources, ops))
  {
    if ops != [] {
      var init, op := ops[..|ops| - 1], ops[|ops| - 1];
      var t, n := Run(cfg, sources, init), Settled(cfg, sources, init);
      RunExact(cfg, sources, init);
      match op {
        case ObserveOp(o) =>
          ObserveRowsExact(cfg, sources, t, o);
          ObserveFinalsExact(cfg, sources, t, n, o);
        case AdvanceOp(selected, order, next, now) =>
          if IsSelection(selected, t.state.seconds, sources, next) && IsOrder(order, selected.Keys) {
            AdvanceRowsExact(cfg, t, selected, order, next, now);
            if Advances(cfg, sources, t, op) {
              AdvanceFinalsExact(cfg, sources, t, n, op);
            }
          }
      }
    }
  }

  /** After any run a finalised second holds exactly the bytes the best source to report it had reported by the last advance. */
  lemma FinalsAreAccepted(cfg: Config, sources: Registry, ops: seq<Op>, base: SecondKey)
    requires ValidConfig(cfg) && base in Run(cfg, sources, ops).finals
    ensures Settled(cfg, sources, ops) <= |Run(cfg, sources, ops).accepted|
    ensures var t := Run(cfg, sources, ops);
            BestAccepted(t.accepted[..Settled(cfg, sources, ops)], sources, base, t.finals[base])
  {
    RunExact(cfg, sources, ops);
  }
}
