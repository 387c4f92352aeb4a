/**
 Why advances must land on whole seconds: a watermark that cuts a second retires the second's row
 while keeping its open per-source row, and the next advance counts that second again.
 */
module FlowCutSecond {
  import opened Wrappers
  import opened Sets
  import opened Accounting
  import opened FlowModel
  import opened FlowRuns

  /** No lateness, and room for a few rows. */
  predicate CutConfig(cfg: Config) {
    ValidConfig(cfg) && cfg.lateness == 0 && 2 <= cfg.maxFinalizedRows && 2 <= cfg.maxOutputs && 100 <= cfg.maxWork
  }

  function CutKey(): SecondKey {
    SecondKey(0, Dimension("device", Tcp, Internet, 1, None))
  }

  function CutRow(): Rollup {
    Rollup(ByteCount(1, 0), Complete)
  }

  lemma ReviseCutRow(rows: map<RollupKey, Rollup>, n: nat)
    requires n < 10 && RowKey(Second, CutKey()) !in rows
    requires forall res: Resolution :: res != Second ==>
               (RowKey(res, CutKey()) in rows <==> 0 < n) &&
               (RowKey(res, CutKey()) in rows ==> rows[RowKey(res, CutKey())] == Rollup(ByteCount(n, 0), Complete))
    ensures var sec, min, hour := RowKey(Second, CutKey()), RowKey(Minute, CutKey()), RowKey(Hour, CutKey());
            var raised := Rollup(ByteCount(n + 1, 0), Complete);
            ReviseAll(rows, [CutKey()], map[CutKey() := CutRow()]) ==
            Ok(rows[sec := CutRow()][min := raised][hour := raised])
  {
    assert [CutKey()][..0] == [];
    var raised := Rollup(ByteCount(n + 1, 0), Complete);
    var staged := rows[RowKey(Second, CutKey()) := CutRow()];
    assert AdjustParent(staged, Minute, CutKey(), None, CutRow()) == Ok(staged[RowKey(Minute, CutKey()) := raised]);
  }

  /** The minute and the hour, each holding `n` bytes; nothing at all for none. */
  function CutParents(n: nat): map<RollupKey, Rollup> {
    if n == 0 then map[]
    else map[RowKey(Minute, CutKey()) := Rollup(ByteCount(n, 0), Complete), RowKey(Hour, CutKey()) := Rollup(ByteCount(n, 0), Complete)]
  }

  lemma CutRows(n: nat)
    requires n < 2
    ensures var rows := ReviseAll(CutParents(n), [CutKey()], map[CutKey() := CutRow()]);
            rows.Ok? && LiveRows(rows.value, 1_500_000_000, 0) == CutParents(n + 1)
  {
    ReviseCutRow(CutParents(n), n);
  }

  lemma CutCosts(n: nat)
    requires n < 2
    ensures |CutParents(n)| <= 2 && |CutParents(n + 1)| <= 2 && |CutParents(n).Keys + CutParents(n + 1).Keys| <= 2
    ensures |Diff(CutParents(n), CutParents(n + 1))| <= 2
  {
    var both := {RowKey(Minute, CutKey()), RowKey(Hour, CutKey())};
    assert CutParents(n).Keys <= both && CutParents(n + 1).Keys <= both;
    SubsetCard(CutParents(n).Keys, both);
    SubsetCard(CutParents(n + 1).Keys, both);
    SubsetCard(CutParents(n).Keys + CutParents(n + 1).Keys, both);
    SubsetCard(Diff(CutParents(n), CutParents(n + 1)).Keys, both);
  }

  lemma CutSettle(cfg: Config, s: State, rows: map<RollupKey, Rollup>, n: nat, at: int)
    requires CutConfig(cfg) && at == 1_500_000_000
    requires n < 2 && s.seconds == map[SourceKey(CutKey(), 0) := ByteCount(1, 0)]
    requires s.emitted == CutParents(n) && LiveRows(rows, at, 0) == CutParents(n + 1)
    ensures var r := Settle(cfg, s, rows, at, at);
            r.Ok? && r.value.0 == Pruned(cfg, s, CutParents(n + 1), at, at)
  {
    CutCosts(n);
    assert |s.seconds| == 1;
  }

  /** Advancing to 1.5 s retires second 0 but keeps its open row, and counts it into its minute and hour. */
  lemma CutAdvance(cfg: Config, s: State, n: nat, at: int)
    requires CutConfig(cfg) && at == 1_500_000_000
    requires n < 2 && s.seconds == map[SourceKey(CutKey(), 0) := ByteCount(1, 0)]
    requires s.lastArrival.Some? ==> s.lastArrival.value <= at
    requires s.watermark.Some? ==> s.watermark.value <= at
    requires s.emitted == CutParents(n)
    ensures var r := Advance(cfg, s, map[CutKey() := CutRow()], [CutKey()], at, at);
            r.Ok? && r.value.0 == Pruned(cfg, s, CutParents(n + 1), at, at)
  {
    CutRows(n);
    CutCosts(n);
    CutSettle(cfg, s, ReviseAll(s.emitted, [CutKey()], map[CutKey() := CutRow()]).value, n, at);
    assert |s.seconds| == 1;
  }

  lemma CutSelection(seconds: map<SourceKey, ByteCount>, sources: Registry, at: int)
    requires seconds == map[SourceKey(CutKey(), 0) := ByteCount(1, 0)] && at == 1_500_000_000
    requires 0 in sources && sources[0] == Gateway
    ensures IsSelection(map[CutKey() := CutRow()], seconds, sources, at)
    ensures IsOrder([CutKey()], (map[CutKey() := CutRow()]).Keys)
  {
    assert SourceKey(CutKey(), 0) in seconds;
    assert ClosedBases(seconds, at) == {CutKey()};
    assert Wins(seconds, sources, CutKey(), 0);
  }

  /** One byte of second 0 is open and has been counted `n` times. */
  ghost predicate Cut(t: Trail, n: nat) {
    && t.state.seconds == map[SourceKey(CutKey(), 0) := ByteCount(1, 0)]
    && (t.state.lastArrival.Some? ==> t.state.lastArrival.value <= 1_500_000_000)
    && (t.state.watermark.Some? ==> t.state.watermark.value <= 1_500_000_000)
    && t.state.emitted == CutParents(n)
    && t.finals == if n == 0 then map[] else map[CutKey() := CutRow()]
  }

  lemma CutPruned(cfg: Config, s: State, n: nat, at: int)
    requires CutConfig(cfg) && at == 1_500_000_000
    requires s.seconds == map[SourceKey(CutKey(), 0) := ByteCount(1, 0)]
    ensures Pruned(cfg, s, CutParents(n), at, at).seconds == s.seconds
  {
  }

  lemma CutTrail(t: Trail, after: State, n: nat, at: int)
    requires at == 1_500_000_000 && Cut(t, n)
    requires after.seconds == t.state.seconds && after.emitted == CutParents(n + 1)
    requires after.lastArrival == Some(at) && after.watermark == Some(at)
    ensures Cut(Trail(after, t.finals + map[CutKey() := CutRow()], t.accepted), n + 1)
  {
  }

  lemma CutAdvanceStep(cfg: Config, t: Trail, n: nat, at: int)
    requires CutConfig(cfg) && at == 1_500_000_000 && n < 2 && Cut(t, n)
    ensures Cut(AdvanceStep(cfg, t, map[CutKey() := CutRow()], [CutKey()], at, at), n + 1)
  {
    CutAdvance(cfg, t.state, n, at);
    CutPruned(cfg, t.state, n + 1, at);
    var after := Pruned(cfg, t.state, CutParents(n + 1), at, at);
    CutTrail(t, after, n, at);
    assert AdvanceStep(cfg, t, map[CutKey() := CutRow()], [CutKey()], at, at) ==
        Trail(after, t.finals + map[CutKey() := CutRow()], t.accepted);
  }

  lemma CutStep(cfg: Config, sources: Registry, t: Trail, n: nat, op: Op)
    requires CutConfig(cfg) && 0 in sources && sources[0] == Gateway
    requires n < 2 && Cut(t, n)
    requires op == AdvanceOp(map[CutKey() := CutRow()], [CutKey()], 1_500_000_000, 1_500_000_000)
    ensures Cut(Step(cfg, sources, t, op), n + 1)
  {
    CutSelection(t.state.seconds, sources, op.next);
    CutAdvanceStep(cfg, t, n, op.next);
    assert Step(cfg, sources, t, op) == AdvanceStep(cfg, t, op.selected, op.order, op.next, op.now);
  }

  lemma CutFirst(cfg: Config, sources: Registry) returns (ops: seq<Op>)
    requires CutConfig(cfg) && 0 in sources
    ensures Cut(Run(cfg, sources, ops), 0)
  {
    var o := ProbeEvent(0, 0);
    FirstCopyAccepted(cfg, sources, o);
    ops := [ObserveOp(o)];
    assert ops[..0] == [];
  }

  lemma CutAgain(cfg: Config, sources: Registry, ops: seq<Op>, n: nat) returns (more: seq<Op>)
    requires CutConfig(cfg) && 0 in sources && sources[0] == Gateway
    requires n < 2 && Cut(Run(cfg, sources, ops), n)
    ensures Cut(Run(cfg, sources, more), n + 1)
  {
    var op := AdvanceOp(map[CutKey() := CutRow()], [CutKey()], 1_500_000_000, 1_500_000_000);
    more := ops + [op];
    assert more[..|more| - 1] == ops;
    CutStep(cfg, sources, Run(cfg, sources, ops), n, op);
  }

  /**
   A run that breaks the books: one byte is observed in second 0, and the watermark is put at 1.5 s
   twice. The minute and the hour then report two bytes although only one was ever finalised.
   */
  lemma FractionalWatermarkCountsTwice(cfg: Config, sources: Registry) returns (ops: seq<Op>)
    requires CutConfig(cfg) && 0 in sources && sources[0] == Gateway
    ensures Run(cfg, sources, ops).finals == map[CutKey() := Rollup(ByteCount(1, 0), Complete)]
    ensures RowKey(Minute, CutKey()) in Run(cfg, sources, ops).state.emitted
    ensures Run(cfg, sources, ops).state.emitted[RowKey(Minute, CutKey())].bytes == ByteCount(2, 0)
  {
    ops := CutFirst(cfg, sources);
    ops := CutAgain(cfg, sources, ops, 0);
    ops := CutAgain(cfg, sources, ops, 1);
  }
}
