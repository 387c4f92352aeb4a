/** The identifiers an engine hands out over a run, evictions included. */
module IdentitySupply {
  import opened Wrappers
  import opened Sequences
  import opened IdentityGraph
  import opened IdentityModel
  import opened IdentityRuns

  ghost predicate Enrols(cfg: IdentityConfig, s: Identity, op: IdentityOp) {
    op.EnrolOp? && Attempt(cfg, s, op).Ok?
  }

  /** The identifiers handed out by a run, in order. */
  ghost function Enrolled(cfg: IdentityConfig, source: seq<Device>, ops: seq<IdentityOp>): seq<Device> {
    if ops == [] then []
    else
      var init := ops[..|ops| - 1];
      Enrolled(cfg, source, init) + Handed(cfg, Run(cfg, source, init), ops[|ops| - 1])
  }

  ghost function Handed(cfg: IdentityConfig, s: Identity, op: IdentityOp): seq<Device> {
    if Enrols(cfg, s, op) && s.ids != [] then [s.ids[0]] else []
  }

  lemma {:induction false} InsertAllKeeps(s: Identity, matches: seq<Device>, other: Device)
    ensures InsertAll(s, matches, other).ids == s.ids && InsertAll(s, matches, other).devices == s.devices
  {
    if matches != [] {
      InsertAllKeeps(s, matches[..|matches| - 1], other);
    }
  }

  lemma EnrolHands(cfg: IdentityConfig, s: Identity, incoming: nat, matches: seq<Device>)
    requires Enrol(cfg, s, incoming, matches).Ok?
    ensures var after := Enrol(cfg, s, incoming, matches).value;
            s.ids != [] && s.ids == [s.ids[0]] + after.ids && after.devices == s.devices + {s.ids[0]}
  {
    InsertAllKeeps(Admitted(s), matches, s.ids[0]);
  }

  lemma OthersKeep(cfg: IdentityConfig, s: Identity, op: IdentityOp)
    requires !op.EnrolOp? && Attempt(cfg, s, op).Ok?
    ensures Attempt(cfg, s, op).value.ids == s.ids && Attempt(cfg, s, op).value.devices <= s.devices
  {
  }

  /** An operation hands out the next identifier or none; only that one may become a device. */
  lemma StepHands(cfg: IdentityConfig, s: Identity, op: IdentityOp)
    ensures var after, handed := Step(cfg, s, op), Handed(cfg, s, op);
            s.ids == handed + after.ids && after.devices <= s.devices + Elements(handed)
  {
    if Attempt(cfg, s, op).Ok? {
      if op.EnrolOp? {
        EnrolHands(cfg, s, op.incoming, op.matches);
      } else {
        OthersKeep(cfg, s, op);
      }
    }
  }

  /** What was handed out and what is left make up the supply, and only what was handed out is a device. */
  lemma {:induction false} RunHands(cfg: IdentityConfig, source: seq<Device>, ops: seq<IdentityOp>)
    ensures Enrolled(cfg, source, ops) + Run(cfg, source, ops).ids == Supply(cfg, source)
    ensures Run(cfg, source, ops).devices <= Elements(Enrolled(cfg, source, ops))
  {
    if ops != [] {
      var init, op := ops[..|ops| - 1], ops[|ops| - 1];
      var s := Run(cfg, source, init);
      RunHands(cfg, source, init);
      StepHands(cfg, s, op);
      Assoc(Enrolled(cfg, source, init), Handed(cfg, s, op), Step(cfg, s, op).ids);
      ElementsConcat(Enrolled(cfg, source, init), Handed(cfg, s, op));
    }
  }

  lemma ElementsConcat(a: seq<Device>, b: seq<Device>)
    ensures Elements(a + b) == Elements(a) + Elements(b)
  {
  }

  // ---------------------------------------------------------------- identifiers and devices apart

  /** No identifier is left twice, and none that is left is a device. */
  ghost predicate Apart(s: Identity) {
    NoRepeats(s.ids) && forall d :: d in s.devices ==> d !in s.ids
  }

  lemma ConcatApart(a: seq<Device>, b: seq<Device>)
    requires NoRepeats(a + b)
    ensures NoRepeats(a) && NoRepeats(b) && forall d :: d in a ==> d !in b
  {
    var all := a + b;
    forall i, j | 0 <= i < j < |a| ensures a[i] != a[j] {
      assert all[i] == a[i] && all[j] == a[j];
    }
    forall i, j | 0 <= i < j < |b| ensures b[i] != b[j] {
      assert all[|a| + i] == b[i] && all[|a| + j] == b[j];
    }
    forall i, j | 0 <= i < |a| && 0 <= j < |b| ensures a[i] != b[j] {
      assert all[i] == a[i] && all[|a| + j] == b[j];
    }
  }

  lemma RunApart(cfg: IdentityConfig, source: seq<Device>, ops: seq<IdentityOp>)
    requires NoRepeats(Supply(cfg, source))
    ensures Apart(Run(cfg, source, ops)) && NoRepeats(Enrolled(cfg, source, ops))
  {
    RunHands(cfg, source, ops);
    ConcatApart(Enrolled(cfg, source, ops), Run(cfg, source, ops).ids);
  }

  lemma StartsWithSupply(cfg: IdentityConfig, source: seq<Device>)
    ensures Run(cfg, source, []).ids == Supply(cfg, source)
  {
  }

  /** A supply without repeats keeps identifiers and devices apart in every run; one with repeats starts out wrong. */
  lemma ApartIff(cfg: IdentityConfig, source: seq<Device>)
    ensures (forall ops :: Apart(Run(cfg, source, ops))) <==> NoRepeats(Supply(cfg, source))
  {
    StartsWithSupply(cfg, source);
    if NoRepeats(Supply(cfg, source)) {
      forall ops ensures Apart(Run(cfg, source, ops)) {
        RunApart(cfg, source, ops);
      }
    } else {
      assert !Apart(Run(cfg, source, []));
    }
  }

  // ---------------------------------------------------------------- never twice

  /** The state after enrolling and evicting the first `n` devices in turn. */
  ghost predicate HandedOut(cfg: IdentityConfig, source: seq<Device>, ops: seq<IdentityOp>, n: nat)
    requires n <= |Supply(cfg, source)|
  {
    && Run(cfg, source, ops) == NewIdentity(cfg, source).(ids := Supply(cfg, source)[n..])
    && Enrolled(cfg, source, ops) == Supply(cfg, source)[..n]
  }

  lemma EmptyEdges(x: Device, y: Device)
    requires Connected(map[], x, y)
    ensures x == y
  {
    ClosedStays(map[], iset{x}, x, y);
  }

  lemma AloneGone(s: Identity, d: Device)
    requires s.devices == {d} && s.edges == map[] && s.proposals == [] && s.owners == []
    ensures IsGone({d}, s, {d})
  {
    forall y | Connected(s.edges, d, y) ensures y in {d} && !Touched(s, y) {
      EmptyEdges(d, y);
    }
  }

  lemma EnrolAlone(cfg: IdentityConfig, s: Identity, d: Device)
    requires ValidIdentity(cfg) && s.devices == {} && s.edges == map[] && s.proposals == [] && s.ids != [] && s.ids[0] == d
    ensures Attempt(cfg, s, EnrolOp(0, [])) == Ok(s.(ids := s.ids[1..], devices := {d}))
  {
    assert {} + {d} == {d};
  }

  lemma EvictAlone(cfg: IdentityConfig, s: Identity, d: Device)
    requires ValidIdentity(cfg) && s.devices == {d} && s.edges == map[] && s.proposals == [] && s.owners == [] && s.audit == []
    ensures Attempt(cfg, s, EvictOp({d}, {d})) == Ok(s.(devices := {}))
  {
    AloneGone(s, d);
    assert Without(s.edges, {d}) == map[];
    assert {d} - {d} == {};
  }

  lemma StepSnoc(cfg: IdentityConfig, source: seq<Device>, ops: seq<IdentityOp>, op: IdentityOp)
    ensures Run(cfg, source, ops + [op]) == Step(cfg, Run(cfg, source, ops), op)
    ensures Enrolled(cfg, source, ops + [op]) == Enrolled(cfg, source, ops) + Handed(cfg, Run(cfg, source, ops), op)
  {
    assert (ops + [op])[..|ops|] == ops;
  }

  lemma HandOutNext(cfg: IdentityConfig, source: seq<Device>, ops: seq<IdentityOp>, n: nat) returns (more: seq<IdentityOp>)
    requires ValidIdentity(cfg) && n < |Supply(cfg, source)| && HandedOut(cfg, source, ops, n)
    ensures HandedOut(cfg, source, more, n + 1)
  {
    var supply, s := Supply(cfg, source), Run(cfg, source, ops);
    var d := supply[n];
    EnrolAlone(cfg, s, d);
    StepSnoc(cfg, source, ops, EnrolOp(0, []));
    var enrolled := ops + [EnrolOp(0, [])];
    EvictAlone(cfg, Run(cfg, source, enrolled), d);
    StepSnoc(cfg, source, enrolled, EvictOp({d}, {d}));
    more := enrolled + [EvictOp({d}, {d})];
    assert supply[n..][1..] == supply[n + 1..];
    assert supply[..n] + [d] == supply[..n + 1];
  }

  /** Enrolling and evicting in turn hands out the whole supply. */
  lemma {:induction false} HandOutAll(cfg: IdentityConfig, source: seq<Device>, n: nat) returns (ops: seq<IdentityOp>)
    requires ValidIdentity(cfg) && n <= |Supply(cfg, source)|
    ensures HandedOut(cfg, source, ops, n)
  {
    if n == 0 {
      ops := [];
    } else {
      var before := HandOutAll(cfg, source, n - 1);
      ops := HandOutNext(cfg, source, before, n - 1);
    }
  }

  /** No run hands out an identifier twice, evicted or not, if and only if the supply holds none twice. */
  lemma NeverTwiceIff(cfg: IdentityConfig, source: seq<Device>)
    requires ValidIdentity(cfg)
    ensures (forall ops :: NoRepeats(Enrolled(cfg, source, ops))) <==> NoRepeats(Supply(cfg, source))
  {
    var supply := Supply(cfg, source);
    if NoRepeats(supply) {
      forall ops ensures NoRepeats(Enrolled(cfg, source, ops)) {
        RunApart(cfg, source, ops);
      }
    } else {
      var ops := HandOutAll(cfg, source, |supply|);
      assert supply[..|supply|] == supply;
      assert !NoRepeats(Enrolled(cfg, source, ops));
    }
  }
}
