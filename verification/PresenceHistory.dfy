/** The bounded history against every transition ever made, and the path those transitions walk. */
module PresenceHistory {
  import opened Wrappers
  import opened PresenceModel

  /** A transition with the evidence the device held when it was made. */
  datatype Made = Made(t: Transition, evidence: set<Evidence>, ever: bool)

  // ---------------------------------------------------------------- what is retained

  /** Identifiers increase strictly and stay below `next`. */
  ghost predicate Increasing(made: seq<Made>, next: nat) {
    made == [] || (made[|made| - 1].t.id < next && Increasing(made[..|made| - 1], made[|made| - 1].t.id))
  }

  lemma {:induction false} IdsIncrease(made: seq<Made>, next: nat, i: nat, j: nat)
    requires Increasing(made, next) && i < |made| && j <= |made|
    ensures made[i].t.id < next && (i < j < |made| ==> made[i].t.id < made[j].t.id)
  {
    var last := |made| - 1;
    if i < last {
      IdsIncrease(made[..last], made[last].t.id, i, if j < last then j else last);
    }
  }

  /** The history is the newest part of what was made, and `through` names the newest evicted transition. */
  ghost predicate Keeps(history: seq<Transition>, through: Option<nat>, made: seq<Made>) {
    var gone := |made| - |history|;
    && 0 <= gone
    && (forall i :: 0 <= i < |history| ==> history[i] == made[gone + i].t)
    && through == if gone == 0 then None else Some(made[gone - 1].t.id)
  }

  lemma {:induction false} DropKeeps(history: seq<Transition>, through: nat, root: nat, made: seq<Made>)
    requires Keeps(history, Some(through), made)
    ensures var r := DropDependents(history, through, root); Keeps(r.0, Some(r.1), made) && |r.0| <= |history|
  {
    if history != [] && history[0].correctionOf == Some(root) {
      DropKeeps(history[1..], history[0].id, root, made);
    }
  }

  lemma {:induction false} TrimKeeps(history: seq<Transition>, through: Option<nat>, max: nat, made: seq<Made>)
    requires Keeps(history, through, made) && 0 < max
    ensures var r := Trim(history, through, max); Keeps(r.0, r.1, made) && |r.0| < max
    decreases |history|
  {
    if |history| >= max {
      var rest := DropDependents(history[1..], history[0].id, history[0].id);
      DropKeeps(history[1..], history[0].id, history[0].id, made);
      TrimKeeps(rest.0, Some(rest.1), max, made);
    }
  }

  lemma PushKeeps(d: Presence, m: Made, max: nat, made: seq<Made>)
    requires Keeps(d.history, d.evictedThrough, made) && 0 < max
    ensures var after := PushHistory(d, m.t, max);
            Keeps(after.history, after.evictedThrough, made + [m]) && |after.history| <= max
  {
    TrimKeeps(d.history, d.evictedThrough, max, made);
  }

  // ---------------------------------------------------------------- cursor replay

  lemma {:induction false} AfterAll(history: seq<Transition>, cursor: nat)
    requires forall t :: t in history ==> t.id > cursor
    ensures After(history, cursor) == history
  {
    if history != [] {
      var init, last := history[..|history| - 1], history[|history| - 1];
      AfterAll(init, cursor);
      assert last in history;
      assert history == init + [last];
    }
  }

  lemma {:induction false} AfterNone(history: seq<Transition>, cursor: nat)
    requires forall t :: t in history ==> t.id <= cursor
    ensures After(history, cursor) == []
  {
    if history != [] {
      AfterNone(history[..|history| - 1], cursor);
    }
  }

  lemma {:induction false} AfterConcat(a: seq<Transition>, b: seq<Transition>, cursor: nat)
    ensures After(a + b, cursor) == After(a, cursor) + After(b, cursor)
  {
    if b == [] {
      assert a + b == a;
    } else {
      var init, last := b[..|b| - 1], b[|b| - 1];
      assert (a + b)[..|a + b| - 1] == a + init;
      AfterConcat(a, init, cursor);
    }
  }

  ghost function Transitions(made: seq<Made>): seq<Transition> {
    seq(|made|, i requires 0 <= i < |made| => made[i].t)
  }

  /** Some transition after the cursor has been evicted. */
  ghost predicate Lost(history: seq<Transition>, made: seq<Made>, cursor: nat) {
    exists i :: 0 <= i < |made| - |history| && made[i].t.id > cursor
  }

  lemma LostIff(history: seq<Transition>, through: Option<nat>, made: seq<Made>, next: nat, cursor: nat)
    requires Keeps(history, through, made) && Increasing(made, next)
    ensures Lost(history, made, cursor) <==> through.Some? && cursor < through.value
  {
    var gone := |made| - |history|;
    forall i | 0 <= i < gone ensures made[i].t.id <= made[gone - 1].t.id {
      IdsIncrease(made, next, i, gone - 1);
    }
  }

  lemma NothingLost(history: seq<Transition>, through: Option<nat>, made: seq<Made>, cursor: nat)
    requires Keeps(history, through, made) && !Lost(history, made, cursor)
    ensures After(Transitions(made), cursor) == After(history, cursor)
  {
    var all, gone := Transitions(made), |made| - |history|;
    var evicted := all[..gone];
    forall t | t in evicted ensures t.id <= cursor {
      var i :| 0 <= i < gone && evicted[i] == t;
      assert t == made[i].t;
    }
    assert all[gone..] == history;
    assert all == evicted + history;
    AfterConcat(evicted, history, cursor);
    AfterNone(evicted, cursor);
  }

  /** Replay gives exactly what was made after the cursor, or expires exactly when some of that is gone. */
  lemma EventsSinceExact(d: Presence, made: seq<Made>, next: nat, cursor: nat)
    requires Keeps(d.history, d.evictedThrough, made) && Increasing(made, next)
    ensures EventsSince(d, cursor) ==
            if Lost(d.history, made, cursor) then Err(CursorExpired) else Ok(After(Transitions(made), cursor))
  {
    LostIff(d.history, d.evictedThrough, made, next, cursor);
    if !Lost(d.history, made, cursor) {
      NothingLost(d.history, d.evictedThrough, made, cursor);
    }
  }

  // ---------------------------------------------------------------- the path

  /** The state the non-correction transitions lead to. */
  ghost function StateAfter(made: seq<Made>): State {
    if made == [] then Unknown
    else if made[|made| - 1].t.correctionOf.None? then made[|made| - 1].t.to
    else StateAfter(made[..|made| - 1])
  }

  /** Without corrections, each transition starts where the one before ended and goes somewhere else. */
  ghost predicate Path(made: seq<Made>) {
    made == [] ||
    var init, last := made[..|made| - 1], made[|made| - 1];
    && Path(init)
    && (last.t.correctionOf.None? ==> last.t.from == StateAfter(init) && last.t.to != last.t.from)
  }

  /** Joining and leaving were confirmed by the evidence held at the time. */
  ghost predicate Confirmed(cfg: PresenceConfig, m: Made) {
    m.t.correctionOf.None? ==>
      && ((m.t.from == Unknown || m.t.from == Offline) && (m.t.to == Online || m.t.to == Quiet) ==>
            Distinct(JoinEvidence(cfg, m.evidence, m.t.at)) >= cfg.joinConfirmations)
      && (m.t.to == Offline ==>
            m.ever && Distinct(DepartureEvidence(cfg, m.evidence, m.t.at)) >= cfg.departureConfirmations)
  }

  /** A correction names an earlier departure of the same device, no older than the correction window. */
  ghost predicate Corrective(cfg: PresenceConfig, made: seq<Made>, t: Transition) {
    t.correctionOf.Some? ==>
      && t.from == Offline && (t.to == Online || t.to == Quiet)
      && exists m :: m in made && m.t.id == t.correctionOf.value && m.t.to == Offline
           && t.at - m.t.at <= cfg.correctionWindow
  }

  ghost predicate WellMade(cfg: PresenceConfig, made: seq<Made>) {
    made == [] ||
    var init, last := made[..|made| - 1], made[|made| - 1];
    WellMade(cfg, init) && Confirmed(cfg, last) && Corrective(cfg, init, last.t)
  }

  /** Everything the history of a device keeps. */
  ghost predicate Recorded(cfg: PresenceConfig, d: Presence, made: seq<Made>, next: nat) {
    && Increasing(made, next)
    && Keeps(d.history, d.evictedThrough, made) && |d.history| <= cfg.maxHistory
    && Path(made) && StateAfter(made) == d.state
    && WellMade(cfg, made)
  }

  lemma MadeSnoc(cfg: PresenceConfig, made: seq<Made>, m: Made, next: nat)
    requires Increasing(made, next) && Path(made) && WellMade(cfg, made)
    requires m.t.id == next && Confirmed(cfg, m) && Corrective(cfg, made, m.t)
    requires m.t.correctionOf.None? ==> m.t.from == StateAfter(made) && m.t.to != m.t.from
    ensures Increasing(made + [m], next + 1) && Path(made + [m]) && WellMade(cfg, made + [m])
    ensures StateAfter(made + [m]) == if m.t.correctionOf.None? then m.t.to else StateAfter(made)
  {
    assert (made + [m])[..|made|] == made;
  }

  /** The gate and the candidate ask for the confirmations themselves. */
  lemma GatedConfirmed(cfg: PresenceConfig, d: Presence, at: int, t: Transition)
    requires t.from == d.state && t.to == Gated(cfg, d, at) && t.from != t.to && t.at == at
    ensures Confirmed(cfg, Made(t, d.evidence, d.everSupported))
  {
  }

  ghost function MadeBy(d: Presence, events: seq<Transition>): seq<Made> {
    if events == [] then [] else [Made(events[0], d.evidence, d.everSupported)] + MadeBy(d, events[1..])
  }

  lemma {:induction false} MadeBySame(a: Presence, b: Presence, events: seq<Transition>)
    requires a.evidence == b.evidence && a.everSupported == b.everSupported
    ensures MadeBy(a, events) == MadeBy(b, events)
  {
    if events != [] {
      MadeBySame(a, b, events[1..]);
    }
  }

  lemma RecomputeRecorded(cfg: PresenceConfig, d: Presence, made: seq<Made>, next: nat, at: int, trigger: Evidence)
    requires 0 < cfg.maxHistory && Recorded(cfg, d, made, next)
    ensures var u := Recompute(cfg, d, next, at, trigger);
            Recorded(cfg, u.device, made + MadeBy(d, u.events), next + |u.events|)
  {
    var u := Recompute(cfg, d, next, at, trigger);
    if u.events == [] {
      assert made + MadeBy(d, []) == made;
    } else {
      var t := u.events[0];
      var m := Made(t, d.evidence, d.everSupported);
      assert MadeBy(d, u.events) == [m];
      GatedConfirmed(cfg, d, at, t);
      MadeSnoc(cfg, made, m, next);
      PushKeeps(d.(state := t.to), m, cfg.maxHistory, made);
    }
  }

  // ---------------------------------------------------------------- corrections

  lemma {:induction false} RecentDepartureFound(history: seq<Transition>, arrival: int, window: int)
    ensures var dep := RecentDeparture(history, arrival, window);
            dep.Some? ==> dep.value in history && dep.value.to == Offline && arrival - dep.value.at <= window
  {
    if history != [] {
      RecentDepartureFound(history[..|history| - 1], arrival, window);
    }
  }

  lemma KeptWasMade(history: seq<Transition>, through: Option<nat>, made: seq<Made>, t: Transition)
    requires Keeps(history, through, made) && t in history
    ensures exists m :: m in made && m.t == t
  {
    var i :| 0 <= i < |history| && history[i] == t;
    assert made[|made| - |history| + i] in made;
  }

  lemma CorrectionIsCorrective(cfg: PresenceConfig, d: Presence, made: seq<Made>, next: nat, e: Evidence, arrival: int)
    requires Keeps(d.history, d.evictedThrough, made) && Corrects(cfg, d, e, arrival).Some?
    ensures Corrective(cfg, made, Correction(next, e, arrival, Corrects(cfg, d, e, arrival).value))
  {
    RecentDepartureFound(d.history, arrival, cfg.correctionWindow);
    var dep := Corrects(cfg, d, e, arrival).value.0;
    KeptWasMade(d.history, d.evictedThrough, made, dep);
  }

  lemma AbsorbKeepsHistory(cfg: PresenceConfig, d: Presence, e: Evidence, arrival: int)
    ensures var a := Absorb(cfg, d, e, arrival);
            a.history == d.history && a.evictedThrough == d.evictedThrough && a.state == d.state
  {
  }

  /** What an observation adds: at most one correction, then at most one change of state. */
  ghost function ObservedMade(cfg: PresenceConfig, d: Presence, next: nat, e: Evidence, arrival: int): seq<Made> {
    MadeBy(Absorb(cfg, d, e, arrival), Observe(cfg, d, next, e, arrival).events)
  }

  lemma CorrectionRecorded(cfg: PresenceConfig, d: Presence, made: seq<Made>, next: nat, t: Transition)
    requires 0 < cfg.maxHistory && Recorded(cfg, d, made, next)
    requires t.id == next && t.correctionOf.Some? && Corrective(cfg, made, t)
    ensures Recorded(cfg, PushHistory(d, t, cfg.maxHistory), made + [Made(t, d.evidence, d.everSupported)], next + 1)
  {
    var m := Made(t, d.evidence, d.everSupported);
    MadeSnoc(cfg, made, m, next);
    PushKeeps(d, m, cfg.maxHistory, made);
  }

  lemma MadeByCons(a: Presence, pushed: Presence, made: seq<Made>, t: Transition, events: seq<Transition>)
    requires pushed.evidence == a.evidence && pushed.everSupported == a.everSupported
    ensures made + [Made(t, a.evidence, a.everSupported)] + MadeBy(pushed, events) == made + MadeBy(a, [t] + events)
  {
    MadeBySame(a, pushed, events);
    assert ([t] + events)[1..] == events;
  }

  lemma PushedRecorded(
    cfg: PresenceConfig, a: Presence, pushed: Presence, made: seq<Made>, next: nat, t: Transition, e: Evidence, arrival: int)
    requires 0 < cfg.maxHistory && pushed.evidence == a.evidence && pushed.everSupported == a.everSupported
    requires Recorded(cfg, pushed, made + [Made(t, a.evidence, a.everSupported)], next + 1)
    ensures var now := Recompute(cfg, pushed, next + 1, arrival, e);
            Recorded(cfg, now.device, made + MadeBy(a, [t] + now.events), next + 1 + |now.events|)
  {
    RecomputeRecorded(cfg, pushed, made + [Made(t, a.evidence, a.everSupported)], next + 1, arrival, e);
    MadeByCons(a, pushed, made, t, Recompute(cfg, pushed, next + 1, arrival, e).events);
  }

  lemma CorrectedRecorded(
    cfg: PresenceConfig, a: Presence, made: seq<Made>, next: nat, t: Transition, e: Evidence, arrival: int)
    requires 0 < cfg.maxHistory && Recorded(cfg, a, made, next)
    requires t.id == next && t.correctionOf.Some? && Corrective(cfg, made, t)
    ensures var u := Corrected(cfg, a, next, t, e, arrival);
            Recorded(cfg, u.device, made + MadeBy(a, u.events), next + |u.events|)
  {
    CorrectionRecorded(cfg, a, made, next, t);
    var pushed := PushHistory(a, t, cfg.maxHistory);
    PushedRecorded(cfg, a, pushed, made, next, t, e, arrival);
    var u, now := Corrected(cfg, a, next, t, e, arrival), Recompute(cfg, pushed, next + 1, arrival, e);
    assert u.device == now.device && u.events == [t] + now.events;
  }

  lemma AbsorbRecorded(cfg: PresenceConfig, d: Presence, made: seq<Made>, next: nat, e: Evidence, arrival: int)
    requires Recorded(cfg, d, made, next)
    ensures Recorded(cfg, Absorb(cfg, d, e, arrival), made, next)
  {
    AbsorbKeepsHistory(cfg, d, e, arrival);
  }

  /** What an observation amounts to, by its three cases. */
  lemma ObserveCases(cfg: PresenceConfig, d: Presence, next: nat, e: Evidence, arrival: int)
    ensures var a, u := Absorb(cfg, d, e, arrival), Observe(cfg, d, next, e, arrival);
            && (Corrects(cfg, d, e, arrival).Some? ==>
                  u == Corrected(cfg, a, next, Correction(next, e, arrival, Corrects(cfg, d, e, arrival).value), e, arrival))
            && (Corrects(cfg, d, e, arrival).None? && Late(d, e) && !CurrentlyValid(cfg, d, e, arrival) ==> u == Update(a, []))
            && (Corrects(cfg, d, e, arrival).None? && !(Late(d, e) && !CurrentlyValid(cfg, d, e, arrival)) ==>
                  u == Recompute(cfg, a, next, arrival, e))
  {
  }

  lemma CorrectingRecorded(cfg: PresenceConfig, d: Presence, made: seq<Made>, next: nat, e: Evidence, arrival: int)
    requires 0 < cfg.maxHistory && Recorded(cfg, d, made, next) && Corrects(cfg, d, e, arrival).Some?
    ensures var a := Absorb(cfg, d, e, arrival);
            var u := Corrected(cfg, a, next, Correction(next, e, arrival, Corrects(cfg, d, e, arrival).value), e, arrival);
            Recorded(cfg, u.device, made + MadeBy(a, u.events), next + |u.events|)
  {
    AbsorbRecorded(cfg, d, made, next, e, arrival);
    CorrectionIsCorrective(cfg, d, made, next, e, arrival);
    CorrectedRecorded(cfg, Absorb(cfg, d, e, arrival), made, next,
                      Correction(next, e, arrival, Corrects(cfg, d, e, arrival).value), e, arrival);
  }

  lemma UncorrectedRecorded(cfg: PresenceConfig, d: Presence, made: seq<Made>, next: nat, e: Evidence, arrival: int)
    requires 0 < cfg.maxHistory && Recorded(cfg, d, made, next)
    ensures var a := Absorb(cfg, d, e, arrival);
            var u := Recompute(cfg, a, next, arrival, e);
            && Recorded(cfg, a, made + MadeBy(a, []), next)
            && Recorded(cfg, u.device, made + MadeBy(a, u.events), next + |u.events|)
  {
    var a := Absorb(cfg, d, e, arrival);
    AbsorbRecorded(cfg, d, made, next, e, arrival);
    RecomputeRecorded(cfg, a, made, next, arrival, e);
    assert made + MadeBy(a, []) == made;
  }

  lemma ObserveRecorded(cfg: PresenceConfig, d: Presence, made: seq<Made>, next: nat, e: Evidence, arrival: int)
    requires 0 < cfg.maxHistory && Recorded(cfg, d, made, next)
    ensures var u := Observe(cfg, d, next, e, arrival);
            Recorded(cfg, u.device, made + ObservedMade(cfg, d, next, e, arrival), next + |u.events|)
  {
    ObserveCases(cfg, d, next, e, arrival);
    if Corrects(cfg, d, e, arrival).Some? {
      CorrectingRecorded(cfg, d, made, next, e, arrival);
    } else {
      UncorrectedRecorded(cfg, d, made, next, e, arrival);
    }
  }
}
