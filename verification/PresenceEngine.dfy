/** The presence engine itself: device records and the transition counter updated in place. */
module PresenceEngine {
  import opened Wrappers
  import opened PresenceModel
  import opened PresenceControls

  // ---------------------------------------------------------------- control evidence

  /** The latest instant of a family among the records, and whether it holds an activation. */
  method ControlState(evidence: set<Evidence>, f: Family) returns (flag: Flag)
    ensures IsFlag(flag, evidence, f)
  {
    var latest := LatestOf(evidence, f);
    if latest.None? {
      return Flag(false, None);
    }
    var active := exists e :: e in evidence && FamilyOf(e.kind) == Some(f)
                              && e.observedAt == latest.value && Activates(e.kind);
    return Flag(active, latest);
  }

  method LatestOf(evidence: set<Evidence>, f: Family) returns (latest: Option<int>)
    ensures latest.None? ==> forall e :: e in evidence ==> FamilyOf(e.kind) != Some(f)
    ensures latest.Some? ==> exists e :: e in evidence && FamilyOf(e.kind) == Some(f) && e.observedAt == latest.value
    ensures latest.Some? ==> forall e :: e in evidence && FamilyOf(e.kind) == Some(f) ==> e.observedAt <= latest.value
  {
    latest := None;
    var rest := evidence;
    while rest != {}
      invariant rest <= evidence
      invariant latest.None? ==> forall e :: e in evidence && e !in rest ==> FamilyOf(e.kind) != Some(f)
      invariant latest.Some? ==> exists e :: e in evidence && FamilyOf(e.kind) == Some(f) && e.observedAt == latest.value
      invariant latest.Some? ==>
                  forall e :: e in evidence && e !in rest && FamilyOf(e.kind) == Some(f) ==> e.observedAt <= latest.value
      decreases rest
    {
      var e :| e in rest;
      rest := rest - {e};
      if FamilyOf(e.kind) == Some(f) && (latest.None? || latest.value < e.observedAt) {
        latest := Some(e.observedAt);
      }
    }
  }

  predicate NewestOf(e: Evidence, evidence: set<Evidence>, f: Family) {
    forall x :: x in evidence && FamilyOf(x.kind) == Some(f) ==> x.observedAt <= e.observedAt
  }

  /** Drops every record of one family but those of its latest instant. */
  method PruneFamily(evidence: set<Evidence>, f: Family) returns (kept: set<Evidence>)
    ensures forall e :: e in kept <==> (e in evidence && (FamilyOf(e.kind) != Some(f) || NewestOf(e, evidence, f)))
  {
    var latest := LatestOf(evidence, f);
    kept := set e | e in evidence && (FamilyOf(e.kind) != Some(f) || latest.None? || e.observedAt == latest.value);
  }

  /** One pass per family; a pass never touches the records of another family. */
  method PruneControlEvidence(evidence: set<Evidence>) returns (kept: set<Evidence>)
    ensures kept == PruneControls(evidence)
  {
    kept := PruneFamily(evidence, Enforcement);
    kept := PruneFamily(kept, Impairment);
    kept := PruneFamily(kept, Conflict);
    assert forall e :: e in kept <==> e in PruneControls(evidence) by {
      assert forall e :: e in evidence && FamilyOf(e.kind).None? ==> e in kept;
    }
  }

  /** Flags, support and retained evidence after one observation. */
  method AbsorbObservation(cfg: PresenceConfig, d: Presence, e: Evidence, arrival: int) returns (absorbed: Presence)
    ensures absorbed == Absorb(cfg, d, e, arrival)
  {
    var late, valid := Late(d, e), CurrentlyValid(cfg, d, e, arrival);
    var evidence := KeptEvidence(cfg, d.evidence, arrival);
    if Retained(cfg, e, arrival) && (!late || valid || !Positive(e.kind)) {
      evidence := PruneControlEvidence(evidence + {e});
    }
    absorbed := ApplyFlags(d, e).(
      lastEvaluation := arrival,
      everSupported := d.everSupported || (RealPositive(e.kind) && (!late || valid)),
      evidence := evidence);
  }

  // ---------------------------------------------------------------- history

  /** Evicts from the front until there is room, taking the corrections right behind each evicted transition. */
  method PushTransition(d: Presence, t: Transition, max: nat) returns (after: Presence)
    ensures after == PushHistory(d, t, max)
  {
    var history, through := d.history, d.evictedThrough;
    while |history| >= max && history != []
      invariant Trim(history, through, max) == Trim(d.history, d.evictedThrough, max)
      decreases |history|
    {
      var evicted := history[0];
      ghost var front := DropDependents(history[1..], evicted.id, evicted.id);
      ghost var size := |history|;
      var last := evicted.id;
      history := history[1..];
      while history != [] && history[0].correctionOf == Some(evicted.id)
        invariant DropDependents(history, last, evicted.id) == front
        invariant |history| < size
        decreases |history|
      {
        last := history[0].id;
        history := history[1..];
      }
      through := Some(last);
    }
    after := d.(history := history + [t], evictedThrough := through);
  }

  method EventsAfter(d: Presence, cursor: nat) returns (r: Result<seq<Transition>, PresenceError>)
    ensures r == EventsSince(d, cursor)
  {
    if d.evictedThrough.Some? && cursor < d.evictedThrough.value {
      return Err(CursorExpired);
    }
    var events: seq<Transition> := [];
    for i := 0 to |d.history|
      invariant events == After(d.history[..i], cursor)
    {
      assert d.history[..i + 1][..i] == d.history[..i];
      if d.history[i].id > cursor {
        events := events + [d.history[i]];
      }
    }
    assert d.history[..|d.history|] == d.history;
    return Ok(events);
  }

  // ---------------------------------------------------------------- the engine

  class PresenceTracker {
    const cfg: PresenceConfig
    var devices: map<nat, Presence>
    var next: nat

    ghost function State(): Engine
      reads this
    {
      Engine(devices, next)
    }

    constructor (config: PresenceConfig, first: nat)
      ensures State() == Engine(map[], first) && cfg == config
    {
      cfg := config;
      devices, next := map[], first;
    }

    static method Create(config: PresenceConfig, first: nat) returns (r: Option<PresenceTracker>)
      ensures r.Some? <==> ValidConfig(config) && first != 0
      ensures r.Some? ==> fresh(r.value) && r.value.State() == Engine(map[], first) && r.value.cfg == config
    {
      if !ValidConfig(config) || first == 0 {
        return None;
      }
      var tracker := new PresenceTracker(config, first);
      return Some(tracker);
    }

    /** Moves a known device to its gated state. */
    method RecomputeDevice(id: nat, at: int, trigger: Evidence) returns (events: seq<Transition>)
      requires id in devices && next < 0xffff_ffff_ffff_ffff
      modifies this
      ensures var u := Recompute(cfg, old(devices[id]), old(next), at, trigger);
              events == u.events && State() == Stored(old(State()), id, u)
      ensures next <= 0xffff_ffff_ffff_ffff
    {
      var d := devices[id];
      var gated := Gated(cfg, d, at);
      if gated == d.state {
        assert devices[id := d] == devices;
        return [];
      }
      var t := Transition(next, d.state, gated, at, trigger, None);
      next := next + 1;
      var pushed := PushTransition(d.(state := gated), t, cfg.maxHistory);
      devices := devices[id := pushed];
      return [t];
    }

    /** Puts the correction into the history, then moves the device to its gated state. */
    method CorrectDevice(id: nat, t: Transition, e: Evidence, arrival: int) returns (events: seq<Transition>)
      requires id in devices && next + 2 <= 0xffff_ffff_ffff_ffff
      modifies this
      ensures var u := Corrected(cfg, old(devices[id]), old(next), t, e, arrival);
              events == u.events && State() == Stored(old(State()), id, u)
      ensures next <= 0xffff_ffff_ffff_ffff
    {
      next := next + 1;
      var pushed := PushTransition(devices[id], t, cfg.maxHistory);
      devices := devices[id := pushed];
      var now := RecomputeDevice(id, arrival, e);
      events := [t] + now;
    }

    /** Records one accepted observation; the two reserved identifiers always suffice. */
    method ObserveDevice(id: nat, e: Evidence, arrival: int) returns (events: seq<Transition>)
      requires id in devices && next + 2 <= 0xffff_ffff_ffff_ffff
      modifies this
      ensures var u := Observe(cfg, old(devices[id]), old(next), e, arrival);
              events == u.events && State() == Stored(old(State()), id, u)
      ensures next <= 0xffff_ffff_ffff_ffff
    {
      var d := devices[id];
      var correct := Corrects(cfg, d, e, arrival);
      var expired := Late(d, e) && !CurrentlyValid(cfg, d, e, arrival);
      var absorbed := AbsorbObservation(cfg, d, e, arrival);
      devices := devices[id := absorbed];
      if correct.Some? {
        events := CorrectDevice(id, Correction(next, e, arrival, correct.value), e, arrival);
      } else if expired {
        events := [];
      } else {
        events := RecomputeDevice(id, arrival, e);
      }
    }

    /** Ingests one record or, on any refusal, changes nothing. */
    method IngestAuthorized(id: nat, e: Evidence, arrival: int, authorized: bool)
      returns (r: Result<seq<Transition>, PresenceError>)
      modifies this
      ensures match Ingest(cfg, old(State()), id, e, arrival, authorized)
              case Ok(done) => r == Ok(done.events) && State() == done.after
              case Err(error) => r == Err(error) && State() == old(State())
      ensures old(next) <= 0xffff_ffff_ffff_ffff ==> next <= 0xffff_ffff_ffff_ffff
    {
      var invalid := Validate(cfg, e, arrival, authorized);
      if invalid.Some? {
        return Err(invalid.value);
      }
      if id !in devices && |devices| >= cfg.maxDevices {
        return Err(OverCapacity);
      }
      if id in devices {
        if arrival < devices[id].lastEvaluation {
          return Err(ClockRollback);
        }
        if e in devices[id].evidence || StaleControl(devices[id], e) {
          return Ok([]);
        }
        if Retained(cfg, e, arrival) && |KeptEvidence(cfg, devices[id].evidence, arrival)| >= cfg.maxEvidence {
          return Err(OverCapacity);
        }
      }
      if next + 2 > 0xffff_ffff_ffff_ffff {
        return Err(SequenceExhausted);
      }
      if id !in devices {
        devices := devices[id := NewPresence(arrival)];
      }
      var events := ObserveDevice(id, e, arrival);
      return Ok(events);
    }

    method EvaluateDevice(id: nat, at: int) returns (r: Result<seq<Transition>, PresenceError>)
      requires next <= 0xffff_ffff_ffff_ffff
      modifies this
      ensures match Evaluate(cfg, old(State()), id, at)
              case Ok(done) => r == Ok(done.events) && State() == done.after
              case Err(error) => r == Err(error) && State() == old(State())
      ensures next <= 0xffff_ffff_ffff_ffff
    {
      if id !in devices {
        return Err(DeviceNotFound);
      }
      if at < devices[id].lastEvaluation {
        return Err(ClockRollback);
      }
      if next == 0xffff_ffff_ffff_ffff {
        return Err(SequenceExhausted);
      }
      devices := devices[id := devices[id].(lastEvaluation := at)];
      var events := RecomputeDevice(id, at, TimerEvidence(at));
      return Ok(events);
    }

    method DomainEventsSince(id: nat, cursor: nat) returns (r: Result<seq<Transition>, PresenceError>)
      ensures r == if id in devices then EventsSince(devices[id], cursor) else Err(DeviceNotFound)
    {
      if id !in devices {
        return Err(DeviceNotFound);
      }
      r := EventsAfter(devices[id], cursor);
    }
  }
}
