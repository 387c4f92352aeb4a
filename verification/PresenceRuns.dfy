/** Whole runs of the presence engine: any ingestions and evaluations of any devices. */
module PresenceRuns {
  import opened Wrappers
  import opened PresenceModel
  import opened PresenceHistory
  import opened PresenceControls

  /** Every record successfully ingested for a device, and every transition ever made for it. */
  datatype Past = Past(seen: set<Evidence>, made: seq<Made>)

  datatype Journal = Journal(engine: Engine, pasts: map<nat, Past>)

  datatype PresenceOp =
    | IngestOp(id: nat, e: Evidence, arrival: int, authorized: bool)
    | EvaluateOp(id: nat, at: int)

  ghost predicate DeviceSound(cfg: PresenceConfig, d: Presence, past: Past, next: nat) {
    Recorded(cfg, d, past.made, next) && Controlled(d, past.seen)
  }

  ghost predicate Sound(cfg: PresenceConfig, j: Journal) {
    && j.engine.devices.Keys == j.pasts.Keys
    && forall id :: id in j.pasts ==> DeviceSound(cfg, j.engine.devices[id], j.pasts[id], j.engine.next)
  }

  function PastAt(j: Journal, id: nat): Past {
    if id in j.pasts then j.pasts[id] else Past({}, [])
  }

  ghost function Observed(cfg: PresenceConfig, j: Journal, id: nat, e: Evidence, arrival: int): Past {
    var past := PastAt(j, id);
    Past(past.seen + {e}, past.made + ObservedMade(cfg, DeviceAt(j.engine, id, arrival), j.engine.next, e, arrival))
  }

  ghost function Evaluated(cfg: PresenceConfig, j: Journal, id: nat, at: int): Past
    requires id in j.engine.devices
  {
    var past, d := PastAt(j, id), j.engine.devices[id].(lastEvaluation := at);
    past.(made := past.made + MadeBy(d, Recompute(cfg, d, j.engine.next, at, TimerEvidence(at)).events))
  }

  ghost function Step(cfg: PresenceConfig, j: Journal, op: PresenceOp): Journal {
    match op
    case IngestOp(id, e, arrival, authorized) => (
      match Ingest(cfg, j.engine, id, e, arrival, authorized)
      case Err(_) => j
      case Ok(done) =>
        if Redundant(j.engine, id, e)
        then Journal(done.after, j.pasts[id := Past(PastAt(j, id).seen + {e}, PastAt(j, id).made)])
        else Journal(done.after, j.pasts[id := Observed(cfg, j, id, e, arrival)]))
    case EvaluateOp(id, at) =>
      match Evaluate(cfg, j.engine, id, at)
      case Err(_) => j
      case Ok(done) => Journal(done.after, j.pasts[id := Evaluated(cfg, j, id, at)])
  }

  ghost function Run(cfg: PresenceConfig, first: nat, ops: seq<PresenceOp>): Journal {
    if ops == [] then Journal(Engine(map[], first), map[])
    else Step(cfg, Run(cfg, first, ops[..|ops| - 1]), ops[|ops| - 1])
  }

  // ---------------------------------------------------------------- every step keeps every device sound

  lemma LaterSound(cfg: PresenceConfig, d: Presence, past: Past, next: nat, later: nat)
    requires DeviceSound(cfg, d, past, next) && next <= later
    ensures DeviceSound(cfg, d, past, later)
  {
  }

  lemma NewSound(cfg: PresenceConfig, arrival: int, next: nat)
    ensures DeviceSound(cfg, NewPresence(arrival), Past({}, []), next)
  {
    forall f ensures IsFlag(FlagOf(NewPresence(arrival), f), {}, f) {
    }
  }

  /** One device moved on, the others as they were. */
  lemma StoredSound(cfg: PresenceConfig, j: Journal, id: nat, u: Update, past: Past)
    requires Sound(cfg, j) && DeviceSound(cfg, u.device, past, j.engine.next + |u.events|)
    ensures Sound(cfg, Journal(Stored(j.engine, id, u), j.pasts[id := past]))
  {
    forall k | k in j.pasts && k != id
      ensures DeviceSound(cfg, j.engine.devices[k], j.pasts[k], j.engine.next + |u.events|)
    {
      LaterSound(cfg, j.engine.devices[k], j.pasts[k], j.engine.next, j.engine.next + |u.events|);
    }
  }

  lemma ObservedSound(cfg: PresenceConfig, j: Journal, id: nat, e: Evidence, arrival: int)
    requires 0 < cfg.maxHistory && Sound(cfg, j) && !Redundant(j.engine, id, e)
    ensures var u := Observe(cfg, DeviceAt(j.engine, id, arrival), j.engine.next, e, arrival);
            Sound(cfg, Journal(Stored(j.engine, id, u), j.pasts[id := Observed(cfg, j, id, e, arrival)]))
  {
    var d, past, next := DeviceAt(j.engine, id, arrival), PastAt(j, id), j.engine.next;
    NewSound(cfg, arrival, next);
    assert DeviceSound(cfg, d, past, next);
    ObserveRecorded(cfg, d, past.made, next, e, arrival);
    ObserveControlled(cfg, d, past.seen, next, e, arrival);
    StoredSound(cfg, j, id, Observe(cfg, d, next, e, arrival), Observed(cfg, j, id, e, arrival));
  }

  lemma RedundantSound(cfg: PresenceConfig, j: Journal, id: nat, e: Evidence)
    requires Sound(cfg, j) && Redundant(j.engine, id, e)
    ensures Sound(cfg, Journal(j.engine, j.pasts[id := Past(PastAt(j, id).seen + {e}, PastAt(j, id).made)]))
  {
    RedundantControlled(j.engine.devices[id], PastAt(j, id).seen, e);
  }

  lemma TimedSound(cfg: PresenceConfig, d: Presence, past: Past, next: nat, at: int)
    requires 0 < cfg.maxHistory && DeviceSound(cfg, d, past, next)
    ensures var d' := d.(lastEvaluation := at);
            var u := Recompute(cfg, d', next, at, TimerEvidence(at));
            DeviceSound(cfg, u.device, past.(made := past.made + MadeBy(d', u.events)), next + |u.events|)
  {
    var d' := d.(lastEvaluation := at);
    SameFlagsDecided(d, d', past.seen);
    SameFlagsDecided(d, d', d.evidence);
    RecomputeRecorded(cfg, d', past.made, next, at, TimerEvidence(at));
    RecomputeControlled(cfg, d', past.seen, next, at, TimerEvidence(at));
  }

  lemma EvaluatedSound(cfg: PresenceConfig, j: Journal, id: nat, at: int)
    requires 0 < cfg.maxHistory && Sound(cfg, j) && id in j.engine.devices
    ensures var u := Recompute(cfg, j.engine.devices[id].(lastEvaluation := at), j.engine.next, at, TimerEvidence(at));
            Sound(cfg, Journal(Stored(j.engine, id, u), j.pasts[id := Evaluated(cfg, j, id, at)]))
  {
    var d := j.engine.devices[id];
    TimedSound(cfg, d, PastAt(j, id), j.engine.next, at);
    var u := Recompute(cfg, d.(lastEvaluation := at), j.engine.next, at, TimerEvidence(at));
    StoredSound(cfg, j, id, u, Evaluated(cfg, j, id, at));
  }

  lemma StepSound(cfg: PresenceConfig, j: Journal, op: PresenceOp)
    requires 0 < cfg.maxHistory && Sound(cfg, j)
    ensures Sound(cfg, Step(cfg, j, op))
  {
    match op {
      case IngestOp(id, e, arrival, authorized) =>
        if Ingest(cfg, j.engine, id, e, arrival, authorized).Ok? {
          if Redundant(j.engine, id, e) {
            RedundantSound(cfg, j, id, e);
          } else {
            ObservedSound(cfg, j, id, e, arrival);
          }
        }
      case EvaluateOp(id, at) =>
        if Evaluate(cfg, j.engine, id, at).Ok? {
          EvaluatedSound(cfg, j, id, at);
        }
    }
  }

  /** After any run every device's flags, state, history and replay cursor agree with everything that happened. */
  lemma {:induction false} RunSound(cfg: PresenceConfig, first: nat, ops: seq<PresenceOp>)
    requires 0 < cfg.maxHistory
    ensures Sound(cfg, Run(cfg, first, ops))
  {
    if ops != [] {
      RunSound(cfg, first, ops[..|ops| - 1]);
      StepSound(cfg, Run(cfg, first, ops[..|ops| - 1]), ops[|ops| - 1]);
    }
  }

  // ---------------------------------------------------------------- what follows

  /** A device is blocked exactly when its greatest enforcement record is a block. */
  lemma BlockedIffGreatest(cfg: PresenceConfig, first: nat, ops: seq<PresenceOp>, id: nat, top: Evidence)
    requires 0 < cfg.maxHistory && id in Run(cfg, first, ops).pasts
    requires IsGreatest(top, Run(cfg, first, ops).pasts[id].seen, Enforcement)
    ensures id in Run(cfg, first, ops).engine.devices
    ensures Run(cfg, first, ops).engine.devices[id].state == Blocked <==> top.kind == EnforcementBlocked
  {
    RunSound(cfg, first, ops);
    var j := Run(cfg, first, ops);
    GreatestDecides(FlagOf(j.engine.devices[id], Enforcement), j.pasts[id].seen, Enforcement, top);
  }

  lemma NeverEnforcedNeverBlocked(cfg: PresenceConfig, first: nat, ops: seq<PresenceOp>, id: nat)
    requires 0 < cfg.maxHistory && id in Run(cfg, first, ops).pasts
    requires forall e :: e in Run(cfg, first, ops).pasts[id].seen ==> FamilyOf(e.kind) != Some(Enforcement)
    ensures id in Run(cfg, first, ops).engine.devices && Run(cfg, first, ops).engine.devices[id].state != Blocked
  {
    RunSound(cfg, first, ops);
    var j := Run(cfg, first, ops);
    assert IsFlag(FlagOf(j.engine.devices[id], Enforcement), j.pasts[id].seen, Enforcement);
  }

  /** Two runs that ingested the same control records of a family end with the same flag, in whatever order. */
  lemma FlagsConverge(
    cfg: PresenceConfig, first: nat, ops: seq<PresenceOp>, first': nat, ops': seq<PresenceOp>, id: nat, f: Family)
    requires 0 < cfg.maxHistory && id in Run(cfg, first, ops).pasts && id in Run(cfg, first', ops').pasts
    requires forall e: Evidence :: FamilyOf(e.kind) == Some(f) ==>
               (e in Run(cfg, first, ops).pasts[id].seen <==> e in Run(cfg, first', ops').pasts[id].seen)
    ensures id in Run(cfg, first, ops).engine.devices && id in Run(cfg, first', ops').engine.devices
    ensures FlagOf(Run(cfg, first, ops).engine.devices[id], f) == FlagOf(Run(cfg, first', ops').engine.devices[id], f)
  {
    RunSound(cfg, first, ops);
    RunSound(cfg, first', ops');
    var a, b := Run(cfg, first, ops), Run(cfg, first', ops');
    assert DeviceSound(cfg, a.engine.devices[id], a.pasts[id], a.engine.next);
    assert DeviceSound(cfg, b.engine.devices[id], b.pasts[id], b.engine.next);
    SameRecordsSameFlag(a.engine.devices[id], b.engine.devices[id], a.pasts[id].seen, b.pasts[id].seen, f);
  }

  lemma SameRecordsSameFlag(d: Presence, d': Presence, s: set<Evidence>, t: set<Evidence>, f: Family)
    requires Decided(d, s) && Decided(d', t)
    requires forall e: Evidence :: FamilyOf(e.kind) == Some(f) ==> (e in s <==> e in t)
    ensures FlagOf(d, f) == FlagOf(d', f)
  {
    FlagTransfers(FlagOf(d, f), s, t, f);
    FlagUnique(FlagOf(d, f), FlagOf(d', f), t, f);
  }

  /** Replaying from a cursor gives all that was made after it, or expires exactly when some of it was evicted. */
  lemma ReplayExact(cfg: PresenceConfig, first: nat, ops: seq<PresenceOp>, id: nat, cursor: nat)
    requires 0 < cfg.maxHistory && id in Run(cfg, first, ops).pasts
    ensures var j := Run(cfg, first, ops);
            && id in j.engine.devices
            && EventsSince(j.engine.devices[id], cursor) ==
               if Lost(j.engine.devices[id].history, j.pasts[id].made, cursor) then Err(CursorExpired)
               else Ok(After(Transitions(j.pasts[id].made), cursor))
  {
    RunSound(cfg, first, ops);
    var j := Run(cfg, first, ops);
    assert DeviceSound(cfg, j.engine.devices[id], j.pasts[id], j.engine.next);
    EventsSinceExact(j.engine.devices[id], j.pasts[id].made, j.engine.next, cursor);
  }
}
