/** The presence engine as values: evidence, control flags, state and bounded history of each device. */
module PresenceModel {
  import opened Wrappers

  datatype State = Unknown | Online | Quiet | Offline | Blocked

  datatype Kind =
    | Traffic | Lease | RouterAssociation | NeighborCache | ProbeSuccess | ConfirmationFailure
    | EnforcementBlocked | EnforcementUnblocked | SensorImpaired | SensorRecovered
    | Contradiction | ContradictionCleared | Evaluation

  /** Times are whole units of the clock's resolution. */
  datatype Evidence = Evidence(source: string, kind: Kind, observedAt: int, validUntil: Option<int>)

  datatype Transition = Transition(
    id: nat, from: State, to: State, at: int, trigger: Evidence, correctionOf: Option<nat>)

  /** A last-writer-wins control: whether it is on, and the time of the record that decided. */
  datatype Flag = Flag(active: bool, clock: Option<int>)

  datatype Family = Enforcement | Impairment | Conflict

  datatype Presence = Presence(
    state: State,
    evidence: set<Evidence>,
    history: seq<Transition>,
    lastEvaluation: int,
    everSupported: bool,
    enforcement: Flag,
    impairment: Flag,
    conflict: Flag,
    evictedThrough: Option<nat>)

  datatype PresenceConfig = PresenceConfig(
    onlineWindow: int, correctionWindow: int, retention: int, futureSkew: int, confirmationWindow: int,
    trusted: set<string>, joinConfirmations: nat, departureConfirmations: nat,
    maxDevices: nat, maxEvidence: nat, maxHistory: nat, maxSourceLen: nat)

  predicate ValidConfig(cfg: PresenceConfig) {
    && 0 < cfg.onlineWindow && 0 < cfg.correctionWindow && 0 < cfg.confirmationWindow && 0 <= cfg.futureSkew
    && cfg.correctionWindow <= cfg.retention && cfg.onlineWindow <= cfg.retention
    && cfg.confirmationWindow <= cfg.retention
    && cfg.trusted != {} && |cfg.trusted| <= 256
    && (forall s :: s in cfg.trusted ==> 0 < |s| <= cfg.maxSourceLen)
    && 0 < cfg.joinConfirmations && 0 < cfg.departureConfirmations
    && 0 < cfg.maxDevices && 0 < cfg.maxEvidence && 0 < cfg.maxHistory && 0 < cfg.maxSourceLen
  }

  // ---------------------------------------------------------------- kinds

  predicate RealPositive(k: Kind) {
    k == Traffic || k == Lease || k == RouterAssociation || k == NeighborCache
  }

  predicate Positive(k: Kind) {
    RealPositive(k) || k == ProbeSuccess
  }

  /** Support that lasts until a stated time. */
  predicate Timed(k: Kind) {
    k == Lease || k == RouterAssociation || k == NeighborCache || k == ProbeSuccess
  }

  function FamilyOf(k: Kind): Option<Family> {
    match k
    case EnforcementBlocked | EnforcementUnblocked => Some(Enforcement)
    case SensorImpaired | SensorRecovered => Some(Impairment)
    case Contradiction | ContradictionCleared => Some(Conflict)
    case _ => None
  }

  predicate Activates(k: Kind) {
    k == EnforcementBlocked || k == SensorImpaired || k == Contradiction
  }

  // ---------------------------------------------------------------- control flags

  function FlagOf(d: Presence, f: Family): Flag {
    match f case Enforcement => d.enforcement case Impairment => d.impairment case Conflict => d.conflict
  }

  function WithFlag(d: Presence, f: Family, flag: Flag): Presence {
    match f
    case Enforcement => d.(enforcement := flag)
    case Impairment => d.(impairment := flag)
    case Conflict => d.(conflict := flag)
  }

  /** At one instant the activating record wins. */
  predicate StaleAt(flag: Flag, at: int, incoming: bool) {
    flag.clock.Some? && (at < flag.clock.value || (at == flag.clock.value && (flag.active || !incoming)))
  }

  predicate StaleControl(d: Presence, e: Evidence) {
    FamilyOf(e.kind).Some? && StaleAt(FlagOf(d, FamilyOf(e.kind).value), e.observedAt, Activates(e.kind))
  }

  function ApplyFlags(d: Presence, e: Evidence): Presence {
    match FamilyOf(e.kind)
    case None => d
    case Some(f) =>
      if FlagOf(d, f).clock.None? || FlagOf(d, f).clock.value <= e.observedAt
      then WithFlag(d, f, Flag(Activates(e.kind), Some(e.observedAt)))
      else d
  }

  // ---------------------------------------------------------------- evidence

  predicate Retained(cfg: PresenceConfig, e: Evidence, arrival: int) {
    if FamilyOf(e.kind).Some? then true
    else if Timed(e.kind) then
      if e.validUntil.Some? then arrival - e.validUntil.value <= cfg.correctionWindow
      else arrival - e.observedAt <= cfg.retention
    else if e.kind == ConfirmationFailure then arrival - e.observedAt <= cfg.confirmationWindow
    else if e.kind == Traffic then
      arrival - e.observedAt <= (if cfg.onlineWindow < cfg.correctionWindow then cfg.correctionWindow else cfg.onlineWindow)
    else arrival - e.observedAt <= cfg.retention
  }

  /** Of each control family only the records of its latest instant are kept. */
  function PruneControls(evidence: set<Evidence>): set<Evidence> {
    set e | e in evidence &&
      (FamilyOf(e.kind).None? ||
       forall x :: x in evidence && FamilyOf(x.kind) == FamilyOf(e.kind) ==> x.observedAt <= e.observedAt)
  }

  datatype Confirmation = Confirmation(source: string, kind: Kind, observedAt: int)

  function Distinct(evidence: set<Evidence>): nat {
    |set e | e in evidence :: Confirmation(e.source, e.kind, e.observedAt)|
  }

  /** Independent recent observations of the device. */
  function JoinEvidence(cfg: PresenceConfig, evidence: set<Evidence>, at: int): set<Evidence> {
    set e | e in evidence && RealPositive(e.kind) && e.observedAt <= at && at - e.observedAt <= cfg.confirmationWindow
  }

  function SupportEnd(cfg: PresenceConfig, e: Evidence): Option<int> {
    if e.kind == Traffic then Some(e.observedAt + cfg.onlineWindow)
    else if Timed(e.kind) then e.validUntil
    else None
  }

  /** Recent failed confirmations made after all support had ended. */
  function DepartureEvidence(cfg: PresenceConfig, evidence: set<Evidence>, at: int): set<Evidence> {
    set e | e in evidence && e.kind == ConfirmationFailure && e.observedAt <= at
      && (forall x :: x in evidence && SupportEnd(cfg, x).Some? ==> SupportEnd(cfg, x).value < e.observedAt)
      && at - e.observedAt <= cfg.confirmationWindow
  }

  // ---------------------------------------------------------------- state

  function SupportAt(e: Evidence, at: int, ever: bool, online: int): Option<State> {
    if e.observedAt > at then None
    else if e.kind == Traffic && at - e.observedAt < online then Some(Online)
    else if (e.kind == Lease || e.kind == RouterAssociation || e.kind == NeighborCache)
            && e.validUntil.Some? && at <= e.validUntil.value then Some(Quiet)
    else if e.kind == ProbeSuccess && ever && e.validUntil.Some? && at <= e.validUntil.value then Some(Quiet)
    else None
  }

  predicate HasTraffic(cfg: PresenceConfig, evidence: set<Evidence>, at: int) {
    exists e :: e in evidence && e.kind == Traffic && e.observedAt <= at && at - e.observedAt < cfg.onlineWindow
  }

  predicate HasSupport(evidence: set<Evidence>, at: int) {
    exists e :: e in evidence && Timed(e.kind) && e.observedAt <= at && e.validUntil.Some? && at <= e.validUntil.value
  }

  function Candidate(cfg: PresenceConfig, d: Presence, at: int): State {
    if d.enforcement.active then Blocked
    else if d.impairment.active || d.conflict.active then Unknown
    else if HasTraffic(cfg, d.evidence, at) then Online
    else if HasSupport(d.evidence, at) && d.everSupported then Quiet
    else if d.everSupported && Distinct(DepartureEvidence(cfg, d.evidence, at)) >= cfg.departureConfirmations then Offline
    else if d.state == Online || d.state == Quiet then d.state
    else Unknown
  }

  /** A device nobody has seen joins only once enough independent observations agree. */
  function Gated(cfg: PresenceConfig, d: Presence, at: int): State {
    var c := Candidate(cfg, d, at);
    if (c == Online || c == Quiet) && (d.state == Unknown || d.state == Offline)
       && Distinct(JoinEvidence(cfg, d.evidence, at)) < cfg.joinConfirmations
    then d.state else c
  }

  // ---------------------------------------------------------------- history

  function DropDependents(history: seq<Transition>, through: nat, root: nat): (seq<Transition>, nat) {
    if history != [] && history[0].correctionOf == Some(root)
    then DropDependents(history[1..], history[0].id, root)
    else (history, through)
  }

  lemma {:induction false} DropsPrefix(history: seq<Transition>, through: nat, root: nat)
    ensures |DropDependents(history, through, root).0| <= |history|
  {
    if history != [] && history[0].correctionOf == Some(root) {
      DropsPrefix(history[1..], history[0].id, root);
    }
  }

  /** Makes room for one more transition, oldest first, each with the corrections right behind it. */
  function Trim(history: seq<Transition>, through: Option<nat>, max: nat): (seq<Transition>, Option<nat>)
    decreases |history|
  {
    if |history| < max || history == [] then (history, through)
    else
      var rest := DropDependents(history[1..], history[0].id, history[0].id);
      DropsPrefix(history[1..], history[0].id, history[0].id);
      Trim(rest.0, Some(rest.1), max)
  }

  function PushHistory(d: Presence, t: Transition, max: nat): Presence {
    var kept := Trim(d.history, d.evictedThrough, max);
    d.(history := kept.0 + [t], evictedThrough := kept.1)
  }

  // ---------------------------------------------------------------- steps of one device

  datatype Update = Update(device: Presence, events: seq<Transition>)

  /** Moves to the gated state, if that is a different one. */
  function Recompute(cfg: PresenceConfig, d: Presence, next: nat, at: int, trigger: Evidence): Update {
    var gated := Gated(cfg, d, at);
    if gated == d.state then Update(d, [])
    else
      var t := Transition(next, d.state, gated, at, trigger, None);
      Update(PushHistory(d.(state := gated), t, cfg.maxHistory), [t])
  }

  function LastDeparture(history: seq<Transition>): Option<Transition> {
    if history == [] then None
    else if history[|history| - 1].to == Offline then Some(history[|history| - 1])
    else LastDeparture(history[..|history| - 1])
  }

  function RecentDeparture(history: seq<Transition>, arrival: int, window: int): Option<Transition> {
    if history == [] then None
    else if history[|history| - 1].to == Offline && arrival - history[|history| - 1].at <= window then
      Some(history[|history| - 1])
    else RecentDeparture(history[..|history| - 1], arrival, window)
  }

  /** A positive observation no later than the last departure. */
  predicate Late(d: Presence, e: Evidence) {
    var dep := LastDeparture(d.history);
    dep.Some? && Positive(e.kind) && e.observedAt <= dep.value.at
  }

  predicate CurrentlyValid(cfg: PresenceConfig, d: Presence, e: Evidence, arrival: int) {
    SupportAt(e, arrival, d.everSupported, cfg.onlineWindow).Some?
  }

  /** The recent departure this observation contradicts, with the state it supports instead. */
  function Corrects(cfg: PresenceConfig, d: Presence, e: Evidence, arrival: int): Option<(Transition, State)> {
    var dep := RecentDeparture(d.history, arrival, cfg.correctionWindow);
    if dep.None? then None
    else
      match SupportAt(e, dep.value.at, d.everSupported, cfg.onlineWindow)
      case None => None
      case Some(target) => Some((dep.value, target))
  }

  function KeptEvidence(cfg: PresenceConfig, evidence: set<Evidence>, arrival: int): set<Evidence> {
    set x | x in evidence && Retained(cfg, x, arrival)
  }

  /** Records the observation: flags, support and retained evidence. */
  function Absorb(cfg: PresenceConfig, d: Presence, e: Evidence, arrival: int): Presence {
    var kept := KeptEvidence(cfg, d.evidence, arrival);
    var counts := !Late(d, e) || CurrentlyValid(cfg, d, e, arrival);
    var flagged := ApplyFlags(d, e);
    flagged.(
      lastEvaluation := arrival,
      everSupported := d.everSupported || (RealPositive(e.kind) && counts),
      evidence := if Retained(cfg, e, arrival) && (counts || !Positive(e.kind)) then PruneControls(kept + {e}) else kept)
  }

  function Correction(next: nat, e: Evidence, arrival: int, c: (Transition, State)): Transition {
    Transition(next, Offline, c.1, arrival, e, Some(c.0.id))
  }

  /** The correction goes into the history first, then the current state is worked out. */
  function Corrected(cfg: PresenceConfig, absorbed: Presence, next: nat, t: Transition, e: Evidence, arrival: int): Update {
    var now := Recompute(cfg, PushHistory(absorbed, t, cfg.maxHistory), next + 1, arrival, e);
    Update(now.device, [t] + now.events)
  }

  /** A whole accepted observation of one device. */
  function Observe(cfg: PresenceConfig, d: Presence, next: nat, e: Evidence, arrival: int): Update {
    var absorbed := Absorb(cfg, d, e, arrival);
    match Corrects(cfg, d, e, arrival)
    case Some(c) => Corrected(cfg, absorbed, next, Correction(next, e, arrival, c), e, arrival)
    case None =>
      if Late(d, e) && !CurrentlyValid(cfg, d, e, arrival) then Update(absorbed, [])
      else Recompute(cfg, absorbed, next, arrival, e)
  }

  // ---------------------------------------------------------------- the engine

  datatype PresenceError =
    Untrusted | InvalidEvidence | OverCapacity | DeviceNotFound | ClockRollback | SequenceExhausted | CursorExpired

  datatype Engine = Engine(devices: map<nat, Presence>, next: nat)

  function Validate(cfg: PresenceConfig, e: Evidence, arrival: int, authorized: bool): Option<PresenceError> {
    if e.source !in cfg.trusted then Some(Untrusted)
    else if e.source == "" || |e.source| > cfg.maxSourceLen then Some(InvalidEvidence)
    else if e.observedAt > arrival + cfg.futureSkew then Some(InvalidEvidence)
    else if e.validUntil.Some? && e.validUntil.value < e.observedAt then Some(InvalidEvidence)
    else if e.kind == NeighborCache && e.validUntil.None? then Some(InvalidEvidence)
    else if FamilyOf(e.kind) == Some(Enforcement) && !authorized then Some(InvalidEvidence)
    else if e.kind == Evaluation then Some(InvalidEvidence)
    else None
  }

  function NewPresence(arrival: int): Presence {
    Presence(Unknown, {}, [], arrival, false, Flag(false, None), Flag(false, None), Flag(false, None), None)
  }

  function DeviceAt(s: Engine, id: nat, arrival: int): Presence {
    if id in s.devices then s.devices[id] else NewPresence(arrival)
  }

  /** Already known, or a control record that a later one has overtaken. */
  predicate Redundant(s: Engine, id: nat, e: Evidence) {
    id in s.devices && (e in s.devices[id].evidence || StaleControl(s.devices[id], e))
  }

  function IngestRefusal(cfg: PresenceConfig, s: Engine, id: nat, e: Evidence, arrival: int, authorized: bool)
    : Option<PresenceError>
  {
    if Validate(cfg, e, arrival, authorized).Some? then Validate(cfg, e, arrival, authorized)
    else if id !in s.devices && |s.devices| >= cfg.maxDevices then Some(OverCapacity)
    else if id in s.devices && arrival < s.devices[id].lastEvaluation then Some(ClockRollback)
    else if Redundant(s, id, e) then None
    else if id in s.devices && Retained(cfg, e, arrival)
            && |KeptEvidence(cfg, s.devices[id].evidence, arrival)| >= cfg.maxEvidence then Some(OverCapacity)
    else if s.next + 2 > 0xffff_ffff_ffff_ffff then Some(SequenceExhausted)
    else None
  }

  datatype Ingested = Ingested(after: Engine, events: seq<Transition>)

  function Stored(s: Engine, id: nat, u: Update): Engine {
    Engine(s.devices[id := u.device], s.next + |u.events|)
  }

  function Ingest(cfg: PresenceConfig, s: Engine, id: nat, e: Evidence, arrival: int, authorized: bool)
    : Result<Ingested, PresenceError>
  {
    match IngestRefusal(cfg, s, id, e, arrival, authorized)
    case Some(error) => Err(error)
    case None =>
      if Redundant(s, id, e) then Ok(Ingested(s, []))
      else
        var u := Observe(cfg, DeviceAt(s, id, arrival), s.next, e, arrival);
        Ok(Ingested(Stored(s, id, u), u.events))
  }

  function TimerEvidence(at: int): Evidence {
    Evidence("presence.timer", Evaluation, at, None)
  }

  function Evaluate(cfg: PresenceConfig, s: Engine, id: nat, at: int): Result<Ingested, PresenceError> {
    if id !in s.devices then Err(DeviceNotFound)
    else if at < s.devices[id].lastEvaluation then Err(ClockRollback)
    else if s.next == 0xffff_ffff_ffff_ffff then Err(SequenceExhausted)
    else
      var u := Recompute(cfg, s.devices[id].(lastEvaluation := at), s.next, at, TimerEvidence(at));
      Ok(Ingested(Stored(s, id, u), u.events))
  }

  /** The retained transitions after the cursor, unless one after it was evicted. */
  function EventsSince(d: Presence, cursor: nat): Result<seq<Transition>, PresenceError> {
    if d.evictedThrough.Some? && cursor < d.evictedThrough.value then Err(CursorExpired)
    else Ok(After(d.history, cursor))
  }

  function After(history: seq<Transition>, cursor: nat): seq<Transition> {
    if history == [] then []
    else
      var init := After(history[..|history| - 1], cursor);
      if history[|history| - 1].id > cursor then init + [history[|history| - 1]] else init
  }
}
