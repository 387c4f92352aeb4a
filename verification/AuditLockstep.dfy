/** The sandbox's own meter and the broker's budget, moving in step through a guest's run. */
module AuditLockstep {
  import opened Wrappers
  import opened Accounting
  import opened Naturals
  import opened AuditBudget

  /** What the sandbox counts for one run of a guest. */
  datatype Meter = Meter(requests: nat, bytes: nat, maxRequests: nat, maxBytes: nat)

  datatype GuestFailure = RequestLimit | ByteLimit | HostRefusal(error: HostError)

  datatype HostError = Cancelled | HostDeadline | HostBudget | Denied | ExchangeFailed

  function Deterministic(m: Meter): Result<Meter, GuestFailure> {
    if m.requests >= m.maxRequests then Err(RequestLimit) else Ok(m.(requests := m.requests + 1))
  }

  /** Before the host is asked, the sandbox takes the request and the whole response capacity. */
  function BeginExchange(m: Meter, request: nat, cap: nat): Result<Meter, GuestFailure> {
    if request + cap > U64_MAX || request + cap > Monus(m.maxBytes, m.bytes) then Err(ByteLimit)
    else if m.requests >= m.maxRequests then Err(RequestLimit)
    else Ok(m.(requests := m.requests + 1, bytes := m.bytes + request + cap))
  }

  /** What happens outside the two meters while an exchange is under way. */
  datatype World =
    | Interrupted
    | Late
    | LateReservation
    | Turned(error: HostError)
    | Answered(length: nat)

  datatype Hosted = Hosted(budget: Budget, answer: Result<nat, HostError>)

  /** The broker's side: reserve, ask the world, commit or give back. */
  function HostExchange(b: Budget, request: nat, cap: nat, world: World): Hosted {
    if world.Interrupted? then Hosted(b, Err(Cancelled))
    else if world.Late? then Hosted(b, Err(HostDeadline))
    else
      match Reserve(b, request, cap, world.LateReservation?)
      case Err(_) => Hosted(b, Err(HostBudget))
      case Ok(held) =>
        if world.Turned? then Hosted(Release(held, request, cap), Err(world.error))
        else if world.Answered? && world.length <= cap then Hosted(Commit(held, Hold(request, cap), world.length), Ok(world.length))
        else Hosted(Release(held, request, cap), Err(ExchangeFailed))
  }

  datatype Guest = Running(meter: Meter, budget: Budget) | Trapped(failure: GuestFailure)

  datatype Call = Ask | Exchange(request: nat, cap: nat, world: World)

  /** One exchange on both sides; any failure ends the guest's run. */
  function ExchangeStep(g: Guest, request: nat, cap: nat, world: World): Guest
    requires g.Running?
  {
    match BeginExchange(g.meter, request, cap)
    case Err(e) => Trapped(e)
    case Ok(taken) =>
      var hosted := HostExchange(g.budget, request, cap, world);
      match hosted.answer
      case Err(e) => Trapped(HostRefusal(e))
      case Ok(length) =>
        if length <= cap then Running(taken.(bytes := Monus(taken.bytes, cap - length)), hosted.budget)
        else Trapped(HostRefusal(ExchangeFailed))
  }

  function Step(g: Guest, call: Call): Guest {
    if g.Trapped? then g
    else
      match call
      case Ask => (match Deterministic(g.meter) case Ok(m) => g.(meter := m) case Err(e) => Trapped(e))
      case Exchange(request, cap, world) => ExchangeStep(g, request, cap, world)
  }

  /** A run starts once the broker has charged the input and the sandbox has counted it. */
  function Start(maxRequests: nat, maxBytes: nat, input: nat): Result<Guest, BudgetError> {
    match Charge(Budget(0, 0, maxRequests, maxBytes), input, false)
    case Err(e) => Err(e)
    case Ok(b) => Ok(Running(Meter(0, input, maxRequests, maxBytes), b))
  }

  function Run(g: Guest, calls: seq<Call>): Guest {
    if calls == [] then g else Step(Run(g, calls[..|calls| - 1]), calls[|calls| - 1])
  }

  // ---------------------------------------------------------------- lockstep

  ghost predicate InStep(g: Guest) {
    g.Running? ==>
      && g.meter.bytes == g.budget.bytes && g.budget.requests <= g.meter.requests
      && g.meter.maxBytes == g.budget.maxBytes && g.meter.maxRequests == g.budget.maxRequests
      && g.meter.bytes <= g.meter.maxBytes && g.meter.requests <= g.meter.maxRequests
  }

  lemma StepInStep(g: Guest, call: Call)
    requires InStep(g)
    ensures InStep(Step(g, call))
  {
  }

  lemma {:induction false} RunInStep(g: Guest, calls: seq<Call>)
    requires InStep(g)
    ensures InStep(Run(g, calls))
  {
    if calls != [] {
      RunInStep(g, calls[..|calls| - 1]);
      StepInStep(Run(g, calls[..|calls| - 1]), calls[|calls| - 1]);
    }
  }

  lemma StartInStep(maxRequests: nat, maxBytes: nat, input: nat)
    requires Start(maxRequests, maxBytes, input).Ok?
    ensures InStep(Start(maxRequests, maxBytes, input).value)
  {
  }

  /** An exchange the sandbox accepts is never refused by the broker for its budget, deadlines aside. */
  lemma BrokerHonoursSandbox(
    maxRequests: nat, maxBytes: nat, input: nat, calls: seq<Call>, request: nat, cap: nat, world: World)
    requires Start(maxRequests, maxBytes, input).Ok?
    requires Run(Start(maxRequests, maxBytes, input).value, calls).Running?
    requires BeginExchange(Run(Start(maxRequests, maxBytes, input).value, calls).meter, request, cap).Ok?
    ensures var g := Run(Start(maxRequests, maxBytes, input).value, calls);
            && Reserve(g.budget, request, cap, false).Ok?
            && (HostExchange(g.budget, request, cap, world).answer == Err(HostBudget) ==>
                  world.LateReservation? || world == Turned(HostBudget))
  {
    StartInStep(maxRequests, maxBytes, input);
    RunInStep(Start(maxRequests, maxBytes, input).value, calls);
  }

  /** The unused capacity handed back never exceeds what the sandbox has counted. */
  lemma RefundNeverUnderflows(
    maxRequests: nat, maxBytes: nat, input: nat, calls: seq<Call>, request: nat, cap: nat, length: nat)
    requires Start(maxRequests, maxBytes, input).Ok?
    requires Run(Start(maxRequests, maxBytes, input).value, calls).Running?
    requires BeginExchange(Run(Start(maxRequests, maxBytes, input).value, calls).meter, request, cap).Ok? && length <= cap
    ensures var g := Run(Start(maxRequests, maxBytes, input).value, calls);
            var after := Step(g, Exchange(request, cap, Answered(length)));
            && cap - length <= BeginExchange(g.meter, request, cap).value.bytes
            && after.Running? && after.meter.bytes == g.meter.bytes + request + length == after.budget.bytes
  {
    StartInStep(maxRequests, maxBytes, input);
    RunInStep(Start(maxRequests, maxBytes, input).value, calls);
  }

  predicate OutputFits(m: Meter, length: nat) {
    length <= m.maxBytes && length <= Monus(m.maxBytes, m.bytes)
  }

  /** The broker charges the final output exactly when the sandbox let it pass. */
  lemma OutputHonoured(maxRequests: nat, maxBytes: nat, input: nat, calls: seq<Call>, length: nat)
    requires Start(maxRequests, maxBytes, input).Ok?
    requires Run(Start(maxRequests, maxBytes, input).value, calls).Running?
    ensures var g := Run(Start(maxRequests, maxBytes, input).value, calls);
            OutputFits(g.meter, length) <==> Charge(g.budget, length, false).Ok?
  {
    StartInStep(maxRequests, maxBytes, input);
    RunInStep(Start(maxRequests, maxBytes, input).value, calls);
  }

  // ---------------------------------------------------------------- the sandbox store

  /** The counters the host calls update; a failure, once set, ends the run. */
  class StoreState {
    var requests: nat
    var bytes: nat
    const maxRequests: nat
    const maxBytes: nat
    var failure: Option<GuestFailure>

    ghost function State(): Meter
      reads this
    {
      Meter(requests, bytes, maxRequests, maxBytes)
    }

    constructor (maxRequests: nat, maxBytes: nat, input: nat)
      ensures State() == Meter(0, input, maxRequests, maxBytes) && failure == None
    {
      this.maxRequests, this.maxBytes := maxRequests, maxBytes;
      requests, bytes, failure := 0, input, None;
    }

    method CallDeterministic() returns (ok: bool)
      modifies this
      ensures ok <==> Deterministic(old(State())).Ok?
      ensures ok ==> State() == Deterministic(old(State())).value && failure == old(failure)
      ensures !ok ==> State() == old(State()) && failure == Some(RequestLimit)
    {
      if requests >= maxRequests {
        failure := Some(RequestLimit);
        return false;
      }
      requests := requests + 1;
      return true;
    }

    /** Takes the bytes and the request; on refusal only the failure is noted. */
    method TakeExchange(request: nat, cap: nat) returns (ok: bool)
      modifies this
      ensures ok <==> BeginExchange(old(State()), request, cap).Ok?
      ensures ok ==> State() == BeginExchange(old(State()), request, cap).value && failure == old(failure)
      ensures !ok ==> State() == old(State()) && failure == Some(BeginExchange(old(State()), request, cap).error)
    {
      var total := request + cap;
      if total > U64_MAX || total > Monus(maxBytes, bytes) {
        failure := Some(ByteLimit);
        return false;
      }
      if requests >= maxRequests {
        failure := Some(RequestLimit);
        return false;
      }
      requests, bytes := requests + 1, bytes + total;
      return true;
    }

    /** Hands back unused capacity, or notes why the exchange failed. */
    method SettleExchange(cap: nat, answer: Result<nat, HostError>) returns (ok: bool)
      requires cap <= bytes
      modifies this
      ensures ok <==> answer.Ok? && answer.value <= cap
      ensures ok ==> State() == old(State()).(bytes := old(bytes) - (cap - answer.value)) && failure == old(failure)
      ensures !ok ==> State() == old(State())
      ensures !ok ==> failure == Some(HostRefusal(if answer.Err? then answer.error else ExchangeFailed))
    {
      match answer {
        case Err(e) =>
          failure := Some(HostRefusal(e));
          return false;
        case Ok(length) =>
          if length > cap {
            failure := Some(HostRefusal(ExchangeFailed));
            return false;
          }
          bytes := bytes - (cap - length);
          return true;
      }
    }
  }
}
