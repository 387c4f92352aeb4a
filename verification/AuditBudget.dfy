/** The broker's shared budget: reservations, commits, drops and charges in any interleaving. */
module AuditBudget {
  import opened Wrappers
  import opened Accounting
  import opened Naturals

  datatype BudgetError = BudgetExhausted | DeadlineExceeded

  datatype Budget = Budget(requests: nat, bytes: nat, maxRequests: nat, maxBytes: nat)

  /** A reservation: the bytes of the request and the most the response may have. */
  datatype Hold = Hold(request: nat, cap: nat)

  // ---------------------------------------------------------------- one call at a time

  /** `expired` says whether the deadline has passed when the call is made. */
  function Reserve(b: Budget, request: nat, cap: nat, expired: bool): Result<Budget, BudgetError> {
    if request + cap > U64_MAX then Err(BudgetExhausted)
    else if expired || b.requests >= b.maxRequests || request + cap > Monus(b.maxBytes, b.bytes) then Err(BudgetExhausted)
    else Ok(b.(requests := b.requests + 1, bytes := b.bytes + request + cap))
  }

  function Refund(b: Budget, cap: nat, actual: nat): Budget
    requires actual <= cap
  {
    b.(bytes := Monus(b.bytes, cap - actual))
  }

  function Release(b: Budget, request: nat, cap: nat): Budget {
    b.(requests := Monus(b.requests, 1), bytes := Monus(b.bytes, request + cap))
  }

  function Charge(b: Budget, bytes: nat, expired: bool): Result<Budget, BudgetError> {
    if expired then Err(DeadlineExceeded)
    else if bytes > Monus(b.maxBytes, b.bytes) then Err(BudgetExhausted)
    else Ok(b.(bytes := b.bytes + bytes))
  }

  /** Committing more than was reserved drops the reservation instead. */
  function Commit(b: Budget, h: Hold, actual: nat): Budget {
    if actual <= h.cap then Refund(b, h.cap, actual) else Release(b, h.request, h.cap)
  }

  // ---------------------------------------------------------------- the ledger

  /** The budget with all that was done to it: open reservations, charges, and what commits came to. */
  datatype Ledger = Ledger(budget: Budget, open: map<nat, Hold>, charged: nat, committed: nat, commits: nat)

  ghost function Weights(open: map<nat, Hold>): map<nat, nat> {
    map r | r in open :: open[r].request + open[r].cap
  }

  ghost function Outstanding(open: map<nat, Hold>): nat {
    Sum(open.Keys, Weights(open))
  }

  /** Every byte and request is accounted for, within the limits. */
  ghost predicate Balanced(l: Ledger) {
    && l.budget.bytes == l.charged + l.committed + Outstanding(l.open)
    && l.budget.requests == l.commits + |l.open|
    && l.budget.bytes <= l.budget.maxBytes && l.budget.requests <= l.budget.maxRequests
  }

  datatype BudgetOp =
    | ReserveOp(reservation: nat, request: nat, cap: nat, expired: bool)
    | CommitOp(committing: nat, actual: nat)
    | DropOp(dropped: nat)
    | ChargeOp(bytes: nat, expired: bool)

  function Reserved(l: Ledger, r: nat, request: nat, cap: nat, expired: bool): Ledger {
    match Reserve(l.budget, request, cap, expired)
    case Err(_) => l
    case Ok(b) => l.(budget := b, open := l.open[r := Hold(request, cap)])
  }

  function Committed(l: Ledger, r: nat, actual: nat): Ledger
    requires r in l.open && actual <= l.open[r].cap
  {
    Ledger(Commit(l.budget, l.open[r], actual), l.open - {r}, l.charged, l.committed + l.open[r].request + actual, l.commits + 1)
  }

  function Dropped(l: Ledger, r: nat): Ledger
    requires r in l.open
  {
    l.(budget := Release(l.budget, l.open[r].request, l.open[r].cap), open := l.open - {r})
  }

  function Charged(l: Ledger, bytes: nat, expired: bool): Ledger {
    match Charge(l.budget, bytes, expired)
    case Err(_) => l
    case Ok(b) => l.(budget := b, charged := l.charged + bytes)
  }

  /** Reservations carry distinct identifiers; an identifier in use is not issued again. */
  function Step(l: Ledger, op: BudgetOp): Ledger {
    match op
    case ReserveOp(r, request, cap, expired) => if r in l.open then l else Reserved(l, r, request, cap, expired)
    case CommitOp(r, actual) =>
      if r !in l.open then l else if actual <= l.open[r].cap then Committed(l, r, actual) else Dropped(l, r)
    case DropOp(r) => if r !in l.open then l else Dropped(l, r)
    case ChargeOp(bytes, expired) => Charged(l, bytes, expired)
  }

  function Run(maxRequests: nat, maxBytes: nat, ops: seq<BudgetOp>): Ledger {
    if ops == [] then Ledger(Budget(0, 0, maxRequests, maxBytes), map[], 0, 0, 0)
    else Step(Run(maxRequests, maxBytes, ops[..|ops| - 1]), ops[|ops| - 1])
  }

  lemma OutstandingAdd(open: map<nat, Hold>, r: nat, h: Hold)
    requires r !in open
    ensures Outstanding(open[r := h]) == Outstanding(open) + h.request + h.cap
    ensures |open[r := h]| == |open| + 1
  {
    var more := open[r := h];
    assert more.Keys == open.Keys + {r} && more.Keys - {r} == open.Keys;
    SumPull(more.Keys, Weights(more), r);
    SumAgrees(open.Keys, Weights(more), Weights(open));
  }

  lemma OutstandingRemove(open: map<nat, Hold>, r: nat)
    requires r in open
    ensures Outstanding(open) == Outstanding(open - {r}) + open[r].request + open[r].cap
    ensures |open - {r}| == |open| - 1
  {
    var less := open - {r};
    assert less[r := open[r]] == open;
    OutstandingAdd(less, r, open[r]);
  }

  /** The subtraction of a commit or a drop never clips. */
  lemma NothingClips(l: Ledger, r: nat)
    requires Balanced(l) && r in l.open
    ensures 1 <= l.budget.requests && l.open[r].request + l.open[r].cap <= l.budget.bytes
  {
    OutstandingRemove(l.open, r);
  }

  lemma ReservedBalanced(l: Ledger, r: nat, request: nat, cap: nat, expired: bool)
    requires Balanced(l) && r !in l.open
    ensures Balanced(Reserved(l, r, request, cap, expired))
  {
    OutstandingAdd(l.open, r, Hold(request, cap));
  }

  lemma CommittedBalanced(l: Ledger, r: nat, actual: nat)
    requires Balanced(l) && r in l.open && actual <= l.open[r].cap
    ensures Balanced(Committed(l, r, actual))
  {
    OutstandingRemove(l.open, r);
  }

  lemma DroppedBalanced(l: Ledger, r: nat)
    requires Balanced(l) && r in l.open
    ensures Balanced(Dropped(l, r))
  {
    OutstandingRemove(l.open, r);
  }

  lemma StepBalanced(l: Ledger, op: BudgetOp)
    requires Balanced(l)
    ensures Balanced(Step(l, op))
  {
    match op {
      case ReserveOp(r, request, cap, expired) =>
        if r !in l.open {
          ReservedBalanced(l, r, request, cap, expired);
        }
      case CommitOp(r, actual) =>
        if r in l.open {
          if actual <= l.open[r].cap {
            CommittedBalanced(l, r, actual);
          } else {
            DroppedBalanced(l, r);
          }
        }
      case DropOp(r) =>
        if r in l.open {
          DroppedBalanced(l, r);
        }
      case ChargeOp(bytes, expired) =>
    }
  }

  /** Under any interleaving the counters equal charges, commits and open reservations, within the limits. */
  lemma {:induction false} RunBalanced(maxRequests: nat, maxBytes: nat, ops: seq<BudgetOp>)
    ensures Balanced(Run(maxRequests, maxBytes, ops))
    ensures Run(maxRequests, maxBytes, ops).budget.maxRequests == maxRequests
    ensures Run(maxRequests, maxBytes, ops).budget.maxBytes == maxBytes
  {
    if ops != [] {
      RunBalanced(maxRequests, maxBytes, ops[..|ops| - 1]);
      StepBalanced(Run(maxRequests, maxBytes, ops[..|ops| - 1]), ops[|ops| - 1]);
    }
  }

  /** When every reservation is closed, only charges and commits are left. */
  lemma QuiescentBudget(maxRequests: nat, maxBytes: nat, ops: seq<BudgetOp>)
    requires Run(maxRequests, maxBytes, ops).open == map[]
    ensures var l := Run(maxRequests, maxBytes, ops);
            l.budget.bytes == l.charged + l.committed && l.budget.requests == l.commits
  {
    RunBalanced(maxRequests, maxBytes, ops);
  }

  // ---------------------------------------------------------------- the lock-protected counters

  /** The counters behind the lock, with a ghost record of the reservations open on them. */
  class SharedBudget {
    var requests: nat
    var bytes: nat
    const maxRequests: nat
    const maxBytes: nat
    ghost var open: map<nat, Hold>
    ghost var charged: nat
    ghost var committed: nat
    ghost var commits: nat

    ghost function State(): Ledger
      reads this
    {
      Ledger(Budget(requests, bytes, maxRequests, maxBytes), open, charged, committed, commits)
    }

    ghost predicate Valid()
      reads this
    {
      Balanced(State())
    }

    constructor (maxRequests: nat, maxBytes: nat)
      ensures Valid() && State() == Run(maxRequests, maxBytes, [])
    {
      this.maxRequests, this.maxBytes := maxRequests, maxBytes;
      requests, bytes := 0, 0;
      open, charged, committed, commits := map[], 0, 0, 0;
    }

    method ReserveBytes(ghost r: nat, request: nat, cap: nat, expired: bool) returns (ok: bool)
      requires Valid() && r !in open
      modifies this
      ensures Valid() && State() == Step(old(State()), ReserveOp(r, request, cap, expired))
      ensures ok <==> r in open
    {
      StepBalanced(State(), ReserveOp(r, request, cap, expired));
      var total := request + cap;
      if total > U64_MAX || expired || requests >= maxRequests || total > Monus(maxBytes, bytes) {
        return false;
      }
      requests := requests + 1;
      bytes := bytes + total;
      open := open[r := Hold(request, cap)];
      return true;
    }

    /** Gives the reservation back. */
    method ReleaseHold(ghost r: nat, h: Hold)
      requires Valid() && r in open && open[r] == h
      modifies this
      ensures Valid() && State() == Step(old(State()), DropOp(r))
    {
      StepBalanced(State(), DropOp(r));
      NothingClips(State(), r);
      requests := requests - 1;
      bytes := bytes - (h.request + h.cap);
      open := open - {r};
    }

    /** Keeps the request and the actual response; an oversized response gives everything back. */
    method CommitHold(ghost r: nat, h: Hold, actual: nat) returns (ok: bool)
      requires Valid() && r in open && open[r] == h
      modifies this
      ensures Valid() && State() == Step(old(State()), CommitOp(r, actual)) && (ok <==> actual <= h.cap)
    {
      StepBalanced(State(), CommitOp(r, actual));
      NothingClips(State(), r);
      if actual > h.cap {
        requests := requests - 1;
        bytes := bytes - (h.request + h.cap);
        open := open - {r};
        return false;
      }
      bytes := bytes - (h.cap - actual);
      open := open - {r};
      committed, commits := committed + h.request + actual, commits + 1;
      return true;
    }

    method ChargeBytes(n: nat, expired: bool) returns (r: Result<(), BudgetError>)
      requires Valid()
      modifies this
      ensures Valid() && State() == Step(old(State()), ChargeOp(n, expired))
      ensures r.Ok? <==> Charge(old(State()).budget, n, expired).Ok?
    {
      StepBalanced(State(), ChargeOp(n, expired));
      if expired {
        return Err(DeadlineExceeded);
      }
      if n > Monus(maxBytes, bytes) {
        return Err(BudgetExhausted);
      }
      bytes, charged := bytes + n, charged + n;
      return Ok(());
    }
  }
}
