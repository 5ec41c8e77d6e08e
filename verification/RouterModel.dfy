/** One call of the router as a function of everything it cannot foresee: the
    free candidates in order, then the paid ones, each paid one reserved on the
    ledger before it is dispatched and closed by how it ended. */
module RouterModel {
  import opened Basics
  import opened Days
  import opened LedgerModel
  import opened LedgerDisk

  datatype Billing = Free | Paid

  datatype Candidate = Candidate(
    provider: string,
    model: string,
    adapter: string,
    billing: Billing,
    account: string,
    aggregateScope: Scope,
    providerScope: Scope,
    routeScope: Scope,
    modelScope: Scope,
    priceCard: string,
    zeroMarginalCost: bool,
    retryAttempts: nat)

  datatype RoutePolicy = RoutePolicy(
    freeCandidates: seq<Candidate>,
    paidCandidates: seq<Candidate>,
    exactCandidates: seq<Candidate>,
    substitutionsAllowed: bool)

  datatype Selection = UseRoute | ExactModel(provider: string, model: string)

  /** How a paid dispatch ends. A crash is any exception the adapter did not
      normalise. */
  datatype Phase = PreDispatch | Definitive | UnknownPhase

  datatype Ending =
    | Succeeded(actual: Option<int>, inputTokens: nat, outputTokens: nat)
    | AdapterFailed(phase: Phase, actual: Option<int>)
    | Crashed

  /** What construction of a route and its candidates enforces. */
  predicate ValidRoute(route: RoutePolicy) {
    && (forall c :: c in route.freeCandidates ==> c.billing.Free?)
    && (forall c :: c in route.paidCandidates ==> c.billing.Paid?)
    && (forall c :: c in route.exactCandidates + route.paidCandidates && c.billing.Paid? ==>
          c.aggregateScope != "" && c.providerScope != "" && c.routeScope != "")
  }

  /** Everything a call cannot foresee, candidate by candidate: adapters, the
      approvals at the two moments they are asked for, days, ids and writes. */
  datatype World = World(
    verifiedFree: Candidate -> bool,
    healthy: Candidate -> bool,
    freeSucceeds: (Candidate, nat) -> bool,
    approvedFirst: Candidate -> bool,
    approved: Candidate -> bool,
    capable: Candidate -> bool,
    estimate: Candidate -> Option<int>,
    ending: Candidate -> Ending,
    today: Candidate -> Day,
    newId: Candidate -> Rid,
    reserveIo: Candidate -> Io,
    closeIo: Candidate -> Io,
    overageIo: Candidate -> Io)

  datatype Request = Request(key: string)

  datatype CallError =
    | InvalidRequest
    | CannotBound
    | Unavailable
    | Denied
    | OutcomeIsUnknown
    | NotApproved
    | Failure
    | NoRoute
    | NoExactModel

  datatype CallResult = Answered(candidate: Candidate, reservation: Option<Rid>) | Raised(error: CallError)

  // ----- what a call does to the ledger -------------------------------------------

  datatype Closure =
    | Freed
    | ChargedFailure(micro: int)
    | LeftUnknown
    | ChargedSuccess(micro: int, inputTokens: nat, outputTokens: nat)

  /** What a call does to adapters and to the ledger, in order. */
  datatype Action =
    | FreeTry(candidate: Candidate)
    | Refused(candidate: Candidate, micro: nat)
    | Opened(candidate: Candidate, rid: Rid, micro: nat)
    | Dispatched(candidate: Candidate, rid: Rid, ending: Ending)
    | ClosedAs(candidate: Candidate, rid: Rid, closure: Closure, recorded: bool)

  /** The closure an ending calls for. */
  function ClosureFor(ending: Ending, reserved: nat): Closure {
    match ending
    case Succeeded(actual, inputTokens, outputTokens) =>
      ChargedSuccess(if actual.Some? then actual.value else reserved, inputTokens, outputTokens)
    case AdapterFailed(PreDispatch, _) => Freed
    case AdapterFailed(Definitive, actual) => ChargedFailure(if actual.Some? then actual.value else 0)
    case AdapterFailed(UnknownPhase, _) => LeftUnknown
    case Crashed => LeftUnknown
  }

  /** The ledger operation that a closure is. */
  function CloseOp(cfg: Config, files: Disk, rid: Rid, closure: Closure, io: Io, overageIo: Io)
    : (Disk, Result<(), Error>)
  {
    match closure
    case Freed => ReleaseOp(cfg, files, rid, io)
    case ChargedFailure(micro) => SettleOp(cfg, files, rid, micro, 0, 0, ProviderFailure, io, overageIo)
    case LeftUnknown => SettleUnknownOp(cfg, files, rid, io)
    case ChargedSuccess(micro, inputTokens, outputTokens) =>
      SettleOp(cfg, files, rid, micro, inputTokens, outputTokens, Success, io, overageIo)
  }

  function SpecFor(cfg: Config, req: Request, c: Candidate, micro: nat): Spec {
    Spec(cfg.domain, c.aggregateScope, c.providerScope, c.routeScope, c.modelScope, c.account, req.key, micro, c.priceCard)
  }

  ghost function OpenOp(cfg: Config, w: World, req: Request, files: Disk, c: Candidate, micro: nat)
    : (Disk, Result<Reservation, Error>)
  {
    ReserveOp(cfg, files, SpecFor(cfg, req, c, micro), w.today(c), w.newId(c), w.reserveIo(c))
  }

  /** What a refused reservation means to the caller: an unresolved key is an
      unknown outcome, a consumed one a denied budget. */
  function RefusedAs(error: Error): CallError {
    match error
    case LedgerUnavailable => Unavailable
    case BudgetDenied => Denied
    case IdempotencyConflict(status) => if status == Live || status == Unknown then OutcomeIsUnknown else Denied
  }

  // ----- free candidates --------------------------------------------------------------

  predicate Eligible(w: World, c: Candidate) {
    c.zeroMarginalCost && w.verifiedFree(c) && w.healthy(c)
  }

  /** The free candidate answers within its attempts. */
  predicate FreeAnswers(w: World, c: Candidate) {
    Eligible(w, c) && exists n :: 1 <= n <= c.retryAttempts && w.freeSucceeds(c, n)
  }

  /** The attempts made at a free candidate from the n-th on: until one succeeds. */
  function FreeTries(w: World, c: Candidate, n: nat, attempts: nat): seq<Action>
    decreases attempts + 1 - n
  {
    if n > attempts then []
    else [FreeTry(c)] + if w.freeSucceeds(c, n) then [] else FreeTries(w, c, n + 1, attempts)
  }

  function FreeActions(w: World, c: Candidate, exact: bool): seq<Action> {
    if !Eligible(w, c) then [] else FreeTries(w, c, 1, if exact then 1 else c.retryAttempts)
  }

  /** The first free candidate that answers, if any, and what was tried. */
  function FreeFrom(w: World, candidates: seq<Candidate>): (Option<Candidate>, seq<Action>) {
    if candidates == [] then (None, [])
    else
      var c := candidates[0];
      if FreeAnswers(w, c) then (Some(c), FreeActions(w, c, false))
      else
        var (answer, rest) := FreeFrom(w, candidates[1..]);
        (answer, FreeActions(w, c, false) + rest)
  }

  // ----- one paid candidate -------------------------------------------------------------

  /** What a closure leaves to say. None means: try the next candidate. */
  function AfterClosure(c: Candidate, rid: Rid, ending: Ending, recorded: bool): Option<CallResult> {
    if !recorded then Some(Raised(OutcomeIsUnknown))
    else
      match ending
      case Succeeded(_, _, _) => Some(Answered(c, Some(rid)))
      case AdapterFailed(UnknownPhase, _) => Some(Raised(OutcomeIsUnknown))
      case AdapterFailed(_, _) => None
      case Crashed => Some(Raised(OutcomeIsUnknown))
  }

  /** Reserve, dispatch, close: the files after it, how it went, and what was done. */
  ghost function DispatchPaid(cfg: Config, w: World, req: Request, files: Disk, c: Candidate, micro: nat)
    : (Disk, Option<CallResult>, seq<Action>)
  {
    var (held, granted) := OpenOp(cfg, w, req, files, c, micro);
    if granted.Err? then (held, Some(Raised(RefusedAs(granted.error))), [Refused(c, micro)])
    else
      var rid, ending := granted.value.rid, w.ending(c);
      var closure := ClosureFor(ending, micro);
      var (left, closed) := CloseOp(cfg, held, rid, closure, w.closeIo(c), w.overageIo(c));
      (left, AfterClosure(c, rid, ending, closed.Ok?),
       [Opened(c, rid, micro), Dispatched(c, rid, ending), ClosedAs(c, rid, closure, closed.Ok?)])
  }

  predicate Bounded(w: World, c: Candidate) {
    w.estimate(c).Some? && w.estimate(c).value > 0
  }

  /** One paid candidate of a route. */
  ghost function PaidAt(cfg: Config, w: World, req: Request, files: Disk, c: Candidate)
    : (Disk, Option<CallResult>, seq<Action>)
  {
    if !w.approved(c) || !w.capable(c) then (files, None, [])
    else if req.key == "" then (files, Some(Raised(InvalidRequest)), [])
    else if !Bounded(w, c) then (files, Some(Raised(CannotBound)), [])
    else DispatchPaid(cfg, w, req, files, c, w.estimate(c).value)
  }

  /** The same candidate when it was selected exactly: it has to give a result. */
  ghost function ExactPaid(cfg: Config, w: World, req: Request, files: Disk, c: Candidate)
    : (Disk, CallResult, seq<Action>)
  {
    if !w.approved(c) then (files, Raised(NotApproved), [])
    else if !w.capable(c) then (files, Raised(Failure), [])
    else
      var (left, r, actions) := PaidAt(cfg, w, req, files, c);
      (left, if r.Some? then r.value else Raised(Failure), actions)
  }

  // ----- the chain of paid candidates ---------------------------------------------------

  /** The chain goes on after a candidate that was passed over, that failed
      without an unknown outcome, or whose budget was denied. */
  predicate GoesOn(outcome: Option<CallResult>) {
    outcome.None? || outcome == Some(Raised(Denied))
  }

  ghost function PaidFrom(cfg: Config, w: World, req: Request, files: Disk, candidates: seq<Candidate>, i: nat,
                          anyApproved: bool, denied: bool): (Disk, CallResult, seq<Action>)
    requires i <= |candidates|
    decreases |candidates| - i
  {
    if i == |candidates| then
      (files, Raised(if denied then Denied else if anyApproved then Failure else NotApproved), [])
    else
      var c := candidates[i];
      var (left, outcome, actions) := PaidAt(cfg, w, req, files, c);
      if !GoesOn(outcome) then (left, outcome.value, actions)
      else
        var (last, r, rest) :=
          PaidFrom(cfg, w, req, left, candidates, i + 1, anyApproved || w.approvedFirst(c), denied || outcome.Some?);
        (last, r, actions + rest)
  }

  // ----- a call -------------------------------------------------------------------------

  /** The automatic candidates of a route; without substitutions, only the first. */
  function FreeList(route: RoutePolicy): seq<Candidate> {
    var combined := route.freeCandidates + route.paidCandidates;
    if route.substitutionsAllowed then route.freeCandidates
    else if combined != [] && combined[0].billing.Free? then combined[..1]
    else []
  }

  function PaidList(route: RoutePolicy): seq<Candidate> {
    var combined := route.freeCandidates + route.paidCandidates;
    if route.substitutionsAllowed then route.paidCandidates
    else if combined != [] && combined[0].billing.Paid? then combined[..1]
    else []
  }

  /** The candidates a call may touch, in order. */
  function Allowed(route: RoutePolicy, selection: Selection): seq<Candidate> {
    match selection
    case UseRoute => FreeList(route) + PaidList(route)
    case ExactModel(provider, model) =>
      match FindExact(route.exactCandidates + route.freeCandidates + route.paidCandidates, provider, model)
      case None => []
      case Some(c) => [c]
  }

  function ExactFree(w: World, c: Candidate): CallResult {
    if !Eligible(w, c) then Raised(NoExactModel)
    else if w.freeSucceeds(c, 1) then Answered(c, None)
    else Raised(Failure)
  }

  function FindExact(candidates: seq<Candidate>, provider: string, model: string): Option<Candidate> {
    if candidates == [] then None
    else if candidates[0].provider == provider && candidates[0].model == model then Some(candidates[0])
    else FindExact(candidates[1..], provider, model)
  }

  /** A whole call: the files it leaves, its result, and all it did. */
  ghost function Completed(cfg: Config, w: World, req: Request, route: RoutePolicy, selection: Selection, files: Disk)
    : (Disk, CallResult, seq<Action>)
  {
    match selection
    case ExactModel(provider, model) =>
      (match FindExact(route.exactCandidates + route.freeCandidates + route.paidCandidates, provider, model)
       case None => (files, Raised(NoExactModel), [])
       case Some(c) =>
         if c.billing.Free? then (files, ExactFree(w, c), FreeActions(w, c, true)) else ExactPaid(cfg, w, req, files, c))
    case UseRoute =>
      var (answer, tried) := FreeFrom(w, FreeList(route));
      if answer.Some? then (files, Answered(answer.value, None), tried)
      else if PaidList(route) == [] then (files, Raised(NoRoute), tried)
      else
        var (left, r, actions) := PaidFrom(cfg, w, req, files, PaidList(route), 0, false, false);
        (left, r, tried + actions)
  }

  lemma {:induction false} FindExactIn(candidates: seq<Candidate>, provider: string, model: string)
    requires FindExact(candidates, provider, model).Some?
    ensures FindExact(candidates, provider, model).value in candidates
  {
    if candidates[0].provider != provider || candidates[0].model != model {
      FindExactIn(candidates[1..], provider, model);
    }
  }

  lemma PaidListed(route: RoutePolicy)
    requires ValidRoute(route)
    ensures forall c :: c in PaidList(route) ==> c.aggregateScope != "" && c.providerScope != "" && c.routeScope != ""
  {
    assert forall c :: c in PaidList(route) ==> c.billing.Paid? && (c in route.paidCandidates || c in route.freeCandidates);
  }
}
