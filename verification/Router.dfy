/** The router as the program runs it: loops over candidates, driving the ledger
    step by step. Each method is held to the function that specifies it. */
module Routers {
  import opened Basics
  import opened LedgerModel
  import opened LedgerDisk
  import opened FileLedgers
  import opened RouterModel

  class Router {
    const ledger: FileLedger

    constructor (ledger: FileLedger)
      ensures this.ledger == ledger
    {
      this.ledger := ledger;
    }

    /** Tries one free candidate, up to its number of attempts. */
    method RunFree(w: World, c: Candidate, exact: bool) returns (r: Option<CallResult>, ghost tries: seq<Action>)
      ensures !exact ==> r == if FreeAnswers(w, c) then Some(Answered(c, None)) else None
      ensures exact ==> r == Some(ExactFree(w, c))
      ensures tries == FreeActions(w, c, exact)
    {
      tries := [];
      if !(c.zeroMarginalCost && w.verifiedFree(c) && w.healthy(c)) {
        return if exact then Some(Raised(NoExactModel)) else None, tries;
      }
      var maxAttempts := if exact then 1 else c.retryAttempts;
      assert [] + FreeTries(w, c, 1, maxAttempts) == FreeActions(w, c, exact);
      for number := 1 to maxAttempts + 1
        invariant exact ==> number == 1
        invariant forall n :: 1 <= n < number ==> !w.freeSucceeds(c, n)
        invariant tries + FreeTries(w, c, number, maxAttempts) == FreeActions(w, c, exact)
      {
        ghost var rest := FreeTries(w, c, number + 1, maxAttempts);
        assert tries + ([FreeTry(c)] + rest) == tries + [FreeTry(c)] + rest;
        tries := tries + [FreeTry(c)];
        if w.freeSucceeds(c, number) {
          return Some(Answered(c, None)), tries;
        }
        if exact {
          return Some(Raised(Failure)), tries;
        }
      }
      return None, tries;
    }

    /** Records how a paid dispatch ended. */
    method CloseReservation(w: World, c: Candidate, rid: Rid, closure: Closure) returns (recorded: bool)
      modifies ledger`journal, ledger`history
      ensures var (files, r) := CloseOp(ledger.cfg, old(ledger.Files()), rid, closure, w.closeIo(c), w.overageIo(c));
        ledger.Files() == files && recorded == r.Ok?
    {
      hide SettleOp, CloseWith;
      match closure {
        case Freed =>
          var r := ledger.Release(rid, w.closeIo(c));
          recorded := r.Ok?;
        case ChargedFailure(micro) =>
          var r := ledger.Settle(rid, micro, 0, 0, ProviderFailure, w.closeIo(c), w.overageIo(c));
          recorded := r.Ok?;
        case LeftUnknown =>
          var r := ledger.SettleUnknown(rid, w.closeIo(c));
          recorded := r.Ok?;
        case ChargedSuccess(micro, inputTokens, outputTokens) =>
          var r := ledger.Settle(rid, micro, inputTokens, outputTokens, Success, w.closeIo(c), w.overageIo(c));
          recorded := r.Ok?;
      }
    }

    /** Takes one paid candidate through approval, capability, reservation,
        dispatch and closure. None means: try the next candidate. */
    method RunPaid(w: World, req: Request, c: Candidate, exact: bool) returns (r: Option<CallResult>, ghost actions: seq<Action>)
      requires c.aggregateScope != "" && c.providerScope != "" && c.routeScope != ""
      modifies ledger`journal, ledger`history
      ensures !exact ==> (ledger.Files(), r, actions) == PaidAt(ledger.cfg, w, req, old(ledger.Files()), c)
      ensures exact ==> r.Some?
      ensures exact ==> (ledger.Files(), r.value, actions) == ExactPaid(ledger.cfg, w, req, old(ledger.Files()), c)
    {
      hide DispatchPaid;
      actions := [];
      if !w.approved(c) {
        return if exact then Some(Raised(NotApproved)) else None, actions;
      }
      if !w.capable(c) {
        return if exact then Some(Raised(Failure)) else None, actions;
      }
      if req.key == "" {
        return Some(Raised(InvalidRequest)), actions;
      }
      var estimate := w.estimate(c);
      if estimate.None? || estimate.value <= 0 {
        return Some(Raised(CannotBound)), actions;
      }
      r, actions := ReserveAndDispatch(w, req, c, estimate.value);
      if r.None? && exact {
        r := Some(Raised(Failure));
      }
    }

    method ReserveAndDispatch(w: World, req: Request, c: Candidate, micro: nat)
      returns (r: Option<CallResult>, ghost actions: seq<Action>)
      requires c.aggregateScope != "" && c.providerScope != "" && c.routeScope != "" && micro > 0
      modifies ledger`journal, ledger`history
      ensures (ledger.Files(), r, actions) == DispatchPaid(ledger.cfg, w, req, old(ledger.Files()), c, micro)
    {
      hide ReserveOp, CloseOp;
      var granted := ledger.Reserve(SpecFor(ledger.cfg, req, c, micro), w.today(c), w.newId(c), w.reserveIo(c));
      if granted.Err? {
        var error := match granted.error
          case LedgerUnavailable => Unavailable
          case BudgetDenied => Denied
          case IdempotencyConflict(status) => if status == Live || status == Unknown then OutcomeIsUnknown else Denied;
        return Some(Raised(error)), [Refused(c, micro)];
      }
      var rid := granted.value.rid;
      var ending := w.ending(c);
      var closure := ClosureFor(ending, micro);
      var recorded := CloseReservation(w, c, rid, closure);
      actions := [Opened(c, rid, micro), Dispatched(c, rid, ending), ClosedAs(c, rid, closure, recorded)];
      if !recorded || ending.Crashed? || (ending.AdapterFailed? && ending.phase.UnknownPhase?) {
        return Some(Raised(OutcomeIsUnknown)), actions;
      }
      if ending.AdapterFailed? {
        return None, actions;
      }
      return Some(Answered(c, Some(rid))), actions;
    }

    /** The free candidates in order; the first that answers is the answer. */
    method TryFree(w: World, freeCandidates: seq<Candidate>) returns (r: Option<CallResult>, ghost tries: seq<Action>)
      ensures r.Some? <==> FreeFrom(w, freeCandidates).0.Some?
      ensures r.Some? ==> r.value == Answered(FreeFrom(w, freeCandidates).0.value, None)
      ensures tries == FreeFrom(w, freeCandidates).1
    {
      hide FreeAnswers, FreeActions;
      tries := [];
      assert freeCandidates[0..] == freeCandidates;
      for i := 0 to |freeCandidates|
        invariant FreeFrom(w, freeCandidates).0 == FreeFrom(w, freeCandidates[i..]).0
        invariant FreeFrom(w, freeCandidates).1 == tries + FreeFrom(w, freeCandidates[i..]).1
      {
        ghost var earlier := tries;
        ghost var more;
        r, more := RunFree(w, freeCandidates[i], false);
        tries := tries + more;
        if r.Some? {
          return r, tries;
        }
        assert freeCandidates[i..][1..] == freeCandidates[i + 1..];
        assert earlier + (more + FreeFrom(w, freeCandidates[i + 1..]).1) == tries + FreeFrom(w, freeCandidates[i + 1..]).1;
      }
      return None, tries;
    }

    /** The paid candidates in order. A refused budget is remembered and the next
        candidate is tried; any other error ends the call. */
    method TryPaid(w: World, req: Request, paidCandidates: seq<Candidate>) returns (r: CallResult, ghost actions: seq<Action>)
      requires forall c :: c in paidCandidates ==> c.aggregateScope != "" && c.providerScope != "" && c.routeScope != ""
      modifies ledger`journal, ledger`history
      ensures (ledger.Files(), r, actions)
           == PaidFrom(ledger.cfg, w, req, old(ledger.Files()), paidCandidates, 0, false, false)
    {
      hide PaidAt;
      ghost var start := ledger.Files();
      var anyApproved, refused := false, false;
      actions := [];
      PrefixedNothing(PaidFrom(ledger.cfg, w, req, start, paidCandidates, 0, false, false));
      for i := 0 to |paidCandidates|
        invariant PaidFrom(ledger.cfg, w, req, start, paidCandidates, 0, false, false)
               == Prefixed(actions, PaidFrom(ledger.cfg, w, req, ledger.Files(), paidCandidates, i, anyApproved, refused))
      {
        ghost var files, earlier := ledger.Files(), actions;
        anyApproved := anyApproved || w.approvedFirst(paidCandidates[i]);
        var answer;
        ghost var more;
        answer, more := RunPaid(w, req, paidCandidates[i], false);
        actions := actions + more;
        if answer == Some(Raised(Denied)) {
          refused := true;
        } else if answer.Some? {
          return answer.value, actions;
        }
        PrefixedTwice(earlier, more, PaidFrom(ledger.cfg, w, req, ledger.Files(), paidCandidates, i + 1, anyApproved, refused));
      }
      assert actions + [] == actions;
      if refused {
        return Raised(Denied), actions;
      }
      return if anyApproved then Raised(Failure) else Raised(NotApproved), actions;
    }

    /** One call: the exact candidate if one is named; otherwise the free
        candidates in order, then the paid ones in order. */
    method Complete(w: World, req: Request, route: RoutePolicy, selection: Selection)
      returns (r: CallResult, ghost actions: seq<Action>)
      requires ValidRoute(route)
      modifies ledger`journal, ledger`history
      ensures (ledger.Files(), r, actions) == Completed(ledger.cfg, w, req, route, selection, old(ledger.Files()))
    {
      hide FreeFrom, PaidFrom, PaidAt, FreeActions, ExactFree, ExactPaid, FreeList, PaidList, ValidRoute;
      if selection.ExactModel? {
        var candidates := route.exactCandidates + route.freeCandidates + route.paidCandidates;
        var found := FindExact(candidates, selection.provider, selection.model);
        if found.None? {
          return Raised(NoExactModel), [];
        }
        ExactListed(route, selection.provider, selection.model);
        var answer;
        if found.value.billing.Free? {
          answer, actions := RunFree(w, found.value, true);
        } else {
          answer, actions := RunPaid(w, req, found.value, true);
        }
        return answer.value, actions;
      }
      var freeCandidates, paidCandidates := FreeList(route), PaidList(route);
      var answer;
      answer, actions := TryFree(w, freeCandidates);
      if answer.Some? {
        return answer.value, actions;
      }
      if paidCandidates == [] {
        return Raised(NoRoute), actions;
      }
      PaidListed(route);
      ghost var more;
      r, more := TryPaid(w, req, paidCandidates);
      actions := actions + more;
    }
  }

  /** What an exact selection finds may be reserved for. */
  lemma ExactListed(route: RoutePolicy, provider: string, model: string)
    requires ValidRoute(route)
    ensures match FindExact(route.exactCandidates + route.freeCandidates + route.paidCandidates, provider, model)
      case None => true
      case Some(c) => c.billing.Paid? ==> c.aggregateScope != "" && c.providerScope != "" && c.routeScope != ""
  {
    var candidates := route.exactCandidates + route.freeCandidates + route.paidCandidates;
    if FindExact(candidates, provider, model).Some? {
      FindExactIn(candidates, provider, model);
    }
  }
}
