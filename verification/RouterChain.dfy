/** What the chain of candidates promises, candidate by candidate, without the
    recursion that computes it. */
module RouterChain {
  import opened Basics
  import opened Days
  import opened LedgerModel
  import opened LedgerDisk
  import opened RouterModel

  // ----- free candidates ------------------------------------------------------------

  /** The candidate is proven free and healthy, and one of the attempts it is allowed
      succeeds. */
  predicate CanAnswer(w: World, c: Candidate) {
    && c.zeroMarginalCost && w.verifiedFree(c) && w.healthy(c)
    && exists n :: 1 <= n <= c.retryAttempts && w.freeSucceeds(c, n)
  }

  /** The k-th candidate is the first that answers. */
  predicate FirstToAnswer(w: World, candidates: seq<Candidate>, k: nat) {
    && k < |candidates| && CanAnswer(w, candidates[k])
    && forall j :: 0 <= j < k ==> !CanAnswer(w, candidates[j])
  }

  lemma AnswersExactly(w: World, c: Candidate)
    ensures FreeAnswers(w, c) <==> CanAnswer(w, c)
  {
  }

  /** The free answer is that of the first candidate that answers. */
  lemma {:induction false} FirstFreeWins(w: World, candidates: seq<Candidate>, k: nat)
    requires FirstToAnswer(w, candidates, k)
    ensures FreeFrom(w, candidates).0 == Some(candidates[k])
  {
    hide FreeAnswers, FreeActions, CanAnswer;
    AnswersExactly(w, candidates[0]);
    if k > 0 {
      assert forall j :: 0 <= j < k - 1 ==> candidates[1..][j] == candidates[j + 1];
      FirstFreeWins(w, candidates[1..], k - 1);
    }
  }

  /** There is no free answer exactly when no candidate answers. */
  lemma {:induction false} NoFreeAnswerExactly(w: World, candidates: seq<Candidate>)
    ensures FreeFrom(w, candidates).0.None? <==> forall k :: 0 <= k < |candidates| ==> !CanAnswer(w, candidates[k])
  {
    hide FreeAnswers, FreeActions, CanAnswer;
    if candidates != [] {
      AnswersExactly(w, candidates[0]);
      NoFreeAnswerExactly(w, candidates[1..]);
      assert forall k :: 0 <= k < |candidates| - 1 ==> candidates[1..][k] == candidates[k + 1];
      assert forall k :: 0 < k < |candidates| ==> candidates[k] == candidates[1..][k - 1];
    }
  }

  /** The free candidates that a call tries: all of the route's, in its order, or only
      the first candidate of all when it may not be substituted. */
  function FreeTried(route: RoutePolicy): seq<Candidate> {
    if route.substitutionsAllowed then route.freeCandidates
    else if route.freeCandidates != [] then [route.freeCandidates[0]]
    else []
  }

  /** The paid candidates that it goes on to. */
  function PaidTried(route: RoutePolicy): seq<Candidate> {
    if route.substitutionsAllowed then route.paidCandidates
    else if route.freeCandidates == [] && route.paidCandidates != [] then [route.paidCandidates[0]]
    else []
  }

  lemma TriedLists(route: RoutePolicy)
    requires ValidRoute(route)
    ensures FreeList(route) == FreeTried(route) && PaidList(route) == PaidTried(route)
  {
  }

  /** When a free candidate answers, the result is the first such candidate's,
      whatever ledger the call is made on, and that ledger is left as it is. */
  lemma FreeIgnoresLedger(cfg: Config, other: Config, w: World, req: Request, route: RoutePolicy, files: Disk,
                          elsewhere: Disk, k: nat)
    requires ValidRoute(route) && FirstToAnswer(w, FreeTried(route), k)
    ensures var (left, r, actions) := Completed(cfg, w, req, route, UseRoute, files);
      && left == files
      && r == Answered(FreeTried(route)[k], None)
      && Completed(other, w, req, route, UseRoute, elsewhere) == (elsewhere, r, actions)
  {
    hide FreeFrom, FreeList, FreeTried, FirstToAnswer, PaidFrom;
    TriedLists(route);
    FirstFreeWins(w, FreeTried(route), k);
  }

  /** When none answers, a call without a paid candidate to go on to has no route, and
      any other ends as the chain of its paid candidates does. */
  lemma PaidAfterFree(cfg: Config, w: World, req: Request, route: RoutePolicy, files: Disk)
    requires ValidRoute(route) && forall k :: 0 <= k < |FreeTried(route)| ==> !CanAnswer(w, FreeTried(route)[k])
    ensures var (left, r, _) := Completed(cfg, w, req, route, UseRoute, files);
      && (PaidTried(route) == [] ==> left == files && r == Raised(NoRoute))
      && (PaidTried(route) != [] ==>
            (left, r) == (PaidFrom(cfg, w, req, files, PaidTried(route), 0, false, false).0,
                          PaidFrom(cfg, w, req, files, PaidTried(route), 0, false, false).1))
  {
    hide FreeFrom, FreeList, FreeTried, PaidList, PaidTried, PaidFrom, CanAnswer;
    TriedLists(route);
    NoFreeAnswerExactly(w, FreeTried(route));
  }

  // ----- an exact selection ------------------------------------------------------------

  predicate Named(c: Candidate, provider: string, model: string) {
    c.provider == provider && c.model == model
  }

  predicate FirstNamed(candidates: seq<Candidate>, provider: string, model: string, k: int) {
    && 0 <= k < |candidates| && Named(candidates[k], provider, model)
    && forall j :: 0 <= j < k ==> !Named(candidates[j], provider, model)
  }

  /** An exact selection finds the first candidate of that name among the exact,
      the free and the paid ones, and nothing exactly when there is none. */
  lemma {:induction false} ExactIsFirst(candidates: seq<Candidate>, provider: string, model: string)
    ensures FindExact(candidates, provider, model).None? <==>
      forall k :: 0 <= k < |candidates| ==> !Named(candidates[k], provider, model)
    ensures forall k :: FirstNamed(candidates, provider, model, k) ==>
      FindExact(candidates, provider, model) == Some(candidates[k])
  {
    if candidates != [] {
      ExactIsFirst(candidates[1..], provider, model);
      assert forall k :: 0 < k < |candidates| ==> candidates[k] == candidates[1..][k - 1];
      assert forall k :: 0 <= k < |candidates| - 1 ==> candidates[1..][k] == candidates[k + 1];
      forall k | FirstNamed(candidates, provider, model, k)
        ensures FindExact(candidates, provider, model) == Some(candidates[k])
      {
        if k > 0 {
          assert !Named(candidates[0], provider, model) && FirstNamed(candidates[1..], provider, model, k - 1);
        }
      }
    }
  }

  /** What an exact selection of a free candidate gives: it is unavailable unless proven
      free and healthy, and otherwise gets one attempt, which answers or fails. */
  lemma ExactFreeOutcome(cfg: Config, w: World, req: Request, route: RoutePolicy, provider: string, model: string,
                         files: Disk, k: int)
    requires var all := route.exactCandidates + route.freeCandidates + route.paidCandidates;
      FirstNamed(all, provider, model, k) && all[k].billing.Free?
    ensures var c := (route.exactCandidates + route.freeCandidates + route.paidCandidates)[k];
      var (left, r, _) := Completed(cfg, w, req, route, ExactModel(provider, model), files);
      && left == files
      && r == (if !(c.zeroMarginalCost && w.verifiedFree(c) && w.healthy(c)) then Raised(NoExactModel)
               else if w.freeSucceeds(c, 1) then Answered(c, None)
               else Raised(Failure))
  {
    hide FindExact, FreeActions;
    ExactIsFirst(route.exactCandidates + route.freeCandidates + route.paidCandidates, provider, model);
  }

  /** What an exact selection of a paid candidate gives: a missing approval and a missing
      capability are told apart, and a request that cleanly failed is a failure. */
  lemma ExactPaidOutcome(cfg: Config, w: World, req: Request, route: RoutePolicy, provider: string, model: string,
                         files: Disk, k: int)
    requires var all := route.exactCandidates + route.freeCandidates + route.paidCandidates;
      FirstNamed(all, provider, model, k) && all[k].billing.Paid?
    ensures var c := (route.exactCandidates + route.freeCandidates + route.paidCandidates)[k];
      var (left, r, actions) := Completed(cfg, w, req, route, ExactModel(provider, model), files);
      && (!w.approved(c) ==> (left, r, actions) == (files, Raised(NotApproved), []))
      && (w.approved(c) && !w.capable(c) ==> (left, r, actions) == (files, Raised(Failure), []))
      && (w.approved(c) && w.capable(c) ==>
            && left == PaidAt(cfg, w, req, files, c).0 && actions == PaidAt(cfg, w, req, files, c).2
            && (FailsCleanly(cfg, w, req, files, c) ==> r == Raised(Failure))
            && (!FailsCleanly(cfg, w, req, files, c) ==> PaidAt(cfg, w, req, files, c).1 == Some(r)))
  {
    hide FindExact, OpenOp, CloseOp;
    ExactIsFirst(route.exactCandidates + route.freeCandidates + route.paidCandidates, provider, model);
  }

  /** And a name that no candidate has is not available. */
  lemma NoSuchModel(cfg: Config, w: World, req: Request, route: RoutePolicy, provider: string, model: string, files: Disk)
    requires var all := route.exactCandidates + route.freeCandidates + route.paidCandidates;
      forall k :: 0 <= k < |all| ==> !Named(all[k], provider, model)
    ensures Completed(cfg, w, req, route, ExactModel(provider, model), files) == (files, Raised(NoExactModel), [])
  {
    hide FindExact;
    ExactIsFirst(route.exactCandidates + route.freeCandidates + route.paidCandidates, provider, model);
  }

  // ----- one paid candidate -----------------------------------------------------------

  predicate Ready(w: World, req: Request, c: Candidate) {
    w.approved(c) && w.capable(c) && req.key != "" && w.estimate(c).Some? && w.estimate(c).value > 0
  }

  ghost function Opening(cfg: Config, w: World, req: Request, files: Disk, c: Candidate): (Disk, Result<Reservation, Error>)
    requires Ready(w, req, c)
  {
    OpenOp(cfg, w, req, files, c, w.estimate(c).value)
  }

  ghost function ClosingIn(cfg: Config, w: World, req: Request, files: Disk, c: Candidate): (Disk, Result<(), Error>)
    requires Ready(w, req, c) && Opening(cfg, w, req, files, c).1.Ok?
  {
    var (held, granted) := Opening(cfg, w, req, files, c);
    CloseOp(cfg, held, granted.value.rid, ClosureFor(w.ending(c), w.estimate(c).value), w.closeIo(c), w.overageIo(c))
  }

  /** The reservation is granted, the provider succeeds, and that is recorded. */
  ghost predicate Serves(cfg: Config, w: World, req: Request, files: Disk, c: Candidate) {
    && Ready(w, req, c)
    && Opening(cfg, w, req, files, c).1.Ok?
    && w.ending(c).Succeeded?
    && ClosingIn(cfg, w, req, files, c).1.Ok?
  }

  /** The candidate's budget is denied: by the block, a cap, or a consumed key. */
  ghost predicate BudgetRefused(cfg: Config, w: World, req: Request, files: Disk, c: Candidate) {
    && Ready(w, req, c)
    && Opening(cfg, w, req, files, c).1.Err?
    && RefusedAs(Opening(cfg, w, req, files, c).1.error) == Denied
  }

  /** The request definitely did not succeed, and that is recorded: released when
      it never left, settled as a provider failure otherwise. */
  ghost predicate FailsCleanly(cfg: Config, w: World, req: Request, files: Disk, c: Candidate) {
    && Ready(w, req, c)
    && Opening(cfg, w, req, files, c).1.Ok?
    && w.ending(c).AdapterFailed? && !w.ending(c).phase.UnknownPhase?
    && ClosingIn(cfg, w, req, files, c).1.Ok?
  }

  ghost predicate PassedBy(cfg: Config, w: World, req: Request, files: Disk, c: Candidate) {
    || !w.approved(c) || !w.capable(c)
    || BudgetRefused(cfg, w, req, files, c)
    || FailsCleanly(cfg, w, req, files, c)
  }

  /** What stands between a candidate and its reservation, in order: one that is not
      approved or not capable is passed over, a request without a key is invalid, and an
      adapter that gives no positive estimate cannot be bounded; none of it touches the
      ledger. */
  lemma GuardsInOrder(cfg: Config, w: World, req: Request, files: Disk, c: Candidate)
    ensures var (left, outcome, actions) := PaidAt(cfg, w, req, files, c);
      && (!w.approved(c) || !w.capable(c) ==> (left, outcome, actions) == (files, None, []))
      && (w.approved(c) && w.capable(c) && req.key == "" ==> (left, outcome, actions) == (files,
          Some(Raised(InvalidRequest)), []))
      && (w.approved(c) && w.capable(c) && req.key != "" && (w.estimate(c).None? || w.estimate(c).value <= 0) ==>
            (left, outcome, actions) == (files, Some(Raised(CannotBound)), []))
      && (w.approved(c) && w.capable(c) && req.key != "" && w.estimate(c).Some? && w.estimate(c).value > 0 ==>
            actions != [] && (actions[0].Refused? || actions[0].Opened?) && actions[0].micro == w.estimate(c).value)
  {
    hide OpenOp, CloseOp;
  }

  /** A candidate answers exactly when it serves, is denied exactly when its budget
      is refused, and lets the chain go on exactly when it is passed by. */
  lemma PaidOutcome(cfg: Config, w: World, req: Request, files: Disk, c: Candidate)
    ensures var outcome := PaidAt(cfg, w, req, files, c).1;
      && (outcome.Some? && outcome.value.Answered? <==> Serves(cfg, w, req, files, c))
      && (Serves(cfg, w, req, files, c) ==>
            outcome == Some(Answered(c, Some(Opening(cfg, w, req, files, c).1.value.rid))))
      && (outcome == Some(Raised(Denied)) <==> BudgetRefused(cfg, w, req, files, c))
      && (GoesOn(outcome) <==> PassedBy(cfg, w, req, files, c))
  {
    hide OpenOp, CloseOp;
  }

  // ----- the chain ------------------------------------------------------------------------

  /** The files that the k-th candidate starts from, when all before it were tried. */
  ghost function FilesBefore(cfg: Config, w: World, req: Request, start: Disk, candidates: seq<Candidate>, k: nat): Disk
    requires k <= |candidates|
  {
    if k == 0 then start
    else PaidAt(cfg, w, req, FilesBefore(cfg, w, req, start, candidates, k - 1), candidates[k - 1]).0
  }

  ghost function OutcomeAt(cfg: Config, w: World, req: Request, start: Disk, candidates: seq<Candidate>,
      k: nat): Option<CallResult>
    requires k < |candidates|
  {
    PaidAt(cfg, w, req, FilesBefore(cfg, w, req, start, candidates, k), candidates[k]).1
  }

  ghost predicate DeniedAt(cfg: Config, w: World, req: Request, start: Disk, candidates: seq<Candidate>, k: nat)
    requires k < |candidates|
  {
    OutcomeAt(cfg, w, req, start, candidates, k) == Some(Raised(Denied))
  }

  /** All that is done from the i-th candidate to the one before the k-th. */
  ghost function ActionsTo(cfg: Config, w: World, req: Request, start: Disk, candidates: seq<Candidate>, i: nat,
      k: nat): seq<Action>
    requires i <= k <= |candidates|
    decreases k - i
  {
    if i == k then []
    else
      PaidAt(cfg, w, req, FilesBefore(cfg, w, req, start, candidates, i), candidates[i]).2
        + ActionsTo(cfg, w, req, start, candidates, i + 1, k)
  }

  ghost predicate GoOnBetween(cfg: Config, w: World, req: Request, start: Disk, candidates: seq<Candidate>, i: nat, k: nat)
    requires i <= k <= |candidates|
  {
    forall j :: i <= j < k ==> GoesOn(OutcomeAt(cfg, w, req, start, candidates, j))
  }

  /** A chain that meets its first stop at the k-th candidate ends there. */
  lemma {:induction false} ChainStops(cfg: Config, w: World, req: Request, start: Disk, candidates: seq<Candidate>, i: nat,
                                      k: nat, anyApproved: bool, denied: bool)
    requires i <= k < |candidates| && GoOnBetween(cfg, w, req, start, candidates, i, k)
    requires !GoesOn(OutcomeAt(cfg, w, req, start, candidates, k))
    ensures PaidFrom(cfg, w, req, FilesBefore(cfg, w, req, start, candidates, i), candidates, i, anyApproved, denied)
         == (FilesBefore(cfg, w, req, start, candidates, k + 1), OutcomeAt(cfg, w, req, start, candidates, k).value,
             ActionsTo(cfg, w, req, start, candidates, i, k + 1))
    decreases k - i
  {
    hide PaidAt;
    if i < k {
      assert GoesOn(OutcomeAt(cfg, w, req, start, candidates, i));
      ChainStops(cfg, w, req, start, candidates, i + 1, k, anyApproved || w.approvedFirst(candidates[i]),
                 denied || OutcomeAt(cfg, w, req, start, candidates, i).Some?);
    } else {
      var actions := PaidAt(cfg, w, req, FilesBefore(cfg, w, req, start, candidates, i), candidates[i]).2;
      assert actions + ActionsTo(cfg, w, req, start, candidates, k + 1, k + 1) == actions;
    }
  }

  ghost predicate SomeDenied(cfg: Config, w: World, req: Request, start: Disk, candidates: seq<Candidate>, i: nat) {
    exists k :: i <= k < |candidates| && DeniedAt(cfg, w, req, start, candidates, k)
  }

  predicate SomeApproved(w: World, candidates: seq<Candidate>, i: nat) {
    exists k :: i <= k < |candidates| && w.approvedFirst(candidates[k])
  }

  lemma SomeFrom(cfg: Config, w: World, req: Request, start: Disk, candidates: seq<Candidate>, i: nat)
    requires i < |candidates|
    ensures SomeDenied(cfg, w, req, start, candidates, i) <==>
      DeniedAt(cfg, w, req, start, candidates, i) || SomeDenied(cfg, w, req, start, candidates, i + 1)
    ensures SomeApproved(w, candidates, i) <==> w.approvedFirst(candidates[i]) || SomeApproved(w, candidates, i + 1)
  {
    hide DeniedAt;
  }

  /** A chain without a stop reports what stood in the way: a denied budget before
      a failure, and a missing approval only if no candidate was approved. */
  lemma {:induction false} ChainRunsOut(cfg: Config, w: World, req: Request, start: Disk, candidates: seq<Candidate>, i: nat,
                                        anyApproved: bool, denied: bool)
    requires i <= |candidates| && GoOnBetween(cfg, w, req, start, candidates, i, |candidates|)
    ensures var someDenied := denied || SomeDenied(cfg, w, req, start, candidates, i);
      var someApproved := anyApproved || SomeApproved(w, candidates, i);
      PaidFrom(cfg, w, req, FilesBefore(cfg, w, req, start, candidates, i), candidates, i, anyApproved, denied)
      == (FilesBefore(cfg, w, req, start, candidates, |candidates|),
          Raised(if someDenied then Denied else if someApproved then Failure else NotApproved),
          ActionsTo(cfg, w, req, start, candidates, i, |candidates|))
    decreases |candidates| - i
  {
    hide PaidAt, SomeDenied, SomeApproved;
    if i < |candidates| {
      SomeFrom(cfg, w, req, start, candidates, i);
      assert GoesOn(OutcomeAt(cfg, w, req, start, candidates, i));
      ChainRunsOut(cfg, w, req, start, candidates, i + 1, anyApproved || w.approvedFirst(candidates[i]),
                   denied || OutcomeAt(cfg, w, req, start, candidates, i).Some?);
    } else {
      assert !SomeDenied(cfg, w, req, start, candidates, i) && !SomeApproved(w, candidates, i) by {
        NoneLeft(cfg, w, req, start, candidates);
      }
    }
  }

  lemma NoneLeft(cfg: Config, w: World, req: Request, start: Disk, candidates: seq<Candidate>)
    ensures !SomeDenied(cfg, w, req, start, candidates, |candidates|) && !SomeApproved(w, candidates, |candidates|)
  {
  }

  /** Either every candidate lets the chain go on, or there is a first that stops it. */
  lemma {:induction false} FirstStop(cfg: Config, w: World, req: Request, start: Disk, candidates: seq<Candidate>, i: nat)
    returns (k: nat)
    requires i <= |candidates|
    ensures i <= k <= |candidates| && GoOnBetween(cfg, w, req, start, candidates, i, k)
    ensures k < |candidates| ==> !GoesOn(OutcomeAt(cfg, w, req, start, candidates, k))
    decreases |candidates| - i
  {
    hide OutcomeAt;
    if i == |candidates| || !GoesOn(OutcomeAt(cfg, w, req, start, candidates, i)) {
      return i;
    }
    k := FirstStop(cfg, w, req, start, candidates, i + 1);
  }

  /** The k-th candidate is reached when every one before it was passed by. */
  ghost predicate Reached(cfg: Config, w: World, req: Request, start: Disk, candidates: seq<Candidate>, k: nat)
    requires k <= |candidates|
  {
    forall j :: 0 <= j < k ==> PassedBy(cfg, w, req, FilesBefore(cfg, w, req, start, candidates, j), candidates[j])
  }

  lemma ReachedExactly(cfg: Config, w: World, req: Request, start: Disk, candidates: seq<Candidate>, k: nat)
    requires k <= |candidates|
    ensures Reached(cfg, w, req, start, candidates, k) <==> GoOnBetween(cfg, w, req, start, candidates, 0, k)
  {
    hide PassedBy, PaidAt, GoesOn;
    forall j | 0 <= j < k
      ensures PassedBy(cfg, w, req, FilesBefore(cfg, w, req, start, candidates, j), candidates[j])
         <==> GoesOn(OutcomeAt(cfg, w, req, start, candidates, j))
    {
      PaidOutcome(cfg, w, req, FilesBefore(cfg, w, req, start, candidates, j), candidates[j]);
    }
  }

  /** The k-th candidate is the one that serves the call. */
  ghost predicate ServedBy(cfg: Config, w: World, req: Request, start: Disk, candidates: seq<Candidate>, k: nat) {
    && k < |candidates|
    && Reached(cfg, w, req, start, candidates, k)
    && Serves(cfg, w, req, FilesBefore(cfg, w, req, start, candidates, k), candidates[k])
  }

  /** The answer is the serving candidate's, under its own reservation, and
      nothing is done after it. */
  lemma PaidAnswer(cfg: Config, w: World, req: Request, start: Disk, candidates: seq<Candidate>, k: nat)
    requires ServedBy(cfg, w, req, start, candidates, k)
    ensures var before, c := FilesBefore(cfg, w, req, start, candidates, k), candidates[k];
      PaidFrom(cfg, w, req, start, candidates, 0, false, false)
      == (FilesBefore(cfg, w, req, start, candidates, k + 1), Answered(c, Some(Opening(cfg, w, req, before, c).1.value.rid)),
          ActionsTo(cfg, w, req, start, candidates, 0, k + 1))
  {
    hide PaidFrom, PassedBy, Reached, ActionsTo, GoOnBetween, PaidAt;
    ReachedExactly(cfg, w, req, start, candidates, k);
    PaidOutcome(cfg, w, req, FilesBefore(cfg, w, req, start, candidates, k), candidates[k]);
    ChainStops(cfg, w, req, start, candidates, 0, k, false, false);
  }

  /** The paid chain answers if and only if some candidate serves after every
      earlier one was passed by. */
  lemma PaidAnswerExactly(cfg: Config, w: World, req: Request, start: Disk, candidates: seq<Candidate>)
    ensures PaidFrom(cfg, w, req, start, candidates, 0, false, false).1.Answered? <==>
      exists k :: ServedBy(cfg, w, req, start, candidates, k)
  {
    hide PaidFrom, PassedBy, Reached, ActionsTo, GoOnBetween, PaidAt, Serves;
    if k :| ServedBy(cfg, w, req, start, candidates, k) {
      PaidAnswer(cfg, w, req, start, candidates, k);
    }
    var k := FirstStop(cfg, w, req, start, candidates, 0);
    ReachedExactly(cfg, w, req, start, candidates, k);
    if k < |candidates| {
      PaidOutcome(cfg, w, req, FilesBefore(cfg, w, req, start, candidates, k), candidates[k]);
      ChainStops(cfg, w, req, start, candidates, 0, k, false, false);
      assert GoesOn(OutcomeAt(cfg, w, req, start, candidates, k)) || !OutcomeAt(cfg, w, req, start, candidates, k).value.Answered?
        || ServedBy(cfg, w, req, start, candidates, k);
    } else {
      ChainRunsOut(cfg, w, req, start, candidates, 0, false, false);
    }
  }

  /** A denied budget is reported if and only if every candidate was passed by and
      the budget of some candidate was refused. */
  lemma DeniedExactly(cfg: Config, w: World, req: Request, start: Disk, candidates: seq<Candidate>)
    ensures PaidFrom(cfg, w, req, start, candidates, 0, false, false).1 == Raised(Denied) <==>
      && Reached(cfg, w, req, start, candidates, |candidates|)
      && exists k :: 0 <= k < |candidates|
           && BudgetRefused(cfg, w, req, FilesBefore(cfg, w, req, start, candidates, k), candidates[k])
  {
    hide PaidFrom, PassedBy, Reached, ActionsTo, GoOnBetween, PaidAt, Serves, BudgetRefused;
    forall k | 0 <= k < |candidates|
      ensures DeniedAt(cfg, w, req, start, candidates, k) <==>
        BudgetRefused(cfg, w, req, FilesBefore(cfg, w, req, start, candidates, k), candidates[k])
    {
      PaidOutcome(cfg, w, req, FilesBefore(cfg, w, req, start, candidates, k), candidates[k]);
    }
    var k := FirstStop(cfg, w, req, start, candidates, 0);
    ReachedExactly(cfg, w, req, start, candidates, |candidates|);
    if k < |candidates| {
      ChainStops(cfg, w, req, start, candidates, 0, k, false, false);
      StopsShort(cfg, w, req, start, candidates, k);
    } else {
      ChainRunsOut(cfg, w, req, start, candidates, 0, false, false);
    }
  }

  lemma StopsShort(cfg: Config, w: World, req: Request, start: Disk, candidates: seq<Candidate>, k: nat)
    requires k < |candidates| && !GoesOn(OutcomeAt(cfg, w, req, start, candidates, k))
    ensures !GoOnBetween(cfg, w, req, start, candidates, 0, |candidates|)
  {
    hide OutcomeAt;
  }

  /** A candidate that is neither passed by nor serves ends the call with its error,
      and is the last one touched. */
  lemma OtherErrorsAreLast(cfg: Config, w: World, req: Request, start: Disk, candidates: seq<Candidate>, k: nat)
    requires k < |candidates| && Reached(cfg, w, req, start, candidates, k)
    requires var before := FilesBefore(cfg, w, req, start, candidates, k);
      !PassedBy(cfg, w, req, before, candidates[k]) && !Serves(cfg, w, req, before, candidates[k])
    ensures var (files, r, actions) := PaidFrom(cfg, w, req, start, candidates, 0, false, false);
      && files == FilesBefore(cfg, w, req, start, candidates, k + 1)
      && OutcomeAt(cfg, w, req, start, candidates, k) == Some(r) && r.Raised? && r.error != Denied
      && actions == ActionsTo(cfg, w, req, start, candidates, 0, k + 1)
  {
    hide PaidFrom, PassedBy, Reached, ActionsTo, GoOnBetween, PaidAt, Serves;
    ReachedExactly(cfg, w, req, start, candidates, k);
    PaidOutcome(cfg, w, req, FilesBefore(cfg, w, req, start, candidates, k), candidates[k]);
    ChainStops(cfg, w, req, start, candidates, 0, k, false, false);
  }

  /** When every candidate was passed by and none was denied, a missing approval is
      reported if and only if no candidate was approved, and a failure otherwise. */
  lemma NotApprovedExactly(cfg: Config, w: World, req: Request, start: Disk, candidates: seq<Candidate>)
    requires Reached(cfg, w, req, start, candidates, |candidates|)
    ensures var r := PaidFrom(cfg, w, req, start, candidates, 0, false, false).1;
      r != Raised(Denied) ==>
        r == Raised(if forall c :: c in candidates ==> !w.approvedFirst(c) then NotApproved else Failure)
  {
    hide PaidFrom, PassedBy, Reached, ActionsTo, GoOnBetween, PaidAt, OutcomeAt;
    ReachedExactly(cfg, w, req, start, candidates, |candidates|);
    ChainRunsOut(cfg, w, req, start, candidates, 0, false, false);
  }
}
