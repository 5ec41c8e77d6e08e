/** The protocol that every call of the router keeps on the ledger and the
    adapters: reserve, dispatch, close. */
module RouterProtocol {
  import opened Basics
  import opened Days
  import opened LedgerModel
  import opened LedgerDisk
  import opened LedgerSafety
  import opened RouterModel

  /** Where a call stands between two actions. */
  datatype Stand =
    | Idle
    | Holding(candidate: Candidate, rid: Rid, micro: nat)
    | InFlight(candidate: Candidate, rid: Rid, micro: nat, ending: Ending)
    | Succeeds(rid: Rid)
    | EndsUnknown
    | Unrecorded(rid: Rid)
    | Stopped(error: CallError)

  datatype Point = Point(stand: Stand, files: Disk)

  /** The reservation is live in the state that these files load. */
  ghost predicate LiveIn(cfg: Config, files: Disk, rid: Rid) {
    Load(cfg, files).Some? && rid in Load(cfg, files).value.core.live
  }

  /** The protocol: reserve, dispatch, close as the ending calls for. Nothing
      follows a success, an unknown outcome, a closure that could not be recorded,
      or a reservation refused for another reason than the budget. */
  ghost function Follow(cfg: Config, w: World, req: Request, at: Point, action: Action): Option<Point> {
    match (at.stand, action)
    case (Idle, FreeTry(_)) => Some(at)
    case (Idle, Refused(c, micro)) =>
      var (files, r) := OpenOp(cfg, w, req, at.files, c, micro);
      if r.Ok? then None
      else if RefusedAs(r.error) == Denied then Some(Point(Idle, files))
      else Some(Point(Stopped(RefusedAs(r.error)), files))
    case (Idle, Opened(c, rid, micro)) =>
      var (files, r) := OpenOp(cfg, w, req, at.files, c, micro);
      if r.Ok? && r.value.rid == rid && r.value.micro == micro then Some(Point(Holding(c, rid, micro), files)) else None
    case (Holding(held, rid, micro), Dispatched(c, dispatched, ending)) =>
      if c == held && dispatched == rid && ending == w.ending(c)
      then Some(Point(InFlight(c, rid, micro, ending), at.files)) else None
    case (InFlight(held, rid, micro, ending), ClosedAs(c, closed, closure, recorded)) =>
      var (files, r) := CloseOp(cfg, at.files, rid, closure, w.closeIo(c), w.overageIo(c));
      if c != held || closed != rid || closure != ClosureFor(ending, micro) || recorded != r.Ok? then None
      else if !recorded then Some(Point(Unrecorded(rid), files))
      else
        (match closure
         case LeftUnknown => Some(Point(EndsUnknown, files))
         case ChargedSuccess(_, _, _) => Some(Point(Succeeds(rid), files))
         case _ => Some(Point(Idle, files)))
    case _ => None
  }

  /** Where a trace of actions leads from these files, if it keeps the protocol. */
  ghost function Path(cfg: Config, w: World, req: Request, start: Disk, trace: seq<Action>): Option<Point> {
    if trace == [] then Some(Point(Idle, start))
    else
      match Path(cfg, w, req, start, Init(trace))
      case None => None
      case Some(at) => Follow(cfg, w, req, at, Last(trace))
  }

  /** Where a call may stop, and with what result: a paid answer only after a
      recorded success, an unknown outcome only after one or after a reservation
      left unrecorded, an unavailable ledger only after a reservation that failed. */
  predicate Concludes(stand: Stand, result: CallResult) {
    match stand
    case Idle =>
      if result.Answered? then result.reservation.None?
      else result.error != OutcomeIsUnknown && result.error != Unavailable
    case Succeeds(rid) => result.Answered? && result.reservation == Some(rid)
    case EndsUnknown => result == Raised(OutcomeIsUnknown)
    case Unrecorded(_) => result == Raised(OutcomeIsUnknown)
    case Stopped(error) => result == Raised(error)
    case _ => false
  }

  ghost predicate Extends(before: seq<Action>, trace: seq<Action>, c: Candidate) {
    before <= trace && forall i :: |before| <= i < |trace| ==> trace[i].candidate == c
  }

  lemma EmptyPath(cfg: Config, w: World, req: Request, start: Disk)
    ensures Path(cfg, w, req, start, []) == Some(Point(Idle, start))
  {
  }

  lemma PathStep(cfg: Config, w: World, req: Request, start: Disk, trace: seq<Action>, action: Action)
    requires Path(cfg, w, req, start, trace).Some?
    ensures Path(cfg, w, req, start, trace + [action])
         == Follow(cfg, w, req, Path(cfg, w, req, start, trace).value, action)
  {
    hide Follow;
    AppendParts(trace, action);
  }

  /** Free attempts leave the ledger alone. */
  lemma {:induction false} FreePath(cfg: Config, w: World, req: Request, start: Disk, before: seq<Action>, trace: seq<Action>)
    requires before <= trace && FreeTriesOnly(trace[|before|..])
    requires Path(cfg, w, req, start, before).Some? && Path(cfg, w, req, start, before).value.stand.Idle?
    ensures Path(cfg, w, req, start, trace) == Path(cfg, w, req, start, before)
  {
    if trace != before {
      assert Last(trace) == Last(trace[|before|..]);
      assert FreeTriesOnly(Init(trace)[|before|..]) by {
        assert Init(trace)[|before|..] == Init(trace[|before|..]);
      }
      FreePath(cfg, w, req, start, before, Init(trace));
    }
  }

  /** A granted reservation is live from the moment it is granted. */
  lemma GrantedIsLive(cfg: Config, d: Disk, spec: Spec, today: Day, rid: Rid, io: Io)
    requires ReserveOp(cfg, d, spec, today, rid, io).1.Ok?
    ensures LiveIn(cfg, ReserveOp(cfg, d, spec, today, rid, io).0, rid)
    ensures Load(cfg, ReserveOp(cfg, d, spec, today, rid, io).0).value.core.live[rid] == ReserveBody(spec, today, rid)
    ensures ReserveOp(cfg, d, spec, today, rid, io).1.value.rid == rid
    ensures ReserveOp(cfg, d, spec, today, rid, io).1.value.micro == spec.micro
  {
    hide Replay, Put, Find, ScopesOf, Refusal;
    var s, b := Load(cfg, d).value, ReserveBody(spec, today, rid);
    LoadAfterLine(cfg, d, s, MakeEvent(cfg, s, b));
    AcceptsMade(cfg, s, b);
  }

  /** Whenever a call is about to dispatch, its own reservation is live. */
  lemma DispatchesWhileLive(cfg: Config, w: World, req: Request, start: Disk, trace: seq<Action>)
    requires Path(cfg, w, req, start, trace).Some? && Path(cfg, w, req, start, trace).value.stand.Holding?
    ensures var at := Path(cfg, w, req, start, trace).value; LiveIn(cfg, at.files, at.stand.rid)
  {
    hide ReserveOp, CloseOp, LiveIn, Load;
    var before := Path(cfg, w, req, start, Init(trace)).value;
    var action := Last(trace);
    GrantedIsLive(cfg, before.files, SpecFor(cfg, req, action.candidate, action.micro), w.today(action.candidate),
                  w.newId(action.candidate), w.reserveIo(action.candidate));
  }

  /** The shape of every call: what is dispatched was reserved just before, what is
      closed was dispatched just before and is closed as its ending calls for, and
      only the last closure may be a success, an unknown outcome, or unrecorded. */
  lemma {:induction false} ProtocolShape(cfg: Config, w: World, req: Request, start: Disk, trace: seq<Action>, i: nat)
    requires Path(cfg, w, req, start, trace).Some? && i < |trace|
    ensures trace[i].Dispatched? ==>
      i >= 1 && trace[i - 1] == Opened(trace[i].candidate, trace[i].rid, ReservedAt(trace, i - 1))
    ensures trace[i].ClosedAs? ==>
      (i >= 2 && trace[i - 1].Dispatched? && trace[i - 1].rid == trace[i].rid
       && trace[i - 1].candidate == trace[i].candidate
       && trace[i].closure == ClosureFor(trace[i - 1].ending, ReservedAt(trace, i - 2)))
    ensures i + 1 < |trace| && trace[i].Opened? ==> trace[i + 1].Dispatched?
    ensures i + 1 < |trace| && trace[i].Dispatched? ==> trace[i + 1].ClosedAs?
    ensures i + 1 < |trace| && trace[i].ClosedAs? ==>
      trace[i].recorded && (trace[i].closure.Freed? || trace[i].closure.ChargedFailure?)
    ensures trace[i].Dispatched? && i + 1 < |trace| ==> trace[i + 1].rid == trace[i].rid
    ensures trace[i].Opened? && i + 1 < |trace| ==> trace[i + 1].rid == trace[i].rid
  {
    hide OpenOp, CloseOp;
    var rest := Init(trace);
    StandAfter(cfg, w, req, start, rest);
    if i < |rest| {
      ProtocolShape(cfg, w, req, start, rest, i);
    }
  }

  function ReservedAt(trace: seq<Action>, i: nat): nat {
    if i < |trace| && trace[i].Opened? then trace[i].micro else 0
  }

  /** Where a call stands tells what it did last. */
  lemma StandAfter(cfg: Config, w: World, req: Request, start: Disk, trace: seq<Action>)
    requires Path(cfg, w, req, start, trace).Some?
    ensures match Path(cfg, w, req, start, trace).value.stand
      case Idle => trace == [] || Last(trace).FreeTry? || Last(trace).Refused?
        || (Last(trace).ClosedAs? && Last(trace).recorded && (Last(trace).closure.Freed? || Last(trace).closure.ChargedFailure?))
      case Holding(c, rid, micro) => trace != [] && Last(trace) == Opened(c, rid, micro)
      case InFlight(c, rid, micro, ending) =>
        |trace| >= 2 && Last(trace) == Dispatched(c, rid, ending) && Last(Init(trace)) == Opened(c, rid, micro)
      case Stopped(_) => trace != [] && Last(trace).Refused?
      case Unrecorded(rid) => trace != [] && Last(trace).ClosedAs? && Last(trace).rid == rid && !Last(trace).recorded
      case _ => trace != [] && Last(trace).ClosedAs? && Last(trace).recorded
  {
    hide OpenOp, CloseOp;
  }

  /** The order and the conditions of a trace: candidates in the order listed,
      free ones only when proven free and healthy, paid ones only when approved and
      capable, for a request with a key, and for the amount they were estimated at. */
  predicate InOrder(trace: seq<Action>, candidates: seq<Candidate>)
    decreases |trace| + |candidates|
  {
    trace == [] ||
    (candidates != [] &&
     (InOrder(trace, Init(candidates)) ||
      (Last(trace).candidate == Last(candidates) && InOrder(Init(trace), candidates))))
  }

  predicate Permitted(w: World, req: Request, trace: seq<Action>) {
    forall a :: a in trace ==>
      if a.FreeTry? then a.candidate.zeroMarginalCost && w.verifiedFree(a.candidate) && w.healthy(a.candidate)
      else w.approved(a.candidate) && w.capable(a.candidate) && req.key != "" && ForEstimate(w, a)
  }

  /** What is reserved, or refused, is what the adapter estimated. */
  predicate ForEstimate(w: World, a: Action) {
    a.Refused? || a.Opened? ==> a.micro > 0 && w.estimate(a.candidate) == Some(a.micro)
  }

  lemma {:induction false} OrderWithin(trace: seq<Action>, candidates: seq<Candidate>, a: Action)
    requires InOrder(trace, candidates) && a in trace
    ensures a.candidate in candidates
    decreases |trace| + |candidates|
  {
    if InOrder(trace, Init(candidates)) {
      OrderWithin(trace, Init(candidates), a);
    } else if a != Last(trace) {
      assert trace == Init(trace) + [Last(trace)];
      OrderWithin(Init(trace), candidates, a);
    }
  }

  lemma {:induction false} OrderExtends(trace: seq<Action>, candidates: seq<Candidate>, more: seq<Candidate>)
    requires InOrder(trace, candidates)
    ensures InOrder(trace, candidates + more)
  {
    if more == [] {
      assert candidates + more == candidates;
    } else {
      OrderExtends(trace, candidates, Init(more));
      assert Init(candidates + more) == candidates + Init(more);
    }
  }

  /** What one candidate adds keeps the order. */
  lemma {:induction false} OrderKept(before: seq<Action>, trace: seq<Action>, candidates: seq<Candidate>, c: Candidate)
    requires InOrder(before, candidates) && Extends(before, trace, c)
    ensures InOrder(trace, candidates + [c])
    decreases |trace|
  {
    AppendParts(candidates, c);
    if trace == before {
    } else {
      assert Extends(before, Init(trace), c);
      OrderKept(before, Init(trace), candidates, c);
    }
  }

  predicate FreeTriesOnly(trace: seq<Action>) {
    forall a :: a in trace ==> a.FreeTry?
  }

  /** An exact selection, or a route without substitutions, touches one candidate. */
  lemma OneCandidateOnly(route: RoutePolicy, selection: Selection, trace: seq<Action>, a: Action, b: Action)
    requires InOrder(trace, Allowed(route, selection)) && a in trace && b in trace
    requires selection.ExactModel? || !route.substitutionsAllowed
    ensures a.candidate == b.candidate
    ensures selection.ExactModel? ==>
      FindExact(route.exactCandidates + route.freeCandidates + route.paidCandidates, selection.provider, selection.model)
      == Some(a.candidate)
    ensures selection.UseRoute? ==> a.candidate == (route.freeCandidates + route.paidCandidates)[0]
  {
    hide InOrder;
    OrderWithin(trace, Allowed(route, selection), a);
    OrderWithin(trace, Allowed(route, selection), b);
  }

  /** Every reservation a concluded call was granted is closed by that call, as the
      action after its dispatch; if the closure could not be recorded, it is the
      last action and the call ends with an unknown outcome. */
  lemma EveryReservationClosed(cfg: Config, w: World, req: Request, start: Disk, trace: seq<Action>, result: CallResult, i: nat)
    requires Path(cfg, w, req, start, trace).Some? && Concludes(Path(cfg, w, req, start, trace).value.stand, result)
    requires i < |trace| && trace[i].Opened?
    ensures i + 2 < |trace| && trace[i + 2].ClosedAs? && trace[i + 2].rid == trace[i].rid
    ensures !trace[i + 2].recorded ==> i + 3 == |trace| && result == Raised(OutcomeIsUnknown)
  {
    hide Follow;
    StandAfter(cfg, w, req, start, trace);
    ProtocolShape(cfg, w, req, start, trace, i);
    if i + 1 < |trace| {
      ProtocolShape(cfg, w, req, start, trace, i + 1);
    }
    if i + 2 < |trace| {
      ProtocolShape(cfg, w, req, start, trace, i + 2);
    }
  }

  // ----- every call keeps it ------------------------------------------------------------

  /** What a candidate adds to a trace that stood idle: it is idle again when the
      chain goes on, and concluded otherwise. */
  lemma PaidAtKeeps(cfg: Config, w: World, req: Request, start: Disk, before: seq<Action>, files: Disk, c: Candidate)
    requires Path(cfg, w, req, start, before) == Some(Point(Idle, files))
    ensures var (left, outcome, actions) := PaidAt(cfg, w, req, files, c);
      && Extends(before, before + actions, c) && Permitted(w, req, actions)
      && Path(cfg, w, req, start, before + actions).Some?
      && (var at := Path(cfg, w, req, start, before + actions).value;
          && at.files == left
          && (if GoesOn(outcome) then at.stand == Idle else Concludes(at.stand, outcome.value)))
  {
    hide Path, OpenOp, CloseOp;
    var (left, outcome, actions) := PaidAt(cfg, w, req, files, c);
    if actions == [] {
      assert before + actions == before;
    } else {
      DispatchPaidKeeps(cfg, w, req, start, before, files, c, w.estimate(c).value);
    }
  }

  lemma DispatchPaidKeeps(cfg: Config, w: World, req: Request, start: Disk, before: seq<Action>, files: Disk, c: Candidate, micro: nat)
    requires Path(cfg, w, req, start, before) == Some(Point(Idle, files))
    ensures var (left, outcome, actions) := DispatchPaid(cfg, w, req, files, c, micro);
      && Path(cfg, w, req, start, before + actions).Some?
      && (var at := Path(cfg, w, req, start, before + actions).value;
          && at.files == left
          && (if GoesOn(outcome) then at.stand == Idle else Concludes(at.stand, outcome.value)))
  {
    hide Path, ReserveOp, CloseOp;
    var (held, granted) := OpenOp(cfg, w, req, files, c, micro);
    if granted.Err? {
      PathStep(cfg, w, req, start, before, Refused(c, micro));
      return;
    }
    GrantedIsLive(cfg, files, SpecFor(cfg, req, c, micro), w.today(c), w.newId(c), w.reserveIo(c));
    var rid, ending := granted.value.rid, w.ending(c);
    var closure := ClosureFor(ending, micro);
    var recorded := CloseOp(cfg, held, rid, closure, w.closeIo(c), w.overageIo(c)).1.Ok?;
    PathStep(cfg, w, req, start, before, Opened(c, rid, micro));
    PathStep(cfg, w, req, start, before + [Opened(c, rid, micro)], Dispatched(c, rid, ending));
    PathStep(cfg, w, req, start, before + [Opened(c, rid, micro)] + [Dispatched(c, rid, ending)],
             ClosedAs(c, rid, closure, recorded));
    assert before + [Opened(c, rid, micro)] + [Dispatched(c, rid, ending)] + [ClosedAs(c, rid, closure, recorded)]
        == before + [Opened(c, rid, micro), Dispatched(c, rid, ending), ClosedAs(c, rid, closure, recorded)];
  }

  lemma {:induction false} PaidFromKeeps(cfg: Config, w: World, req: Request, start: Disk, before: seq<Action>, files: Disk,
                                         tried: seq<Candidate>, candidates: seq<Candidate>, i: nat, anyApproved: bool, denied: bool)
    requires i <= |candidates| && Path(cfg, w, req, start, before) == Some(Point(Idle, files))
    requires InOrder(before, tried + candidates[..i])
    ensures var (left, r, actions) := PaidFrom(cfg, w, req, files, candidates, i, anyApproved, denied);
      && Path(cfg, w, req, start, before + actions).Some?
      && Path(cfg, w, req, start, before + actions).value.files == left
      && Concludes(Path(cfg, w, req, start, before + actions).value.stand, r)
      && InOrder(before + actions, tried + candidates) && Permitted(w, req, actions)
    decreases |candidates| - i
  {
    hide Path, PaidAt, InOrder, Extends;
    if i == |candidates| {
      assert before + [] == before && candidates[..i] == candidates;
    } else {
      var c := candidates[i];
      var (left, outcome, actions) := PaidAt(cfg, w, req, files, c);
      PaidAtKeeps(cfg, w, req, start, before, files, c);
      OrderKept(before, before + actions, tried + candidates[..i], c);
      assert tried + candidates[..i] + [c] == tried + candidates[..i + 1];
      if GoesOn(outcome) {
        PaidFromKeeps(cfg, w, req, start, before + actions, left, tried, candidates, i + 1,
                      anyApproved || w.approvedFirst(c), denied || outcome.Some?);
        var rest := PaidFrom(cfg, w, req, left, candidates, i + 1, anyApproved || w.approvedFirst(c), denied || outcome.Some?).2;
        assert before + actions + rest == before + (actions + rest);
      } else {
        OrderExtends(before + actions, tried + candidates[..i + 1], candidates[i + 1..]);
        assert tried + candidates[..i + 1] + candidates[i + 1..] == tried + candidates;
      }
    }
  }

  lemma {:induction false} FreeTriesKeep(w: World, req: Request, c: Candidate, n: nat, attempts: nat)
    requires Eligible(w, c)
    ensures var tries := FreeTries(w, c, n, attempts);
      FreeTriesOnly(tries) && Permitted(w, req, tries) && forall a :: a in tries ==> a.candidate == c
    decreases attempts + 1 - n
  {
    if n <= attempts {
      FreeTriesKeep(w, req, c, n + 1, attempts);
      assert forall a :: a in [FreeTry(c)] ==> a == FreeTry(c);
    }
  }

  lemma FreeActionsKeep(w: World, req: Request, c: Candidate, exact: bool, before: seq<Action>)
    ensures var tries := FreeActions(w, c, exact);
      FreeTriesOnly(tries) && Permitted(w, req, tries) && Extends(before, before + tries, c)
  {
    hide FreeTries, Permitted;
    if Eligible(w, c) {
      FreeTriesKeep(w, req, c, 1, if exact then 1 else c.retryAttempts);
    } else {
      NothingPermitted(w, req);
    }
  }

  lemma NothingPermitted(w: World, req: Request)
    ensures Permitted(w, req, []) && FreeTriesOnly([])
  {
  }

  lemma {:induction false} FreeFromKeeps(w: World, req: Request, before: seq<Action>, tried: seq<Candidate>, candidates: seq<Candidate>)
    requires InOrder(before, tried)
    ensures var tries := FreeFrom(w, candidates).1;
      InOrder(before + tries, tried + candidates) && FreeTriesOnly(tries) && Permitted(w, req, tries)
    decreases |candidates|
  {
    hide InOrder, FreeActions, FreeAnswers, Eligible, Extends;
    if candidates == [] {
      assert before + [] == before && tried + candidates == tried;
    } else {
      var c, tries := candidates[0], FreeActions(w, candidates[0], false);
      FreeActionsKeep(w, req, c, false, before);
      OrderKept(before, before + tries, tried, c);
      assert tried + [c] + candidates[1..] == tried + candidates;
      if FreeAnswers(w, c) {
        OrderExtends(before + tries, tried + [c], candidates[1..]);
      } else {
        FreeFromKeeps(w, req, before + tries, tried + [c], candidates[1..]);
        assert before + tries + FreeFrom(w, candidates[1..]).1 == before + (tries + FreeFrom(w, candidates[1..]).1);
      }
    }
  }

  /** Every call keeps the protocol, the order of the candidates it may touch, and
      their conditions, and concludes as it stands. */
  lemma CompletedKeeps(cfg: Config, w: World, req: Request, route: RoutePolicy, selection: Selection, files: Disk)
    ensures var (left, r, actions) := Completed(cfg, w, req, route, selection, files);
      && Path(cfg, w, req, files, actions).Some?
      && Path(cfg, w, req, files, actions).value.files == left
      && Concludes(Path(cfg, w, req, files, actions).value.stand, r)
      && InOrder(actions, Allowed(route, selection)) && Permitted(w, req, actions)
      && (r.Answered? ==> r.candidate in Allowed(route, selection))
  {
    EmptyPath(cfg, w, req, files);
    NothingPermitted(w, req);
    match selection
    case ExactModel(provider, model) => ExactKeeps(cfg, w, req, route, provider, model, files);
    case UseRoute => RouteKeeps(cfg, w, req, route, files);
  }

  lemma ExactKeeps(cfg: Config, w: World, req: Request, route: RoutePolicy, provider: string, model: string, files: Disk)
    ensures var (left, r, actions) := Completed(cfg, w, req, route, ExactModel(provider, model), files);
      && Path(cfg, w, req, files, actions).Some?
      && Path(cfg, w, req, files, actions).value.files == left
      && Concludes(Path(cfg, w, req, files, actions).value.stand, r)
      && InOrder(actions, Allowed(route, ExactModel(provider, model))) && Permitted(w, req, actions)
      && (r.Answered? ==> r.candidate in Allowed(route, ExactModel(provider, model)))
  {
    hide Path, FindExact, FreeActions, InOrder, Extends, PaidAt, PaidFrom;
    EmptyPath(cfg, w, req, files);
    NothingPermitted(w, req);
    NothingInOrder(Allowed(route, ExactModel(provider, model)));
    var found := FindExact(route.exactCandidates + route.freeCandidates + route.paidCandidates, provider, model);
    if found.Some? {
      var c := found.value;
      NothingInOrder([]);
      if c.billing.Free? {
        var tries := FreeActions(w, c, true);
        FreeActionsKeep(w, req, c, true, []);
        assert [] + tries == tries && tries[0..] == tries;
        FreePath(cfg, w, req, files, [], tries);
        OrderKept([], tries, [], c);
      } else {
        var (left, outcome, actions) := PaidAt(cfg, w, req, files, c);
        PaidAtKeeps(cfg, w, req, files, [], files, c);
        assert [] + actions == actions;
        OrderKept([], actions, [], c);
        AnswersFor(cfg, w, req, files, c);
      }
      assert [] + [c] == Allowed(route, ExactModel(provider, model));
    }
  }

  lemma NothingInOrder(candidates: seq<Candidate>)
    ensures InOrder([], candidates)
  {
  }

  lemma AnswersFor(cfg: Config, w: World, req: Request, files: Disk, c: Candidate)
    ensures var outcome := PaidAt(cfg, w, req, files, c).1;
      outcome.Some? && outcome.value.Answered? ==> outcome.value.candidate == c
  {
    hide OpenOp, CloseOp;
  }

  lemma {:induction false} PaidFromAnswers(cfg: Config, w: World, req: Request, files: Disk, candidates: seq<Candidate>, i: nat,
                                           anyApproved: bool, denied: bool)
    requires i <= |candidates|
    ensures var r := PaidFrom(cfg, w, req, files, candidates, i, anyApproved, denied).1;
      r.Answered? ==> r.candidate in candidates
    decreases |candidates| - i
  {
    hide PaidAt;
    if i < |candidates| {
      var (left, outcome, actions) := PaidAt(cfg, w, req, files, candidates[i]);
      AnswersFor(cfg, w, req, files, candidates[i]);
      PaidFromAnswers(cfg, w, req, left, candidates, i + 1, anyApproved || w.approvedFirst(candidates[i]), denied || outcome.Some?);
    }
  }

  lemma {:induction false} FreeFromAnswers(w: World, candidates: seq<Candidate>)
    ensures FreeFrom(w, candidates).0.Some? ==> FreeFrom(w, candidates).0.value in candidates
  {
    hide FreeActions;
    if candidates != [] {
      FreeFromAnswers(w, candidates[1..]);
    }
  }

  lemma RouteKeeps(cfg: Config, w: World, req: Request, route: RoutePolicy, files: Disk)
    ensures var (left, r, actions) := Completed(cfg, w, req, route, UseRoute, files);
      && Path(cfg, w, req, files, actions).Some?
      && Path(cfg, w, req, files, actions).value.files == left
      && Concludes(Path(cfg, w, req, files, actions).value.stand, r)
      && InOrder(actions, Allowed(route, UseRoute)) && Permitted(w, req, actions)
      && (r.Answered? ==> r.candidate in Allowed(route, UseRoute))
  {
    hide Path, FreeFrom, PaidFrom, InOrder, FreeList, PaidList;
    EmptyPath(cfg, w, req, files);
    NothingInOrder([]);
    var free, paid := FreeList(route), PaidList(route);
    var (answer, tried) := FreeFrom(w, free);
    FreeFromKeeps(w, req, [], [], free);
    FreeFromAnswers(w, free);
    assert [] + tried == tried && [] + free == free && tried[0..] == tried;
    FreePath(cfg, w, req, files, [], tried);
    OrderExtends(tried, free, paid);
    if answer.None? && paid != [] {
      assert free + paid[..0] == free;
      PaidFromKeeps(cfg, w, req, files, tried, files, free, paid, 0, false, false);
      PaidFromAnswers(cfg, w, req, files, paid, 0, false, false);
    }
  }
}
