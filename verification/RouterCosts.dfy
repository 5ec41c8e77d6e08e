/** What a call's ledger actions come to: what is reserved in a candidate's name,
    what a refusal means, and what each dispatch costs. */
module RouterCosts {
  import opened Basics
  import opened Days
  import opened LedgerModel
  import opened LedgerHistory
  import opened LedgerDisk
  import opened LedgerSafety
  import opened LedgerRuns
  import opened LedgerCaps
  import opened LedgerTheorems
  import opened LedgerAnswers
  import opened RouterModel
  import opened RouterProtocol
  import opened RouterRuns
  import opened RouterLeftovers
  import opened RouterChain

  // ----- what a dispatch costs ------------------------------------------------------

  /** What was charged for a reservation of so much, given how its dispatch ended: what
      the provider reported, the whole reservation when that is not known, and nothing
      for a request that never left or was rejected free of charge. */
  ghost predicate CostsAs(h: History, rid: Rid, ending: Ending, reserved: nat) {
    match ending
    case Succeeded(Some(charged), _, _) => MicroOf(h, rid) == charged
    case Succeeded(None, _, _) => MicroOf(h, rid) == reserved
    case AdapterFailed(PreDispatch, _) => MicroOf(h, rid) == 0
    case AdapterFailed(Definitive, Some(charged)) => MicroOf(h, rid) == charged
    case AdapterFailed(Definitive, None) => MicroOf(h, rid) == 0
    case AdapterFailed(UnknownPhase, _) => MicroOf(h, rid) == reserved
    case Crashed => MicroOf(h, rid) == reserved
  }

  /** The standing that the reservation is left with. */
  ghost predicate StandsAs(h: History, rid: Rid, ending: Ending) {
    match ending
    case Succeeded(_, _, _) => StatusOf(h, rid) == Some(Closed)
    case AdapterFailed(PreDispatch, _) => StatusOf(h, rid) == None
    case AdapterFailed(Definitive, Some(charged)) => StatusOf(h, rid) == if charged == 0 then None else Some(Closed)
    case AdapterFailed(Definitive, None) => StatusOf(h, rid) == None
    case AdapterFailed(UnknownPhase, _) => StatusOf(h, rid) == Some(Unknown)
    case Crashed => StatusOf(h, rid) == Some(Unknown)
  }

  /** The provider reported a charge above the reservation. */
  predicate Overcharges(ending: Ending, reserved: nat) {
    match ending
    case Succeeded(Some(charged), _, _) => charged > reserved
    case AdapterFailed(Definitive, Some(charged)) => charged > reserved
    case _ => false
  }

  /** The event of a success carries the tokens that the adapter reported. */
  predicate Reports(h: History, h': History, ending: Ending) {
    ending.Succeeded? ==>
      && |h'| > |h| && h'[|h|].kind.SETTLE?
      && h'[|h|].inputTokens == ending.inputTokens && h'[|h|].outputTokens == ending.outputTokens
  }

  /** A recorded settlement was written whole. */
  lemma RecordedSettlement(cfg: Config, d: Disk, rid: Rid, actual: int, inputTokens: nat, outputTokens: nat, outcome: Outcome,
                           io: Io, overageIo: Io)
    requires SettleOp(cfg, d, rid, actual, inputTokens, outputTokens, outcome, io, overageIo).1.Ok?
    ensures actual >= 0 && Load(cfg, d).Some? && rid in Load(cfg, d).value.core.live
    ensures SettleOp(cfg, d, rid, actual, inputTokens, outputTokens, outcome, io, overageIo)
         == SettleOp(cfg, d, rid, actual, inputTokens, outputTokens, outcome, Fine, Fine)
  {
    hide Load, Step;
  }

  lemma RecordedClosing(cfg: Config, d: Disk, rid: Rid, io: Io, how: Closing)
    requires CloseWith(cfg, d, rid, io, how).1.Ok?
    ensures Load(cfg, d).Some? && rid in Load(cfg, d).value.core.live
    ensures CloseWith(cfg, d, rid, io, how) == CloseWith(cfg, d, rid, Fine, how)
  {
    hide Load, Step;
  }

  /** A recorded closure charges the reservation what its dispatch cost, leaves it the
      standing that goes with it, and blocks the domain if and only if the provider
      charged more than was reserved. */
  lemma RecordedClosureCosts(cfg: Config, d: Disk, rid: Rid, ending: Ending, reserved: nat, io: Io, overageIo: Io)
    requires Sound(cfg, d) && LiveIn(cfg, d, rid) && Load(cfg, d).value.core.live[rid].reservedMicro == reserved
    requires CloseOp(cfg, d, rid, ClosureFor(ending, reserved), io, overageIo).1.Ok?
    ensures var d' := CloseOp(cfg, d, rid, ClosureFor(ending, reserved), io, overageIo).0;
      var h, h' := Bodies(d.history), Bodies(d'.history);
      && Sound(cfg, d') && rid in ClosedIds(h')
      && CostsAs(h', rid, ending, reserved) && StandsAs(h', rid, ending)
      && (HasOverage(h') <==> HasOverage(h) || Overcharges(ending, reserved))
      && Reports(h, h', ending)
  {
    hide Sound, Load, Bodies, StatusOf, OpenedIds, ClosedIds, ReserveOf, HasOverage, SettleOp, CloseWith, MicroOf,
         Charged, NaiveUsage;
    RecordsAreFresh(cfg, d, rid);
    match ClosureFor(ending, reserved)
    case Freed =>
      RecordedClosing(cfg, d, rid, io, AsReleased);
      ReleasesAndRecoveriesCost(cfg, d, rid, 0);
    case LeftUnknown =>
      RecordedClosing(cfg, d, rid, io, AsUnknown);
      UnknownCostsItsReservation(cfg, d, rid);
    case ChargedFailure(actual) =>
      RecordedSettlement(cfg, d, rid, actual, 0, 0, ProviderFailure, io, overageIo);
      SettlementCostsWhatIsSettled(cfg, d, rid, actual, 0, 0, ProviderFailure);
    case ChargedSuccess(actual, inputTokens, outputTokens) =>
      RecordedSettlement(cfg, d, rid, actual, inputTokens, outputTokens, Success, io, overageIo);
      SettlementCostsWhatIsSettled(cfg, d, rid, actual, inputTokens, outputTokens, Success);
  }

  // ----- in the course of a call ----------------------------------------------------------

  /** A reservation is made in its candidate's name: for the day and under the id it was
      given, the request's key, the candidate's own scopes, and the amount asked for. */
  lemma OpensInCandidatesName(cfg: Config, w: World, req: Request, start: Disk, trace: seq<Action>)
    requires Path(cfg, w, req, start, trace).Some? && trace != [] && Last(trace).Opened?
    ensures var c, rid, files := Last(trace).candidate, Last(trace).rid, Path(cfg, w, req, start, trace).value.files;
      && rid == w.newId(c) && LiveIn(cfg, files, rid)
      && var record := Load(cfg, files).value.core.live[rid];
         && record.rid == rid && record.day == w.today(c) && record.key == req.key
         && record.aggregate == c.aggregateScope && record.provider == c.providerScope
         && record.route == c.routeScope && record.modelScope == c.modelScope
         && record.reservedCalls == 1 && record.reservedMicro == Last(trace).micro
  {
    hide ReserveOp, Load;
    var c, micro := Last(trace).candidate, Last(trace).micro;
    var before := Path(cfg, w, req, start, Init(trace)).value;
    GrantedIsLive(cfg, before.files, SpecFor(cfg, req, c, micro), w.today(c), w.newId(c), w.reserveIo(c));
  }

  /** A call that has dispatched still has its reservation live, for what it reserved. */
  lemma InFlightRecord(cfg: Config, w: World, req: Request, start: Disk, trace: seq<Action>)
    requires Path(cfg, w, req, start, trace).Some? && Path(cfg, w, req, start, trace).value.stand.InFlight?
    ensures var at := Path(cfg, w, req, start, trace).value;
      && LiveIn(cfg, at.files, at.stand.rid)
      && Load(cfg, at.files).value.core.live[at.stand.rid].reservedMicro == at.stand.micro
      && at.stand.ending == w.ending(at.stand.candidate)
      && |trace| >= 2 && trace[|trace| - 2] == Opened(at.stand.candidate, at.stand.rid, at.stand.micro)
  {
    hide ReserveOp, CloseOp, Load;
    StandAfter(cfg, w, req, start, trace);
    StandAfter(cfg, w, req, start, Init(trace));
    OpensInCandidatesName(cfg, w, req, start, Init(trace));
  }

  /** When a call records a closure, the dispatch just before has cost what its ending
      says, and the domain is blocked by it if and only if the provider charged more
      than was reserved. */
  lemma ClosureCosts(cfg: Config, w: World, req: Request, start: Disk, trace: seq<Action>)
    requires Sound(cfg, start) && FreshIds(cfg, w, req, start, trace)
    requires Path(cfg, w, req, start, trace).Some? && trace != [] && Last(trace).ClosedAs? && Last(trace).recorded
    ensures |trace| >= 3 && trace[|trace| - 3].Opened? && trace[|trace| - 3].candidate == Last(trace).candidate
    ensures var before, after := Path(cfg, w, req, start, Init(trace)).value.files, Path(cfg, w, req, start, trace).value.files;
      var h, h', ending := Bodies(before.history), Bodies(after.history), w.ending(Last(trace).candidate);
      && Sound(cfg, after) && Last(trace).rid in ClosedIds(h')
      && CostsAs(h', Last(trace).rid, ending, trace[|trace| - 3].micro) && StandsAs(h', Last(trace).rid, ending)
      && (HasOverage(h') <==> HasOverage(h) || Overcharges(ending, trace[|trace| - 3].micro))
      && Reports(h, h', ending)
  {
    hide Sound, Bodies, HasOverage, CostsAs, StandsAs, Overcharges, Reports, ClosedIds, OpenOp, CloseOp, LiveIn;
    var c, rid := Last(trace).candidate, Last(trace).rid;
    PathSound(cfg, w, req, start, Init(trace));
    InFlightRecord(cfg, w, req, start, Init(trace));
    var at := Path(cfg, w, req, start, Init(trace)).value;
    RecordedClosureCosts(cfg, at.files, rid, at.stand.ending, at.stand.micro, w.closeIo(c), w.overageIo(c));
  }

  lemma {:induction false} PathSound(cfg: Config, w: World, req: Request, start: Disk, trace: seq<Action>)
    requires Sound(cfg, start) && FreshIds(cfg, w, req, start, trace) && Path(cfg, w, req, start, trace).Some?
    ensures Sound(cfg, Path(cfg, w, req, start, trace).value.files)
  {
    hide Sound, ReserveOp, CloseOp, OpenedIds, Bodies;
    if trace != [] {
      PathSound(cfg, w, req, start, Init(trace));
      var at, action := Path(cfg, w, req, start, Init(trace)).value, Last(trace);
      var c := action.candidate;
      match action
      case Refused(_, micro) =>
        ReserveSound(cfg, at.files, SpecFor(cfg, req, c, micro), w.today(c), w.newId(c), w.reserveIo(c));
      case Opened(_, _, micro) =>
        ReserveSound(cfg, at.files, SpecFor(cfg, req, c, micro), w.today(c), w.newId(c), w.reserveIo(c));
      case ClosedAs(_, rid, closure, _) => ClosingSound(cfg, at.files, rid, closure, w.closeIo(c), w.overageIo(c));
      case _ =>
    }
  }

  /** Along a call the history only grows. */
  lemma {:induction false} PathGrows(cfg: Config, w: World, req: Request, start: Disk, trace: seq<Action>, n: nat)
    requires Path(cfg, w, req, start, trace).Some? && n <= |trace|
    ensures Path(cfg, w, req, start, trace[..n]).Some?
    ensures Bodies(Path(cfg, w, req, start, trace[..n]).value.files.history)
         <= Bodies(Path(cfg, w, req, start, trace).value.files.history)
  {
    hide Bodies, ReserveOp, CloseOp, ClosureFor;
    if n == |trace| {
      assert trace[..n] == trace;
    } else {
      assert trace[..n] == Init(trace)[..n];
      PathGrows(cfg, w, req, start, Init(trace), n);
      var at, action := Path(cfg, w, req, start, Init(trace)).value, Last(trace);
      StepGrows(cfg, w, req, at, action);
    }
  }

  lemma StepGrows(cfg: Config, w: World, req: Request, at: Point, action: Action)
    requires Follow(cfg, w, req, at, action).Some?
    ensures Bodies(at.files.history) <= Bodies(Follow(cfg, w, req, at, action).value.files.history)
  {
    hide Bodies, Exec, ReserveOp, CloseOp;
    var c := action.candidate;
    match action
    case Refused(_, micro) => OpeningGrows(cfg, w, req, at.files, c, micro);
    case Opened(_, _, micro) => OpeningGrows(cfg, w, req, at.files, c, micro);
    case ClosedAs(_, rid, closure, _) =>
      CloseAsExec(cfg, at.files, rid, closure, w.closeIo(c), w.overageIo(c));
      var added := ExecGrows(cfg, at.files, CloseAsOp(rid, closure, w.closeIo(c), w.overageIo(c)));
    case _ =>
  }

  lemma OpeningGrows(cfg: Config, w: World, req: Request, files: Disk, c: Candidate, micro: nat)
    ensures Bodies(files.history) <= Bodies(OpenOp(cfg, w, req, files, c, micro).0.history)
  {
    hide Bodies, ReserveOp;
    var added := ExecGrows(cfg, files, ReserveAsOp(cfg, w, req, c, micro));
  }

  lemma {:induction false} FreshPrefix(cfg: Config, w: World, req: Request, start: Disk, trace: seq<Action>, n: nat)
    requires FreshIds(cfg, w, req, start, trace) && n <= |trace|
    ensures FreshIds(cfg, w, req, start, trace[..n])
  {
    hide Path, FreshId;
    if n < |trace| {
      assert trace[..n] == Init(trace)[..n];
      FreshPrefix(cfg, w, req, start, Init(trace), n);
    } else {
      assert trace[..n] == trace;
    }
  }

  /** When a call has ended, every dispatch whose closure it recorded has cost, in the
      history that the call leaves, what its ending says for the amount that its
      adapter estimated, and stands as its ending says. */
  lemma CallCosts(cfg: Config, w: World, req: Request, route: RoutePolicy, selection: Selection, start: Disk, i: nat)
    requires Sound(cfg, start) && FreshIds(cfg, w, req, start, Completed(cfg, w, req, route, selection, start).2)
    requires var actions := Completed(cfg, w, req, route, selection, start).2;
      i < |actions| && actions[i].ClosedAs? && actions[i].recorded
    ensures var (left, _, actions) := Completed(cfg, w, req, route, selection, start);
      var c, rid := actions[i].candidate, actions[i].rid;
      && rid == w.newId(c) && w.estimate(c).Some? && w.estimate(c).value > 0
      && CostsAs(Bodies(left.history), rid, w.ending(c), w.estimate(c).value)
      && StandsAs(Bodies(left.history), rid, w.ending(c))
  {
    hide Sound, Bodies, Path, Completed, FreshIds, MicroOf, StatusOf, ClosedIds, Concludes, InOrder;
    var (left, r, actions) := Completed(cfg, w, req, route, selection, start);
    CompletedKeeps(cfg, w, req, route, selection, start);
    var upTo := actions[..i + 1];
    assert Last(upTo) == actions[i];
    PathGrows(cfg, w, req, start, actions, i + 1);
    FreshPrefix(cfg, w, req, start, actions, i + 1);
    ClosureCosts(cfg, w, req, start, upTo);
    PathSound(cfg, w, req, start, actions);
    SoundOrderly(cfg, left);
    var opening := upTo[|upTo| - 3];
    assert opening == actions[i - 2] && opening in actions;
    OpenedUnder(cfg, w, req, start, actions, i);
    CostIsFinal(Bodies(Path(cfg, w, req, start, upTo).value.files.history), Bodies(left.history), actions[i].rid);
  }

  /** A closure is of the id that its reservation was given. */
  lemma OpenedUnder(cfg: Config, w: World, req: Request, start: Disk, trace: seq<Action>, i: nat)
    requires Path(cfg, w, req, start, trace).Some? && i < |trace| && trace[i].ClosedAs?
    ensures trace[i].rid == w.newId(trace[i].candidate)
  {
    hide Path;
    ProtocolShape(cfg, w, req, start, trace, i);
    ProtocolShape(cfg, w, req, start, trace, i - 1);
    ProtocolShape(cfg, w, req, start, trace, i - 2);
    PathGrows(cfg, w, req, start, trace, i - 1);
    assert Last(trace[..i - 1]) == trace[i - 2];
    OpensInCandidatesName(cfg, w, req, start, trace[..i - 1]);
  }

  /** And an answer's reservation has cost what the provider reported for it, or its
      estimate if it reported nothing. */
  lemma AnswerCosts(cfg: Config, w: World, req: Request, route: RoutePolicy, selection: Selection, start: Disk)
    requires Sound(cfg, start) && FreshIds(cfg, w, req, start, Completed(cfg, w, req, route, selection, start).2)
    requires var r := Completed(cfg, w, req, route, selection, start).1; r.Answered? && r.reservation.Some?
    ensures var (left, r, actions) := Completed(cfg, w, req, route, selection, start);
      && actions != [] && w.ending(Last(actions).candidate).Succeeded? && w.estimate(Last(actions).candidate).Some?
      && MicroOf(Bodies(left.history), r.reservation.value)
         == (match w.ending(Last(actions).candidate).actual
             case Some(charged) => charged
             case None => w.estimate(Last(actions).candidate).value)
  {
    hide Sound, Bodies, Path, Completed, FreshIds, MicroOf, StatusOf, InOrder, Permitted;
    var (left, r, actions) := Completed(cfg, w, req, route, selection, start);
    CompletedKeeps(cfg, w, req, route, selection, start);
    EndsWithSuccess(cfg, w, req, start, actions, r);
    CallCosts(cfg, w, req, route, selection, start, |actions| - 1);
  }

  lemma EndsWithSuccess(cfg: Config, w: World, req: Request, start: Disk, actions: seq<Action>, r: CallResult)
    requires Path(cfg, w, req, start, actions).Some? && Concludes(Path(cfg, w, req, start, actions).value.stand, r)
    requires r.Answered? && r.reservation.Some?
    ensures actions != [] && Last(actions).ClosedAs? && Last(actions).recorded && Last(actions).rid == r.reservation.value
    ensures w.ending(Last(actions).candidate).Succeeded?
  {
    hide OpenOp, CloseOp;
    StandAfter(cfg, w, req, start, Init(actions));
    InFlightRecord(cfg, w, req, start, Init(actions));
  }

  // ----- what a refused reservation means -------------------------------------------------

  /** The candidate's price card and account are this ledger's. */
  predicate OfThisLedger(cfg: Config, c: Candidate) {
    c.priceCard in cfg.priceCards && (cfg.accounts.Some? ==> c.account in cfg.accounts.value)
  }

  /** The standing of the reservation that the loaded marker of the day and key names. */
  ghost function KeyStanding(cfg: Config, d: Disk, day: Day, key: Key): Option<Status>
    requires Load(cfg, d).Some?
  {
    match Find(Load(cfg, d).value.core.idem, day, key)
    case None => None
    case Some(marker) => StatusOf(Bodies(d.history), marker.rid)
  }

  /** The first of a candidate's scopes without room for the amount, in the order
      aggregate, provider, route, model, is this one. */
  ghost predicate FirstFull(cfg: Config, h: History, day: Day, micro: nat, c: Candidate, s: Scope) {
    exists i :: FirstWithoutRoom(cfg, h, day, micro, ScopesIn(c), i) && ScopesIn(c)[i] == s
  }

  function ScopesIn(c: Candidate): seq<Scope> {
    [c.aggregateScope, c.providerScope, c.routeScope] + if c.modelScope == "" then [] else [c.modelScope]
  }

  /** What a candidate that is ready to be reserved for meets, when the ledger loads and
      the write succeeds. Its budget is denied exactly when the domain is blocked, or
      its key was consumed and resolved that day, or its first full scope is capped. The
      outcome is unknown without a dispatch exactly when its key is unresolved. The
      ledger is unavailable exactly when its first full scope has no cap. */
  lemma RefusalMeans(cfg: Config, w: World, req: Request, files: Disk, c: Candidate)
    requires Sound(cfg, files) && Load(cfg, files).Some? && Ready(w, req, c) && OfThisLedger(cfg, c)
    requires c.aggregateScope != "" && c.providerScope != "" && c.routeScope != ""
    requires w.reserveIo(c) == Fine && w.newId(c) !in OpenedIds(Bodies(files.history))
    ensures var h, today, micro := Bodies(files.history), w.today(c), w.estimate(c).value;
      var blocked, standing := HasOverage(h), KeyStanding(cfg, files, today, req.key);
      var unmarked := Find(Load(cfg, files).value.core.idem, today, req.key).None?;
      var outcome, actions := PaidAt(cfg, w, req, files, c).1, PaidAt(cfg, w, req, files, c).2;
      && (BudgetRefused(cfg, w, req, files, c) <==>
            blocked || standing == Some(Closed) || standing == Some(Recovered)
            || (unmarked && exists s :: FirstFull(cfg, h, today, micro, c, s) && s in cfg.caps))
      && (actions == [Refused(c, micro)] && outcome == Some(Raised(OutcomeIsUnknown)) <==>
            !blocked && (standing == Some(Live) || standing == Some(Unknown)))
      && (actions == [Refused(c, micro)] && outcome == Some(Raised(Unavailable)) <==>
            !blocked && unmarked && exists s :: FirstFull(cfg, h, today, micro, c, s) && s !in cfg.caps)
  {
    var h, today, micro := Bodies(files.history), w.today(c), w.estimate(c).value;
    var spec := SpecFor(cfg, req, c, micro);
    ReserveAnswersExactly(cfg, files, spec, today, w.newId(c));
    ScopesOfCandidate(cfg, req, c, micro);
    MarkerStands(cfg, files, today, req.key);
    var answer := ReserveOp(cfg, files, spec, today, w.newId(c), Fine).1;
    FullDecides(cfg, h, today, micro, c);
    RefusedAsAnswered(cfg, w, req, files, c);
    hide Sound, Load, ReserveOp, PaidAt, Ready, BudgetRefused, HasOverage, StatusOf, OpenedIds, Bodies, Find, FirstWithoutRoom,
         FirstFull, SpecScopes, ScopesIn;
    assert OpenOp(cfg, w, req, files, c, micro).1 == answer;
  }

  /** What the ledger's answer makes of a candidate that is ready. */
  lemma RefusedAsAnswered(cfg: Config, w: World, req: Request, files: Disk, c: Candidate)
    requires Ready(w, req, c)
    ensures var micro := w.estimate(c).value;
      var answer := OpenOp(cfg, w, req, files, c, micro).1;
      var outcome, refused := PaidAt(cfg, w, req, files, c).1, PaidAt(cfg, w, req, files, c).2 == [Refused(c, micro)];
      && (BudgetRefused(cfg, w, req, files, c) <==>
            answer == Err(BudgetDenied) || answer == Err(IdempotencyConflict(Closed))
            || answer == Err(IdempotencyConflict(Recovered)))
      && (refused && outcome == Some(Raised(OutcomeIsUnknown)) <==>
            answer == Err(IdempotencyConflict(Live)) || answer == Err(IdempotencyConflict(Unknown)))
      && (refused && outcome == Some(Raised(Unavailable)) <==> answer == Err(LedgerUnavailable))
  {
    hide OpenOp, CloseOp;
  }

  lemma ScopesOfCandidate(cfg: Config, req: Request, c: Candidate, micro: nat)
    ensures SpecScopes(SpecFor(cfg, req, c, micro)) == ScopesIn(c)
  {
  }

  lemma MarkerStands(cfg: Config, d: Disk, day: Day, key: Key)
    requires Sound(cfg, d) && Load(cfg, d).Some?
    ensures Find(Load(cfg, d).value.core.idem, day, key).Some? ==> KeyStanding(cfg, d, day, key).Some?
  {
    LoadedAgrees(cfg, d);
    hide Load, Bodies, Find, StatusOf, OpenedIds, ReserveOf, LiveAgrees, TotalsAgree, LiveSumAgrees, StandingsAgree, LiveMarked,
         OverageAgrees;
    if Find(Load(cfg, d).value.core.idem, day, key).Some? {
      assert Truthful(Bodies(d.history), day, key, Find(Load(cfg, d).value.core.idem, day, key).value);
    }
  }

  lemma FullDecides(cfg: Config, h: History, day: Day, micro: nat, c: Candidate)
    ensures (exists s :: FirstFull(cfg, h, day, micro, c, s) && s in cfg.caps) <==>
      exists i :: FirstWithoutRoom(cfg, h, day, micro, ScopesIn(c), i) && ScopesIn(c)[i] in cfg.caps
    ensures (exists s :: FirstFull(cfg, h, day, micro, c, s) && s !in cfg.caps) <==>
      exists i :: FirstWithoutRoom(cfg, h, day, micro, ScopesIn(c), i) && ScopesIn(c)[i] !in cfg.caps
  {
    hide HasRoom, ScopesIn;
    forall i | FirstWithoutRoom(cfg, h, day, micro, ScopesIn(c), i)
      ensures FirstFull(cfg, h, day, micro, c, ScopesIn(c)[i])
    {
    }
  }
}
