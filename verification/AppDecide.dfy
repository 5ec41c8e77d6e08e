/** The decision lane: one reservation per backend, a request until the call's
    deadline, and exits that depend on how the reply or its failure looks. */
module AppDecide {
  import opened Basics
  import opened Days
  import opened AppSpendFiles
  import opened AppSpends
  import opened AppAttempts
  import AppRuns

  datatype Backend = Backend(inputRate: real, outputRate: real, hasKey: bool)

  datatype Lane = Lane(backends: seq<Backend>, maxDeadline: real)

  /** A masked state of so many characters, and the deadline asked for. */
  datatype Question = Question(chars: nat, deadline: Option<real>)

  datatype Decision =
    | DispatchFailed(paymentRequired: bool, preDispatch: bool)
    | Reply(namesModel: bool, wellFormed: bool, modelMatches: bool,
            reportedCost: Option<real>, inputTokens: Option<int>, outputTokens: Option<int>)

  /** Where and when the alert about exhausted credit is raised. */
  datatype AlertWorld = AlertWorld(day: nat -> Day, at: nat -> real, io: nat -> SpendIo)

  datatype DecideEnd =
    | Answered(index: nat, cost: real)
    | InvalidDeadline
    | CapExhausted
    | CreditExhausted
    | ProviderFailed
    | NoBackend
    | AccountingDown

  const CREDIT_ALERT: string := "openrouter_credit_exhausted"

  predicate ValidLane(lane: Lane) {
    1.0 <= lane.maxDeadline <= 30.0 && forall b :: b in lane.backends ==> b.inputRate >= 0.0 && b.outputRate >= 0.0
  }

  predicate DeadlineGiven(q: Question) {
    q.deadline.Some? ==> q.deadline.value > 0.0
  }

  function Deadline(lane: Lane, q: Question): real {
    if q.deadline.Some? && q.deadline.value < lane.maxDeadline then q.deadline.value else lane.maxDeadline
  }

  /** Only the input is priced before the request. */
  function ReservedFor(q: Question, b: Backend): real {
    AtLeastOne(EstimatedInput(q.chars) as real * b.inputRate)
  }

  /** The cost the provider reports, or the price of the tokens it reports. */
  function SettlementCost(q: Question, b: Backend, reply: Decision): real
    requires reply.Reply?
  {
    if reply.reportedCost.Some? && reply.reportedCost.value >= 0.0 then reply.reportedCost.value
    else
      var input := if reply.inputTokens.Some? && reply.inputTokens.value >= 0 then reply.inputTokens.value as nat
                   else EstimatedInput(q.chars);
      var output := if reply.outputTokens.Some? && reply.outputTokens.value >= 0 then reply.outputTokens.value as nat else 0;
      ActualCost(input, output, b.inputRate, b.outputRate) as real
  }

  predicate Usable(reply: Decision) {
    reply.Reply? && reply.namesModel && reply.wellFormed
  }

  function ClosingFor(q: Question, b: Backend, reply: Decision): Closing {
    match reply
    case DispatchFailed(paymentRequired, preDispatch) => if paymentRequired || preDispatch then AsReleased else AsUnknown
    case Reply(_, _, _, _, _, _) => if Usable(reply) then AsSettled(SettlementCost(q, b, reply)) else AsUnknown
  }

  // ----- a call ------------------------------------------------------------------------

  predicate Tried(lane: Lane, q: Question, w: World<Decision>, i: nat)
    requires i < |lane.backends|
  {
    lane.backends[i].hasKey && w.top(i) < w.started + Deadline(lane, q)
  }

  ghost function AttemptAt(cap: real, lane: Lane, q: Question, w: World<Decision>, files: DayFiles, i: nat)
    : (DayFiles, Result<Attempt, SpendError>)
    requires i < |lane.backends|
  {
    var b, overall := lane.backends[i], w.started + Deadline(lane, q);
    Accounted(cap, w, files, i, ReservedFor(q, b), overall, ClosingFor(q, b, w.reply(i, overall)))
  }

  ghost function DecideFrom(cap: real, lane: Lane, q: Question, w: World<Decision>, alerts: AlertWorld, files: DayFiles, i: nat)
    : (DayFiles, DecideEnd, seq<Attempt>)
    requires i <= |lane.backends|
    decreases |lane.backends| - i, 1
  {
    if i == |lane.backends| then (files, NoBackend, [])
    else if !Tried(lane, q, w, i) then DecideFrom(cap, lane, q, w, alerts, files, i + 1)
    else
      var (left, tried) := AttemptAt(cap, lane, q, w, files, i);
      match tried
      case Err(error) => (left, if error.Exhausted? then CapExhausted else AccountingDown, [])
      case Ok(a) => AfterAttempt(cap, lane, q, w, alerts, left, i, a)
  }

  /** What follows a closing: a missing payment is raised as an alert and ends the
      call, another failure to dispatch goes on, a reply ends the call. */
  function Conclusion(cap: real, q: Question, b: Backend, reply: Decision, alerts: AlertWorld, i: nat, recorded: bool,
                      left: DayFiles): (DayFiles, Option<DecideEnd>)
  {
    if !recorded then (left, Some(AccountingDown))
    else
      match reply
      case DispatchFailed(paymentRequired, _) =>
        if !paymentRequired then (left, None)
        else
          var (f, raised) := AlertOn(cap, FileAt(left, alerts.day(i)), CREDIT_ALERT, alerts.at(i), alerts.io(i));
          (left[alerts.day(i) := f], Some(if raised.Ok? then CreditExhausted else AccountingDown))
      case Reply(_, _, modelMatches, _, _, _) =>
        (left, Some(if Usable(reply) && modelMatches then Answered(i, SettlementCost(q, b, reply)) else ProviderFailed))
  }

  ghost function AfterAttempt(cap: real, lane: Lane, q: Question, w: World<Decision>, alerts: AlertWorld, left: DayFiles,
                              i: nat, a: Attempt): (DayFiles, DecideEnd, seq<Attempt>)
    requires i < |lane.backends|
    decreases |lane.backends| - i, 0
  {
    var reply := w.reply(i, w.started + Deadline(lane, q));
    var (after, end) := Conclusion(cap, q, lane.backends[i], reply, alerts, i, a.recorded, left);
    if end.Some? then (after, end.value, [a])
    else Prefixed([a], DecideFrom(cap, lane, q, w, alerts, after, i + 1))
  }

  method Decide(spend: AppSpend, lane: Lane, q: Question, w: World<Decision>, alerts: AlertWorld)
    returns (r: DecideEnd, ghost made: seq<Attempt>)
    modifies spend`files
    ensures !DeadlineGiven(q) ==> r == InvalidDeadline && made == [] && spend.files == old(spend.files)
    ensures DeadlineGiven(q) ==>
      (var (left, end, attempts) := DecideFrom(spend.cap, lane, q, w, alerts, old(spend.files), 0);
       SameFiles(spend.files, left) && r == end && made == attempts)
  {
    hide AttemptAt, Conclusion, DecideFrom, Deadline;
    made := [];
    if q.deadline.Some? && q.deadline.value <= 0.0 {
      return InvalidDeadline, made;
    }
    var overall := w.started + Deadline(lane, q);
    ghost var files := spend.files;
    PrefixedNothing(DecideFrom(spend.cap, lane, q, w, alerts, files, 0));
    for index := 0 to |lane.backends|
      invariant SameFiles(spend.files, files)
      invariant DecideFrom(spend.cap, lane, q, w, alerts, old(spend.files), 0)
             == Prefixed(made, DecideFrom(spend.cap, lane, q, w, alerts, files, index))
    {
      GoesOn(spend.cap, lane, q, w, alerts, files, index);
      if !lane.backends[index].hasKey || w.top(index) >= overall {
        continue;
      }
      ghost var earlier := made;
      ghost var tried, after;
      var end;
      end, tried, after := TryBackend(spend, lane, q, w, alerts, index, files);
      files := after;
      if tried.Ok? {
        made := made + [tried.value];
      }
      if end.Some? {
        assert earlier + [] == earlier;
        return end.value, made;
      }
      PrefixedTwice(earlier, [tried.value], DecideFrom(spend.cap, lane, q, w, alerts, files, index + 1));
    }
    ChainEnds(spend.cap, lane, q, w, alerts, files);
    assert made + [] == made;
    return NoBackend, made;
  }

  /** Reserves, dispatches and closes one attempt. No end means: try the next
      backend. */
  method TryBackend(spend: AppSpend, lane: Lane, q: Question, w: World<Decision>, alerts: AlertWorld, index: nat,
                    ghost files: DayFiles)
    returns (end: Option<DecideEnd>, ghost tried: Result<Attempt, SpendError>, ghost after: DayFiles)
    requires index < |lane.backends| && SameFiles(spend.files, files)
    modifies spend`files
    ensures SameFiles(spend.files, after)
    ensures var (left, answer) := AttemptAt(spend.cap, lane, q, w, files, index);
      tried == answer &&
      match answer
      case Err(error) => after == left && end == Some(if error.Exhausted? then CapExhausted else AccountingDown)
      case Ok(a) => (after, end) == Conclusion(spend.cap, q, lane.backends[index],
        w.reply(index, w.started + Deadline(lane, q)), alerts, index, a.recorded, left)
  {
    hide ReserveOn, CloseOn, ReservedFor, ReservationDay, Deadline, ClosingFor, Conclusion;
    var overall := w.started + Deadline(lane, q);
    var backend, day := lane.backends[index], w.day(index);
    var reserved := ReservedFor(q, backend);
    var granted := spend.Reserve(reserved, day, w.unique(index), w.reserveAt(index), w.stamp(index), w.reserveIo(index));
    ghost var held := files[day := FileAt(spend.files, day)];
    assert SameFiles(spend.files, held);
    if granted.Err? {
      return Some(if granted.error.Exhausted? then CapExhausted else AccountingDown), Err(granted.error), held;
    }
    ghost var recorded;
    end, recorded, after := FinishBackend(spend, q, w, alerts, backend, index, overall, granted.value, held);
    tried := Ok(Attempt(index, granted.value, day, reserved, w.top(index), overall,
                        ClosingFor(q, backend, w.reply(index, overall)), recorded));
  }

  /** Dispatches under a reservation, closes it and concludes. */
  method FinishBackend(spend: AppSpend, q: Question, w: World<Decision>, alerts: AlertWorld, backend: Backend, index: nat,
                       overall: real, id: Id, ghost held: DayFiles)
    returns (end: Option<DecideEnd>, ghost recorded: bool, ghost after: DayFiles)
    requires SameFiles(spend.files, held)
    modifies spend`files
    ensures SameFiles(spend.files, after)
    ensures var home, reply := ReservationDay(id, w.closeDay(index)), w.reply(index, overall);
      var (f, closed) := CloseOn(spend.cap, FileAt(held, home), id, ClosingFor(q, backend, reply), w.closeAt(index), w.closeIo(index));
      recorded == closed.Ok?
      && (after, end) == Conclusion(spend.cap, q, backend, reply, alerts, index, recorded, held[home := f])
  {
    hide CloseOn, AlertOn, ReservationDay, SettlementCost;
    var reply := w.reply(index, overall);
    var closed: Result<(), SpendError>;
    match reply {
      case DispatchFailed(paymentRequired, preDispatch) =>
        if paymentRequired || preDispatch {
          closed := spend.Release(id, w.closeDay(index), w.closeAt(index), w.closeIo(index));
        } else {
          closed := spend.SettleUnknown(id, w.closeDay(index), w.closeAt(index), w.closeIo(index));
        }
      case Reply(namesModel, wellFormed, _, _, _, _) =>
        if namesModel && wellFormed {
          closed := spend.Settle(id, SettlementCost(q, backend, reply), w.closeDay(index), w.closeAt(index), w.closeIo(index));
        } else {
          closed := spend.SettleUnknown(id, w.closeDay(index), w.closeAt(index), w.closeIo(index));
        }
    }
    recorded := closed.Ok?;
    ghost var home := ReservationDay(id, w.closeDay(index));
    after := held[home := FileAt(spend.files, home)];
    assert SameFiles(spend.files, after);
    if closed.Err? {
      end := Some(AccountingDown);
    } else if reply.Reply? {
      end := Some(if reply.namesModel && reply.wellFormed && reply.modelMatches
                  then Answered(index, SettlementCost(q, backend, reply)) else ProviderFailed);
    } else if !reply.paymentRequired {
      end := None;
    } else {
      var raised := spend.AlertOnce(CREDIT_ALERT, alerts.day(index), alerts.at(index), alerts.io(index));
      end := Some(if raised.Ok? then CreditExhausted else AccountingDown);
      after := after[alerts.day(index) := FileAt(spend.files, alerts.day(index))];
    }
  }

  /** How the specification goes on from one backend. */
  lemma GoesOn(cap: real, lane: Lane, q: Question, w: World<Decision>, alerts: AlertWorld, files: DayFiles, i: nat)
    requires i < |lane.backends|
    ensures !Tried(lane, q, w, i) ==>
      DecideFrom(cap, lane, q, w, alerts, files, i) == DecideFrom(cap, lane, q, w, alerts, files, i + 1)
    ensures Tried(lane, q, w, i) ==>
      (var (left, tried) := AttemptAt(cap, lane, q, w, files, i);
       DecideFrom(cap, lane, q, w, alerts, files, i) ==
         match tried
         case Err(error) => (left, if error.Exhausted? then CapExhausted else AccountingDown, [])
         case Ok(a) => AfterAttempt(cap, lane, q, w, alerts, left, i, a))
  {
    hide Accounted, Tried, Deadline, Conclusion;
  }

  lemma ChainEnds(cap: real, lane: Lane, q: Question, w: World<Decision>, alerts: AlertWorld, files: DayFiles)
    ensures DecideFrom(cap, lane, q, w, alerts, files, |lane.backends|) == (files, NoBackend, [])
  {
  }

  // ----- what every call keeps to ------------------------------------------------------

  /** Attempts are made in the order of the chain, at usable backends and before
      the deadline; every one but the last failed without a payment request and was
      recorded; so at most one reply is paid for, by the last attempt, whose cost
      an answer reports, and exhausted credit is never charged. */
  predicate Shaped(lane: Lane, q: Question, w: World<Decision>, i: nat, end: DecideEnd, attempts: seq<Attempt>) {
    && (forall k :: 0 <= k < |attempts| ==> InTime(lane, q, w, i, attempts[k]) && Fair(w, attempts[k]))
    && (forall j, k :: 0 <= j < k < |attempts| ==> attempts[j].index < attempts[k].index)
    && (forall k :: 0 <= k < |attempts| - 1 ==> !attempts[k].closing.AsSettled? && attempts[k].recorded)
    && (end.Answered? ==>
          attempts != [] && Last(attempts).index == end.index && Last(attempts).recorded
          && Last(attempts).closing == AsSettled(end.cost))
    && (end.CreditExhausted? ==> attempts != [] && Last(attempts).closing.AsReleased? && Last(attempts).recorded)
    && (attempts != [] && Last(attempts).closing.AsSettled? ==> end.Answered? || end.ProviderFailed? || end.AccountingDown?)
  }

  predicate InTime(lane: Lane, q: Question, w: World<Decision>, i: nat, a: Attempt) {
    && i <= a.index < |lane.backends| && Tried(lane, q, w, a.index)
    && a.begun == w.top(a.index) && a.deadline == w.started + Deadline(lane, q)
  }

  /** Money follows what happened: a usable reply is settled, and an attempt is free
      exactly when payment was asked for or its request certainly never left. */
  predicate Fair(w: World<Decision>, a: Attempt) {
    var reply := w.reply(a.index, a.deadline);
    && (a.closing.AsSettled? <==> Usable(reply))
    && (a.closing.AsReleased? <==> reply.DispatchFailed? && (reply.paymentRequired || reply.preDispatch))
  }

  lemma ShapedPrefix(lane: Lane, q: Question, w: World<Decision>, a: Attempt, end: DecideEnd, rest: seq<Attempt>)
    requires Shaped(lane, q, w, a.index + 1, end, rest)
    requires InTime(lane, q, w, a.index, a) && Fair(w, a) && !a.closing.AsSettled? && a.recorded
    ensures Shaped(lane, q, w, a.index, end, [a] + rest)
  {
    hide Tried, Deadline, Fair;
    if rest != [] {
      assert Last([a] + rest) == Last(rest);
    }
  }

  /** One attempt either lets the call go on or ends it in shape. */
  lemma AttemptShaped(cap: real, lane: Lane, q: Question, w: World<Decision>, alerts: AlertWorld, a: Attempt, left: DayFiles)
    requires a.index < |lane.backends| && InTime(lane, q, w, a.index, a)
    requires a.closing == ClosingFor(q, lane.backends[a.index], w.reply(a.index, a.deadline))
    ensures Fair(w, a)
    ensures var reply := w.reply(a.index, a.deadline);
      var end := Conclusion(cap, q, lane.backends[a.index], reply, alerts, a.index, a.recorded, left).1;
      if end.None? then !a.closing.AsSettled? && a.recorded else Shaped(lane, q, w, a.index, end.value, [a])
  {
    hide Tried, Deadline, SettlementCost, AlertOn;
  }

  lemma NothingTried(lane: Lane, q: Question, w: World<Decision>, i: nat, end: DecideEnd)
    requires !end.Answered? && !end.CreditExhausted?
    ensures Shaped(lane, q, w, i, end, [])
  {
  }

  lemma ShapedEarlier(lane: Lane, q: Question, w: World<Decision>, i: nat, end: DecideEnd, attempts: seq<Attempt>)
    requires Shaped(lane, q, w, i + 1, end, attempts)
    ensures Shaped(lane, q, w, i, end, attempts)
  {
    hide Tried, Deadline, Fair;
  }

  lemma {:induction false} DecideShape(cap: real, lane: Lane, q: Question, w: World<Decision>, alerts: AlertWorld,
                                       files: DayFiles, i: nat)
    requires i <= |lane.backends|
    ensures var (_, end, attempts) := DecideFrom(cap, lane, q, w, alerts, files, i);
      Shaped(lane, q, w, i, end, attempts)
    decreases |lane.backends| - i
  {
    hide Accounted, DecideFrom, Tried, Deadline, ReservedFor, ClosingFor, Conclusion, Shaped, Fair;
    NothingTried(lane, q, w, i, NoBackend);
    NothingTried(lane, q, w, i, CapExhausted);
    NothingTried(lane, q, w, i, AccountingDown);
    if i == |lane.backends| {
      ChainEnds(cap, lane, q, w, alerts, files);
      return;
    }
    GoesOn(cap, lane, q, w, alerts, files, i);
    if !Tried(lane, q, w, i) {
      DecideShape(cap, lane, q, w, alerts, files, i + 1);
      var (_, end, attempts) := DecideFrom(cap, lane, q, w, alerts, files, i + 1);
      ShapedEarlier(lane, q, w, i, end, attempts);
    } else {
      var (left, tried) := AttemptAt(cap, lane, q, w, files, i);
      if tried.Ok? {
        var a, reply := tried.value, w.reply(i, w.started + Deadline(lane, q));
        AttemptShaped(cap, lane, q, w, alerts, a, left);
        var (after, end) := Conclusion(cap, q, lane.backends[i], reply, alerts, i, a.recorded, left);
        if end.None? {
          DecideShape(cap, lane, q, w, alerts, after, i + 1);
          var (_, last, rest) := DecideFrom(cap, lane, q, w, alerts, after, i + 1);
          ShapedPrefix(lane, q, w, a, last, rest);
        }
      }
    }
  }

  /** The environment of a call whose accounting works. */
  ghost predicate Accountable(lane: Lane, q: Question, w: World<Decision>) {
    forall i :: 0 <= i < |lane.backends| ==>
      w.reserveIo(i).written && w.closeIo(i).written && IsDate(w.day(i))
      && w.started <= w.stamp(i) <= w.closeAt(i) <= w.started + Deadline(lane, q)
  }

  lemma WorksWithin(lane: Lane, q: Question, w: World<Decision>, i: nat)
    requires ValidLane(lane) && Accountable(lane, q, w) && i < |lane.backends|
    ensures WorksAt(w, i)
  {
    hide IsDate;
    assert w.reserveIo(i).written;
  }

  /** Raising an alert leaves the money of every day as it is. */
  lemma AlertConserves(cap: real, files: DayFiles, day: Day, name: string, now: real, io: SpendIo)
    requires AllReadable(files)
    ensures Conserved(files, files[day := AlertOn(cap, FileAt(files, day), name, now, io).0], [])
  {
    hide Total;
    NoCharges();
    OneDayConserved(files, AlertOn(cap, FileAt(files, day), name, now, io).0, day, [], 0.0);
  }

  /** When accounting works, a call closes each of its reservations once, on that
      reservation's own day, leaves none of them open, and each day's money grows by
      exactly the settled cost and the reserved amounts of unknown outcomes. */
  lemma {:induction false} DecideConserves(cap: real, lane: Lane, q: Question, w: World<Decision>, alerts: AlertWorld,
                                           files: DayFiles, i: nat)
    requires i <= |lane.backends| && ValidLane(lane) && Accountable(lane, q, w) && AllReadable(files)
    ensures var (left, _, attempts) := DecideFrom(cap, lane, q, w, alerts, files, i);
      Conserved(files, left, attempts) && forall a :: a in attempts ==> a.recorded
    decreases |lane.backends| - i
  {
    hide DecideFrom, Tried, Deadline, SettlementCost, AlertOn, Conserved, AllReadable, Accountable, ValidLane, Accounted,
         ChargesOn, WorksAt, ClosingFor, ReservedFor;
    ConservedNothing(files);
    if i == |lane.backends| {
      ChainEnds(cap, lane, q, w, alerts, files);
      return;
    }
    GoesOn(cap, lane, q, w, alerts, files, i);
    if !Tried(lane, q, w, i) {
      DecideConserves(cap, lane, q, w, alerts, files, i + 1);
    } else {
      var b, overall := lane.backends[i], w.started + Deadline(lane, q);
      WorksWithin(lane, q, w, i);
      ReservedPositive(q, b);
      AttemptConserves(cap, w, files, i, ReservedFor(q, b), overall, ClosingFor(q, b, w.reply(i, overall)));
      var (left, tried) := AttemptAt(cap, lane, q, w, files, i);
      ConservedReadable(files, left, if tried.Ok? then [tried.value] else []);
      if tried.Ok? {
        var a := tried.value;
        var (after, end) := Conclusion(cap, q, b, w.reply(i, overall), alerts, i, a.recorded, left);
        AlertConserves(cap, left, alerts.day(i), CREDIT_ALERT, alerts.at(i), alerts.io(i));
        ConservedNothing(left);
        ConservedTwice(files, left, after, a, []);
        if end.None? {
          DecideConserves(cap, lane, q, w, alerts, left, i + 1);
          var (last, _, rest) := DecideFrom(cap, lane, q, w, alerts, left, i + 1);
          ConservedTwice(files, left, last, a, rest);
        } else {
          assert [a] + [] == [a];
        }
      }
    }
  }

  lemma ReservedPositive(q: Question, b: Backend)
    ensures ReservedFor(q, b) >= 1.0
  {
  }

  // ----- what a call may do to the cap ----------------------------------------------------

  /** No usable reply is settled at a full micro-USD or more above its reservation. */
  ghost predicate CostsWithin(lane: Lane, q: Question, w: World<Decision>) {
    forall i, deadline :: 0 <= i < |lane.backends| && Usable(w.reply(i, deadline)) ==>
      SettlementCost(q, lane.backends[i], w.reply(i, deadline)) < ReservedFor(q, lane.backends[i]) + 1.0
  }

  /** A reply that reports no cost, no more input than estimated, and output that
      is free is settled less than one micro-USD above its reservation. */
  lemma FreeOutputWithinMicro(q: Question, b: Backend, reply: Decision)
    requires reply.Reply? && b.inputRate >= 0.0 && b.outputRate == 0.0
    requires reply.reportedCost.Some? ==> reply.reportedCost.value < 0.0
    requires reply.inputTokens.Some? ==> reply.inputTokens.value <= EstimatedInput(q.chars)
    ensures SettlementCost(q, b, reply) < ReservedFor(q, b) + 1.0
  {
    var input := if reply.inputTokens.Some? && reply.inputTokens.value >= 0 then reply.inputTokens.value as nat
                 else EstimatedInput(q.chars);
    var output := if reply.outputTokens.Some? && reply.outputTokens.value >= 0 then reply.outputTokens.value as nat else 0;
    hide EstimatedInput, ActualCost, Exact, ReservedFor, AtLeastOne;
    CostWithinMicro(input, output, EstimatedInput(q.chars), output, b.inputRate, 0.0);
    ReservedExactly(q, b, output);
  }

  lemma ReservedExactly(q: Question, b: Backend, output: nat)
    ensures ReservedFor(q, b) == AtLeastOne(Exact(EstimatedInput(q.chars), output, b.inputRate, 0.0))
  {
    hide EstimatedInput;
  }

  lemma AlertBounded(cap: real, f: DayFile, name: string, now: real, io: SpendIo, excess: real)
    requires cap >= 0.0 && excess >= 0.0 && Bounded(cap, f, excess)
    ensures Bounded(cap, AlertOn(cap, f, name, now, io).0, excess)
  {
    hide Bounded, AlertOn;
    ApplyBounded(cap, f, Alert(name, now, io), excess);
  }

  /** However its writes and clocks behave, and whatever providers report, a call
      keeps every day within the cap and what it settles there above its
      reservations. */
  lemma {:induction false} DecideCappedPlusExcess(cap: real, lane: Lane, q: Question, w: World<Decision>, alerts: AlertWorld,
                                                  files: DayFiles, i: nat, day: Day, excess: real)
    requires i <= |lane.backends| && cap >= 0.0 && excess >= 0.0
    requires forall j :: 0 <= j < |lane.backends| ==> IsDate(w.day(j))
    requires Bounded(cap, FileAt(files, day), excess)
    ensures var (left, _, attempts) := DecideFrom(cap, lane, q, w, alerts, files, i);
      Bounded(cap, FileAt(left, day), excess + ExcessOn(attempts, day))
    decreases |lane.backends| - i
  {
    hide DecideFrom, Tried, Deadline, SettlementCost, AlertOn, Bounded, Accounted, IsDate, ReservedFor, ClosingFor, ExcessOn;
    NoExcess(day);
    if i == |lane.backends| {
      ChainEnds(cap, lane, q, w, alerts, files);
      return;
    }
    GoesOn(cap, lane, q, w, alerts, files, i);
    if !Tried(lane, q, w, i) {
      DecideCappedPlusExcess(cap, lane, q, w, alerts, files, i + 1, day, excess);
    } else {
      var b, overall := lane.backends[i], w.started + Deadline(lane, q);
      var reply := w.reply(i, overall);
      ReservedPositive(q, b);
      AttemptBounded(cap, w, files, i, ReservedFor(q, b), overall, ClosingFor(q, b, reply), day, excess);
      var (left, tried) := AttemptAt(cap, lane, q, w, files, i);
      if tried.Ok? {
        var a, now := tried.value, excess + ExcessOn([tried.value], day);
        if alerts.day(i) == day {
          AlertBounded(cap, FileAt(left, day), CREDIT_ALERT, alerts.at(i), alerts.io(i), now);
        }
        var (after, end) := Conclusion(cap, q, b, reply, alerts, i, a.recorded, left);
        if end.None? {
          DecideCappedPlusExcess(cap, lane, q, w, alerts, left, i + 1, day, now);
          MoreExcess(a, DecideFrom(cap, lane, q, w, alerts, left, i + 1).2, day);
        }
      }
    }
  }

  /** An attempt reserves the input's price and closes as its reply calls for. */
  predicate Priced(lane: Lane, q: Question, w: World<Decision>, a: Attempt) {
    && a.index < |lane.backends|
    && a.reserved == ReservedFor(q, lane.backends[a.index])
    && a.closing == ClosingFor(q, lane.backends[a.index], w.reply(a.index, a.deadline))
  }

  lemma {:induction false} DecidePriced(cap: real, lane: Lane, q: Question, w: World<Decision>, alerts: AlertWorld,
                                        files: DayFiles, i: nat)
    requires i <= |lane.backends|
    ensures forall a :: a in DecideFrom(cap, lane, q, w, alerts, files, i).2 ==> Priced(lane, q, w, a)
    decreases |lane.backends| - i
  {
    hide DecideFrom, Tried, Deadline, Conclusion, Accounted, ReservedFor, ClosingFor;
    if i == |lane.backends| {
      ChainEnds(cap, lane, q, w, alerts, files);
      return;
    }
    GoesOn(cap, lane, q, w, alerts, files, i);
    if !Tried(lane, q, w, i) {
      DecidePriced(cap, lane, q, w, alerts, files, i + 1);
    } else {
      var (left, tried) := AttemptAt(cap, lane, q, w, files, i);
      if tried.Ok? {
        var a := tried.value;
        assert Priced(lane, q, w, a);
        var after := Conclusion(cap, q, lane.backends[i], w.reply(i, a.deadline), alerts, i, a.recorded, left).0;
        DecidePriced(cap, lane, q, w, alerts, after, i + 1);
      }
    }
  }

  /** So a call whose replies cost less than one micro-USD more than was reserved for
      them keeps every day within the cap and one micro-USD for each reply it
      settles there. */
  lemma DecideKeepsBound(cap: real, lane: Lane, q: Question, w: World<Decision>, alerts: AlertWorld,
                         files: DayFiles, i: nat, day: Day, excess: real)
    requires i <= |lane.backends| && CostsWithin(lane, q, w) && cap >= 0.0 && excess >= 0.0
    requires forall j :: 0 <= j < |lane.backends| ==> IsDate(w.day(j))
    requires Bounded(cap, FileAt(files, day), excess)
    ensures var (left, _, attempts) := DecideFrom(cap, lane, q, w, alerts, files, i);
      Bounded(cap, FileAt(left, day), excess + SettledOn(attempts, day) as real)
  {
    hide DecideFrom, Bounded, IsDate, ReservedFor, SettlementCost, ExcessOn;
    DecideCappedPlusExcess(cap, lane, q, w, alerts, files, i, day, excess);
    DecidePriced(cap, lane, q, w, alerts, files, i);
    var (left, _, attempts) := DecideFrom(cap, lane, q, w, alerts, files, i);
    forall a | a in attempts
      ensures ExcessOfAttempt(a) < 1.0
    {
      ReservedPositive(q, lane.backends[a.index]);
    }
    ExcessWithinMicro(attempts, day);
    MoreBounded(cap, FileAt(left, day), excess + ExcessOn(attempts, day), excess + SettledOn(attempts, day) as real);
  }

  /** A call that passes the cap: on a day with just enough left for what the first
      backend reserves, a usable reply that costs more than that is settled in full. */
  lemma DecidePassesCap(cap: real, lane: Lane, q: Question, w: World<Decision>, alerts: AlertWorld, files: DayFiles)
    requires |lane.backends| > 0 && Tried(lane, q, w, 0)
    requires w.reserveIo(0) == WRITTEN && w.closeIo(0) == WRITTEN && IsDate(w.day(0)) && w.closeAt(0) - w.stamp(0) <= LIFETIME
    requires var b, reply := lane.backends[0], w.reply(0, w.started + Deadline(lane, q));
      && ReservedFor(q, b) <= cap && FileAt(files, w.day(0)) == JustEnough(cap, ReservedFor(q, b))
      && Usable(reply) && SettlementCost(q, b, reply) > ReservedFor(q, b)
    ensures var (left, end, attempts) := DecideFrom(cap, lane, q, w, alerts, files, 0);
      && Bounded(cap, FileAt(files, w.day(0)), 0.0)
      && FileAt(left, w.day(0)).Stored? && FileAt(left, w.day(0)).state.spent > cap
      && !Bounded(cap, FileAt(left, w.day(0)), 0.0)
  {
    hide DecideFrom, Deadline, SettlementCost, ReservedFor, AlertOn, IsDate, DayShaped, ReserveOn, CloseOn, ReservationDay, MakeId;
    var b, day, overall := lane.backends[0], w.day(0), w.started + Deadline(lane, q);
    var reply, reserved := w.reply(0, overall), ReservedFor(q, b);
    IdKeepsItsDay(day, w.unique(0), w.closeDay(0));
    DateShaped(day);
    GoesOn(cap, lane, q, w, alerts, files, 0);
    ReservedPositive(q, b);
    SettledOnJustEnough(cap, reserved, SettlementCost(q, b, reply), MakeId(day, w.unique(0)), day, w.reserveAt(0), w.stamp(0),
                        w.closeAt(0));
    var left := AttemptAt(cap, lane, q, w, files, 0).0;
    assert FileAt(left, day) == Stored(SpendState(cap - reserved + SettlementCost(q, b, reply), map[], []));
    assert Total(map[]) == 0.0;
  }

  // ----- a call among others ---------------------------------------------------------------

  /** A whole call, its alert included, is a sequence of turns of the interleaving,
      with the files it leaves and the closings of its attempts. */
  lemma {:induction false} DecideIsTurns(cap: real, lane: Lane, q: Question, w: World<Decision>, alerts: AlertWorld,
                                         y: AppRuns.Store, i: nat)
    returns (turns: seq<AppRuns.Turn>)
    requires i <= |lane.backends| && forall k :: IsDate(w.day(k))
    ensures var (left, _, attempts) := DecideFrom(cap, lane, q, w, alerts, y.files, i);
      AppRuns.Leaves(cap, y, turns, left, attempts)
    decreases |lane.backends| - i
  {
    hide AppRuns.Leaves, DecideFrom, Tried, Deadline, ReservedFor, ClosingFor, Accounted, SettlementCost,
         AppRuns.AttemptTurns, IsDate, AlertOn;
    if i == |lane.backends| {
      ChainEnds(cap, lane, q, w, alerts, y.files);
      AppRuns.LeavesNothing(cap, y);
      return [];
    }
    GoesOn(cap, lane, q, w, alerts, y.files, i);
    if !Tried(lane, q, w, i) {
      turns := DecideIsTurns(cap, lane, q, w, alerts, y, i + 1);
    } else {
      var b, overall := lane.backends[i], w.started + Deadline(lane, q);
      var reserved, closing := ReservedFor(q, b), ClosingFor(q, b, w.reply(i, overall));
      AppRuns.AttemptIsTurns(cap, w, y, i, reserved, overall, closing);
      var (left, tried) := AttemptAt(cap, lane, q, w, y.files, i);
      turns := AppRuns.AttemptTurns(w, i, reserved, closing, tried.Ok?);
      if tried.Ok? {
        var a := tried.value;
        var (after, end) := Conclusion(cap, q, b, w.reply(i, overall), alerts, i, a.recorded, left);
        if end.None? {
          var next := AppRuns.StoreAfter(cap, y, turns, left, [a]);
          var more := DecideIsTurns(cap, lane, q, w, alerts, next, i + 1);
          var (last, _, rest) := DecideFrom(cap, lane, q, w, alerts, left, i + 1);
          AppRuns.LeavesOn(cap, y, turns, left, a, more, last, rest);
          turns := turns + more;
        } else if a.recorded && w.reply(i, overall).DispatchFailed? {
          AppRuns.RaisedOn(cap, y, turns, left, [a], alerts.day(i), CREDIT_ALERT, alerts.at(i), alerts.io(i));
          turns := turns + [AppRuns.Raise(alerts.day(i), CREDIT_ALERT, alerts.at(i), alerts.io(i))];
        }
      }
    }
  }
}
