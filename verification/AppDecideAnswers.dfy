/** What a decision call charges, reserves and answers, and where it stops, said of
    the question, the replies and the clock alone. */
module AppDecideAnswers {
  import opened Basics
  import opened Days
  import opened AppSpendFiles
  import opened AppSpends
  import opened AppAttempts
  import opened AppDecide
  import Chat = AppChatAnswers

  // ----- what a reply costs ------------------------------------------------------------

  /** The input tokens that a reply is charged for: those it reports, and one for every
      three characters sent if it reports none or a negative number. */
  predicate InputOf(reply: Decision, chars: nat, tokens: int) {
    reply.Reply? &&
    if reply.inputTokens.Some? && reply.inputTokens.value >= 0 then tokens == reply.inputTokens.value
    else Chat.LeastParts(tokens, 3, chars)
  }

  /** The output tokens: those it reports, if it reports any. */
  predicate OutputOf(reply: Decision, tokens: int) {
    reply.Reply? &&
    tokens == if reply.outputTokens.Some? && reply.outputTokens.value >= 0 then reply.outputTokens.value else 0
  }

  predicate RoundedPrice(cost: real, input: int, output: int, b: Backend) {
    var exact := input as real * b.inputRate + output as real * b.outputRate;
    cost == cost.Floor as real && cost >= 1.0 && exact <= cost && (cost > 1.0 ==> cost < exact + 1.0)
  }

  /** A reply costs what it says it costs, and otherwise the rounded price of its
      tokens. */
  ghost predicate CostsRightly(q: Question, b: Backend, reply: Decision, cost: real) {
    reply.Reply? &&
    if reply.reportedCost.Some? && reply.reportedCost.value >= 0.0 then cost == reply.reportedCost.value
    else exists input, output :: InputOf(reply, q.chars, input) && OutputOf(reply, output) && RoundedPrice(cost, input, output, b)
  }

  lemma InputExactly(reply: Decision, chars: nat) returns (input: nat)
    requires reply.Reply?
    ensures InputOf(reply, chars, input)
    ensures input == if reply.inputTokens.Some? && reply.inputTokens.value >= 0
        then reply.inputTokens.value as nat else EstimatedInput(chars)
  {
    input := if reply.inputTokens.Some? && reply.inputTokens.value >= 0
        then reply.inputTokens.value as nat else EstimatedInput(chars);
  }

  lemma PriceExactly(input: nat, output: nat, b: Backend)
    ensures RoundedPrice(ActualCost(input, output, b.inputRate, b.outputRate) as real, input, output, b)
  {
  }

  lemma CostExactly(q: Question, b: Backend, reply: Decision)
    requires reply.Reply?
    ensures CostsRightly(q, b, reply, SettlementCost(q, b, reply))
  {
    hide InputOf, ActualCost, EstimatedInput, RoundedPrice;
    var input := InputExactly(reply, q.chars);
    var output: nat := if reply.outputTokens.Some? && reply.outputTokens.value >= 0 then reply.outputTokens.value as nat else 0;
    assert OutputOf(reply, output);
    hide OutputOf;
    PriceExactly(input, output, b);
  }

  /** How an attempt is closed, given its reply: a usable one is settled at its cost, a
      request that payment was asked for or that certainly was not sent is released, and
      anything else is charged as unknown. */
  ghost predicate ClosesRightly(lane: Lane, q: Question, w: World<Decision>, a: Attempt) {
    a.index < |lane.backends| &&
    var reply := w.reply(a.index, a.deadline);
    var usable := reply.Reply? && reply.namesModel && reply.wellFormed;
    var free := reply.DispatchFailed? && (reply.paymentRequired || reply.preDispatch);
    match a.closing
    case AsSettled(actual) => usable && CostsRightly(q, lane.backends[a.index], reply, actual)
    case AsReleased => free
    case AsUnknown => !usable && !free
  }

  /** What an attempt reserves: the price of the estimated input alone, and at least
      one micro-USD. */
  ghost predicate ReservesRightly(lane: Lane, q: Question, a: Attempt) {
    a.index < |lane.backends| &&
    exists input :: Chat.LeastParts(input, 3, q.chars) && Floored(InputPrice(input, lane.backends[a.index]), a.reserved)
  }

  function InputPrice(input: int, b: Backend): real {
    input as real * b.inputRate
  }

  /** The amount is the exact price, but at least one. */
  predicate Floored(exact: real, amount: real) {
    amount == if exact < 1.0 then 1.0 else exact
  }

  lemma ReservedExactly(lane: Lane, q: Question, a: Attempt)
    requires a.index < |lane.backends| && a.reserved == ReservedFor(q, lane.backends[a.index])
    ensures ReservesRightly(lane, q, a)
  {
    assert Chat.LeastParts(EstimatedInput(q.chars), 3, q.chars);
    ReservedPrice(q, lane.backends[a.index]);
    hide EstimatedInput, Chat.LeastParts, InputPrice, Floored, ReservedFor;
  }

  lemma ReservedPrice(q: Question, b: Backend)
    ensures Floored(InputPrice(EstimatedInput(q.chars), b), ReservedFor(q, b))
  {
    hide EstimatedInput, Floored;
    var exact := EstimatedInput(q.chars) as real * b.inputRate;
    assert ReservedFor(q, b) == AtLeastOne(exact);
    assert InputPrice(EstimatedInput(q.chars), b) == exact;
    AtLeastOneFloors(exact);
  }

  lemma AtLeastOneFloors(exact: real)
    ensures Floored(exact, AtLeastOne(exact))
  {
  }

  lemma PricedRightly(lane: Lane, q: Question, w: World<Decision>, a: Attempt)
    requires AppDecide.Priced(lane, q, w, a)
    ensures ReservesRightly(lane, q, a) && ClosesRightly(lane, q, w, a)
  {
    ReservedExactly(lane, q, a);
    hide SettlementCost, CostsRightly, ReservesRightly, ReservedFor;
    var reply := w.reply(a.index, a.deadline);
    if reply.Reply? {
      CostExactly(q, lane.backends[a.index], reply);
    }
  }

  /** Every attempt of a call reserves the price of its input, and is closed as its
      reply calls for; and an answer reports the cost of the reply that it answers
      with. */
  lemma ChargesRightly(cap: real, lane: Lane, q: Question, w: World<Decision>, alerts: AlertWorld, files: DayFiles)
    ensures var (_, end, attempts) := DecideFrom(cap, lane, q, w, alerts, files, 0);
      && (forall a :: a in attempts ==> ReservesRightly(lane, q, a) && ClosesRightly(lane, q, w, a))
      && (end.Answered? ==>
            && attempts != [] && end.index == Last(attempts).index < |lane.backends|
            && CostsRightly(q, lane.backends[end.index], w.reply(end.index, Last(attempts).deadline), end.cost))
  {
    hide DecideFrom, AppDecide.Priced, ReservesRightly, CostsRightly, InTime, Fair;
    DecidePriced(cap, lane, q, w, alerts, files, 0);
    DecideShape(cap, lane, q, w, alerts, files, 0);
    var (_, end, attempts) := DecideFrom(cap, lane, q, w, alerts, files, 0);
    forall a | a in attempts
      ensures ReservesRightly(lane, q, a) && ClosesRightly(lane, q, w, a)
    {
      PricedRightly(lane, q, w, a);
    }
    if end.Answered? {
      assert Last(attempts) in attempts;
    }
  }

  // ----- where a call stops -----------------------------------------------------------------

  /** A call may take as long as its caller asks within the lane's limit. */
  predicate MayTake(lane: Lane, q: Question, seconds: real) {
    match q.deadline
    case None => seconds == lane.maxDeadline
    case Some(asked) => if asked > lane.maxDeadline then seconds == lane.maxDeadline else seconds == asked
  }

  lemma DeadlineExactly(lane: Lane, q: Question)
    ensures MayTake(lane, q, Deadline(lane, q))
  {
  }

  /** The backend has a key and its turn comes before the deadline. */
  predicate HasTurn(lane: Lane, q: Question, w: World<Decision>, i: nat)
    requires i < |lane.backends|
  {
    lane.backends[i].hasKey && w.top(i) < w.started + Deadline(lane, q)
  }

  /** Every one of these attempts failed without a payment being asked for, and was
      recorded, before this backend. */
  predicate AllFailed(w: World<Decision>, attempts: seq<Attempt>, stop: nat) {
    forall k :: 0 <= k < |attempts| ==>
      attempts[k].index < stop && attempts[k].recorded
      && var reply := w.reply(attempts[k].index, attempts[k].deadline); reply.DispatchFailed? && !reply.paymentRequired
  }

  predicate LastAt(w: World<Decision>, attempts: seq<Attempt>, stop: nat) {
    attempts != [] && Last(attempts).index == stop && AllFailed(w, Init(attempts), stop)
  }

  ghost predicate NoRoomLeft(cap: real, lane: Lane, q: Question, w: World<Decision>, left: DayFiles, stop: nat)
    requires stop < |lane.backends|
  {
    var f := FileAt(left, w.day(stop));
    f.Stored? && f.state.spent + Total(f.state.reservations) + ReservedFor(q, lane.backends[stop]) > cap
  }

  /** Where a call stops, from the i-th backend on, and what that means. Every backend
      before it had no turn or was attempted and failed. What ends the call there is a
      reservation that does not fit or cannot be written, a closing that cannot be
      written, a payment that was asked for, or a reply, which answers if it is usable
      and its model is the declared one. */
  ghost predicate StopsAt(cap: real, lane: Lane, q: Question, w: World<Decision>, alerts: AlertWorld, i: nat, stop: nat,
                          left: DayFiles, end: DecideEnd, attempts: seq<Attempt>)
  {
    && i <= stop <= |lane.backends|
    && (forall j :: i <= j < stop && HasTurn(lane, q, w, j) ==> Chat.Attempted(attempts, j))
    && (stop < |lane.backends| ==> HasTurn(lane, q, w, stop))
    && (end.NoBackend? <==> stop == |lane.backends|)
    && match end
       case NoBackend => AllFailed(w, attempts, stop)
       case InvalidDeadline => false
       case CapExhausted =>
         AllFailed(w, attempts, stop) && w.reserveIo(stop).written && stop < |lane.backends| && NoRoomLeft(cap, lane,
             q, w, left, stop)
       case Answered(index, _) =>
         index == stop && LastAt(w, attempts, stop) && Last(attempts).recorded
         && Replied(w, Last(attempts)) && w.reply(stop, Last(attempts).deadline).modelMatches
       case ProviderFailed =>
         LastAt(w, attempts, stop) && Last(attempts).recorded && w.reply(stop, Last(attempts).deadline).Reply?
         && !(Replied(w, Last(attempts)) && w.reply(stop, Last(attempts).deadline).modelMatches)
       case CreditExhausted =>
         LastAt(w, attempts, stop) && Last(attempts).recorded && AskedForPayment(w, Last(attempts))
         && TellsOfCredit(FileAt(left, alerts.day(stop)))
       case AccountingDown =>
         (AllFailed(w, attempts, stop) && Chat.CannotWrite(w.reserveIo(stop)))
         || (LastAt(w, attempts, stop) && !Last(attempts).recorded)
         || (LastAt(w, attempts, stop) && AskedForPayment(w, Last(attempts)) && Chat.CannotWrite(alerts.io(stop)))
  }

  /** The day's file remembers that exhausted credit was alerted. */
  predicate TellsOfCredit(f: DayFile) {
    f.Stored? && "openrouter_credit_exhausted" in f.state.alerts
  }

  predicate Replied(w: World<Decision>, a: Attempt) {
    var reply := w.reply(a.index, a.deadline); reply.Reply? && reply.namesModel && reply.wellFormed
  }

  predicate AskedForPayment(w: World<Decision>, a: Attempt) {
    var reply := w.reply(a.index, a.deadline); reply.DispatchFailed? && reply.paymentRequired
  }

  lemma RefusedAttempt(cap: real, lane: Lane, q: Question, w: World<Decision>, files: DayFiles, i: nat)
    requires i < |lane.backends|
    ensures var (left, tried) := AttemptAt(cap, lane, q, w, files, i);
      && (tried == Err(Exhausted) ==> w.reserveIo(i).written && NoRoomLeft(cap, lane, q, w, left, i))
      && (tried == Err(Unavailable) ==> Chat.CannotWrite(w.reserveIo(i)))
  {
    hide ReserveOn, CloseOn, ReservedFor, ReservationDay, Total, MakeId, ClosingFor;
    ReservedPositive(q, lane.backends[i]);
    Chat.RefusedReservation(cap, FileAt(files, w.day(i)), ReservedFor(q, lane.backends[i]), MakeId(w.day(i), w.unique(i)),
                            w.day(i), w.reserveAt(i), w.stamp(i), w.reserveIo(i));
  }

  /** An attempt that was made ends the call there, or lets it go on. */
  lemma ConcludesAt(cap: real, lane: Lane, q: Question, w: World<Decision>, alerts: AlertWorld, i: nat, a: Attempt,
                    left: DayFiles)
    requires i < |lane.backends| && HasTurn(lane, q, w, i) && a.index == i && a.deadline == w.started + Deadline(lane, q)
    ensures var (after, end) := Conclusion(cap, q, lane.backends[i], w.reply(i, a.deadline), alerts, i, a.recorded, left);
      && (end.None? ==> AllFailed(w, [a], i + 1))
      && (end.Some? ==> StopsAt(cap, lane, q, w, alerts, i, i, after, end.value, [a]))
  {
    hide SettlementCost, Deadline, NoRoomLeft, HasTurn;
    assert Init([a]) == [];
    Raising(cap, left, alerts, i);
    hide AlertOn, TellsOfCredit;
  }

  lemma Raising(cap: real, left: DayFiles, alerts: AlertWorld, i: nat)
    ensures var (f, raised) := AlertOn(cap, FileAt(left, alerts.day(i)), CREDIT_ALERT, alerts.at(i), alerts.io(i));
      && (raised.Ok? ==> TellsOfCredit(f))
      && (raised.Err? ==> Chat.CannotWrite(alerts.io(i)))
  {
  }

  lemma StopsAfter(cap: real, lane: Lane, q: Question, w: World<Decision>, alerts: AlertWorld, i: nat, stop: nat, left: DayFiles,
                   end: DecideEnd, a: Attempt, rest: seq<Attempt>)
    requires i < |lane.backends| && StopsAt(cap, lane, q, w, alerts, i + 1, stop, left, end, rest)
    requires a.index == i && AllFailed(w, [a], i + 1)
    ensures StopsAt(cap, lane, q, w, alerts, i, stop, left, end, [a] + rest)
  {
    hide HasTurn, Deadline, NoRoomLeft, Replied, AskedForPayment, TellsOfCredit;
    assert [a][0] == a;
    forall j | Chat.Attempted(rest, j)
      ensures Chat.Attempted([a] + rest, j)
    {
      var k :| 0 <= k < |rest| && rest[k].index == j;
      assert ([a] + rest)[k + 1] == rest[k];
    }
    assert ([a] + rest)[0].index == i;
    if rest != [] {
      assert Last([a] + rest) == Last(rest) && Init([a] + rest) == [a] + Init(rest);
    }
  }

  lemma StopsLater(cap: real, lane: Lane, q: Question, w: World<Decision>, alerts: AlertWorld, i: nat, stop: nat, left: DayFiles,
                   end: DecideEnd, attempts: seq<Attempt>)
    requires i < |lane.backends| && StopsAt(cap, lane, q, w, alerts, i + 1, stop, left, end, attempts) && !HasTurn(lane, q, w, i)
    ensures StopsAt(cap, lane, q, w, alerts, i, stop, left, end, attempts)
  {
    hide HasTurn, NoRoomLeft, AllFailed, LastAt, TellsOfCredit, Replied, AskedForPayment, Chat.Attempted;
  }

  /** How a call ends, exactly: there is one backend at which it stops, and what stopped
      it there decides the end. */
  lemma {:induction false} CallStops(cap: real, lane: Lane, q: Question, w: World<Decision>, alerts: AlertWorld,
                                     files: DayFiles, i: nat)
    returns (stop: nat)
    requires i <= |lane.backends|
    ensures var (left, end, attempts) := DecideFrom(cap, lane, q, w, alerts, files, i);
      StopsAt(cap, lane, q, w, alerts, i, stop, left, end, attempts)
    decreases |lane.backends| - i
  {
    hide DecideFrom, Deadline, ReservedFor, ClosingFor, Accounted, Conclusion, NoRoomLeft, AllFailed;
    stop := i;
    assert AllFailed(w, [], i) by { NoneFailed(w, i); }
    if i == |lane.backends| {
      ChainEnds(cap, lane, q, w, alerts, files);
      return;
    }
    GoesOn(cap, lane, q, w, alerts, files, i);
    if !Tried(lane, q, w, i) {
      stop := CallStops(cap, lane, q, w, alerts, files, i + 1);
      var (left, end, attempts) := DecideFrom(cap, lane, q, w, alerts, files, i + 1);
      StopsLater(cap, lane, q, w, alerts, i, stop, left, end, attempts);
    } else {
      var (left, tried) := AttemptAt(cap, lane, q, w, files, i);
      RefusedAttempt(cap, lane, q, w, files, i);
      if tried.Ok? {
        var a := tried.value;
        ConcludesAt(cap, lane, q, w, alerts, i, a, left);
        var (after, end) := Conclusion(cap, q, lane.backends[i], w.reply(i, a.deadline), alerts, i, a.recorded, left);
        if end.None? {
          stop := CallStops(cap, lane, q, w, alerts, after, i + 1);
          var (last, conclusion, rest) := DecideFrom(cap, lane, q, w, alerts, after, i + 1);
          StopsAfter(cap, lane, q, w, alerts, i, stop, last, conclusion, a, rest);
        }
      }
    }
  }

  lemma NoneFailed(w: World<Decision>, stop: nat)
    ensures AllFailed(w, [], stop)
  {
  }
}
