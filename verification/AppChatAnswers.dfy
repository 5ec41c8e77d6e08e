/** What a chat call charges, reserves and answers, and when it goes on to the next
    backend, said of the request, the replies and the clock alone. */
module AppChatAnswers {
  import opened Basics
  import opened Days
  import opened AppSpendFiles
  import opened AppSpends
  import opened AppAttempts
  import opened AppChat

  // ----- what a reply costs ------------------------------------------------------------

  /** The least number of parts of the given size, and at least one, that cover an
      amount. */
  predicate LeastParts(n: int, size: int, amount: int) {
    n >= 1 && size * n >= amount && (n > 1 ==> size * (n - 1) < amount)
  }

  /** The input tokens that a reply is charged for: those it reports, none for a
      negative report, and one for every three characters sent if it reports none. */
  predicate InputOf(reply: Reply, chars: nat, tokens: int) {
    reply.Text? &&
    match reply.promptTokens
    case Some(n) => tokens == if n < 0 then 0 else n
    case None => LeastParts(tokens, 3, chars)
  }

  /** The output tokens: those it reports, and one for every four characters of the text
      if it reports none. */
  predicate OutputOf(reply: Reply, tokens: int) {
    reply.Text? &&
    match reply.completionTokens
    case Some(n) => tokens == if n < 0 then 0 else n
    case None => LeastParts(tokens, 4, reply.length)
  }

  /** The price of so many tokens, rounded up to a whole micro-USD and at least one. */
  predicate RoundedPrice(cost: int, input: int, output: int, b: Backend) {
    var exact := input as real * b.inputRate + output as real * b.outputRate;
    cost >= 1 && exact <= cost as real && (cost > 1 ==> cost as real < exact + 1.0)
  }

  lemma InputExactly(reply: Reply, chars: nat)
    requires reply.Text?
    ensures InputOf(reply, chars, InputCharged(reply, EstimatedInput(chars)))
  {
  }

  lemma OutputExactly(reply: Reply)
    requires reply.Text?
    ensures OutputOf(reply, OutputCharged(reply))
  {
  }

  lemma PriceExactly(input: nat, output: nat, b: Backend)
    ensures RoundedPrice(ActualCost(input, output, b.inputRate, b.outputRate), input, output, b)
  {
  }

  lemma CostExactly(req: ChatRequest, b: Backend, reply: Reply)
    requires reply.Text?
    ensures exists input, output ::
      InputOf(reply, req.inputChars, input) && OutputOf(reply, output) && RoundedPrice(CostOf(req, b, reply), input, output, b)
  {
    hide InputCharged, OutputCharged, InputOf, OutputOf, ActualCost, EstimatedInput, RoundedPrice;
    InputExactly(reply, req.inputChars);
    OutputExactly(reply);
    PriceExactly(InputCharged(reply, EstimatedInput(req.inputChars)), OutputCharged(reply), b);
  }

  /** How an attempt is closed, given its reply: a text that is not empty is settled at
      the rounded price of its tokens, a failure that certainly sent nothing is released,
      and anything else is charged as unknown. */
  ghost predicate ClosesRightly(lane: Lane, req: ChatRequest, w: World<Reply>, a: Attempt) {
    a.index < |lane.backends| &&
    var b, reply := lane.backends[a.index], w.reply(a.index, a.deadline);
    match a.closing
    case AsSettled(actual) =>
      && reply.Text? && reply.length > 0
      && exists input, output, cost ::
           InputOf(reply, req.inputChars, input) && OutputOf(reply, output)
           && RoundedPrice(cost, input, output, b) && actual == cost as real
    case AsReleased => reply == DispatchFailed(false)
    case AsUnknown => reply == DispatchFailed(true) || (reply.Text? && reply.length == 0)
  }

  /** The output tokens that are requested: the caller's limit within the lane's, and
      never none; but no fewer than the backend asks for. */
  predicate RequestedOf(lane: Lane, req: ChatRequest, b: Backend, tokens: int) {
    var limit := match req.maxOutputTokens
      case None => lane.maxOutputTokens
      case Some(n) => if n < 1 then 1 else if n > lane.maxOutputTokens then lane.maxOutputTokens else n;
    tokens >= limit && tokens >= b.minRequestTokens && (tokens == limit || tokens == b.minRequestTokens)
  }

  /** What an attempt reserves: the price of the estimated input and the requested
      output, and at least one micro-USD. */
  ghost predicate ReservesRightly(lane: Lane, req: ChatRequest, a: Attempt) {
    a.index < |lane.backends| &&
    var b := lane.backends[a.index];
    exists input, output ::
      && LeastParts(input, 3, req.inputChars) && RequestedOf(lane, req, b, output)
      && var exact := input as real * b.inputRate + output as real * b.outputRate;
         a.reserved == if exact < 1.0 then 1.0 else exact
  }

  lemma ReservedExactly(lane: Lane, req: ChatRequest, a: Attempt)
    requires ValidLane(lane) && a.index < |lane.backends| && a.reserved == ReservedFor(lane, req, lane.backends[a.index])
    ensures ReservesRightly(lane, req, a)
  {
    var b := lane.backends[a.index];
    var input, output := EstimatedInput(req.inputChars), RequestTokens(b, OutputTokens(lane, req));
    assert LeastParts(input, 3, req.inputChars) && RequestedOf(lane, req, b, output);
    hide EstimatedInput, RequestTokens, OutputTokens, RequestedOf, LeastParts, ValidLane;
  }

  lemma ClosedExactly(lane: Lane, req: ChatRequest, w: World<Reply>, a: Attempt)
    requires a.index < |lane.backends|
    requires a.closing == ClosingFor(req, lane.backends[a.index], w.reply(a.index, a.deadline))
    ensures ClosesRightly(lane, req, w, a)
  {
    hide CostOf, InputOf, OutputOf, RoundedPrice;
    var reply := w.reply(a.index, a.deadline);
    if reply.Text? {
      CostExactly(req, lane.backends[a.index], reply);
    }
  }

  /** Every attempt of a call reserves the price of what it asks for, and is closed as
      its reply calls for; and an answer reports the rounded price of the tokens of the
      reply that it answers with. */
  lemma ChargesRightly(cap: real, lane: Lane, req: ChatRequest, w: World<Reply>, files: DayFiles)
    requires ValidLane(lane)
    ensures var (_, end, attempts) := ChatFrom(cap, lane, req, w, files, 0, 0);
      && (forall a :: a in attempts ==> ReservesRightly(lane, req, a) && ClosesRightly(lane, req, w, a))
      && (end.Answered? ==>
            && attempts != [] && end.index == Last(attempts).index < |lane.backends| && end.attempts == |attempts|
            && var reply := w.reply(end.index, Last(attempts).deadline);
               exists input, output ::
                 InputOf(reply, req.inputChars, input) && OutputOf(reply, output)
                 && RoundedPrice(end.cost, input, output, lane.backends[end.index]))
  {
    hide ChatFrom, ReservesRightly, InputOf, OutputOf, RoundedPrice, CostOf, ReservedFor, FirstUsable, Deadline;
    ChatPriced(cap, lane, req, w, files, 0, 0);
    ChatShape(cap, lane, req, w, files, 0, 0);
    var (_, end, attempts) := ChatFrom(cap, lane, req, w, files, 0, 0);
    forall a | a in attempts
      ensures ReservesRightly(lane, req, a) && ClosesRightly(lane, req, w, a)
    {
      ReservedExactly(lane, req, a);
      ClosedExactly(lane, req, w, a);
    }
    if end.Answered? {
      var a := Last(attempts);
      assert a in attempts && a.closing == AsSettled(end.cost as real);
      SettledCost(lane, req, w, a, end.cost);
      CostExactly(req, lane.backends[end.index], w.reply(end.index, Last(attempts).deadline));
    }
  }

  lemma SettledCost(lane: Lane, req: ChatRequest, w: World<Reply>, a: Attempt, cost: int)
    requires a.index < |lane.backends| && a.closing == AsSettled(cost as real)
    requires a.closing == ClosingFor(req, lane.backends[a.index], w.reply(a.index, a.deadline))
    ensures w.reply(a.index, a.deadline).Text? && cost == CostOf(req, lane.backends[a.index], w.reply(a.index, a.deadline))
  {
    hide CostOf;
  }

  // ----- when a backend is passed over -----------------------------------------------------

  /** A call may take as long as its caller allows within the lane's limit, and never
      less than a millisecond. */
  predicate MayTake(lane: Lane, req: ChatRequest, seconds: real) {
    match req.deadline
    case None => seconds == lane.maxDeadline
    case Some(asked) =>
      if asked > lane.maxDeadline then seconds == lane.maxDeadline
      else if asked < 0.001 then seconds == 0.001
      else seconds == asked
  }

  /** The backend has no time left when its turn comes: the first usable one when its
      share of the call's time is over, or all of it if there is no other to go on to; a
      later one when less than two seconds remain. */
  predicate OutOfTime(lane: Lane, w: World<Reply>, seconds: real, i: nat)
    requires i < |lane.backends|
  {
    var first := forall j :: 0 <= j < i ==> !lane.backends[j].hasKey;
    var another := exists j :: i < j < |lane.backends| && lane.backends[j].hasKey;
    if !first then w.started + seconds - w.top(i) < 2.0
    else if another then w.top(i) >= w.started + seconds * lane.primaryShare
    else w.top(i) >= w.started + seconds
  }

  lemma DeadlineExactly(lane: Lane, req: ChatRequest)
    requires ValidLane(lane)
    ensures MayTake(lane, req, Deadline(lane, req)) && Deadline(lane, req) > 0.0
  {
  }

  lemma SkippedExactly(lane: Lane, w: World<Reply>, seconds: real, i: nat)
    requires ValidLane(lane) && seconds > 0.0 && i < |lane.backends|
    ensures AttemptDeadline(lane, w.started, seconds, i, w.top(i)).None? <==>
      !lane.backends[i].hasKey || OutOfTime(lane, w, seconds, i)
  {
    ShareWithin(seconds, lane.primaryShare);
  }

  lemma ShareWithin(seconds: real, share: real)
    requires seconds > 0.0 && 0.0 < share <= 1.0
    ensures seconds * share <= seconds
  {
  }

  // ----- how a call ends ----------------------------------------------------------------

  predicate Attempted(attempts: seq<Attempt>, i: nat) {
    exists k :: 0 <= k < |attempts| && attempts[k].index == i
  }

  /** All these attempts failed and were recorded, at backends before this one. */
  predicate AllFailed(attempts: seq<Attempt>, stop: nat) {
    forall k :: 0 <= k < |attempts| ==>
      attempts[k].index < stop && attempts[k].recorded && !attempts[k].closing.AsSettled?
  }

  /** The last of these attempts is the only one at this backend, and all before it
      failed. */
  predicate LastAt(attempts: seq<Attempt>, stop: nat) {
    attempts != [] && Last(attempts).index == stop && AllFailed(Init(attempts), stop)
  }

  /** The files left have no room for the reservation on its day. */
  ghost predicate NoRoomLeft(cap: real, lane: Lane, req: ChatRequest, w: World<Reply>, left: DayFiles, stop: nat)
    requires stop < |lane.backends|
  {
    var f := FileAt(left, w.day(stop));
    f.Stored? && f.state.spent + Total(f.state.reservations) + ReservedFor(lane, req, lane.backends[stop]) > cap
  }

  predicate CannotWrite(io: SpendIo) {
    !io.written || io.reset != ResetFine
  }

  /** Where a call stops, from the i-th backend on, and what that means. Every usable
      backend before it was attempted or out of time. No backend is available when the
      chain has run out; the cap is exhausted when there is no room at that backend; the
      accounting is down when its reservation or its closing could not be written; and
      it answers, or fails to settle, when its reply was a text. */
  ghost predicate StopsAt(cap: real, lane: Lane, req: ChatRequest, w: World<Reply>, i: nat, stop: nat, left: DayFiles,
                          end: ChatEnd, attempts: seq<Attempt>)
  {
    var seconds := Deadline(lane, req);
    && i <= stop <= |lane.backends|
    && (forall j :: i <= j < stop && lane.backends[j].hasKey ==> OutOfTime(lane, w, seconds, j) || Attempted(attempts, j))
    && (stop < |lane.backends| ==> lane.backends[stop].hasKey && !OutOfTime(lane, w, seconds, stop))
    && (end.NoBackend? <==> stop == |lane.backends|)
    && match end
       case NoBackend => AllFailed(attempts, stop)
       case Answered(index, _, _) => index == stop && LastAt(attempts, stop) && Last(attempts).closing.AsSettled?
           && Last(attempts).recorded
       case SettlementFailed => LastAt(attempts, stop) && Last(attempts).closing.AsSettled? && !Last(attempts).recorded
       case CapExhausted =>
         AllFailed(attempts, stop) && w.reserveIo(stop).written && stop < |lane.backends| && NoRoomLeft(cap, lane,
             req, w, left, stop)
       case AccountingDown =>
         (AllFailed(attempts, stop) && CannotWrite(w.reserveIo(stop)))
         || (LastAt(attempts, stop) && !Last(attempts).closing.AsSettled? && !Last(attempts).recorded)
  }

  /** What a refused reservation says of the file it leaves. */
  lemma RefusedReservation(cap: real, f: DayFile, amount: real, id: Id, day: Day, now: real, stamp: real, io: SpendIo)
    requires amount >= 1.0
    ensures var (f', r) := ReserveOn(cap, f, amount, id, day, now, stamp, io);
      && (r == Err(Exhausted) ==> io.written && f'.Stored? && f'.state.spent + Total(f'.state.reservations) + amount > cap)
      && (r == Err(Unavailable) ==> CannotWrite(io))
  {
    hide Readable, Total;
  }

  lemma RefusedAttempt(cap: real, lane: Lane, req: ChatRequest, w: World<Reply>, files: DayFiles, i: nat, deadline: real)
    requires i < |lane.backends|
    ensures var (left, tried) := AttemptAt(cap, lane, req, w, files, i, deadline);
      && (tried == Err(Exhausted) ==> w.reserveIo(i).written && NoRoomLeft(cap, lane, req, w, left, i))
      && (tried == Err(Unavailable) ==> CannotWrite(w.reserveIo(i)))
  {
    hide ReserveOn, CloseOn, ReservedFor, ReservationDay, Total, MakeId, ClosingFor;
    ReservedPositive(lane, req, lane.backends[i]);
    RefusedReservation(cap, FileAt(files, w.day(i)), ReservedFor(lane, req, lane.backends[i]), MakeId(w.day(i), w.unique(i)),
                       w.day(i), w.reserveAt(i), w.stamp(i), w.reserveIo(i));
  }

  lemma StopsLater(cap: real, lane: Lane, req: ChatRequest, w: World<Reply>, i: nat, stop: nat, left: DayFiles, end: ChatEnd,
                   attempts: seq<Attempt>)
    requires i < |lane.backends| && StopsAt(cap, lane, req, w, i + 1, stop, left, end, attempts)
    requires !lane.backends[i].hasKey || OutOfTime(lane, w, Deadline(lane, req), i)
    ensures StopsAt(cap, lane, req, w, i, stop, left, end, attempts)
  {
    hide OutOfTime, Deadline, NoRoomLeft, LastAt, AllFailed, Attempted;
  }

  lemma StopsAfter(cap: real, lane: Lane, req: ChatRequest, w: World<Reply>, i: nat, stop: nat, left: DayFiles, end: ChatEnd,
                   a: Attempt, rest: seq<Attempt>)
    requires i < |lane.backends| && StopsAt(cap, lane, req, w, i + 1, stop, left, end, rest)
    requires a.index == i && a.recorded && !a.closing.AsSettled?
    ensures StopsAt(cap, lane, req, w, i, stop, left, end, [a] + rest)
  {
    hide OutOfTime, Deadline, NoRoomLeft;
    forall j | Attempted(rest, j)
      ensures Attempted([a] + rest, j)
    {
      var k :| 0 <= k < |rest| && rest[k].index == j;
      assert ([a] + rest)[k + 1] == rest[k];
    }
    assert ([a] + rest)[0].index == i;
    if rest != [] {
      assert Last([a] + rest) == Last(rest) && Init([a] + rest) == [a] + Init(rest);
    }
  }

  /** How a call ends, exactly: there is one backend at which it stops, and what stopped
      it there decides the end. */
  lemma {:induction false} CallStops(cap: real, lane: Lane, req: ChatRequest, w: World<Reply>, files: DayFiles, i: nat, made: nat)
    returns (stop: nat)
    requires i <= |lane.backends| && ValidLane(lane)
    ensures var (left, end, attempts) := ChatFrom(cap, lane, req, w, files, i, made);
      StopsAt(cap, lane, req, w, i, stop, left, end, attempts)
    decreases |lane.backends| - i
  {
    hide ChatFrom, AttemptDeadline, Deadline, ReservedFor, ClosingFor, Accounted, CostOf, OutOfTime, NoRoomLeft, ValidLane;
    stop := i;
    DeadlineExactly(lane, req);
    if i == |lane.backends| {
      ChainEnds(cap, lane, req, w, files, made);
      return;
    }
    SkippedExactly(lane, w, Deadline(lane, req), i);
    if AttemptDeadline(lane, w.started, Deadline(lane, req), i, w.top(i)).None? {
      PassedOver(cap, lane, req, w, files, i, made);
      stop := CallStops(cap, lane, req, w, files, i + 1, made);
      var (left, end, attempts) := ChatFrom(cap, lane, req, w, files, i + 1, made);
      StopsLater(cap, lane, req, w, i, stop, left, end, attempts);
    } else {
      TriedNext(cap, lane, req, w, files, i, made);
      var deadline := AttemptDeadline(lane, w.started, Deadline(lane, req), i, w.top(i)).value;
      var (left, tried) := AttemptAt(cap, lane, req, w, files, i, deadline);
      RefusedAttempt(cap, lane, req, w, files, i, deadline);
      if tried.Ok? {
        var a := tried.value;
        assert Init([a]) == [];
        if !a.closing.AsSettled? && a.recorded {
          stop := CallStops(cap, lane, req, w, left, i + 1, made + 1);
          var (last, end, rest) := ChatFrom(cap, lane, req, w, left, i + 1, made + 1);
          StopsAfter(cap, lane, req, w, i, stop, last, end, a, rest);
        }
      }
    }
  }
}
