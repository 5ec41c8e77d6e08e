/** The application chat lane: a chain of backends under one deadline, each
    attempt reserved on the spend store and closed by how it ended. Money is in
    micro-USD, rates in micro-USD per token, times in seconds. */
module AppChat {
  import opened Basics
  import opened Days
  import opened AppSpendFiles
  import opened AppSpends
  import opened AppAttempts
  import AppRuns

  const MIN_FALLBACK_SECONDS: real := 2.0

  datatype Backend = Backend(name: string, inputRate: real, outputRate: real, minRequestTokens: int, hasKey: bool)

  datatype Lane = Lane(backends: seq<Backend>, maxOutputTokens: nat, maxDeadline: real, primaryShare: real)

  datatype ChatRequest = ChatRequest(inputChars: nat, maxOutputTokens: Option<int>, deadline: Option<real>)

  /** A provider's reply: a text with the token counts it reports, or a failure. */
  datatype Reply = Text(length: nat, promptTokens: Option<int>, completionTokens: Option<int>) | DispatchFailed(ambiguous: bool)

  datatype ChatEnd =
    | Answered(index: nat, cost: int, attempts: nat)
    | CapExhausted
    | NoBackend
    | AccountingDown
    | SettlementFailed

  /** What the promoted policy enforces of a lane. */
  predicate ValidLane(lane: Lane) {
    && lane.maxOutputTokens >= 1
    && 1.0 <= lane.maxDeadline <= 120.0
    && 0.0 < lane.primaryShare <= 1.0
    && forall b :: b in lane.backends ==> b.inputRate >= 0.0 && b.outputRate >= 0.0
  }

  function OutputTokens(lane: Lane, req: ChatRequest): nat {
    match req.maxOutputTokens
    case None => lane.maxOutputTokens
    case Some(n) =>
      var bounded := if n < lane.maxOutputTokens then n else lane.maxOutputTokens;
      if bounded > 1 then bounded else 1
  }

  function RequestTokens(b: Backend, outputTokens: nat): nat {
    if b.minRequestTokens > outputTokens then b.minRequestTokens else outputTokens
  }

  function ReservedFor(lane: Lane, req: ChatRequest, b: Backend): real {
    AtLeastOne(Exact(EstimatedInput(req.inputChars), RequestTokens(b, OutputTokens(lane, req)), b.inputRate, b.outputRate))
  }

  // ----- the deadline of each attempt --------------------------------------------

  function Least(a: real, b: real): real {
    if a <= b then a else b
  }

  function Deadline(lane: Lane, req: ChatRequest): real {
    match req.deadline
    case None => lane.maxDeadline
    case Some(seconds) => var bounded := Least(seconds, lane.maxDeadline); if bounded > 0.001 then bounded else 0.001
  }

  predicate LaterUsable(lane: Lane, i: nat) {
    exists j :: i < j < |lane.backends| && lane.backends[j].hasKey
  }

  predicate FirstUsable(lane: Lane, i: nat)
    requires i < |lane.backends|
  {
    lane.backends[i].hasKey && forall j :: 0 <= j < i ==> !lane.backends[j].hasKey
  }

  /** The part of the deadline that the first usable backend may use up. */
  function PrimaryPart(lane: Lane, deadline: real): real {
    deadline * lane.primaryShare
  }

  /** The deadline of the attempt at one backend; None when it is passed over. */
  function AttemptDeadline(lane: Lane, started: real, deadline: real, i: nat, now: real): Option<real>
    requires i < |lane.backends|
  {
    var overall := started + deadline;
    if !lane.backends[i].hasKey then None
    else if FirstUsable(lane, i) then
      var own := if LaterUsable(lane, i) then Least(overall, started + PrimaryPart(lane, deadline)) else overall;
      if own - now <= 0.0 then None else Some(own)
    else if overall - now < MIN_FALLBACK_SECONDS then None
    else Some(overall)
  }

  // ----- a call --------------------------------------------------------------------

  function NotNegative(n: int): nat {
    if n > 0 then n else 0
  }

  function InputCharged(reply: Reply, estimatedInput: nat): nat
    requires reply.Text?
  {
    if reply.promptTokens.Some? then NotNegative(reply.promptTokens.value) else estimatedInput
  }

  function OutputCharged(reply: Reply): nat
    requires reply.Text?
  {
    if reply.completionTokens.Some? then NotNegative(reply.completionTokens.value)
    else if (reply.length + 3) / 4 > 1 then (reply.length + 3) / 4 else 1
  }

  function CostOf(req: ChatRequest, b: Backend, reply: Reply): int
    requires reply.Text?
  {
    ActualCost(InputCharged(reply, EstimatedInput(req.inputChars)), OutputCharged(reply), b.inputRate, b.outputRate)
  }

  /** How a reply closes its reservation. An empty text is an ambiguous failure. */
  function ClosingFor(req: ChatRequest, b: Backend, reply: Reply): Closing {
    match reply
    case Text(length, _, _) => if length == 0 then AsUnknown else AsSettled(CostOf(req, b, reply) as real)
    case DispatchFailed(ambiguous) => if ambiguous then AsUnknown else AsReleased
  }

  /** The attempt at one backend. */
  ghost function AttemptAt(cap: real, lane: Lane, req: ChatRequest, w: World<Reply>, files: DayFiles, i: nat, deadline: real)
    : (DayFiles, Result<Attempt, SpendError>)
    requires i < |lane.backends|
  {
    var b := lane.backends[i];
    Accounted(cap, w, files, i, ReservedFor(lane, req, b), deadline, ClosingFor(req, b, w.reply(i, deadline)))
  }

  /** What a call does from one backend of the chain on: the files it leaves, how
      it ends, and the attempts it makes. */
  ghost function ChatFrom(cap: real, lane: Lane, req: ChatRequest, w: World<Reply>, files: DayFiles, i: nat, made: nat)
    : (DayFiles, ChatEnd, seq<Attempt>)
    requires i <= |lane.backends|
    decreases |lane.backends| - i, 1
  {
    if i == |lane.backends| then (files, NoBackend, [])
    else
      match AttemptDeadline(lane, w.started, Deadline(lane, req), i, w.top(i))
      case None => ChatFrom(cap, lane, req, w, files, i + 1, made)
      case Some(deadline) =>
        var (left, tried) := AttemptAt(cap, lane, req, w, files, i, deadline);
        match tried
        case Err(error) => (left, if error.Exhausted? then CapExhausted else AccountingDown, [])
        case Ok(a) => AfterAttempt(cap, lane, req, w, left, i, made, a, deadline)
  }

  /** A settled reply ends the call; a failure that was recorded goes on. */
  ghost function AfterAttempt(cap: real, lane: Lane, req: ChatRequest, w: World<Reply>, left: DayFiles, i: nat, made: nat,
                              a: Attempt, deadline: real): (DayFiles, ChatEnd, seq<Attempt>)
    requires i < |lane.backends| && (a.closing.AsSettled? ==> w.reply(i, deadline).Text?)
    decreases |lane.backends| - i, 0
  {
    if a.closing.AsSettled? then
      (left, if a.recorded then Answered(i, CostOf(req, lane.backends[i], w.reply(i, deadline)), made + 1)
             else SettlementFailed, [a])
    else if !a.recorded then (left, AccountingDown, [a])
    else Prefixed([a], ChatFrom(cap, lane, req, w, left, i + 1, made + 1))
  }

  method UsableIndices(lane: Lane) returns (usable: seq<nat>)
    ensures forall j :: j in usable <==> 0 <= j < |lane.backends| && lane.backends[j].hasKey
    ensures usable != [] ==> usable[0] < |lane.backends| && FirstUsable(lane, usable[0])
  {
    usable := [];
    for i := 0 to |lane.backends|
      invariant forall j :: j in usable <==> 0 <= j < i && lane.backends[j].hasKey
      invariant usable != [] ==> usable[0] < |lane.backends| && FirstUsable(lane, usable[0])
    {
      if lane.backends[i].hasKey {
        usable := usable + [i];
      }
    }
  }

  lemma LaterIn(lane: Lane, usable: seq<nat>, i: nat)
    requires forall j :: j in usable <==> 0 <= j < |lane.backends| && lane.backends[j].hasKey
    ensures LaterUsable(lane, i) <==> exists k :: 0 <= k < |usable| && usable[k] > i
  {
    if LaterUsable(lane, i) {
      var j :| i < j < |lane.backends| && lane.backends[j].hasKey;
      assert j in usable;
    }
    if k :| 0 <= k < |usable| && usable[k] > i {
      assert usable[k] in usable;
    }
  }

  lemma FirstIs(lane: Lane, usable: seq<nat>, i: nat)
    requires forall j :: j in usable <==> 0 <= j < |lane.backends| && lane.backends[j].hasKey
    requires usable != [] ==> usable[0] < |lane.backends| && FirstUsable(lane, usable[0])
    requires i < |lane.backends| && lane.backends[i].hasKey
    ensures usable != [] && (FirstUsable(lane, i) <==> i == usable[0])
  {
    assert i in usable;
  }

  /** Reserves, dispatches and closes one attempt. No end means: try the next
      backend. */
  method TryBackend(spend: AppSpend, lane: Lane, req: ChatRequest, w: World<Reply>, index: nat, attemptDeadline: real,
                    attempts: nat, ghost files: DayFiles)
    returns (end: Option<ChatEnd>, ghost tried: Result<Attempt, SpendError>)
    requires index < |lane.backends| && SameFiles(spend.files, files)
    modifies spend`files
    ensures var (left, answer) := AttemptAt(spend.cap, lane, req, w, files, index, attemptDeadline);
      SameFiles(spend.files, left) && tried == answer
    ensures match tried
      case Err(error) => end == Some(if error.Exhausted? then CapExhausted else AccountingDown)
      case Ok(a) =>
        end == if a.closing.AsSettled? then
                 Some(if a.recorded then Answered(index, CostOf(req, lane.backends[index], w.reply(index, attemptDeadline)), attempts + 1)
                      else SettlementFailed)
               else if a.recorded then None else Some(AccountingDown)
  {
    hide ReserveOn, CloseOn, ReservedFor, ReservationDay;
    var backend, day := lane.backends[index], w.day(index);
    var reserved := ReservedFor(lane, req, backend);
    ghost var granting := ReserveOn(spend.cap, FileAt(files, day), reserved, MakeId(day, w.unique(index)), day,
                                    w.reserveAt(index), w.stamp(index), w.reserveIo(index));
    var granted := spend.Reserve(reserved, day, w.unique(index), w.reserveAt(index), w.stamp(index), w.reserveIo(index));
    ghost var held := files[day := granting.0];
    assert SameFiles(spend.files, held);
    if granted.Err? {
      return Some(if granted.error.Exhausted? then CapExhausted else AccountingDown), Err(granted.error);
    }
    var id := granted.value;
    var reply := w.reply(index, attemptDeadline);
    var closed: Result<(), SpendError>;
    if reply.Text? && reply.length > 0 {
      var cost := CostOf(req, backend, reply);
      closed := spend.Settle(id, cost as real, w.closeDay(index), w.closeAt(index), w.closeIo(index));
      end := Some(if closed.Ok? then Answered(index, cost, attempts + 1) else SettlementFailed);
    } else {
      if reply.Text? || reply.ambiguous {
        closed := spend.SettleUnknown(id, w.closeDay(index), w.closeAt(index), w.closeIo(index));
      } else {
        closed := spend.Release(id, w.closeDay(index), w.closeAt(index), w.closeIo(index));
      }
      end := if closed.Ok? then None else Some(AccountingDown);
    }
    tried := Ok(Attempt(index, id, day, reserved, w.top(index), attemptDeadline, ClosingFor(req, backend, reply), closed.Ok?));
  }

  method CompleteChat(spend: AppSpend, lane: Lane, req: ChatRequest, w: World<Reply>)
    returns (r: ChatEnd, ghost made: seq<Attempt>)
    modifies spend`files
    ensures var (left, end, attempts) := ChatFrom(spend.cap, lane, req, w, old(spend.files), 0, 0);
      SameFiles(spend.files, left) && r == end && made == attempts
  {
    hide AttemptAt, FirstUsable, LaterUsable, CostOf, ChatFrom, Deadline, PrimaryPart;
    var deadline := Deadline(lane, req);
    var overall := w.started + deadline;
    var attempts := 0;
    var usable := UsableIndices(lane);
    ghost var files := spend.files;
    made := [];
    PrefixedNothing(ChatFrom(spend.cap, lane, req, w, files, 0, 0));
    for index := 0 to |lane.backends|
      invariant SameFiles(spend.files, files)
      invariant ChatFrom(spend.cap, lane, req, w, old(spend.files), 0, 0)
             == Prefixed(made, ChatFrom(spend.cap, lane, req, w, files, index, attempts))
    {
      PassedOver(spend.cap, lane, req, w, files, index, attempts);
      if !lane.backends[index].hasKey {
        continue;
      }
      var now := w.top(index);
      var hasLater := exists k :: 0 <= k < |usable| && usable[k] > index;
      LaterIn(lane, usable, index);
      FirstIs(lane, usable, index);
      var attemptDeadline := overall;
      if index == usable[0] {
        if hasLater {
          attemptDeadline := Least(overall, w.started + PrimaryPart(lane, deadline));
        }
      } else if overall - now < MIN_FALLBACK_SECONDS {
        continue;
      }
      if attemptDeadline - now <= 0.0 {
        continue;
      }
      assert AttemptDeadline(lane, w.started, deadline, index, now) == Some(attemptDeadline);
      TriedNext(spend.cap, lane, req, w, files, index, attempts);
      ghost var tried;
      ghost var earlier, left := made, AttemptAt(spend.cap, lane, req, w, files, index, attemptDeadline).0;
      var end;
      end, tried := TryBackend(spend, lane, req, w, index, attemptDeadline, attempts, files);
      files := left;
      if tried.Ok? {
        made := made + [tried.value];
      }
      if end.Some? {
        assert earlier + [] == earlier;
        return end.value, made;
      }
      attempts := attempts + 1;
      PrefixedTwice(earlier, [tried.value], ChatFrom(spend.cap, lane, req, w, files, index + 1, attempts));
    }
    ChainEnds(spend.cap, lane, req, w, files, attempts);
    assert made + [] == made;
    return NoBackend, made;
  }

  // The three ways in which the specification goes on from one backend.

  lemma PassedOver(cap: real, lane: Lane, req: ChatRequest, w: World<Reply>, files: DayFiles, i: nat, made: nat)
    requires i < |lane.backends|
    ensures AttemptDeadline(lane, w.started, Deadline(lane, req), i, w.top(i)).None? ==>
      ChatFrom(cap, lane, req, w, files, i, made) == ChatFrom(cap, lane, req, w, files, i + 1, made)
  {
    hide AttemptAt, AttemptDeadline;
  }

  lemma TriedNext(cap: real, lane: Lane, req: ChatRequest, w: World<Reply>, files: DayFiles, i: nat, made: nat)
    requires i < |lane.backends| && AttemptDeadline(lane, w.started, Deadline(lane, req), i, w.top(i)).Some?
    ensures var deadline := AttemptDeadline(lane, w.started, Deadline(lane, req), i, w.top(i)).value;
      var (left, tried) := AttemptAt(cap, lane, req, w, files, i, deadline);
      ChatFrom(cap, lane, req, w, files, i, made) ==
        match tried
        case Err(error) => (left, if error.Exhausted? then CapExhausted else AccountingDown, [])
        case Ok(a) => AfterAttempt(cap, lane, req, w, left, i, made, a, deadline)
  {
    hide AttemptAt, AttemptDeadline;
  }

  lemma ChainEnds(cap: real, lane: Lane, req: ChatRequest, w: World<Reply>, files: DayFiles, made: nat)
    ensures ChatFrom(cap, lane, req, w, files, |lane.backends|, made) == (files, NoBackend, [])
  {
  }

  // ----- what every call keeps to ----------------------------------------------------

  /** An attempt is made at a usable backend, before its own deadline, which is
      never after the call's: the end of its share for the first usable backend that
      has another to go on to, and the call's own for the others; any but the first usable backend starts with at
      least two seconds left. */
  predicate Timely(lane: Lane, w: World<Reply>, deadline: real, a: Attempt) {
    && a.index < |lane.backends|
    && lane.backends[a.index].hasKey
    && a.begun == w.top(a.index) && a.begun < a.deadline
    && (lane.primaryShare <= 1.0 && deadline >= 0.0 ==> a.deadline <= w.started + deadline)
    && (FirstUsable(lane, a.index) && !LaterUsable(lane, a.index) ==> a.deadline == w.started + deadline)
    && (FirstUsable(lane, a.index) && LaterUsable(lane, a.index) ==>
          a.deadline == Least(w.started + deadline, w.started + deadline * lane.primaryShare))
    && (!FirstUsable(lane, a.index) ==>
          a.deadline == w.started + deadline && w.started + deadline - a.begun >= MIN_FALLBACK_SECONDS)
  }

  /** Money follows what happened: an attempt is settled exactly when a text came
      back, and free exactly when its request certainly never left. */
  predicate Fair(w: World<Reply>, a: Attempt) {
    var reply := w.reply(a.index, a.deadline);
    && (a.closing.AsSettled? <==> reply.Text? && reply.length > 0)
    && (a.closing.AsReleased? <==> reply == DispatchFailed(false))
  }

  /** A call's attempts are made in the order of the chain and within its
      deadline; all but the last failed and were recorded; and it answers exactly
      when the last one was settled, with that attempt's cost and their number. */
  predicate Shaped(lane: Lane, w: World<Reply>, deadline: real, i: nat, made: nat, end: ChatEnd, attempts: seq<Attempt>) {
    && (forall k :: 0 <= k < |attempts| ==> attempts[k].index >= i && Timely(lane, w, deadline, attempts[k]) && Fair(w, attempts[k]))
    && (forall j, k :: 0 <= j < k < |attempts| ==> attempts[j].index < attempts[k].index)
    && (forall k :: 0 <= k < |attempts| - 1 ==> !attempts[k].closing.AsSettled? && attempts[k].recorded)
    && (end.Answered? <==> attempts != [] && Last(attempts).closing.AsSettled? && Last(attempts).recorded)
    && (end.Answered? ==>
          end.index == Last(attempts).index && end.attempts == made + |attempts|
          && Last(attempts).closing == AsSettled(end.cost as real))
  }

  lemma ShapedPrefix(lane: Lane, w: World<Reply>, deadline: real, made: nat, a: Attempt, end: ChatEnd, rest: seq<Attempt>)
    requires Shaped(lane, w, deadline, a.index + 1, made + 1, end, rest)
    requires Timely(lane, w, deadline, a) && Fair(w, a) && !a.closing.AsSettled? && a.recorded
    ensures Shaped(lane, w, deadline, a.index, made, end, [a] + rest)
  {
    hide Timely, Fair;
    if rest != [] {
      assert Last([a] + rest) == Last(rest);
    }
  }

  lemma {:induction false} ChatShape(cap: real, lane: Lane, req: ChatRequest, w: World<Reply>, files: DayFiles, i: nat, made: nat)
    requires i <= |lane.backends|
    ensures var (_, end, attempts) := ChatFrom(cap, lane, req, w, files, i, made);
      Shaped(lane, w, Deadline(lane, req), i, made, end, attempts)
    decreases |lane.backends| - i
  {
    hide ReserveOn, CloseOn, CostOf, ReservedFor, ReservationDay, Deadline, ChatFrom, AttemptDeadline, Timely;
    if i == |lane.backends| {
      ChainEnds(cap, lane, req, w, files, made);
    } else if AttemptDeadline(lane, w.started, Deadline(lane, req), i, w.top(i)).None? {
      PassedOver(cap, lane, req, w, files, i, made);
      ChatShape(cap, lane, req, w, files, i + 1, made);
    } else {
      TriedNext(cap, lane, req, w, files, i, made);
      var deadline := AttemptDeadline(lane, w.started, Deadline(lane, req), i, w.top(i)).value;
      var (left, tried) := AttemptAt(cap, lane, req, w, files, i, deadline);
      if tried.Ok? {
        DeadlineTimely(lane, w, Deadline(lane, req), i, tried.value);
        if !tried.value.closing.AsSettled? && tried.value.recorded {
          ChatShape(cap, lane, req, w, left, i + 1, made + 1);
          var (_, end, rest) := ChatFrom(cap, lane, req, w, left, i + 1, made + 1);
          hide Shaped;
          ShapedPrefix(lane, w, Deadline(lane, req), made, tried.value, end, rest);
        }
      }
    }
  }

  lemma DeadlineTimely(lane: Lane, w: World<Reply>, deadline: real, i: nat, a: Attempt)
    requires i < |lane.backends| && AttemptDeadline(lane, w.started, deadline, i, w.top(i)) == Some(a.deadline)
    requires a.index == i && a.begun == w.top(i)
    ensures Timely(lane, w, deadline, a)
  {
  }

  // ----- the deadline is split so that a fallback gets its turn -----------------------

  lemma {:induction false} SkipTo(cap: real, lane: Lane, req: ChatRequest, w: World<Reply>, files: DayFiles, i: nat, p: nat, made: nat)
    requires i <= p <= |lane.backends| && forall j :: i <= j < p ==> !lane.backends[j].hasKey
    ensures ChatFrom(cap, lane, req, w, files, i, made) == ChatFrom(cap, lane, req, w, files, p, made)
    decreases p - i
  {
    hide ChatFrom;
    if i < p {
      PassedOver(cap, lane, req, w, files, i, made);
      SkipTo(cap, lane, req, w, files, i + 1, p, made);
    }
  }

  /** When the share of the deadline kept back from the first backend is at least
      two seconds, a first attempt that fails by its own deadline is followed by an
      attempt at the next usable backend, unless its reservation is refused. */
  lemma FallbackGetsItsTurn(cap: real, lane: Lane, req: ChatRequest, w: World<Reply>, files: DayFiles, p: nat, q: nat)
    requires p < q < |lane.backends| && FirstUsable(lane, p) && lane.backends[q].hasKey
    requires forall j :: p < j < q ==> !lane.backends[j].hasKey
    requires Deadline(lane, req) * (1.0 - lane.primaryShare) >= MIN_FALLBACK_SECONDS
    requires w.top(q) <= w.started + PrimaryPart(lane, Deadline(lane, req))
    ensures var (_, end, attempts) := ChatFrom(cap, lane, req, w, files, 0, 0);
      attempts != [] && attempts[0].index == p && !attempts[0].closing.AsSettled? && attempts[0].recorded ==>
        if |attempts| == 1 then end.CapExhausted? || end.AccountingDown? else attempts[1].index == q
  {
    hide ChatFrom, AttemptDeadline, Deadline, ReserveOn, CloseOn, CostOf, ReservedFor, ReservationDay;
    SkipTo(cap, lane, req, w, files, 0, p, 0);
    if AttemptDeadline(lane, w.started, Deadline(lane, req), p, w.top(p)).Some? {
      TriedNext(cap, lane, req, w, files, p, 0);
      var own := AttemptDeadline(lane, w.started, Deadline(lane, req), p, w.top(p)).value;
      var (left, _) := AttemptAt(cap, lane, req, w, files, p, own);
      SkipTo(cap, lane, req, w, left, p + 1, q, 1);
      KeptBack(lane, w.started, Deadline(lane, req), q, w.top(q));
      TriedNext(cap, lane, req, w, left, q, 1);
    } else {
      PassedOver(cap, lane, req, w, files, p, 0);
      ChatShape(cap, lane, req, w, files, p + 1, 0);
    }
  }

  lemma KeptBack(lane: Lane, started: real, deadline: real, q: nat, now: real)
    requires q < |lane.backends| && lane.backends[q].hasKey && !FirstUsable(lane, q)
    requires deadline * (1.0 - lane.primaryShare) >= MIN_FALLBACK_SECONDS && now <= started + PrimaryPart(lane, deadline)
    ensures AttemptDeadline(lane, started, deadline, q, now).Some?
  {
    assert deadline * (1.0 - lane.primaryShare) == deadline - deadline * lane.primaryShare;
  }

  // ----- what a call costs --------------------------------------------------------------

  /** The environment of a call whose accounting works: every write succeeds,
      days are dates, the spend store's clock is the call's, and every request
      ends by the call's deadline. */
  ghost predicate Accountable(lane: Lane, req: ChatRequest, w: World<Reply>) {
    forall i :: 0 <= i < |lane.backends| ==>
      w.reserveIo(i).written && w.closeIo(i).written && IsDate(w.day(i))
      && w.started <= w.stamp(i) <= w.closeAt(i) <= w.started + Deadline(lane, req)
  }

  lemma WorksWithin(lane: Lane, req: ChatRequest, w: World<Reply>, i: nat)
    requires ValidLane(lane) && Accountable(lane, req, w) && i < |lane.backends|
    ensures WorksAt(w, i)
  {
    hide Deadline, IsDate;
    DeadlineCeiling(lane, req);
    assert w.reserveIo(i).written;
  }

  lemma DeadlineCeiling(lane: Lane, req: ChatRequest)
    requires ValidLane(lane)
    ensures 0.0 < Deadline(lane, req) <= 120.0
  {
  }

  lemma ReservedPositive(lane: Lane, req: ChatRequest, b: Backend)
    ensures ReservedFor(lane, req, b) >= 1.0
  {
    hide Exact;
  }

  /** When accounting works, a call closes each of its reservations once, on that
      reservation's own day, leaves none of them open, and each day's money grows
      by exactly the settled cost and the reserved amounts of the attempts whose
      outcome is unknown: nothing is lost to expiry. */
  lemma {:induction false} ChatConserves(cap: real, lane: Lane, req: ChatRequest, w: World<Reply>, files: DayFiles, i: nat, made: nat)
    requires i <= |lane.backends| && ValidLane(lane) && Accountable(lane, req, w) && AllReadable(files)
    ensures var (left, end, attempts) := ChatFrom(cap, lane, req, w, files, i, made);
      && Conserved(files, left, attempts)
      && (forall a :: a in attempts ==> a.recorded)
      && !end.SettlementFailed?
    decreases |lane.backends| - i
  {
    hide ReserveOn, CloseOn, CostOf, ReservedFor, ReservationDay, Deadline, ChatFrom, AttemptDeadline, Conserved,
         AllReadable, Accountable, ValidLane, Accounted, ChargesOn, WorksAt, ClosingFor;
    ConservedNothing(files);
    if i == |lane.backends| {
      ChainEnds(cap, lane, req, w, files, made);
    } else if AttemptDeadline(lane, w.started, Deadline(lane, req), i, w.top(i)).None? {
      PassedOver(cap, lane, req, w, files, i, made);
      ChatConserves(cap, lane, req, w, files, i + 1, made);
    } else {
      TriedNext(cap, lane, req, w, files, i, made);
      var deadline := AttemptDeadline(lane, w.started, Deadline(lane, req), i, w.top(i)).value;
      var b := lane.backends[i];
      WorksWithin(lane, req, w, i);
      ReservedPositive(lane, req, b);
      AttemptConserves(cap, w, files, i, ReservedFor(lane, req, b), deadline, ClosingFor(req, b, w.reply(i, deadline)));
      var (left, tried) := AttemptAt(cap, lane, req, w, files, i, deadline);
      ConservedReadable(files, left, if tried.Ok? then [tried.value] else []);
      if tried.Ok? && !tried.value.closing.AsSettled? {
        ChatConserves(cap, lane, req, w, left, i + 1, made + 1);
        var (after, _, rest) := ChatFrom(cap, lane, req, w, left, i + 1, made + 1);
        ConservedTwice(files, left, after, tried.value, rest);
      }
    }
  }

  // ----- what a call may do to the cap ----------------------------------------------------

  /** Every text a provider may reply with is within the estimated input and the
      requested output tokens. */
  ghost predicate RepliesWithin(lane: Lane, req: ChatRequest, w: World<Reply>) {
    forall i, deadline :: 0 <= i < |lane.backends| && w.reply(i, deadline).Text? ==>
      InputCharged(w.reply(i, deadline), EstimatedInput(req.inputChars)) <= EstimatedInput(req.inputChars)
      && OutputCharged(w.reply(i, deadline)) <= RequestTokens(lane.backends[i], OutputTokens(lane, req))
  }

  /** Then what a call settles is the price of tokens within those it reserved for. */
  lemma ClosingWithinTokens(lane: Lane, req: ChatRequest, w: World<Reply>, i: nat, deadline: real)
    requires i < |lane.backends| && ValidLane(lane) && RepliesWithin(lane, req, w)
    ensures var b := lane.backends[i];
      var closing := ClosingFor(req, b, w.reply(i, deadline));
      closing.AsSettled? ==> WithinTokens(closing.actual, ReservedFor(lane, req, b))
  {
    hide ActualCost, AtLeastOne, Exact, OutputTokens, InputCharged, OutputCharged, EstimatedInput, RequestTokens;
    var b, reply := lane.backends[i], w.reply(i, deadline);
    if reply.Text? && reply.length > 0 {
      assert PricedBy(CostOf(req, b, reply) as real, ReservedFor(lane, req, b),
                      InputCharged(reply, EstimatedInput(req.inputChars)), OutputCharged(reply),
                      EstimatedInput(req.inputChars), RequestTokens(b, OutputTokens(lane, req)), b.inputRate, b.outputRate);
    }
  }

  /** However its writes and clocks behave, a call keeps every day within the cap and
      what it settles there above its reservations. */
  lemma {:induction false} ChatCappedPlusExcess(cap: real, lane: Lane, req: ChatRequest, w: World<Reply>, files: DayFiles,
                                                i: nat, made: nat, day: Day, excess: real)
    requires i <= |lane.backends| && cap >= 0.0 && excess >= 0.0
    requires forall j :: 0 <= j < |lane.backends| ==> IsDate(w.day(j))
    requires Bounded(cap, FileAt(files, day), excess)
    ensures var (left, _, attempts) := ChatFrom(cap, lane, req, w, files, i, made);
      Bounded(cap, FileAt(left, day), excess + ExcessOn(attempts, day))
    decreases |lane.backends| - i
  {
    hide ReserveOn, CloseOn, CostOf, ReservedFor, ReservationDay, Deadline, ChatFrom, AttemptDeadline, Bounded,
         Accounted, IsDate, ClosingFor, ExcessOn;
    NoExcess(day);
    if i == |lane.backends| {
      ChainEnds(cap, lane, req, w, files, made);
    } else if AttemptDeadline(lane, w.started, Deadline(lane, req), i, w.top(i)).None? {
      PassedOver(cap, lane, req, w, files, i, made);
      ChatCappedPlusExcess(cap, lane, req, w, files, i + 1, made, day, excess);
    } else {
      TriedNext(cap, lane, req, w, files, i, made);
      var deadline := AttemptDeadline(lane, w.started, Deadline(lane, req), i, w.top(i)).value;
      var b := lane.backends[i];
      ReservedPositive(lane, req, b);
      AttemptBounded(cap, w, files, i, ReservedFor(lane, req, b), deadline, ClosingFor(req, b, w.reply(i, deadline)), day, excess);
      var (left, tried) := AttemptAt(cap, lane, req, w, files, i, deadline);
      if tried.Ok? && !tried.value.closing.AsSettled? && tried.value.recorded {
        ChatCappedPlusExcess(cap, lane, req, w, left, i + 1, made + 1, day, excess + ExcessOn([tried.value], day));
        MoreExcess(tried.value, ChatFrom(cap, lane, req, w, left, i + 1, made + 1).2, day);
      }
    }
  }

  /** An attempt reserves what the estimate says and closes as its reply calls for. */
  predicate Priced(lane: Lane, req: ChatRequest, w: World<Reply>, a: Attempt) {
    && a.index < |lane.backends|
    && a.reserved == ReservedFor(lane, req, lane.backends[a.index])
    && a.closing == ClosingFor(req, lane.backends[a.index], w.reply(a.index, a.deadline))
  }

  lemma {:induction false} ChatPriced(cap: real, lane: Lane, req: ChatRequest, w: World<Reply>, files: DayFiles, i: nat, made: nat)
    requires i <= |lane.backends|
    ensures forall a :: a in ChatFrom(cap, lane, req, w, files, i, made).2 ==> Priced(lane, req, w, a)
    decreases |lane.backends| - i
  {
    hide ReserveOn, CloseOn, CostOf, ReservedFor, ReservationDay, Deadline, ChatFrom, AttemptDeadline, ClosingFor, Accounted;
    if i == |lane.backends| {
      ChainEnds(cap, lane, req, w, files, made);
    } else if AttemptDeadline(lane, w.started, Deadline(lane, req), i, w.top(i)).None? {
      PassedOver(cap, lane, req, w, files, i, made);
      ChatPriced(cap, lane, req, w, files, i + 1, made);
    } else {
      TriedNext(cap, lane, req, w, files, i, made);
      var deadline := AttemptDeadline(lane, w.started, Deadline(lane, req), i, w.top(i)).value;
      var (left, tried) := AttemptAt(cap, lane, req, w, files, i, deadline);
      if tried.Ok? {
        assert Priced(lane, req, w, tried.value);
        ChatPriced(cap, lane, req, w, left, i + 1, made + 1);
      }
    }
  }

  /** So a call whose replies stay within their estimates keeps every day within the
      cap and one micro-USD for each reply it settles there. */
  lemma ChatKeepsBound(cap: real, lane: Lane, req: ChatRequest, w: World<Reply>, files: DayFiles, i: nat, made: nat,
                       day: Day, excess: real)
    requires i <= |lane.backends| && ValidLane(lane) && RepliesWithin(lane, req, w) && cap >= 0.0 && excess >= 0.0
    requires forall j :: 0 <= j < |lane.backends| ==> IsDate(w.day(j))
    requires Bounded(cap, FileAt(files, day), excess)
    ensures var (left, _, attempts) := ChatFrom(cap, lane, req, w, files, i, made);
      Bounded(cap, FileAt(left, day), excess + SettledOn(attempts, day) as real)
  {
    hide ChatFrom, Bounded, IsDate, ValidLane, RepliesWithin, ReservedFor, ClosingFor, ExcessOn, WithinTokens;
    ChatCappedPlusExcess(cap, lane, req, w, files, i, made, day, excess);
    ChatPriced(cap, lane, req, w, files, i, made);
    var (left, _, attempts) := ChatFrom(cap, lane, req, w, files, i, made);
    forall a | a in attempts
      ensures ExcessOfAttempt(a) < 1.0
    {
      ClosingWithinTokens(lane, req, w, a.index, a.deadline);
      ReservedPositive(lane, req, lane.backends[a.index]);
      if a.closing.AsSettled? {
        WithinTokensMicro(a.closing.actual, a.reserved);
      }
    }
    ExcessWithinMicro(attempts, day);
    MoreBounded(cap, FileAt(left, day), excess + ExcessOn(attempts, day), excess + SettledOn(attempts, day) as real);
  }

  // ----- a call among others ---------------------------------------------------------------

  /** A whole call is a sequence of turns of the interleaving: from any store they
      leave the files that the call leaves, and finish the reservations of its
      attempts as it closes them. */
  lemma {:induction false} ChatIsTurns(cap: real, lane: Lane, req: ChatRequest, w: World<Reply>, y: AppRuns.Store, i: nat, made: nat)
    returns (turns: seq<AppRuns.Turn>)
    requires i <= |lane.backends| && forall k :: IsDate(w.day(k))
    ensures var (left, _, attempts) := ChatFrom(cap, lane, req, w, y.files, i, made);
      AppRuns.Leaves(cap, y, turns, left, attempts)
    decreases |lane.backends| - i
  {
    hide AppRuns.Leaves, ChatFrom, AttemptDeadline, Deadline, ReservedFor, ClosingFor, Accounted, CostOf, AppRuns.AttemptTurns, IsDate;
    if i == |lane.backends| {
      ChainEnds(cap, lane, req, w, y.files, made);
      AppRuns.LeavesNothing(cap, y);
      turns := [];
    } else if AttemptDeadline(lane, w.started, Deadline(lane, req), i, w.top(i)).None? {
      PassedOver(cap, lane, req, w, y.files, i, made);
      turns := ChatIsTurns(cap, lane, req, w, y, i + 1, made);
    } else {
      TriedNext(cap, lane, req, w, y.files, i, made);
      var deadline := AttemptDeadline(lane, w.started, Deadline(lane, req), i, w.top(i)).value;
      var reserved := ReservedFor(lane, req, lane.backends[i]);
      var closing := ClosingFor(req, lane.backends[i], w.reply(i, deadline));
      AppRuns.AttemptIsTurns(cap, w, y, i, reserved, deadline, closing);
      var (left, tried) := AttemptAt(cap, lane, req, w, y.files, i, deadline);
      turns := AppRuns.AttemptTurns(w, i, reserved, closing, tried.Ok?);
      if tried.Ok? && !tried.value.closing.AsSettled? && tried.value.recorded {
        var next := AppRuns.StoreAfter(cap, y, turns, left, [tried.value]);
        var more := ChatIsTurns(cap, lane, req, w, next, i + 1, made + 1);
        var (last, _, rest) := ChatFrom(cap, lane, req, w, left, i + 1, made + 1);
        AppRuns.LeavesOn(cap, y, turns, left, tried.value, more, last, rest);
        turns := turns + more;
      }
    }
  }
}
