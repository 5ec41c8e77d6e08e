/** What the chat and the decision lane share: the prices of a reply, and one
    attempt as a reservation on the spend store and its closing. Money is in
    micro-USD, rates in micro-USD per token, times in seconds. */
module AppAttempts {
  import opened Basics
  import opened Days
  import opened AppSpendFiles
  import opened AppSpends

  /** What a call cannot foresee, by position in the chain: clocks, days, ids,
      replies and writes. */
  datatype World<R> = World(
    started: real,
    top: nat -> real,
    day: nat -> Day,
    closeDay: nat -> Day,
    unique: nat -> string,
    reserveAt: nat -> real,
    stamp: nat -> real,
    closeAt: nat -> real,
    reply: (nat, real) -> R,
    reserveIo: nat -> SpendIo,
    closeIo: nat -> SpendIo)

  /** One reservation that was granted, and how it was closed. */
  datatype Attempt = Attempt(
    index: nat, id: Id, day: Day, reserved: real, begun: real, deadline: real, closing: Closing, recorded: bool)

  // ----- prices ------------------------------------------------------------------

  function Ceil(x: real): (n: int)
    ensures x <= n as real < x + 1.0
  {
    -((0.0 - x).Floor)
  }

  function Exact(inputTokens: nat, outputTokens: nat, inputRate: real, outputRate: real): real {
    inputTokens as real * inputRate + outputTokens as real * outputRate
  }

  /** The settled cost of a reply: the exact price rounded up, and at least one. */
  function ActualCost(inputTokens: nat, outputTokens: nat, inputRate: real, outputRate: real): (cost: int)
    ensures cost >= 1 && Exact(inputTokens, outputTokens, inputRate, outputRate) <= cost as real
    ensures cost > 1 ==> cost as real < Exact(inputTokens, outputTokens, inputRate, outputRate) + 1.0
  {
    var rounded := Ceil(Exact(inputTokens, outputTokens, inputRate, outputRate));
    if rounded > 1 then rounded else 1
  }

  function EstimatedInput(chars: nat): nat {
    if (chars + 2) / 3 > 1 then (chars + 2) / 3 else 1
  }

  function AtLeastOne(amount: real): real {
    if amount > 1.0 then amount else 1.0
  }

  lemma ScaledMonotone(a: nat, b: nat, rate: real)
    requires a <= b && rate >= 0.0
    ensures a as real * rate <= b as real * rate
  {
    assert b as real * rate == a as real * rate + (b - a) as real * rate;
  }

  lemma ExactMonotone(inputTokens: nat, outputTokens: nat, moreInput: nat, moreOutput: nat, inputRate: real, outputRate: real)
    requires inputTokens <= moreInput && outputTokens <= moreOutput && inputRate >= 0.0 && outputRate >= 0.0
    ensures Exact(inputTokens, outputTokens, inputRate, outputRate) <= Exact(moreInput, moreOutput, inputRate, outputRate)
  {
    ScaledMonotone(inputTokens, moreInput, inputRate);
    ScaledMonotone(outputTokens, moreOutput, outputRate);
  }

  /** A reply within the estimated input and requested output costs less than one
      micro-USD more than was reserved for it. */
  lemma CostWithinMicro(inputTokens: nat, outputTokens: nat, estimatedInput: nat, requested: nat, inputRate: real, outputRate: real)
    requires inputTokens <= estimatedInput && outputTokens <= requested && inputRate >= 0.0 && outputRate >= 0.0
    ensures ActualCost(inputTokens, outputTokens, inputRate, outputRate) as real
          < AtLeastOne(Exact(estimatedInput, requested, inputRate, outputRate)) + 1.0
  {
    hide Exact;
    ExactMonotone(inputTokens, outputTokens, estimatedInput, requested, inputRate, outputRate);
  }

  /** A settlement is the price of a reply whose tokens stay within those that its
      reservation was priced for, at the same rates. */
  ghost predicate WithinTokens(actual: real, reserved: real) {
    exists input: nat, output: nat, estimated: nat, requested: nat, inputRate: real, outputRate: real ::
      PricedBy(actual, reserved, input, output, estimated, requested, inputRate, outputRate)
  }

  predicate PricedBy(actual: real, reserved: real, input: nat, output: nat, estimated: nat, requested: nat,
                     inputRate: real, outputRate: real) {
    && input <= estimated && output <= requested && inputRate >= 0.0 && outputRate >= 0.0
    && actual == ActualCost(input, output, inputRate, outputRate) as real
    && reserved == AtLeastOne(Exact(estimated, requested, inputRate, outputRate))
  }

  lemma WithinTokensMicro(actual: real, reserved: real)
    requires WithinTokens(actual, reserved)
    ensures 1.0 <= actual < reserved + 1.0
  {
    hide Exact, AtLeastOne;
    var input: nat, output: nat, estimated: nat, requested: nat, inputRate: real, outputRate: real :|
      PricedBy(actual, reserved, input, output, estimated, requested, inputRate, outputRate);
    CostWithinMicro(input, output, estimated, requested, inputRate, outputRate);
  }

  /** Every settlement of a run that finds its reservation unexpired is such a price. */
  ghost predicate Priced(cap: real, ops: seq<DayOp>) {
    ops == [] || (Priced(cap, Init(ops)) && PricedOp(cap, After(cap, Absent, Init(ops)), Last(ops)))
  }

  ghost predicate PricedOp(cap: real, f: DayFile, op: DayOp) {
    op.Close? && op.closing.AsSettled? && op.io.written && Begin(cap, f, op.io).1.Some? ==>
      var open := Expire(Begin(cap, f, op.io).1.value, op.now).reservations;
      op.id in open ==> WithinTokens(op.closing.actual, open[op.id].amount)
  }

  lemma PricedOpWithinMicro(cap: real, f: DayFile, op: DayOp)
    requires PricedOp(cap, f, op)
    ensures ExcessOf(cap, f, op) < 1.0
  {
    hide WithinTokens, IsValid;
    if op.Close? && op.closing.AsSettled? && op.io.written && Begin(cap, f, op.io).1.Some? {
      var open := Expire(Begin(cap, f, op.io).1.value, op.now).reservations;
      if op.id in open {
        WithinTokensMicro(op.closing.actual, open[op.id].amount);
      }
    }
  }

  lemma {:induction false} PricedWithinMicro(cap: real, ops: seq<DayOp>)
    requires Priced(cap, ops)
    ensures AllWithinMicro(cap, Absent, ops)
  {
    hide ExcessOf, PricedOp;
    if ops != [] {
      PricedWithinMicro(cap, Init(ops));
      PricedOpWithinMicro(cap, After(cap, Absent, Init(ops)), Last(ops));
      forall k | 0 <= k < |ops|
        ensures ExcessOf(cap, After(cap, Absent, ops[..k]), ops[k]) < 1.0
      {
        if k < |ops| - 1 {
          assert Init(ops)[..k] == ops[..k] && Init(ops)[k] == ops[k];
        } else {
          assert ops[..k] == Init(ops);
        }
      }
    }
  }

  /** Over any run of operations on a day's file, by any number of processes, with
      expiry, failing writes and damage: if every settled reply stays within the
      tokens that its reservation was priced for, the day's spent and reserved money
      stays within the cap and one micro-USD for each settlement. */
  lemma SpendWithinTokens(cap: real, ops: seq<DayOp>)
    requires cap >= 0.0 && Undoctored(ops) && Priced(cap, ops)
    ensures Bounded(cap, After(cap, Absent, ops), Settlements(ops) as real)
  {
    hide Bounded, After, Priced, AllWithinMicro, Undoctored;
    PricedWithinMicro(cap, ops);
    SpendBound(cap, ops);
  }

  // ----- one attempt -----------------------------------------------------------------

  ghost predicate SameFiles(a: DayFiles, b: DayFiles) {
    forall d :: FileAt(a, d) == FileAt(b, d)
  }

  /** A reservation on today's file, then its closing on the file its id names:
      the files after both, and the attempt if the reservation was granted. */
  ghost function Accounted<R>(cap: real, w: World<R>, files: DayFiles, i: nat, reserved: real, deadline: real, closing: Closing)
    : (r: (DayFiles, Result<Attempt, SpendError>))
    ensures r.1.Ok? ==> (r.1.value.index, r.1.value.day, r.1.value.begun) == (i, w.day(i), w.top(i))
    ensures r.1.Ok? ==> (r.1.value.reserved, r.1.value.deadline, r.1.value.closing) == (reserved, deadline, closing)
  {
    var day := w.day(i);
    var (f1, granted) := ReserveOn(cap, FileAt(files, day), reserved, MakeId(day, w.unique(i)), day, w.reserveAt(i),
                                   w.stamp(i), w.reserveIo(i));
    var files1 := files[day := f1];
    if granted.Err? then (files1, Err(granted.error))
    else
      var id := granted.value;
      var home := ReservationDay(id, w.closeDay(i));
      var (f2, closed) := CloseOn(cap, FileAt(files1, home), id, closing, w.closeAt(i), w.closeIo(i));
      (files1[home := f2], Ok(Attempt(i, id, day, reserved, w.top(i), deadline, closing, closed.Ok?)))
  }

  // ----- what attempts cost -------------------------------------------------------------

  ghost predicate AllReadable(files: DayFiles) {
    forall d :: Readable(FileAt(files, d))
  }

  /** What a call's attempts add to the money spent on a day. */
  function ChargesOn(attempts: seq<Attempt>, day: Day): real {
    if attempts == [] then 0.0
    else (if attempts[0].day == day then ChargeOf(attempts[0].closing, attempts[0].reserved) else 0.0) + ChargesOn(attempts[1..], day)
  }

  /** Nothing the call reserved is still open, and nothing else was opened. */
  ghost predicate NoneOpened(before: DayFiles, after: DayFiles) {
    forall d, id :: id in ItemsOf(FileAt(after, d)) ==>
      id in ItemsOf(FileAt(before, d)) && ItemsOf(FileAt(after, d))[id] == ItemsOf(FileAt(before, d))[id]
  }

  ghost predicate Conserved(before: DayFiles, after: DayFiles, attempts: seq<Attempt>) {
    && AllReadable(after)
    && NoneOpened(before, after)
    && (forall d :: SpentIn(FileAt(after, d)) == SpentIn(FileAt(before, d)) + ChargesOn(attempts, d))
  }

  /** Accounting works for an attempt: its writes succeed, its day is a date, and
      it is closed within the lifetime of its reservation. */
  predicate WorksAt<R>(w: World<R>, i: nat) {
    w.reserveIo(i).written && w.closeIo(i).written && IsDate(w.day(i)) && w.closeAt(i) - w.stamp(i) <= LIFETIME
  }

  /** Reserving and closing one attempt: the day's money grows by its charge. */
  lemma AttemptConserves<R>(cap: real, w: World<R>, files: DayFiles, i: nat, reserved: real, deadline: real, closing: Closing)
    requires WorksAt(w, i) && AllReadable(files) && reserved >= 1.0
    ensures var (left, tried) := Accounted(cap, w, files, i, reserved, deadline, closing);
      && Conserved(files, left, if tried.Ok? then [tried.value] else [])
      && (tried.Ok? ==> tried.value.recorded)
  {
    hide IsDate, DayShaped, ReservationDay, Total, IsValid, ReserveOn, CloseOn, Readable, ChargesOn, Conserved;
    var day := w.day(i);
    var id := MakeId(day, w.unique(i));
    IdKeepsItsDay(day, w.unique(i), w.closeDay(i));
    DateShaped(day);
    DayConserves(cap, FileAt(files, day), reserved, id, day, w.reserveAt(i), w.stamp(i), w.reserveIo(i), closing,
                 w.closeAt(i), w.closeIo(i));
    var (left, tried) := Accounted(cap, w, files, i, reserved, deadline, closing);
    if tried.Ok? {
      assert left == files[day := FileAt(left, day)];
      OneCharge(tried.value);
      OneDayConserved(files, FileAt(left, day), day, [tried.value], ChargeOf(closing, reserved));
    } else {
      NoCharges();
      OneDayConserved(files, FileAt(left, day), day, [], 0.0);
    }
  }

  lemma OneDayConserved(files: DayFiles, f: DayFile, day: Day, attempts: seq<Attempt>, charge: real)
    requires AllReadable(files) && Readable(f) && SpentIn(f) == SpentIn(FileAt(files, day)) + charge
    requires forall id :: id in ItemsOf(f) ==>
      id in ItemsOf(FileAt(files, day)) && ItemsOf(f)[id] == ItemsOf(FileAt(files, day))[id]
    requires forall d :: ChargesOn(attempts, d) == if d == day then charge else 0.0
    ensures Conserved(files, files[day := f], attempts)
  {
    hide ChargesOn, Readable;
    var after := files[day := f];
    assert forall d :: FileAt(after, d) == if d == day then f else FileAt(files, d);
    assert AllReadable(after);
    assert NoneOpened(files, after);
    forall d
      ensures SpentIn(FileAt(after, d)) == SpentIn(FileAt(files, d)) + ChargesOn(attempts, d)
    {
    }
  }

  lemma OneCharge(a: Attempt)
    ensures forall d :: ChargesOn([a], d) == if d == a.day then ChargeOf(a.closing, a.reserved) else 0.0
  {
    assert [a][1..] == [];
    forall d
      ensures ChargesOn([a], d) == if d == a.day then ChargeOf(a.closing, a.reserved) else 0.0
    {
      assert ChargesOn([a][1..], d) == 0.0;
    }
  }

  lemma NoCharges()
    ensures forall d :: ChargesOn([], d) == 0.0
  {
  }

  lemma DateShaped(day: Day)
    requires IsDate(day)
    ensures DayShaped(day)
  {
  }

  lemma DayConserves(cap: real, f: DayFile, reserved: real, id: Id, day: Day, now: real, stamp: real, io: SpendIo,
                     closing: Closing, closeAt: real, closeIo: SpendIo)
    requires Readable(f) && reserved >= 1.0 && io.written && closeIo.written && DayShaped(day)
    requires closeAt - stamp <= LIFETIME
    ensures var (f1, granted) := ReserveOn(cap, f, reserved, id, day, now, stamp, io);
      var (f2, closed) := CloseOn(cap, f1, id, closing, closeAt, closeIo);
      && Readable(f1) && Readable(f2) && closed.Ok?
      && (granted.Ok? ==> granted.value == id && SpentIn(f2) == SpentIn(f) + ChargeOf(closing, reserved))
      && (granted.Err? ==> SpentIn(f1) == SpentIn(f))
      && (forall q :: q in ItemsOf(f2) && granted.Ok? ==> q in ItemsOf(f) && ItemsOf(f2)[q] == ItemsOf(f)[q])
      && (forall q :: q in ItemsOf(f1) && granted.Err? ==> q in ItemsOf(f) && ItemsOf(f1)[q] == ItemsOf(f)[q])
  {
    hide Total, DayShaped;
  }

  lemma ConservedTwice(before: DayFiles, middle: DayFiles, after: DayFiles, a: Attempt, rest: seq<Attempt>)
    requires Conserved(before, middle, [a]) && Conserved(middle, after, rest)
    ensures Conserved(before, after, [a] + rest)
  {
    hide Readable;
    OneCharge(a);
    assert ([a] + rest)[1..] == rest;
    forall d
      ensures SpentIn(FileAt(after, d)) == SpentIn(FileAt(before, d)) + ChargesOn([a] + rest, d)
    {
      assert ChargesOn([a], d) + ChargesOn(rest, d) == ChargesOn([a] + rest, d);
    }
  }

  lemma ConservedNothing(files: DayFiles)
    requires AllReadable(files)
    ensures Conserved(files, files, [])
  {
  }

  lemma ConservedReadable(before: DayFiles, after: DayFiles, attempts: seq<Attempt>)
    requires Conserved(before, after, attempts)
    ensures AllReadable(after)
  {
  }

  // ----- what attempts may do to the cap -------------------------------------------------

  function SettledOn(attempts: seq<Attempt>, day: Day): nat {
    if attempts == [] then 0
    else (if attempts[0].day == day && attempts[0].closing.AsSettled? then 1 else 0) + SettledOn(attempts[1..], day)
  }

  function ExcessOfAttempt(a: Attempt): (excess: real)
    ensures excess >= 0.0
  {
    if a.closing.AsSettled? then ExcessOver(a.closing.actual, a.reserved) else 0.0
  }

  /** What a call's attempts settle on a day above their reservations. */
  function ExcessOn(attempts: seq<Attempt>, day: Day): (excess: real)
    ensures excess >= 0.0
  {
    if attempts == [] then 0.0
    else (if attempts[0].day == day then ExcessOfAttempt(attempts[0]) else 0.0) + ExcessOn(attempts[1..], day)
  }

  lemma NoExcess(day: Day)
    ensures ExcessOn([], day) == 0.0
  {
  }

  lemma OneExcess(a: Attempt, day: Day)
    ensures ExcessOn([a], day) == if a.day == day then ExcessOfAttempt(a) else 0.0
  {
    assert [a][1..] == [];
  }

  lemma MoreExcess(a: Attempt, rest: seq<Attempt>, day: Day)
    ensures ExcessOn([a] + rest, day) == ExcessOn([a], day) + ExcessOn(rest, day)
  {
    OneExcess(a, day);
    assert ([a] + rest)[1..] == rest;
  }

  /** Settlements less than one micro-USD above their reservations add up to at most
      one micro-USD each. */
  lemma {:induction false} ExcessWithinMicro(attempts: seq<Attempt>, day: Day)
    requires forall a :: a in attempts ==> ExcessOfAttempt(a) < 1.0
    ensures ExcessOn(attempts, day) <= SettledOn(attempts, day) as real
  {
    if attempts != [] {
      assert attempts[0] in attempts;
      ExcessWithinMicro(attempts[1..], day);
    }
  }

  /** The two operations of one attempt keep the bound of the day's file. */
  lemma DayBounded(cap: real, f: DayFile, reserved: real, id: Id, day: Day, now: real, stamp: real, io: SpendIo,
                   closing: Closing, closeAt: real, closeIo: SpendIo, excess: real)
    requires cap >= 0.0 && reserved >= 1.0 && excess >= 0.0 && Bounded(cap, f, excess)
    ensures var (f1, granted) := ReserveOn(cap, f, reserved, id, day, now, stamp, io);
      var f2 := CloseOn(cap, f1, id, closing, closeAt, closeIo).0;
      && Bounded(cap, f1, excess)
      && (granted.Ok? ==> Bounded(cap, f2, excess + if closing.AsSettled? then ExcessOver(closing.actual, reserved) else 0.0))
  {
    hide Bounded, ExcessOver;
    ApplyBounded(cap, f, Reserve(reserved, id, day, now, stamp, io), excess);
    var (f1, granted) := ReserveOn(cap, f, reserved, id, day, now, stamp, io);
    if granted.Ok? {
      var close := Close(id, closing, closeAt, closeIo);
      ApplyBounded(cap, f1, close, excess);
      GrantedExcess(cap, f, reserved, id, day, now, stamp, io, close);
      MoreBounded(cap, CloseOn(cap, f1, id, closing, closeAt, closeIo).0, excess + ExcessOf(cap, f1, close),
                  excess + if closing.AsSettled? then ExcessOver(closing.actual, reserved) else 0.0);
    }
  }

  lemma MoreBounded(cap: real, f: DayFile, excess: real, more: real)
    requires Bounded(cap, f, excess) && excess <= more
    ensures Bounded(cap, f, more)
  {
  }

  lemma GrantedExcess(cap: real, f: DayFile, reserved: real, id: Id, day: Day, now: real, stamp: real, io: SpendIo, close: DayOp)
    requires reserved >= 1.0 && ReserveOn(cap, f, reserved, id, day, now, stamp, io).1.Ok?
    requires close.Close? && close.id == id
    ensures ExcessOf(cap, ReserveOn(cap, f, reserved, id, day, now, stamp, io).0, close)
         <= if close.closing.AsSettled? then ExcessOver(close.closing.actual, reserved) else 0.0
  {
    hide Total, IsValid;
  }

  /** One attempt keeps every day within its bound, plus what it settles above its
      reservation, however its writes and clocks behave. */
  lemma AttemptBounded<R>(cap: real, w: World<R>, files: DayFiles, i: nat, reserved: real, deadline: real, closing: Closing,
                          day: Day, excess: real)
    requires IsDate(w.day(i)) && cap >= 0.0 && reserved >= 1.0 && excess >= 0.0
    requires Bounded(cap, FileAt(files, day), excess)
    ensures var (left, tried) := Accounted(cap, w, files, i, reserved, deadline, closing);
      Bounded(cap, FileAt(left, day), excess + if tried.Ok? then ExcessOn([tried.value], day) else 0.0)
  {
    hide IsDate, DayShaped, ReservationDay, Total, ReserveOn, CloseOn, Bounded, ExcessOver;
    var own := w.day(i);
    IdKeepsItsDay(own, w.unique(i), w.closeDay(i));
    if day == own {
      DayBounded(cap, FileAt(files, day), reserved, MakeId(day, w.unique(i)), day, w.reserveAt(i), w.stamp(i),
                 w.reserveIo(i), closing, w.closeAt(i), w.closeIo(i), excess);
    }
    var (left, tried) := Accounted(cap, w, files, i, reserved, deadline, closing);
    if tried.Ok? {
      OneExcess(tried.value, day);
    }
  }

  /** Exactly when the cap holds across one attempt: on every day file within its cap
      that grants the reservation, settling it leaves the file within its cap, if
      and only if the settlement is no more than was reserved. */
  lemma CapHeldExactly(cap: real, reserved: real, actual: real, id: Id, day: Day, now: real, stamp: real, closeAt: real)
    requires 1.0 <= reserved <= cap && DayShaped(day) && closeAt - stamp <= LIFETIME
    ensures (forall f :: Bounded(cap, f, 0.0) && ReserveOn(cap, f, reserved, id, day, now, stamp, WRITTEN).1.Ok? ==>
               HeldAfter(cap, f, reserved, actual, id, day, now, stamp, closeAt)) <==>
      actual <= reserved
  {
    hide Bounded, ReserveOn, CloseOn, HeldAfter;
    if actual <= reserved {
      forall f | Bounded(cap, f, 0.0) && ReserveOn(cap, f, reserved, id, day, now, stamp, WRITTEN).1.Ok?
        ensures HeldAfter(cap, f, reserved, actual, id, day, now, stamp, closeAt)
      {
        WithinHolds(cap, f, reserved, actual, id, day, now, stamp, closeAt);
      }
    } else {
      AboveOverruns(cap, reserved, actual, id, day, now, stamp, closeAt);
    }
  }

  /** The day file is within its cap after the reservation is made and settled. */
  ghost predicate HeldAfter(cap: real, f: DayFile, reserved: real, actual: real, id: Id, day: Day, now: real, stamp: real,
                            closeAt: real) {
    var held := ReserveOn(cap, f, reserved, id, day, now, stamp, WRITTEN).0;
    Bounded(cap, CloseOn(cap, held, id, AsSettled(actual), closeAt, WRITTEN).0, 0.0)
  }

  lemma WithinHolds(cap: real, f: DayFile, reserved: real, actual: real, id: Id, day: Day, now: real, stamp: real, closeAt: real)
    requires 1.0 <= reserved <= cap && actual <= reserved && Bounded(cap, f, 0.0)
    requires ReserveOn(cap, f, reserved, id, day, now, stamp, WRITTEN).1.Ok?
    ensures HeldAfter(cap, f, reserved, actual, id, day, now, stamp, closeAt)
  {
    hide Bounded, ReserveOn, CloseOn;
    DayBounded(cap, f, reserved, id, day, now, stamp, WRITTEN, AsSettled(actual), closeAt, WRITTEN, 0.0);
  }

  /** A day with just enough left for a reservation, before it is made. */
  function JustEnough(cap: real, reserved: real): DayFile {
    Stored(SpendState(cap - reserved, map[], []))
  }

  /** On such a day the reservation is granted, and settling it makes the money
      spent what was spent before and the whole settlement. */
  lemma SettledOnJustEnough(cap: real, reserved: real, actual: real, id: Id, day: Day, now: real, stamp: real, closeAt: real)
    requires 1.0 <= reserved <= cap && DayShaped(day) && closeAt - stamp <= LIFETIME
    ensures var (held, granted) := ReserveOn(cap, JustEnough(cap, reserved), reserved, id, day, now, stamp, WRITTEN);
      var (left, closed) := CloseOn(cap, held, id, AsSettled(actual), closeAt, WRITTEN);
      && Bounded(cap, JustEnough(cap, reserved), 0.0)
      && granted == Ok(id) && closed.Ok?
      && left == Stored(SpendState(cap - reserved + Positive(actual), map[], []))
  {
    assert Total(map[]) == 0.0;
    var item := Item(reserved, stamp, Some(day));
    var s := SpendState(cap - reserved, map[], []);
    assert Expire(s, now) == s;
    var held := s.(reservations := map[id := item]);
    assert ReserveOn(cap, Stored(s), reserved, id, day, now, stamp, WRITTEN).0 == Stored(held);
    assert Expire(held, closeAt) == held;
    assert held.reservations - {id} == map[];
  }

  lemma AboveOverruns(cap: real, reserved: real, actual: real, id: Id, day: Day, now: real, stamp: real, closeAt: real)
    requires 1.0 <= reserved <= cap && DayShaped(day) && closeAt - stamp <= LIFETIME && actual > reserved
    ensures var f := JustEnough(cap, reserved);
      && Bounded(cap, f, 0.0) && ReserveOn(cap, f, reserved, id, day, now, stamp, WRITTEN).1.Ok?
      && !HeldAfter(cap, f, reserved, actual, id, day, now, stamp, closeAt)
  {
    hide ReserveOn, CloseOn;
    SettledOnJustEnough(cap, reserved, actual, id, day, now, stamp, closeAt);
    assert Total(map[]) == 0.0;
  }
}
