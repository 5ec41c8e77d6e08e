/** What the operations on a day's file answer, and what they leave in it, said of
    what the file held before: ten minutes is the lifetime of a reservation. */
module AppSpendAnswers {
  import opened Basics
  import opened Days
  import opened AppSpendFiles
  import opened AppSpends
  import opened AppAttempts
  import opened AppRuns

  /** The reservations of a file that are no more than ten minutes old. */
  function OpenAt(f: DayFile, now: real): Items {
    map id | id in ItemsOf(f) && now - ItemsOf(f)[id].stamp <= 600.0 :: ItemsOf(f)[id]
  }

  function AtLeastNothing(amount: real): real {
    if amount > 0.0 then amount else 0.0
  }

  function AlertsIn(f: DayFile): seq<string> {
    if f.Stored? then f.state.alerts else []
  }

  /** The file afterwards, as far as money, reservations and alerts go. */
  ghost predicate Holds(f: DayFile, spent: real, items: Items, alerts: seq<string>) {
    f == Stored(SpendState(spent, items, alerts))
  }

  lemma BegunWith(cap: real, f: DayFile, now: real, io: SpendIo)
    requires Readable(f)
    ensures var (f1, begun) := Begin(cap, f, io);
      && f1 == f && begun.Some?
      && Expire(begun.value, now) == SpendState(SpentIn(f), OpenAt(f, now), AlertsIn(f))
  {
    hide DayShaped;
    assert Unexpired(ItemsOf(f), now) == OpenAt(f, now);
  }

  /** On a file that can be read, a reservation is granted if and only if what is spent,
      the reservations no more than ten minutes old and the estimate fit the cap, and is
      otherwise refused as exhausted. Either way the older reservations are gone, and
      nothing but the granted reservation is added. */
  lemma GrantedExactly(cap: real, f: DayFile, estimate: real, id: Id, day: Day, now: real, stamp: real, io: SpendIo)
    requires Readable(f) && io.written
    ensures var (f', r) := ReserveOn(cap, f, estimate, id, day, now, stamp, io);
      var fits := SpentIn(f) + Total(OpenAt(f, now)) + AtLeastNothing(estimate) <= cap;
      && r == (if fits then Ok(id) else Err(Exhausted))
      && Holds(f', SpentIn(f),
               if fits then OpenAt(f, now)[id := Item(AtLeastNothing(estimate), stamp, Some(day))] else OpenAt(f, now),
               AlertsIn(f))
  {
    hide Readable, Begin, Expire, Total, OpenAt;
    BegunWith(cap, f, now, io);
  }

  /** Closing a reservation that the file still holds, no more than ten minutes old,
      costs what is settled, its whole amount when the outcome is unknown, and nothing
      when it is released; closing one it no longer holds costs nothing. */
  lemma ClosedExactly(cap: real, f: DayFile, id: Id, closing: Closing, now: real, io: SpendIo)
    requires Readable(f) && io.written
    ensures var (f', r) := CloseOn(cap, f, id, closing, now, io);
      var open := OpenAt(f, now);
      && r == Ok(())
      && (id !in open ==> Holds(f', SpentIn(f), open, AlertsIn(f)))
      && (id in open ==>
            var cost := match closing
              case AsSettled(actual) => AtLeastNothing(actual)
              case AsUnknown => open[id].amount
              case AsReleased => 0.0;
            Holds(f', SpentIn(f) + cost, open - {id}, AlertsIn(f)))
  {
    hide Readable, Begin, Expire, OpenAt;
    BegunWith(cap, f, now, io);
  }

  /** What is spent is answered without a write when that is asked for, and otherwise
      after dropping what has expired. */
  lemma SpentExactly(cap: real, f: DayFile, readOnly: bool, now: real, io: SpendIo)
    requires Readable(f) && (readOnly || io.written)
    ensures var (f', r) := SpentOn(cap, f, readOnly, now, io);
      && r == Ok(SpentIn(f))
      && (readOnly ==> f' == f)
      && (!readOnly ==> Holds(f', SpentIn(f), OpenAt(f, now), AlertsIn(f)))
  {
    hide Begin, Expire, OpenAt;
    BegunWith(cap, f, now, io);
  }

  /** Raising an alert answers whether its name is new, and adds it if it is. */
  lemma RaisedExactly(cap: real, f: DayFile, name: string, now: real, io: SpendIo)
    requires Readable(f) && io.written
    ensures var (f', r) := AlertOn(cap, f, name, now, io);
      && r == Ok(name !in AlertsIn(f))
      && Holds(f', SpentIn(f), OpenAt(f, now), if name in AlertsIn(f) then AlertsIn(f) else AlertsIn(f) + [name])
  {
    hide Readable, Begin, Expire, OpenAt;
    BegunWith(cap, f, now, io);
  }

  /** An operation whose write fails is unavailable and leaves the file as it was. */
  lemma FailedWrites(cap: real, f: DayFile, estimate: real, id: Id, day: Day, closing: Closing, name: string, now: real,
                     stamp: real, io: SpendIo)
    requires Readable(f) && !io.written
    ensures ReserveOn(cap, f, estimate, id, day, now, stamp, io) == (f, Err(Unavailable))
    ensures CloseOn(cap, f, id, closing, now, io) == (f, Err(Unavailable))
    ensures AlertOn(cap, f, name, now, io) == (f, Err(Unavailable))
    ensures SpentOn(cap, f, false, now, io) == (f, Err(Unavailable))
  {
    hide Readable, Total, Expire;
  }

  /** What makes a stored day unreadable: negative money, or a reservation with a
      negative amount or a day that is not written as one. */
  predicate Damaged(s: SpendState) {
    || s.spent < 0.0
    || (exists id :: id in s.reservations && s.reservations[id].amount < 0.0)
    || (exists id :: id in s.reservations && s.reservations[id].day.Some? && !LooksLikeDay(s.reservations[id].day.value))
  }

  /** Four digits, two digits and two digits, joined by dashes. */
  predicate LooksLikeDay(s: string) {
    && |s| == 10 && s[4] == '-' && s[7] == '-'
    && forall i :: i in {0, 1, 2, 3, 5, 6, 8, 9} ==> s[i] in "0123456789"
  }

  lemma ShapedExactly(s: string)
    ensures DayShaped(s) <==> LooksLikeDay(s)
  {
    if |s| == 10 {
      forall c: char
        ensures Digit(c) <==> c in "0123456789"
      {
        DigitsExactly(c);
      }
    }
  }

  lemma DigitsExactly(c: char)
    ensures Digit(c) <==> c in "0123456789"
  {
    if Digit(c) {
      assert "0123456789"[c as int - '0' as int] == c;
    }
  }

  lemma ReadableExactly(f: DayFile)
    ensures !Readable(f) <==> f.Garbled? || (f.Stored? && Damaged(f.state))
  {
    if f.Stored? {
      forall id | id in f.state.reservations && f.state.reservations[id].day.Some?
        ensures DayShaped(f.state.reservations[id].day.value) <==> LooksLikeDay(f.state.reservations[id].day.value)
      {
        ShapedExactly(f.state.reservations[id].day.value);
      }
    }
    hide DayShaped, LooksLikeDay;
  }

  /** A day that cannot be read is closed by the first operation that replaces it: it
      counts as having spent its cap, holds nothing, and refuses whatever is asked. An
      operation that cannot replace it is unavailable. */
  lemma DamagedDayIsClosed(cap: real, f: DayFile, estimate: real, id: Id, day: Day, now: real, stamp: real, io: SpendIo)
    requires f.Garbled? || (f.Stored? && Damaged(f.state))
    ensures var (f', r) := ReserveOn(cap, f, estimate, id, day, now, stamp, io); var (g, spent) := SpentOn(cap, f, true, now, io);
      && (io.reset == ResetFine && io.written ==>
            && spent == Ok(cap) && Holds(g, cap, map[], [])
            && r == (if estimate > 0.0 then Err(Exhausted) else Ok(id))
            && (estimate > 0.0 ==> Holds(f', cap, map[], [])))
      && (io.reset == OnlyMovedAside ==> r == Err(Unavailable) && f' == Absent)
      && (io.reset == NothingMoved ==> r == Err(Unavailable) && f' == f)
      && (!io.written ==> r == Err(Unavailable))
  {
    ReadableExactly(f);
    assert Total(map[]) == 0.0;
    hide Readable, Damaged;
    assert Unexpired(map[], now) == map[];
  }

  // ----- which day's file -------------------------------------------------------------

  /** A reservation is looked for in the file of the day its id begins with, and in
      today's if it begins with no day. */
  lemma HomeExactly(id: Id, today: Day)
    ensures forall day, rest :: IsDate(day) && id == day + ":" + rest ==> ReservationDay(id, today) == day
    ensures (forall day, rest :: IsDate(day) ==> id != day + ":" + rest) ==> ReservationDay(id, today) == today
  {
    forall day, rest | IsDate(day) && id == day + ":" + rest
      ensures ReservationDay(id, today) == day
    {
      assert MakeId(day, rest) == id;
      IdKeepsItsDay(day, rest, today);
    }
    if forall day, rest :: IsDate(day) ==> id != day + ":" + rest {
      if BeforeColon(id).Some? {
        var rest := SplitAtColon(id);
        assert id == BeforeColon(id).value + ":" + rest;
      }
    }
  }

  lemma {:induction false} SplitAtColon(id: string) returns (rest: string)
    requires BeforeColon(id).Some?
    ensures id == BeforeColon(id).value + ":" + rest
  {
    if id[0] == ':' {
      rest := id[1..];
    } else {
      rest := SplitAtColon(id[1..]);
      assert id == [id[0]] + id[1..];
    }
  }

  function Value(c: char): int {
    c as int - '0' as int
  }

  /** The lengths of the months of a common year. */
  const MONTHS: seq<int> := [31, 28, 31, 30, 31, 30, 31, 31, 30, 31, 30, 31]

  /** A day of the calendar is a year from one, a month, and a day that the month has:
      February has one more in a year that four divides but not a hundred, or that four
      hundred divides. */
  predicate InCalendar(year: int, month: int, day: int) {
    && year >= 1 && 1 <= month <= 12 && 1 <= day
    && day <= MONTHS[month - 1] + if month == 2 && ((year % 4 == 0 && year % 100 != 0) || year % 400 == 0) then 1 else 0
  }

  /** What is read as a date is what looks like a day and names one of the calendar. */
  lemma DateExactly(s: string)
    ensures IsDate(s) <==>
      && LooksLikeDay(s)
      && InCalendar(1000 * Value(s[0]) + 100 * Value(s[1]) + 10 * Value(s[2]) + Value(s[3]),
                    10 * Value(s[5]) + Value(s[6]), 10 * Value(s[8]) + Value(s[9]))
  {
    ShapedExactly(s);
    if DayShaped(s) {
      DateNumbers(s);
      hide LooksLikeDay, DayShaped, Number, InCalendar, DaysIn, Digit, Value;
      CalendarExactly(Number(s[..4]), Number(s[5..7]), Number(s[8..]));
    }
  }

  lemma DateNumbers(s: string)
    requires DayShaped(s)
    ensures forall c :: c in s[..4] || c in s[5..7] || c in s[8..] ==> Digit(c)
    ensures Number(s[..4]) == 1000 * Value(s[0]) + 100 * Value(s[1]) + 10 * Value(s[2]) + Value(s[3])
    ensures Number(s[5..7]) == 10 * Value(s[5]) + Value(s[6])
    ensures Number(s[8..]) == 10 * Value(s[8]) + Value(s[9])
  {
    DigitsIn(s, 0, 4);
    DigitsIn(s, 5, 7);
    DigitsIn(s, 8, 10);
    hide DayShaped, Number, Digit, Value;
    assert s[0..4] == s[..4] && s[8..10] == s[8..];
    NumberOfFour(s[..4]);
    NumberOfTwo(s[5..7]);
    NumberOfTwo(s[8..]);
  }

  lemma DigitsIn(s: string, i: nat, j: nat)
    requires DayShaped(s) && i <= j <= 10 && (j <= 4 || i >= 5) && (j <= 7 || i >= 8)
    ensures forall c :: c in s[i..j] ==> Digit(c)
  {
    forall c | c in s[i..j]
      ensures Digit(c)
    {
      var k :| 0 <= k < j - i && s[i..j][k] == c;
      assert s[i + k] == c;
    }
  }

  lemma CalendarExactly(year: nat, month: nat, day: nat)
    ensures InCalendar(year, month, day) <==> year >= 1 && 1 <= month <= 12 && 1 <= day <= DaysIn(year, month)
  {
    assert MONTHS[1] == 28 && MONTHS[3] == MONTHS[5] == MONTHS[8] == MONTHS[10] == 30;
  }

  lemma NumberOfTwo(s: string)
    requires |s| == 2 && forall c :: c in s ==> Digit(c)
    ensures Number(s) == 10 * Value(s[0]) + Value(s[1])
  {
    var one := Init(s);
    assert one == [s[0]] && Init(one) == [] && Last(one) == s[0] && Last(s) == s[1];
    assert Number(one) == Value(s[0]);
  }

  lemma NumberOfFour(s: string)
    requires |s| == 4 && forall c :: c in s ==> Digit(c)
    ensures Number(s) == 1000 * Value(s[0]) + 100 * Value(s[1]) + 10 * Value(s[2]) + Value(s[3])
  {
    var three := Init(s);
    var two := Init(three);
    assert three == s[..3] && two == s[..2] && Last(three) == s[2] && Last(s) == s[3];
    NumberOfTwo(two);
    assert Number(three) == 10 * Number(two) + Value(s[2]);
  }

  // ----- among other calls ---------------------------------------------------------------

  /** While accounting works, a holding turn is granted if and only if the charges of
      the closings so far on its day, the reservations that calls still hold for it and
      its own amount fit the cap. */
  lemma HoldGrantedExactly(cap: real, turns: seq<Turn>, turn: Turn)
    requires Reached(cap, turns).Some? && AllWorks(cap, turns) && turn.Hold? && Possible(turn)
    requires Works(Reached(cap, turns).value, turn)
    ensures var y := Reached(cap, turns).value; var id := MakeId(turn.day, turn.unique);
      var y' := Next(cap, y, turn).value;
      var fits := ChargedOn(cap, turns, turn.day) + Total(HeldOn(y.held, turn.day)) + AtLeastNothing(turn.reserved) <= cap;
      && ReserveOn(cap, FileAt(y.files, turn.day), turn.reserved, id, turn.day, turn.now, turn.stamp, turn.io).1
         == (if fits then Ok(id) else Err(Exhausted))
      && (id in y'.held <==> fits)
  {
    var y := Reached(cap, turns).value;
    InterleavedConserves(cap, turns, turn.day);
    AllWithinOn(y, turn.day, turn.now);
    GrantedExactly(cap, FileAt(y.files, turn.day), turn.reserved, MakeId(turn.day, turn.unique), turn.day, turn.now,
        turn.stamp, turn.io);
    assert OpenAt(FileAt(y.files, turn.day), turn.now) == HeldOn(y.held, turn.day);
    hide ReserveOn, Total, ChargedOn, Reached, AllWorks, HeldOn, OpenAt, IsDate;
  }

  /** And a look at a day answers the charges of the closings so far. */
  lemma LookAnswersCharges(cap: real, turns: seq<Turn>, turn: Turn)
    requires Reached(cap, turns).Some? && AllWorks(cap, turns) && turn.Look?
    requires Works(Reached(cap, turns).value, turn)
    ensures var f := FileAt(Reached(cap, turns).value.files, turn.day);
      SpentOn(cap, f, turn.readOnly, turn.now, turn.io).1 == Ok(ChargedOn(cap, turns, turn.day))
  {
    hide Reached, ChargedOn, AllWorks, SpentOn, HeldOn;
    InterleavedConserves(cap, turns, turn.day);
    SpentExactly(cap, FileAt(Reached(cap, turns).value.files, turn.day), turn.readOnly, turn.now, turn.io);
  }
}
