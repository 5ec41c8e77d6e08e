/** Many calls on one spend store at the same time: each reserves and closes its
    own attempts, and between the two any other call may do the same. */
module AppRuns {
  import opened Basics
  import opened Days
  import opened AppSpendFiles
  import opened AppSpends
  import opened AppAttempts

  /** One operation of some call, and how its writes end. A reservation is closed in
      the file of the day that its id names. Damage may come at any time. */
  datatype Turn =
    | Hold(day: Day, unique: string, reserved: real, now: real, stamp: real, io: SpendIo)
    | Finish(id: Id, closing: Closing, today: Day, now: real, io: SpendIo)
    | Raise(day: Day, name: string, now: real, io: SpendIo)
    | Look(day: Day, readOnly: bool, now: real, io: SpendIo)
    | Damaged(day: Day, left: DayFile)

  /** The day files, and the reservations that calls hold. */
  datatype Store = Store(files: DayFiles, held: Items)

  ghost function Next(cap: real, y: Store, turn: Turn): Option<Store> {
    match turn
    case Hold(day, unique, reserved, now, stamp, io) =>
      var id := MakeId(day, unique);
      var (f, granted) := ReserveOn(cap, FileAt(y.files, day), reserved, id, day, now, stamp, io);
      Some(Store(y.files[day := f], if granted.Ok? then y.held[id := Item(Positive(reserved), stamp, Some(day))] else y.held))
    case Finish(id, closing, today, now, io) =>
      var home := ReservationDay(id, today);
      if id !in y.held then None
      else Some(Store(y.files[home := CloseOn(cap, FileAt(y.files, home), id, closing, now, io).0], y.held - {id}))
    case Raise(day, name, now, io) => Some(y.(files := y.files[day := AlertOn(cap, FileAt(y.files, day), name, now, io).0]))
    case Look(day, readOnly, now, io) => Some(y.(files := y.files[day := SpentOn(cap, FileAt(y.files, day), readOnly,
        now, io).0]))
    case Damaged(day, left) => Some(y.(files := y.files[day := left]))
  }

  /** Days are dates, and damage leaves something unreadable. */
  predicate Possible(turn: Turn) {
    (turn.Hold? ==> IsDate(turn.day)) && (turn.Damaged? ==> !Readable(turn.left))
  }

  /** Where any interleaving leads, whatever its clocks and writes do. */
  ghost function Moved(cap: real, y: Store, turns: seq<Turn>): Option<Store> {
    if turns == [] then Some(y)
    else
      match Moved(cap, y, Init(turns))
      case None => None
      case Some(z) => if Possible(Last(turns)) then Next(cap, z, Last(turns)) else None
  }

  /** Where it leads from an empty store. */
  ghost function Reached(cap: real, turns: seq<Turn>): Option<Store> {
    Moved(cap, Store(map[], map[]), turns)
  }

  /** Accounting works: nothing is damaged, the write succeeds, ids are new, and no
      reservation outlives its lifetime, as when every request ends by its call's
      deadline on a clock the store shares. */
  ghost predicate Works(y: Store, turn: Turn) {
    && !turn.Damaged? && turn.io == WRITTEN
    && (turn.Hold? ==> MakeId(turn.day, turn.unique) !in y.held)
    && (forall id :: id in y.held ==> turn.now - y.held[id].stamp <= LIFETIME)
  }

  ghost predicate AllWorks(cap: real, turns: seq<Turn>) {
    turns == [] ||
    (AllWorks(cap, Init(turns)) &&
     (Reached(cap, Init(turns)).Some? ==> Works(Reached(cap, Init(turns)).value, Last(turns))))
  }

  /** What one turn charges to a day: its closing, if that day's reservation is closed. */
  function ChargeAt(y: Store, turn: Turn, day: Day): real {
    if turn.Finish? && turn.id in y.held && y.held[turn.id].day == Some(day)
    then ChargeOf(turn.closing, y.held[turn.id].amount) else 0.0
  }

  /** The sum of the charges of all closings on a day. */
  ghost function ChargedOn(cap: real, turns: seq<Turn>, day: Day): real {
    if turns == [] then 0.0
    else
      ChargedOn(cap, Init(turns), day)
        + match Reached(cap, Init(turns)) case None => 0.0 case Some(y) => ChargeAt(y, Last(turns), day)
  }

  function HeldOn(held: Items, day: Day): Items {
    map id | id in held && held[id].day == Some(day) :: held[id]
  }

  /** Every file can be read, and what is open in it is what calls hold. */
  ghost predicate Consistent(y: Store) {
    && AllReadable(y.files)
    && (forall day :: ItemsOf(FileAt(y.files, day)) == HeldOn(y.held, day))
    && AllNamed(y.held)
  }

  /** Every held reservation's id names the day it is held on. */
  ghost predicate AllNamed(held: Items) {
    forall id :: id in held ==> held[id].day.Some? && NamesDay(id, held[id].day.value)
  }

  ghost predicate NamesDay(id: Id, day: Day) {
    forall today :: ReservationDay(id, today) == day
  }

  // ----- one day's file --------------------------------------------------------------

  predicate AllWithin(items: Items, now: real) {
    forall id :: id in items ==> now - items[id].stamp <= LIFETIME
  }

  lemma HoldDay(cap: real, f: DayFile, reserved: real, id: Id, day: Day, now: real, stamp: real)
    requires Readable(f) && AllWithin(ItemsOf(f), now) && DayShaped(day)
    ensures var (f', r) := ReserveOn(cap, f, reserved, id, day, now, stamp, WRITTEN);
      && Readable(f') && SpentIn(f') == SpentIn(f)
      && ItemsOf(f') == if r.Ok? then ItemsOf(f)[id := Item(Positive(reserved), stamp, Some(day))] else ItemsOf(f)
  {
    hide Total, DayShaped;
    assert Unexpired(ItemsOf(f), now) == ItemsOf(f);
  }

  lemma FinishDay(cap: real, f: DayFile, id: Id, closing: Closing, now: real)
    requires Readable(f) && AllWithin(ItemsOf(f), now) && id in ItemsOf(f)
    ensures var f' := CloseOn(cap, f, id, closing, now, WRITTEN).0;
      && Readable(f') && SpentIn(f') == SpentIn(f) + ChargeOf(closing, ItemsOf(f)[id].amount)
      && ItemsOf(f') == ItemsOf(f) - {id}
  {
    hide DayShaped;
    assert Unexpired(ItemsOf(f), now) == ItemsOf(f);
  }

  lemma AlertDay(cap: real, f: DayFile, name: string, now: real)
    requires Readable(f) && AllWithin(ItemsOf(f), now)
    ensures var f' := AlertOn(cap, f, name, now, WRITTEN).0;
      Readable(f') && SpentIn(f') == SpentIn(f) && ItemsOf(f') == ItemsOf(f)
  {
    hide DayShaped;
    assert Unexpired(ItemsOf(f), now) == ItemsOf(f);
  }

  lemma LookDay(cap: real, f: DayFile, readOnly: bool, now: real)
    requires Readable(f) && AllWithin(ItemsOf(f), now)
    ensures var f' := SpentOn(cap, f, readOnly, now, WRITTEN).0;
      Readable(f') && SpentIn(f') == SpentIn(f) && ItemsOf(f') == ItemsOf(f)
  {
    hide DayShaped;
    assert Unexpired(ItemsOf(f), now) == ItemsOf(f);
    if !readOnly {
      AlertDay(cap, f, "", now);
      assert SpentOn(cap, f, false, now, WRITTEN).0 == Stored(Expire(Begin(cap, f, WRITTEN).1.value, now));
    }
  }

  // ----- every turn -------------------------------------------------------------------

  /** A turn changes one day's file; the other days keep what they had. */
  lemma OneDay(y: Store, held': Items, day: Day, f: DayFile)
    requires Consistent(y) && Readable(f) && ItemsOf(f) == HeldOn(held', day)
    requires forall d :: d != day ==> HeldOn(held', d) == HeldOn(y.held, d)
    requires AllNamed(held')
    ensures Consistent(Store(y.files[day := f], held'))
  {
    hide Readable, AllNamed, HeldOn, ItemsOf;
    var y' := Store(y.files[day := f], held');
    forall d
      ensures Readable(FileAt(y'.files, d)) && ItemsOf(FileAt(y'.files, d)) == HeldOn(y'.held, d)
    {
      if d == day {
        assert FileAt(y'.files, d) == f;
      } else {
        assert FileAt(y'.files, d) == FileAt(y.files, d);
        assert HeldOn(held', d) == HeldOn(y.held, d);
      }
    }
    assert AllReadable(y'.files);
    assert AllNamed(y'.held);
  }

  lemma TurnKeeps(cap: real, y: Store, turn: Turn)
    requires Consistent(y) && Possible(turn) && Works(y, turn) && Next(cap, y, turn).Some?
    ensures var y' := Next(cap, y, turn).value;
      && Consistent(y')
      && (forall day :: SpentIn(FileAt(y'.files, day)) == SpentIn(FileAt(y.files, day)) + ChargeAt(y, turn, day))
  {
    hide Readable, ReserveOn, CloseOn, AlertOn, SpentOn, IsDate, DayShaped, ReservationDay, MakeId;
    match turn
    case Hold(_, _, _, _, _, _) => HoldKeeps(cap, y, turn);
    case Finish(id, closing, today, now, _) =>
      var home := ReservationDay(id, today);
      assert NamesDay(id, y.held[id].day.value);
      FinishDay(cap, FileAt(y.files, home), id, closing, now);
      assert HeldOn(y.held, home) - {id} == HeldOn(y.held - {id}, home);
      assert forall d :: d != home ==> HeldOn(y.held - {id}, d) == HeldOn(y.held, d);
      OneDay(y, y.held - {id}, home, CloseOn(cap, FileAt(y.files, home), id, closing, now, WRITTEN).0);
    case Raise(day, name, now, _) =>
      AlertDay(cap, FileAt(y.files, day), name, now);
      OneDay(y, y.held, day, AlertOn(cap, FileAt(y.files, day), name, now, WRITTEN).0);
    case Look(day, readOnly, now, _) =>
      LookDay(cap, FileAt(y.files, day), readOnly, now);
      OneDay(y, y.held, day, SpentOn(cap, FileAt(y.files, day), readOnly, now, WRITTEN).0);
  }

  lemma HoldKeeps(cap: real, y: Store, turn: Turn)
    requires Consistent(y) && Possible(turn) && Works(y, turn) && turn.Hold?
    ensures var y' := Next(cap, y, turn).value;
      && Consistent(y')
      && (forall day :: SpentIn(FileAt(y'.files, day)) == SpentIn(FileAt(y.files, day)))
  {
    hide Readable, ReserveOn, IsDate, DayShaped, ReservationDay, MakeId, NamesDay, HeldOn;
    var day, id := turn.day, MakeId(turn.day, turn.unique);
    NamesOwnDay(day, turn.unique);
    DateShaped(day);
    AllWithinOn(y, day, turn.now);
    HoldDay(cap, FileAt(y.files, day), turn.reserved, id, day, turn.now, turn.stamp);
    var (f, granted) := ReserveOn(cap, FileAt(y.files, day), turn.reserved, id, day, turn.now, turn.stamp, WRITTEN);
    if granted.Ok? {
      var item := Item(Positive(turn.reserved), turn.stamp, Some(day));
      HeldWith(y.held, id, item, day);
      OneDay(y, y.held[id := item], day, f);
    } else {
      OneDay(y, y.held, day, f);
    }
  }

  lemma AllWithinOn(y: Store, day: Day, now: real)
    requires Consistent(y) && forall id :: id in y.held ==> now - y.held[id].stamp <= LIFETIME
    ensures AllWithin(ItemsOf(FileAt(y.files, day)), now)
  {
    hide Readable, NamesDay;
  }

  lemma HeldWith(held: Items, id: Id, item: Item, day: Day)
    requires id !in held && item.day == Some(day)
    ensures HeldOn(held[id := item], day) == HeldOn(held, day)[id := item]
    ensures forall d :: d != day ==> HeldOn(held[id := item], d) == HeldOn(held, d)
  {
  }

  lemma NamesOwnDay(day: Day, unique: string)
    requires IsDate(day)
    ensures NamesDay(MakeId(day, unique), day)
  {
    forall today
      ensures ReservationDay(MakeId(day, unique), today) == day
    {
      IdKeepsItsDay(day, unique, today);
    }
  }

  /** However the operations of any number of calls interleave, while accounting works
      for them, at every point each day's open reservations are exactly those that calls still hold for it, and
      the day's money is exactly the sum of the charges of the closings so far. */
  lemma {:induction false} InterleavedConserves(cap: real, turns: seq<Turn>, day: Day)
    requires Reached(cap, turns).Some? && AllWorks(cap, turns)
    ensures var y := Reached(cap, turns).value;
      && Consistent(y)
      && SpentIn(FileAt(y.files, day)) == ChargedOn(cap, turns, day)
      && ItemsOf(FileAt(y.files, day)) == HeldOn(y.held, day)
  {
    hide Next, Possible, Works, ChargeAt, NamesDay, Readable;
    if turns == [] {
      NothingYet(day);
    } else {
      InterleavedConserves(cap, Init(turns), day);
      TurnKeeps(cap, Reached(cap, Init(turns)).value, Last(turns));
    }
  }

  lemma NothingYet(day: Day)
    ensures Consistent(Store(map[], map[]))
    ensures SpentIn(FileAt(map[], day)) == 0.0
  {
  }

  // ----- what interleaved calls may do to the cap ----------------------------------------

  /** The turn finishes a reservation of that day by settling a reply. */
  predicate SettlesOn(y: Store, turn: Turn, day: Day) {
    turn.Finish? && turn.closing.AsSettled? && turn.io.written && turn.id in y.held && y.held[turn.id].day == Some(day)
  }

  /** What one turn settles on a day above the reservation it finishes. */
  function ExcessAt(y: Store, turn: Turn, day: Day): (excess: real)
    ensures excess >= 0.0
  {
    if SettlesOn(y, turn, day) then ExcessOver(turn.closing.actual, y.held[turn.id].amount) else 0.0
  }

  ghost function ExcessSum(cap: real, turns: seq<Turn>, day: Day): (excess: real)
    ensures excess >= 0.0
  {
    if turns == [] then 0.0
    else
      ExcessSum(cap, Init(turns), day)
        + match Reached(cap, Init(turns)) case None => 0.0 case Some(y) => ExcessAt(y, Last(turns), day)
  }

  /** Of every reservation that a call holds, its day's file says what the call does,
      if it still knows the reservation. */
  ghost predicate Matching(y: Store) {
    && AllNamed(y.held)
    && forall id :: id in y.held ==> Remembered(FileAt(y.files, y.held[id].day.value), id, y.held[id])
  }

  ghost predicate Remembered(f: DayFile, id: Id, item: Item) {
    Readable(f) && id in ItemsOf(f) ==> ItemsOf(f)[id] == item
  }

  /** The day whose file a turn works on, and what it does there. */
  ghost function OpOf(turn: Turn): (Day, DayOp) {
    match turn
    case Hold(day, unique, reserved, now, stamp, io) => (day, Reserve(reserved, MakeId(day, unique), day, now, stamp, io))
    case Finish(id, closing, today, now, io) => (ReservationDay(id, today), Close(id, closing, now, io))
    case Raise(day, name, now, io) => (day, Alert(name, now, io))
    case Look(day, readOnly, now, io) => (day, Spent(readOnly, now, io))
    case Damaged(day, left) => (day, Damage(left))
  }

  lemma OneFile(cap: real, y: Store, turn: Turn)
    requires Next(cap, y, turn).Some?
    ensures var (own, op) := OpOf(turn);
      Next(cap, y, turn).value.files == y.files[own := Apply(cap, FileAt(y.files, own), op)]
  {
    hide ReserveOn, CloseOn, AlertOn, SpentOn, ReservationDay, MakeId;
  }

  /** An operation that does not reserve under an id leaves what is known of it, or
      forgets it. */
  lemma StaysRemembered(cap: real, f: DayFile, op: DayOp, id: Id, item: Item)
    requires Remembered(f, id, item) && (op.Damage? ==> !Readable(op.left)) && (op.Reserve? ==> op.id != id)
    ensures Remembered(Apply(cap, f, op), id, item)
  {
    hide Total, DayShaped;
    match op
    case Reserve(_, _, _, _, _, _) =>
    case Close(_, _, _, _) =>
    case Alert(_, _, _) =>
    case Spent(_, _, _) =>
    case Damage(_) =>
  }

  /** A reservation that is granted is in the file as requested; one that is not
      leaves what was known of its id, or forgets it. */
  lemma ReservedRemembered(cap: real, f: DayFile, reserved: real, id: Id, day: Day, now: real, stamp: real, io: SpendIo)
    ensures var (f', r) := ReserveOn(cap, f, reserved, id, day, now, stamp, io);
      && (r.Ok? ==> Remembered(f', id, Item(Positive(reserved), stamp, Some(day))))
      && (r.Err? ==> forall item :: Remembered(f, id, item) ==> Remembered(f', id, item))
  {
    hide Total, DayShaped;
  }

  lemma TurnMatches(cap: real, y: Store, turn: Turn)
    requires Matching(y) && Possible(turn) && Next(cap, y, turn).Some?
    ensures Matching(Next(cap, y, turn).value)
  {
    hide Readable, Remembered, Apply, ReserveOn, CloseOn, AlertOn, SpentOn, IsDate, DayShaped, ReservationDay, MakeId,
         NamesDay;
    var y' := Next(cap, y, turn).value;
    if turn.Hold? {
      NamesOwnDay(turn.day, turn.unique);
    }
    assert AllNamed(y'.held);
    forall id | id in y'.held
      ensures Remembered(FileAt(y'.files, y'.held[id].day.value), id, y'.held[id])
    {
      KnownAfter(cap, y, turn, id);
    }
  }

  lemma KnownAfter(cap: real, y: Store, turn: Turn, id: Id)
    requires Matching(y) && Possible(turn) && Next(cap, y, turn).Some? && id in Next(cap, y, turn).value.held
    requires AllNamed(Next(cap, y, turn).value.held)
    ensures var y' := Next(cap, y, turn).value; Remembered(FileAt(y'.files, y'.held[id].day.value), id, y'.held[id])
  {
    hide Readable, Remembered, ReserveOn, CloseOn, AlertOn, SpentOn, IsDate, DayShaped, ReservationDay, MakeId, NamesDay;
    OneFile(cap, y, turn);
    var (own, op) := OpOf(turn);
    if turn.Hold? {
      ReservedRemembered(cap, FileAt(y.files, own), turn.reserved, op.id, own, turn.now, turn.stamp, turn.io);
    }
    if id in y.held && y.held[id].day == Some(own) && !(turn.Hold? && op.id == id) {
      StaysRemembered(cap, FileAt(y.files, own), op, id, y.held[id]);
    }
  }

  /** A turn is one operation on one day's file, so it keeps that file's bound. */
  lemma TurnBounded(cap: real, y: Store, turn: Turn, day: Day, excess: real)
    requires cap >= 0.0 && excess >= 0.0 && Matching(y) && Possible(turn) && Next(cap, y, turn).Some?
    requires Bounded(cap, FileAt(y.files, day), excess)
    ensures Bounded(cap, FileAt(Next(cap, y, turn).value.files, day), excess + ExcessAt(y, turn, day))
  {
    hide Readable, Apply, DayShaped, ReservationDay, MakeId, Bounded, ExcessOver, ExcessOf, NamesDay, Next, Remembered;
    var f := FileAt(y.files, day);
    OneFile(cap, y, turn);
    var (own, op) := OpOf(turn);
    if own == day {
      ApplyBounded(cap, f, op, excess);
      TurnExcess(cap, y, turn, day, op);
      MoreBounded(cap, Apply(cap, f, op), excess + ExcessOf(cap, f, op), excess + ExcessAt(y, turn, day));
    } else {
      MoreBounded(cap, f, excess, excess + ExcessAt(y, turn, day));
    }
  }

  lemma TurnExcess(cap: real, y: Store, turn: Turn, day: Day, op: DayOp)
    requires Matching(y) && Next(cap, y, turn).Some? && OpOf(turn) == (day, op)
    ensures ExcessOf(cap, FileAt(y.files, day), op) <= ExcessAt(y, turn, day)
  {
    hide DayShaped, Total, ReserveOn, CloseOn, AlertOn, SpentOn, ReservationDay, MakeId;
    if turn.Finish? {
      assert NamesDay(turn.id, y.held[turn.id].day.value);
      assert Remembered(FileAt(y.files, day), turn.id, y.held[turn.id]);
    }
  }

  lemma {:induction false} ReachedMatches(cap: real, turns: seq<Turn>)
    requires Reached(cap, turns).Some?
    ensures Matching(Reached(cap, turns).value)
  {
    hide Next, Possible, Remembered, AllNamed;
    if turns == [] {
      NothingMatches();
    } else {
      ReachedMatches(cap, Init(turns));
      TurnMatches(cap, Reached(cap, Init(turns)).value, Last(turns));
    }
  }

  lemma NothingMatches()
    ensures Matching(Store(map[], map[]))
  {
  }

  /** However the operations of any number of calls interleave, with reservations that
      expire, writes that fail and files that are damaged, each day's spent and
      reserved money stays within the cap and what was settled on that day above the
      reservations it finished. */
  lemma {:induction false} InterleavedCappedPlusExcess(cap: real, turns: seq<Turn>, day: Day)
    requires cap >= 0.0 && Reached(cap, turns).Some?
    ensures Bounded(cap, FileAt(Reached(cap, turns).value.files, day), ExcessSum(cap, turns, day))
  {
    hide Next, Possible, ExcessAt, Matching, Bounded;
    if turns == [] {
      NothingStored(cap);
    } else {
      InterleavedCappedPlusExcess(cap, Init(turns), day);
      ReachedMatches(cap, Init(turns));
      TurnBounded(cap, Reached(cap, Init(turns)).value, Last(turns), day, ExcessSum(cap, Init(turns), day));
    }
  }

  /** Every settlement of a run is such a price. */
  ghost predicate AllPriced(cap: real, turns: seq<Turn>) {
    turns == [] ||
    (AllPriced(cap, Init(turns)) &&
     (Reached(cap, Init(turns)).Some? ==> PricedTurn(Reached(cap, Init(turns)).value, Last(turns))))
  }

  ghost predicate PricedTurn(y: Store, turn: Turn) {
    turn.Finish? && turn.closing.AsSettled? && turn.io.written && turn.id in y.held ==>
      WithinTokens(turn.closing.actual, y.held[turn.id].amount)
  }

  /** The replies settled on a day. */
  ghost function SettledCount(cap: real, turns: seq<Turn>, day: Day): nat {
    if turns == [] then 0
    else
      SettledCount(cap, Init(turns), day)
        + match Reached(cap, Init(turns)) case None => 0 case Some(y) => if SettlesOn(y, Last(turns), day) then 1 else 0
  }

  lemma PricedExcess(y: Store, turn: Turn, day: Day)
    requires PricedTurn(y, turn)
    ensures ExcessAt(y, turn, day) <= if SettlesOn(y, turn, day) then 1.0 else 0.0
  {
    if SettlesOn(y, turn, day) {
      var actual, reserved := turn.closing.actual, y.held[turn.id].amount;
      WithinTokensMicro(actual, reserved);
    }
  }

  lemma {:induction false} PricedSum(cap: real, turns: seq<Turn>, day: Day)
    requires AllPriced(cap, turns)
    ensures ExcessSum(cap, turns, day) <= SettledCount(cap, turns, day) as real
  {
    hide Reached, PricedTurn, ExcessAt, SettlesOn;
    if turns != [] {
      PricedSum(cap, Init(turns), day);
      if Reached(cap, Init(turns)).Some? {
        PricedExcess(Reached(cap, Init(turns)).value, Last(turns), day);
      }
    }
  }

  /** However the operations of any number of calls interleave, with expiry, failing
      writes and damage, if every reply's token counts stay within the estimated input and the requested output of its
      reservation, each day's spent and reserved money stays within the cap and one
      micro-USD for each reply settled on that day. */
  lemma InterleavedWithinMicro(cap: real, turns: seq<Turn>, day: Day)
    requires cap >= 0.0 && Reached(cap, turns).Some? && AllPriced(cap, turns)
    ensures Bounded(cap, FileAt(Reached(cap, turns).value.files, day), SettledCount(cap, turns, day) as real)
  {
    hide Reached, AllPriced, Bounded, ExcessSum, SettledCount;
    InterleavedCappedPlusExcess(cap, turns, day);
    PricedSum(cap, turns, day);
    MoreBounded(cap, FileAt(Reached(cap, turns).value.files, day), ExcessSum(cap, turns, day), SettledCount(cap,
        turns, day) as real);
  }

  // ----- a call is a sequence of turns ---------------------------------------------------

  lemma {:induction false} MovedOn(cap: real, y: Store, first: seq<Turn>, more: seq<Turn>)
    requires Moved(cap, y, first).Some?
    ensures Moved(cap, y, first + more) == Moved(cap, Moved(cap, y, first).value, more)
  {
    hide Next, Possible;
    if more == [] {
      assert first + more == first;
    } else {
      MovedOn(cap, y, first, Init(more));
      assert Init(first + more) == first + Init(more) && Last(first + more) == Last(more);
    }
  }

  /** The reservations that turns finish, and how. */
  function Finished(turns: seq<Turn>): seq<(Id, Closing)> {
    if turns == [] then []
    else Finished(Init(turns)) + if Last(turns).Finish? then [(Last(turns).id, Last(turns).closing)] else []
  }

  lemma {:induction false} FinishedOn(first: seq<Turn>, more: seq<Turn>)
    ensures Finished(first + more) == Finished(first) + Finished(more)
  {
    if more == [] {
      assert first + more == first;
    } else {
      FinishedOn(first, Init(more));
      assert Init(first + more) == first + Init(more) && Last(first + more) == Last(more);
    }
  }

  /** The reservations of a call's attempts, and how they were closed. */
  function ClosedBy(attempts: seq<Attempt>): seq<(Id, Closing)> {
    seq(|attempts|, k requires 0 <= k < |attempts| => (attempts[k].id, attempts[k].closing))
  }

  /** From a store, these turns leave those files, and finish the reservations of
      those attempts. */
  ghost predicate Leaves(cap: real, y: Store, turns: seq<Turn>, files: DayFiles, attempts: seq<Attempt>) {
    Moved(cap, y, turns).Some? && Moved(cap, y, turns).value.files == files && Finished(turns) == ClosedBy(attempts)
  }

  ghost function StoreAfter(cap: real, y: Store, turns: seq<Turn>, files: DayFiles, attempts: seq<Attempt>): (z: Store)
    requires Leaves(cap, y, turns, files, attempts)
    ensures z.files == files
  {
    Moved(cap, y, turns).value
  }

  lemma LeavesNothing(cap: real, y: Store)
    ensures Leaves(cap, y, [], y.files, [])
  {
  }

  lemma LeavesOn(cap: real, y: Store, first: seq<Turn>, middle: DayFiles, a: Attempt, more: seq<Turn>, files: DayFiles,
                 rest: seq<Attempt>)
    requires Leaves(cap, y, first, middle, [a]) && Leaves(cap, StoreAfter(cap, y, first, middle, [a]), more, files, rest)
    ensures Leaves(cap, y, first + more, files, [a] + rest)
  {
    hide Next, Possible, Moved, Finished;
    MovedOn(cap, y, first, more);
    FinishedOn(first, more);
    assert ClosedBy([a] + rest) == ClosedBy([a]) + ClosedBy(rest);
  }

  lemma RaisedOn(cap: real, y: Store, turns: seq<Turn>, left: DayFiles, attempts: seq<Attempt>, day: Day, name: string,
                 now: real, io: SpendIo)
    requires Leaves(cap, y, turns, left, attempts)
    ensures Leaves(cap, y, turns + [Raise(day, name, now, io)],
                   left[day := AlertOn(cap, FileAt(left, day), name, now, io).0], attempts)
  {
    hide AlertOn;
    AppendParts(turns, Raise(day, name, now, io));
  }

  /** The turns of one attempt: a holding one and, if it was granted, a finishing one. */
  function AttemptTurns<R>(w: World<R>, i: nat, reserved: real, closing: Closing, granted: bool): seq<Turn> {
    var hold := Hold(w.day(i), w.unique(i), reserved, w.reserveAt(i), w.stamp(i), w.reserveIo(i));
    var finish := Finish(MakeId(w.day(i), w.unique(i)), closing, w.closeDay(i), w.closeAt(i), w.closeIo(i));
    if granted then [hold, finish] else [hold]
  }

  /** What an attempt of either lane does alone, it does here among others. */
  lemma AttemptIsTurns<R>(cap: real, w: World<R>, y: Store, i: nat, reserved: real, deadline: real, closing: Closing)
    requires IsDate(w.day(i))
    ensures var (left, tried) := Accounted(cap, w, y.files, i, reserved, deadline, closing);
      Leaves(cap, y, AttemptTurns(w, i, reserved, closing, tried.Ok?), left, if tried.Ok? then [tried.value] else [])
  {
    hide Accounted, Next, Possible, Moved, Finished, MakeId;
    var (left, tried) := Accounted(cap, w, y.files, i, reserved, deadline, closing);
    AttemptSteps(cap, w, y, i, reserved, deadline, closing);
    var turns := AttemptTurns(w, i, reserved, closing, tried.Ok?);
    OneTurn(cap, y, turns[0]);
    if tried.Ok? {
      OneTurn(cap, Next(cap, y, turns[0]).value, turns[1]);
      MovedOn(cap, y, [turns[0]], [turns[1]]);
      FinishedOn([turns[0]], [turns[1]]);
      assert turns == [turns[0]] + [turns[1]];
    } else {
      assert turns == [turns[0]];
    }
  }

  /** The two operations of an attempt are those of its turns. */
  lemma AttemptSteps<R>(cap: real, w: World<R>, y: Store, i: nat, reserved: real, deadline: real, closing: Closing)
    requires IsDate(w.day(i))
    ensures var (left, tried) := Accounted(cap, w, y.files, i, reserved, deadline, closing);
      var turns := AttemptTurns(w, i, reserved, closing, tried.Ok?);
      && Possible(turns[0]) && Next(cap, y, turns[0]).Some?
      && (tried.Err? ==> Next(cap, y, turns[0]).value.files == left)
      && (tried.Ok? ==>
            && tried.value.id == MakeId(w.day(i), w.unique(i)) && tried.value.closing == closing
            && Possible(turns[1]) && Next(cap, Next(cap, y, turns[0]).value, turns[1]).Some?
            && Next(cap, Next(cap, y, turns[0]).value, turns[1]).value.files == left)
  {
    hide ReserveOn, CloseOn, ReservationDay, MakeId, IsDate, Readable;
  }

  lemma OneTurn(cap: real, y: Store, turn: Turn)
    ensures Moved(cap, y, [turn]) == if Possible(turn) then Next(cap, y, turn) else None
    ensures Finished([turn]) == if turn.Finish? then [(turn.id, turn.closing)] else []
  {
    hide Next, Possible;
    assert Init([turn]) == [];
  }
}
