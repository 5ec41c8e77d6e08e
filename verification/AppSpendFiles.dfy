/** The day files of the application spend store: what each operation makes of
    the file it opens, with money in micro-USD and times in seconds, as exact
    numbers. */
module AppSpendFiles {
  import opened Basics
  import opened Days

  type Id = string

  const LIFETIME: real := 600.0

  /** An open reservation. */
  datatype Item = Item(amount: real, stamp: real, day: Option<Day>)

  type Items = map<Id, Item>

  datatype SpendState = SpendState(spent: real, reservations: Items, alerts: seq<string>)

  /** What is at a day's path: nothing, a file that cannot be read as a spend
      state, or one that can be parsed. */
  datatype DayFile = Absent | Garbled | Stored(state: SpendState)

  type DayFiles = map<Day, DayFile>

  datatype SpendError = Exhausted | Unavailable

  /** How the replacement of an unreadable file ends. */
  datatype ResetIo = ResetFine | OnlyMovedAside | NothingMoved

  /** How the writes of one operation end. */
  datatype SpendIo = SpendIo(reset: ResetIo, written: bool)

  const WRITTEN: SpendIo := SpendIo(ResetFine, true)

  datatype Closing = AsSettled(actual: real) | AsUnknown | AsReleased

  // ----- budget days in reservation ids -----------------------------------------

  predicate Digit(c: char) {
    '0' <= c <= '9'
  }

  function Number(s: string): nat
    requires forall c :: c in s ==> Digit(c)
  {
    if s == "" then 0
    else
      assert Digit(Last(s));
      10 * Number(Init(s)) + (Last(s) as int - '0' as int)
  }

  predicate DayShaped(s: string) {
    |s| == 10 && s[4] == '-' && s[7] == '-' && (forall i :: 0 <= i < 10 && i != 4 && i != 7 ==> Digit(s[i]))
  }

  function DaysIn(year: nat, month: nat): nat {
    if month == 2 then if year % 4 == 0 && (year % 100 != 0 || year % 400 == 0) then 29 else 28
    else if month == 4 || month == 6 || month == 9 || month == 11 then 30
    else 31
  }

  /** A day of the calendar, written as an ISO date. */
  predicate IsDate(s: string) {
    DayShaped(s) &&
    (var year, month, day := Number(s[..4]), Number(s[5..7]), Number(s[8..]);
     year >= 1 && 1 <= month <= 12 && 1 <= day <= DaysIn(year, month))
  }

  function BeforeColon(s: string): Option<string> {
    if s == "" then None
    else if s[0] == ':' then Some("")
    else
      match BeforeColon(s[1..])
      case None => None
      case Some(rest) => Some([s[0]] + rest)
  }

  function MakeId(day: Day, unique: string): Id {
    day + ":" + unique
  }

  /** The day whose file a reservation is looked for in: its own, or today's
      when the id names none. */
  function ReservationDay(id: Id, today: Day): Day {
    match BeforeColon(id)
    case Some(day) => if IsDate(day) then day else today
    case None => today
  }

  lemma {:induction false} BeforeFirstColon(prefix: string, rest: string)
    requires ':' !in prefix
    ensures BeforeColon(prefix + ":" + rest) == Some(prefix)
  {
    if prefix == "" {
      assert (prefix + ":" + rest)[0] == ':';
    } else {
      assert (prefix + ":" + rest)[1..] == prefix[1..] + ":" + rest;
      BeforeFirstColon(prefix[1..], rest);
      assert prefix == [prefix[0]] + prefix[1..];
    }
  }

  /** An id made on a day is always closed in that day's file. */
  lemma IdKeepsItsDay(day: Day, unique: string, today: Day)
    requires IsDate(day)
    ensures ReservationDay(MakeId(day, unique), today) == day
  {
    assert forall i :: 0 <= i < 10 ==> day[i] != ':';
    BeforeFirstColon(day, unique);
    assert BeforeColon(MakeId(day, unique)) == Some(day);
  }

  // ----- sums over reservations -------------------------------------------------

  ghost function Total(items: Items): real {
    if items == map[] then 0.0
    else
      var id :| id in items;
      items[id].amount + Total(items - {id})
  }

  lemma {:induction false} TotalTake(items: Items, id: Id)
    requires id in items
    ensures Total(items) == items[id].amount + Total(items - {id})
    decreases |items|
  {
    var q :| q in items && Total(items) == items[q].amount + Total(items - {q});
    if q != id {
      TotalTake(items - {q}, id);
      assert items - {q} - {id} == items - {id} - {q};
      TotalTake(items - {id}, q);
    }
  }

  predicate NonNegative(items: Items) {
    forall id :: id in items ==> items[id].amount >= 0.0
  }

  lemma {:induction false} TotalNonNegative(items: Items)
    requires NonNegative(items)
    ensures Total(items) >= 0.0
    decreases |items|
  {
    if items != map[] {
      var id :| id in items;
      TotalTake(items, id);
      TotalNonNegative(items - {id});
    }
  }

  /** Leaving reservations out never raises the total. */
  lemma {:induction false} TotalOfFewer(items: Items, fewer: Items)
    requires NonNegative(items) && fewer.Keys <= items.Keys
    requires forall id :: id in fewer ==> fewer[id] == items[id]
    ensures Total(fewer) <= Total(items)
    decreases |items|
  {
    if fewer == map[] {
      TotalNonNegative(items);
    } else {
      var id :| id in fewer;
      TotalTake(items, id);
      TotalTake(fewer, id);
      TotalOfFewer(items - {id}, fewer - {id});
    }
  }

  lemma TotalAdd(items: Items, id: Id, item: Item)
    requires NonNegative(items)
    ensures Total(items[id := item]) <= Total(items) + item.amount
    ensures id !in items ==> Total(items[id := item]) == Total(items) + item.amount
  {
    TotalTake(items[id := item], id);
    assert items[id := item] - {id} == items - {id};
    if id in items {
      TotalTake(items, id);
    } else {
      assert items - {id} == items;
    }
  }

  // ----- opening a file -----------------------------------------------------------

  function Positive(amount: real): real {
    if amount > 0.0 then amount else 0.0
  }

  const FRESH: SpendState := SpendState(0.0, map[], [])

  /** What an unreadable file is replaced by: a day whose cap is used up. */
  function UsedUp(cap: real): SpendState {
    SpendState(cap, map[], [])
  }

  predicate IsValid(s: SpendState) {
    && s.spent >= 0.0
    && NonNegative(s.reservations)
    && (forall id :: id in s.reservations && s.reservations[id].day.Some? ==> DayShaped(s.reservations[id].day.value))
  }

  predicate Readable(f: DayFile) {
    f.Absent? || (f.Stored? && IsValid(f.state))
  }

  /** The state an operation starts from, before expiry; None when the write
      that replaces an unreadable file fails. */
  function Begin(cap: real, f: DayFile, io: SpendIo): (DayFile, Option<SpendState>) {
    if f.Absent? then (f, Some(FRESH))
    else if Readable(f) then (f, Some(f.state))
    else
      match io.reset
      case ResetFine => (Stored(UsedUp(cap)), Some(UsedUp(cap)))
      case OnlyMovedAside => (Absent, None)
      case NothingMoved => (f, None)
  }

  function Unexpired(items: Items, now: real): Items {
    map id | id in items && now - items[id].stamp <= LIFETIME :: items[id]
  }

  function Expire(s: SpendState, now: real): SpendState {
    s.(reservations := Unexpired(s.reservations, now))
  }

  /** Writes the state back. A failed write leaves the file as it was. */
  function Store(f: DayFile, s: SpendState, io: SpendIo): DayFile {
    if io.written then Stored(s) else f
  }

  // ----- the operations on one day's file ------------------------------------------

  ghost function ReserveOn(cap: real, f: DayFile, estimate: real, id: Id, day: Day, now: real, stamp: real, io: SpendIo)
    : (r: (DayFile, Result<Id, SpendError>))
    ensures r.1.Ok? ==> r.1.value == id
  {
    var (f1, begun) := Begin(cap, f, io);
    if begun.None? then (f1, Err(Unavailable))
    else
      var s := Expire(begun.value, now);
      if s.spent + Total(s.reservations) + Positive(estimate) > cap then
        (Store(f1, s, io), Err(if io.written then Exhausted else Unavailable))
      else
        var held := s.(reservations := s.reservations[id := Item(Positive(estimate), stamp, Some(day))]);
        (Store(f1, held, io), if io.written then Ok(id) else Err(Unavailable))
  }

  /** What closing a reservation this way adds to the money spent. */
  function ChargeOf(closing: Closing, reserved: real): real {
    match closing
    case AsSettled(actual) => Positive(actual)
    case AsUnknown => reserved
    case AsReleased => 0.0
  }

  function Closed(s: SpendState, id: Id, closing: Closing): SpendState {
    if id !in s.reservations then s
    else s.(spent := s.spent + ChargeOf(closing, s.reservations[id].amount), reservations := s.reservations - {id})
  }

  function CloseOn(cap: real, f: DayFile, id: Id, closing: Closing, now: real, io: SpendIo): (DayFile, Result<(), SpendError>) {
    var (f1, begun) := Begin(cap, f, io);
    if begun.None? then (f1, Err(Unavailable))
    else (Store(f1, Closed(Expire(begun.value, now), id, closing), io), if io.written then Ok(()) else Err(Unavailable))
  }

  function AlertOn(cap: real, f: DayFile, name: string, now: real, io: SpendIo): (DayFile, Result<bool, SpendError>) {
    var (f1, begun) := Begin(cap, f, io);
    if begun.None? then (f1, Err(Unavailable))
    else
      var s := Expire(begun.value, now);
      var isNew := name !in s.alerts;
      (Store(f1, if isNew then s.(alerts := s.alerts + [name]) else s, io), if io.written then Ok(isNew) else Err(Unavailable))
  }

  function SpentOn(cap: real, f: DayFile, readOnly: bool, now: real, io: SpendIo): (DayFile, Result<real, SpendError>) {
    if readOnly && f.Absent? then (f, Ok(0.0))
    else if readOnly && Readable(f) then (f, Ok(f.state.spent))
    else
      var (f1, begun) := Begin(cap, f, io);
      if begun.None? then (f1, Err(Unavailable))
      else
        var s := Expire(begun.value, now);
        (Store(f1, s, io), if io.written then Ok(s.spent) else Err(Unavailable))
  }

  // ----- any run of operations on one day's file ------------------------------------

  datatype DayOp =
    | Reserve(estimate: real, id: Id, day: Day, now: real, stamp: real, io: SpendIo)
    | Close(id: Id, closing: Closing, now: real, io: SpendIo)
    | Alert(name: string, now: real, io: SpendIo)
    | Spent(readOnly: bool, now: real, io: SpendIo)
    | Damage(left: DayFile)

  ghost function Apply(cap: real, f: DayFile, op: DayOp): DayFile {
    match op
    case Reserve(estimate, id, day, now, stamp, io) => ReserveOn(cap, f, estimate, id, day, now, stamp, io).0
    case Close(id, closing, now, io) => CloseOn(cap, f, id, closing, now, io).0
    case Alert(name, now, io) => AlertOn(cap, f, name, now, io).0
    case Spent(readOnly, now, io) => SpentOn(cap, f, readOnly, now, io).0
    case Damage(left) => left
  }

  ghost function After(cap: real, f: DayFile, ops: seq<DayOp>): DayFile {
    if ops == [] then f else Apply(cap, After(cap, f, Init(ops)), Last(ops))
  }

  /** Damage leaves something unreadable. */
  predicate Undoctored(ops: seq<DayOp>) {
    forall op :: op in ops && op.Damage? ==> !Readable(op.left)
  }

  function ExcessOver(actual: real, reserved: real): real {
    Positive(Positive(actual) - reserved)
  }

  /** What one operation settles above the reservation it closes. */
  function ExcessOf(cap: real, f: DayFile, op: DayOp): (excess: real)
    ensures excess >= 0.0
  {
    match op
    case Close(id, AsSettled(actual), now, io) =>
      var begun := Begin(cap, f, io).1;
      if begun.Some? && io.written && id in Expire(begun.value, now).reservations
      then ExcessOver(actual, begun.value.reservations[id].amount) else 0.0
    case _ => 0.0
  }

  /** The sum of what a run settles above its reservations. */
  ghost function Overspent(cap: real, f: DayFile, ops: seq<DayOp>): (excess: real)
    ensures excess >= 0.0
  {
    if ops == [] then 0.0
    else Overspent(cap, f, Init(ops)) + ExcessOf(cap, After(cap, f, Init(ops)), Last(ops))
  }

  /** Money spent and money reserved stay within the cap and an excess. */
  ghost predicate Bounded(cap: real, f: DayFile, excess: real) {
    Readable(f) && f.Stored? ==> f.state.spent + Total(f.state.reservations) <= cap + excess
  }

  ghost predicate StateBounded(cap: real, s: SpendState, excess: real) {
    IsValid(s) && s.spent + Total(s.reservations) <= cap + excess
  }

  lemma BeginBounded(cap: real, f: DayFile, now: real, io: SpendIo, excess: real)
    requires cap >= 0.0 && excess >= 0.0 && Bounded(cap, f, excess)
    ensures var (f1, begun) := Begin(cap, f, io);
      && Bounded(cap, f1, excess)
      && (begun.Some? ==> StateBounded(cap, Expire(begun.value, now), excess))
  {
    assert Total(map[]) == 0.0;
    var (f1, begun) := Begin(cap, f, io);
    if begun.Some? {
      TotalOfFewer(begun.value.reservations, Unexpired(begun.value.reservations, now));
    }
  }

  /** Closing exchanges a reservation for a charge, so the sum rises by at most what
      the charge exceeds it. */
  lemma CloseBounded(cap: real, s: SpendState, id: Id, closing: Closing, excess: real)
    requires StateBounded(cap, s, excess)
    ensures StateBounded(cap, Closed(s, id, closing),
      excess + if closing.AsSettled? && id in s.reservations then ExcessOver(closing.actual, s.reservations[id].amount) else 0.0)
  {
    if id in s.reservations {
      TotalTake(s.reservations, id);
    }
  }

  lemma HoldBounded(cap: real, s: SpendState, id: Id, amount: real, stamp: real, day: Day, excess: real)
    requires IsValid(s) && amount >= 0.0 && DayShaped(day) && excess >= 0.0
    requires s.spent + Total(s.reservations) + amount <= cap
    ensures StateBounded(cap, s.(reservations := s.reservations[id := Item(amount, stamp, Some(day))]), excess)
  {
    TotalAdd(s.reservations, id, Item(amount, stamp, Some(day)));
  }

  lemma StoreBounded(cap: real, f: DayFile, s: SpendState, io: SpendIo, excess: real, more: real)
    requires Bounded(cap, f, excess) && (io.written && IsValid(s) ==> StateBounded(cap, s, more)) && excess <= more
    ensures Bounded(cap, Store(f, s, io), more)
  {
  }

  lemma ApplyBounded(cap: real, f: DayFile, op: DayOp, excess: real)
    requires cap >= 0.0 && excess >= 0.0 && Bounded(cap, f, excess) && (op.Damage? ==> !Readable(op.left))
    ensures Bounded(cap, Apply(cap, f, op), excess + ExcessOf(cap, f, op))
  {
    if !op.Damage? {
      BeginBounded(cap, f, op.now, op.io, excess);
      var (f1, begun) := Begin(cap, f, op.io);
      if begun.Some? {
        var s := Expire(begun.value, op.now);
        match op
        case Close(id, closing, now, io) =>
          hide Begin, Expire, Total, IsValid, Closed, Bounded, StateBounded, Readable, ExcessOver, ExcessOf;
          ExcessKnown(cap, f, id, closing, now, io);
          CloseBounded(cap, s, id, closing, excess);
          StoreBounded(cap, f1, Closed(s, id, closing), io, excess, excess + ExcessOf(cap, f, op));
        case Reserve(estimate, id, day, now, stamp, io) =>
          hide Begin, Expire, Total, Bounded, Readable;
          StoreBounded(cap, f1, s, io, excess, excess);
          if s.spent + Total(s.reservations) + Positive(estimate) <= cap {
            var held := s.(reservations := s.reservations[id := Item(Positive(estimate), stamp, Some(day))]);
            if DayShaped(day) {
              HoldBounded(cap, s, id, Positive(estimate), stamp, day, excess);
            } else {
              assert held.reservations[id].day == Some(day);
            }
            StoreBounded(cap, f1, held, io, excess, excess);
          }
        case Alert(name, now, io) =>
          hide Begin, Expire, Total, Bounded, Readable;
          StoreBounded(cap, f1, s, io, excess, excess);
          StoreBounded(cap, f1, s.(alerts := s.alerts + [name]), io, excess, excess);
        case Spent(_, now, io) =>
          hide Begin, Expire, Total, IsValid, Bounded, StateBounded, Readable;
          StoreBounded(cap, f1, s, io, excess, excess);
      }
    }
  }

  lemma ExcessKnown(cap: real, f: DayFile, id: Id, closing: Closing, now: real, io: SpendIo)
    requires Begin(cap, f, io).1.Some?
    ensures var s := Expire(Begin(cap, f, io).1.value, now);
      io.written && closing.AsSettled? && id in s.reservations ==>
        ExcessOf(cap, f, Close(id, closing, now, io)) == ExcessOver(closing.actual, s.reservations[id].amount)
  {
  }

  /** Over any run of operations on a day's file, by any number of processes, with
      expiry, failing writes and damaged files, what is spent and reserved stays
      within the cap and the sum of what was settled above its reservations. */
  lemma {:induction false} SpendCappedPlusExcess(cap: real, ops: seq<DayOp>)
    requires cap >= 0.0 && Undoctored(ops)
    ensures Bounded(cap, After(cap, Absent, ops), Overspent(cap, Absent, ops))
  {
    hide Bounded, Apply, ExcessOf;
    if ops == [] {
      NothingStored(cap);
    } else {
      assert ops == Init(ops) + [Last(ops)];
      SpendCappedPlusExcess(cap, Init(ops));
      ApplyBounded(cap, After(cap, Absent, Init(ops)), Last(ops), Overspent(cap, Absent, Init(ops)));
    }
  }

  lemma NothingStored(cap: real)
    ensures Bounded(cap, Absent, 0.0)
  {
  }

  /** No reply is settled at a full micro-USD or more above its reservation. */
  ghost predicate AllWithinMicro(cap: real, f: DayFile, ops: seq<DayOp>) {
    forall k :: 0 <= k < |ops| ==> ExcessOf(cap, After(cap, f, ops[..k]), ops[k]) < 1.0
  }

  function Settlements(ops: seq<DayOp>): nat {
    if ops == [] then 0
    else Settlements(Init(ops)) + if Last(ops).Close? && Last(ops).closing.AsSettled? then 1 else 0
  }

  lemma {:induction false} OverspentWithinMicro(cap: real, f: DayFile, ops: seq<DayOp>)
    requires AllWithinMicro(cap, f, ops)
    ensures Overspent(cap, f, ops) <= Settlements(ops) as real
  {
    hide Apply;
    if ops != [] {
      forall k | 0 <= k < |Init(ops)|
        ensures ExcessOf(cap, After(cap, f, Init(ops)[..k]), Init(ops)[k]) < 1.0
      {
        assert Init(ops)[..k] == ops[..k];
        assert ExcessOf(cap, After(cap, f, ops[..k]), ops[k]) < 1.0;
      }
      OverspentWithinMicro(cap, f, Init(ops));
      assert ops[..|ops| - 1] == Init(ops);
      assert ExcessOf(cap, After(cap, f, ops[..|ops| - 1]), ops[|ops| - 1]) < 1.0;
    }
  }

  /** So if no settlement is a full micro-USD or more above its reservation, that is
      within the cap and one micro-USD for each settled reply. */
  lemma SpendBound(cap: real, ops: seq<DayOp>)
    requires cap >= 0.0 && Undoctored(ops) && AllWithinMicro(cap, Absent, ops)
    ensures Bounded(cap, After(cap, Absent, ops), Settlements(ops) as real)
  {
    hide After, AllWithinMicro, Overspent;
    SpendCappedPlusExcess(cap, ops);
    OverspentWithinMicro(cap, Absent, ops);
  }

  // ----- one reservation among the operations of others ----------------------------

  function ItemsOf(f: DayFile): Items {
    if f.Stored? then f.state.reservations else map[]
  }

  function SpentIn(f: DayFile): real {
    if f.Stored? then f.state.spent else 0.0
  }

  ghost predicate HoldsItem(f: DayFile, id: Id, item: Item) {
    Readable(f) && id in ItemsOf(f) && ItemsOf(f)[id] == item
  }

  /** An operation that neither damages the file nor closes or reuses the id. */
  predicate Elsewhere(op: DayOp, id: Id) {
    match op
    case Damage(_) => false
    case Close(other, _, _, _) => other != id
    case Reserve(_, other, day, _, _, _) => other != id && DayShaped(day)
    case _ => true
  }

  lemma KeepsItem(cap: real, f: DayFile, op: DayOp, id: Id, item: Item)
    requires HoldsItem(f, id, item) && Elsewhere(op, id) && op.now - item.stamp <= LIFETIME
    ensures HoldsItem(Apply(cap, f, op), id, item)
  {
    hide Total;
  }

  lemma {:induction false} HeldThrough(cap: real, f: DayFile, ops: seq<DayOp>, id: Id, item: Item)
    requires HoldsItem(f, id, item)
    requires forall op :: op in ops ==> Elsewhere(op, id) && op.now - item.stamp <= LIFETIME
    ensures HoldsItem(After(cap, f, ops), id, item)
  {
    hide HoldsItem, Apply, Elsewhere;
    if ops != [] {
      HeldThrough(cap, f, Init(ops), id, item);
      KeepsItem(cap, After(cap, f, Init(ops)), Last(ops), id, item);
    }
  }

  /** The operation does not see the reservation expired. */
  predicate InLifetime(op: DayOp, item: Item) {
    !op.Damage? && op.now - item.stamp <= LIFETIME
  }

  lemma KeepsOrDrops(cap: real, f: DayFile, op: DayOp, id: Id, item: Item)
    requires Readable(f) && (id in ItemsOf(f) ==> ItemsOf(f)[id] == item) && Elsewhere(op, id)
    ensures var f' := Apply(cap, f, op); Readable(f') && (id in ItemsOf(f') ==> ItemsOf(f')[id] == item)
  {
    hide Total, DayShaped;
    match op
    case Reserve(_, _, _, _, _, _) =>
    case Close(_, _, _, _) =>
    case Alert(_, _, _) =>
    case Spent(_, _, _) =>
  }

  lemma {:induction false} HeldOrDropped(cap: real, f: DayFile, ops: seq<DayOp>, id: Id, item: Item)
    requires HoldsItem(f, id, item) && forall op :: op in ops ==> Elsewhere(op, id)
    ensures var f' := After(cap, f, ops); Readable(f') && (id in ItemsOf(f') ==> ItemsOf(f')[id] == item)
  {
    hide Apply, Elsewhere;
    if ops != [] {
      HeldOrDropped(cap, f, Init(ops), id, item);
      KeepsOrDrops(cap, After(cap, f, Init(ops)), Last(ops), id, item);
    }
  }

  /** A reservation closed within its lifetime, before any operation has seen it
      expired, is charged exactly what its closing says, whatever others did in
      between. Closed after its lifetime it is charged nothing at all. */
  lemma ChargedExactly(cap: real, f: DayFile, ops: seq<DayOp>, id: Id, item: Item, closing: Closing, now: real, io: SpendIo)
    requires HoldsItem(f, id, item) && io.written
    requires forall op :: op in ops ==> Elsewhere(op, id)
    ensures var before := After(cap, f, ops);
      var (after, r) := CloseOn(cap, before, id, closing, now, io);
      && r.Ok? && Readable(after) && id !in ItemsOf(after)
      && (now - item.stamp <= LIFETIME && (forall op :: op in ops ==> InLifetime(op, item)) ==>
            SpentIn(after) == SpentIn(before) + ChargeOf(closing, item.amount))
      && (now - item.stamp > LIFETIME ==> SpentIn(after) == SpentIn(before))
  {
    hide After, Apply, Elsewhere;
    HeldOrDropped(cap, f, ops, id, item);
    if forall op :: op in ops ==> InLifetime(op, item) {
      HeldThrough(cap, f, ops, id, item);
    }
  }

  lemma StaysAbsent(cap: real, f: DayFile, op: DayOp, id: Id)
    requires Readable(f) && id !in ItemsOf(f) && !op.Damage? && !(op.Reserve? && (op.id == id || !DayShaped(op.day)))
    ensures Readable(Apply(cap, f, op)) && id !in ItemsOf(Apply(cap, f, op))
  {
    hide Total;
  }

  /** A closed reservation is never charged again: its id does not come back, and
      closing it a second time leaves the money spent as it is. */
  lemma {:induction false} ChargedOnce(cap: real, f: DayFile, ops: seq<DayOp>, id: Id, again: Closing, now: real, io: SpendIo)
    requires Readable(f) && id !in ItemsOf(f)
    requires forall op :: op in ops ==> !op.Damage? && !(op.Reserve? && (op.id == id || !DayShaped(op.day)))
    ensures var before := After(cap, f, ops);
      Readable(before) && id !in ItemsOf(before) && SpentIn(CloseOn(cap, before, id, again, now, io).0) == SpentIn(before)
  {
    hide Apply;
    if ops != [] {
      ChargedOnce(cap, f, Init(ops), id, again, now, io);
      StaysAbsent(cap, After(cap, f, Init(ops)), Last(ops), id);
    }
  }

  predicate Alerted(f: DayFile, name: string) {
    Readable(f) && f.Stored? && name in f.state.alerts
  }

  lemma KeepsAlert(cap: real, f: DayFile, op: DayOp, name: string)
    requires Alerted(f, name) && !op.Damage? && (op.Reserve? ==> DayShaped(op.day))
    ensures Alerted(Apply(cap, f, op), name)
  {
    hide Total;
  }

  lemma {:induction false} StaysAlerted(cap: real, f: DayFile, ops: seq<DayOp>, name: string)
    requires Alerted(f, name)
    requires forall op :: op in ops ==> !op.Damage? && (op.Reserve? ==> DayShaped(op.day))
    ensures Alerted(After(cap, f, ops), name)
  {
    hide Apply;
    if ops != [] {
      StaysAlerted(cap, f, Init(ops), name);
      KeepsAlert(cap, After(cap, f, Init(ops)), Last(ops), name);
    }
  }

  /** An alert is raised once a day: the first raising that is written says so, and
      every later one, whatever happens in between, says that it was raised before. */
  lemma AlertedOnce(cap: real, f: DayFile, name: string, now: real, io: SpendIo, ops: seq<DayOp>, later: real, laterIo: SpendIo)
    requires Readable(f) && !Alerted(f, name) && io.written && laterIo.written
    requires forall op :: op in ops ==> !op.Damage? && (op.Reserve? ==> DayShaped(op.day))
    ensures var (raised, first) := AlertOn(cap, f, name, now, io);
      first == Ok(true) && AlertOn(cap, After(cap, raised, ops), name, later, laterIo).1 == Ok(false)
  {
    hide After;
    StaysAlerted(cap, AlertOn(cap, f, name, now, io).0, ops, name);
  }

  /** A damaged day stays shut unless the write that closes it fails after the
      damaged file was moved aside: then, and only then, the next reservation
      that fits an empty day is granted. */
  lemma DamagedDayReopensExactly(cap: real, f: DayFile, op: DayOp, estimate: real, id: Id, day: Day, now: real, stamp: real)
    requires !Readable(f) && !op.Damage? && 0.0 < estimate <= cap
    ensures ReserveOn(cap, Apply(cap, f, op), estimate, id, day, now, stamp, SpendIo(ResetFine, true)).1.Ok? <==>
      op.io.reset == OnlyMovedAside
  {
    assert Total(map[]) == 0.0;
    if op.io.reset == ResetFine {
      UsedUpRefuses(cap, Apply(cap, f, op), estimate, id, day, now, stamp, SpendIo(ResetFine, true));
    }
  }

  lemma UsedUpRefuses(cap: real, f: DayFile, estimate: real, id: Id, day: Day, now: real, stamp: real, io: SpendIo)
    requires cap > 0.0 && estimate > 0.0 && f.Stored? && f.state.spent == cap && NonNegative(f.state.reservations)
    ensures ReserveOn(cap, f, estimate, id, day, now, stamp, io).1.Err?
  {
    assert Total(map[]) == 0.0;
    TotalNonNegative(Unexpired(f.state.reservations, now));
  }
}
