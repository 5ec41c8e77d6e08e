/** The application spend store: every operation opens the day's file under its
    lock, changes the state it read, and writes it back. */
module AppSpends {
  import opened Basics
  import opened Days
  import opened AppSpendFiles

  function FileAt(files: DayFiles, day: Day): DayFile {
    if day in files then files[day] else Absent
  }

  /** One day's file became `f`; the other days' files are as they were. */
  ghost predicate Replaced(before: DayFiles, after: DayFiles, day: Day, f: DayFile) {
    forall d :: FileAt(after, d) == if d == day then f else FileAt(before, d)
  }

  class AppSpend {
    const cap: real
    var files: DayFiles

    constructor (cap: real, files: DayFiles)
      ensures this.cap == cap && this.files == files
    {
      this.cap, this.files := cap, files;
    }

    /** Opens a day's file, replacing it when it cannot be read, and drops the
        reservations that have expired. */
    method LockedState(day: Day, now: real, io: SpendIo) returns (s: Option<SpendState>)
      modifies this`files
      ensures var (f, begun) := Begin(cap, FileAt(old(files), day), io);
        && Replaced(old(files), files, day, f)
        && s == (if begun.Some? then Some(Expire(begun.value, now)) else None)
    {
      var raw := FRESH;
      if day in files && !files[day].Absent? {
        if files[day].Stored? && IsValid(files[day].state) {
          raw := files[day].state;
        } else {
          if io.reset == OnlyMovedAside {
            files := files[day := Absent];
          }
          if io.reset != ResetFine {
            return None;
          }
          raw := FRESH.(spent := cap);
          files := files[day := Stored(raw)];
        }
      }
      return Some(raw.(reservations := map id | id in raw.reservations && now - raw.reservations[id].stamp <= LIFETIME
                                         :: raw.reservations[id]));
    }

    method Write(day: Day, s: SpendState, io: SpendIo) returns (ok: bool)
      modifies this`files
      ensures ok == io.written
      ensures Replaced(old(files), files, day, Store(FileAt(old(files), day), s, io))
    {
      if io.written {
        files := files[day := Stored(s)];
      }
      return io.written;
    }

    static method OpenTotal(items: Items) returns (total: real)
      ensures total == Total(items)
    {
      total := 0.0;
      var left := items;
      while left != map[]
        invariant total + Total(left) == Total(items)
        decreases |left|
      {
        var id :| id in left;
        TotalTake(left, id);
        total := total + left[id].amount;
        left := left - {id};
      }
    }

    /** Holds an estimated amount against today's cap, or refuses. */
    method Reserve(estimated: real, today: Day, unique: string, now: real, stamp: real, io: SpendIo)
      returns (r: Result<Id, SpendError>)
      modifies this`files
      ensures var (f, answer) :=
          ReserveOn(cap, FileAt(old(files), today), estimated, MakeId(today, unique), today, now, stamp, io);
        Replaced(old(files), files, today, f) && r == answer
    {
      hide IsValid;
      var estimate := if estimated > 0.0 then estimated else 0.0;
      var state := LockedState(today, now, io);
      if state.None? {
        return Err(Unavailable);
      }
      var s := state.value;
      var openTotal := OpenTotal(s.reservations);
      if s.spent + openTotal + estimate > cap {
        var kept := Write(today, s, io);
        return Err(if kept then Exhausted else Unavailable);
      }
      var id := MakeId(today, unique);
      var ok := Write(today, s.(reservations := s.reservations[id := Item(estimate, stamp, Some(today))]), io);
      return if ok then Ok(id) else Err(Unavailable);
    }

    method Settle(id: Id, actual: real, today: Day, now: real, io: SpendIo) returns (r: Result<(), SpendError>)
      modifies this`files
      ensures var day := ReservationDay(id, today);
        var (f, answer) := CloseOn(cap, FileAt(old(files), day), id, AsSettled(actual), now, io);
        Replaced(old(files), files, day, f) && r == answer
    {
      hide IsValid;
      var day := ReservationDay(id, today);
      var state := LockedState(day, now, io);
      if state.None? {
        return Err(Unavailable);
      }
      var s := state.value;
      if id in s.reservations {
        s := s.(reservations := s.reservations - {id}, spent := s.spent + if actual > 0.0 then actual else 0.0);
      }
      var ok := Write(day, s, io);
      return if ok then Ok(()) else Err(Unavailable);
    }

    /** The outcome of a paid request is unknown: its whole reservation is spent. */
    method SettleUnknown(id: Id, today: Day, now: real, io: SpendIo) returns (r: Result<(), SpendError>)
      modifies this`files
      ensures var day := ReservationDay(id, today);
        var (f, answer) := CloseOn(cap, FileAt(old(files), day), id, AsUnknown, now, io);
        Replaced(old(files), files, day, f) && r == answer
    {
      hide IsValid;
      var day := ReservationDay(id, today);
      var state := LockedState(day, now, io);
      if state.None? {
        return Err(Unavailable);
      }
      var s := state.value;
      if id in s.reservations {
        var reserved := s.reservations[id].amount;
        s := s.(reservations := s.reservations - {id}, spent := s.spent + reserved);
      }
      var ok := Write(day, s, io);
      return if ok then Ok(()) else Err(Unavailable);
    }

    method Release(id: Id, today: Day, now: real, io: SpendIo) returns (r: Result<(), SpendError>)
      modifies this`files
      ensures var day := ReservationDay(id, today);
        var (f, answer) := CloseOn(cap, FileAt(old(files), day), id, AsReleased, now, io);
        Replaced(old(files), files, day, f) && r == answer
    {
      hide IsValid;
      var day := ReservationDay(id, today);
      var state := LockedState(day, now, io);
      if state.None? {
        return Err(Unavailable);
      }
      var s := state.value;
      var left := s.(reservations := s.reservations - {id});
      assert left == Closed(s, id, AsReleased) by {
        assert id !in s.reservations ==> s.reservations - {id} == s.reservations;
      }
      var ok := Write(day, left, io);
      return if ok then Ok(()) else Err(Unavailable);
    }

    /** True the first time a name is raised on a day. */
    method AlertOnce(name: string, today: Day, now: real, io: SpendIo) returns (r: Result<bool, SpendError>)
      modifies this`files
      ensures var (f, answer) := AlertOn(cap, FileAt(old(files), today), name, now, io);
        Replaced(old(files), files, today, f) && r == answer
    {
      hide IsValid;
      var state := LockedState(today, now, io);
      if state.None? {
        return Err(Unavailable);
      }
      var s := state.value;
      var isNew := name !in s.alerts;
      if isNew {
        s := s.(alerts := s.alerts + [name]);
      }
      var ok := Write(today, s, io);
      return if ok then Ok(isNew) else Err(Unavailable);
    }

    method SpentToday(readOnly: bool, today: Day, now: real, io: SpendIo) returns (r: Result<real, SpendError>)
      modifies this`files
      ensures var (f, answer) := SpentOn(cap, FileAt(old(files), today), readOnly, now, io);
        Replaced(old(files), files, today, f) && r == answer
    {
      hide IsValid;
      if readOnly {
        if today !in files || files[today].Absent? {
          return Ok(0.0);
        }
        if files[today].Stored? && IsValid(files[today].state) {
          return Ok(files[today].state.spent);
        }
      }
      var state := LockedState(today, now, io);
      if state.None? {
        return Err(Unavailable);
      }
      var ok := Write(today, state.value, io);
      return if ok then Ok(state.value.spent) else Err(Unavailable);
    }
  }

}
