/** Reading the idempotency table of a snapshot, in its present form or in the
    older one that did not index keys by day. */
module LegacyUpgrade {
  import opened Basics
  import opened Days
  import opened LedgerModel
  import opened LedgerHistory
  import opened LedgerKeys

  /** One value of the stored table: a day's bucket, an outcome stored under its
      key alone, or something that is not a table at all. */
  datatype Stored =
    | Bucket(markers: map<Key, Marker>)
    | Outcome(marker: Marker, recordedDay: Option<Day>)
    | Junk

  /** The stored table lists its entries in the order they were written. */
  type Table = seq<(string, Stored)>

  predicate DistinctKeys(table: Table) {
    forall i, j :: 0 <= i < j < |table| ==> table[i].0 != table[j].0
  }

  /** The day an old entry belongs to: its reservation's own day when that is
      still live, else the day recorded with it, else the snapshot's day. */
  function DayFor(live: LiveTable, legacyDay: Option<Day>, m: Marker, recordedDay: Option<Day>): Option<Day> {
    if m.rid in live then Some(live[m.rid].day)
    else if recordedDay.Some? then recordedDay
    else legacyDay
  }

  function Upgraded(live: LiveTable, legacyDay: Option<Day>, table: Table): Idempotency {
    if table == [] then map[]
    else Entered(live, legacyDay, Upgraded(live, legacyDay, Init(table)), Last(table))
  }

  function Entered(live: LiveTable, legacyDay: Option<Day>, idem: Idempotency, entry: (string, Stored)): Idempotency {
    match entry.1
    case Junk => idem
    case Bucket(markers) => idem[entry.0 := markers]
    case Outcome(m, recordedDay) =>
      match DayFor(live, legacyDay, m, recordedDay)
      case None => idem
      case Some(day) => Put(idem, day, entry.0, m)
  }

  /** The loop of the program. */
  method NewIdempotency(live: LiveTable, legacyDay: Option<Day>, table: Table) returns (idem: Idempotency)
    ensures idem == Upgraded(live, legacyDay, table)
  {
    idem := map[];
    for i := 0 to |table|
      invariant idem == Upgraded(live, legacyDay, table[..i])
    {
      AppendParts(table[..i], table[i]);
      assert table[..i + 1] == table[..i] + [table[i]];
      var key, value := table[i].0, table[i].1;
      if value.Junk? {
        continue;
      }
      if value.Bucket? {
        idem := idem[key := value.markers];
        continue;
      }
      var day := legacyDay;
      if value.marker.rid in live {
        day := Some(live[value.marker.rid].day);
      } else if value.recordedDay.Some? {
        day := value.recordedDay;
      }
      if day.Some? {
        var bucket := if day.value in idem then idem[day.value] else map[];
        idem := idem[day.value := bucket[key := value.marker]];
      }
    }
    assert table[..|table|] == table;
  }

  // ----- the present form is read as it stands ------------------------------------

  /** The table lists exactly the buckets of `idem`, each under its day. */
  ghost predicate Lists(table: Table, idem: Idempotency) {
    && DistinctKeys(table)
    && (forall i :: 0 <= i < |table| ==> table[i].0 in idem && table[i].1 == Bucket(idem[table[i].0]))
    && (forall day :: day in idem ==> HasEntry(table, day))
  }

  ghost predicate HasEntry(table: Table, name: string) {
    exists i :: 0 <= i < |table| && table[i].0 == name
  }

  lemma HasEntryAppended(table: Table, name: string)
    requires table != []
    ensures HasEntry(table, name) <==> HasEntry(Init(table), name) || name == Last(table).0
  {
    var before := Init(table);
    if i :| 0 <= i < |before| && before[i].0 == name {
      assert table[i].0 == name;
    }
    if i :| 0 <= i < |table| && table[i].0 == name && i < |before| {
      assert before[i].0 == name;
    }
    assert table[|table| - 1].0 == Last(table).0;
  }

  lemma {:induction false} BucketsRead(live: LiveTable, legacyDay: Option<Day>, table: Table, idem: Idempotency)
    requires forall i :: 0 <= i < |table| ==> table[i].0 in idem && table[i].1 == Bucket(idem[table[i].0])
    ensures var r := Upgraded(live, legacyDay, table);
      && (forall day :: day in r <==> HasEntry(table, day))
      && (forall day :: day in r ==> day in idem && r[day] == idem[day])
  {
    hide HasEntry, Put, DayFor;
    if table == [] {
      forall day
        ensures !HasEntry(table, day)
      {
        NoEntries(table, day);
      }
    } else {
      BucketsRead(live, legacyDay, Init(table), idem);
      forall day
        ensures HasEntry(table, day) <==> HasEntry(Init(table), day) || day == Last(table).0
      {
        HasEntryAppended(table, day);
      }
      assert table[|table| - 1] == Last(table);
    }
  }

  lemma NoEntries(table: Table, name: string)
    requires table == []
    ensures !HasEntry(table, name)
  {
  }

  /** Upgrading the present form changes nothing; so neither does upgrading the
      form that an upgrade is written back in. */
  lemma UpgradeIsIdentity(live: LiveTable, legacyDay: Option<Day>, table: Table, idem: Idempotency)
    requires Lists(table, idem)
    ensures Upgraded(live, legacyDay, table) == idem
  {
    BucketsRead(live, legacyDay, table, idem);
  }

  // ----- any table: the last entry about a day's key decides -------------------------

  /** The entry decides what a day says about a key: a bucket for every key of its
      day, an old outcome for its own key on the day it belongs to. */
  predicate Decides(live: LiveTable, legacyDay: Option<Day>, entry: (string, Stored), d: Day, k: Key) {
    match entry.1
    case Junk => false
    case Bucket(_) => entry.0 == d
    case Outcome(m, recordedDay) => entry.0 == k && BelongsTo(live, legacyDay, m, recordedDay, d)
  }

  /** The day is that of the outcome's reservation if it is live, else the day recorded
      with the outcome, else the snapshot's. */
  predicate BelongsTo(live: LiveTable, legacyDay: Option<Day>, m: Marker, recordedDay: Option<Day>, d: Day) {
    && (m.rid in live ==> d == live[m.rid].day)
    && (m.rid !in live && recordedDay.Some? ==> d == recordedDay.value)
    && (m.rid !in live && recordedDay.None? ==> legacyDay == Some(d))
  }

  function Decision(entry: (string, Stored), k: Key): Option<Marker> {
    match entry.1
    case Junk => None
    case Bucket(markers) => if k in markers then Some(markers[k]) else None
    case Outcome(m, _) => Some(m)
  }

  predicate LastToDecide(live: LiveTable, legacyDay: Option<Day>, table: Table, i: nat, d: Day, k: Key) {
    && i < |table| && Decides(live, legacyDay, table[i], d, k)
    && forall j :: i < j < |table| ==> !Decides(live, legacyDay, table[j], d, k)
  }

  /** Whatever a table mixes, a day says about a key what the last entry that
      decides it says. */
  lemma {:induction false} LastEntryDecides(live: LiveTable, legacyDay: Option<Day>, table: Table, i: nat, d: Day, k: Key)
    requires LastToDecide(live, legacyDay, table, i, d, k)
    ensures Find(Upgraded(live, legacyDay, table), d, k) == Decision(table[i], k)
  {
    hide Decides, Decision, Find, Entered;
    EntryDecides(live, legacyDay, Upgraded(live, legacyDay, Init(table)), Last(table), d, k);
    if i < |table| - 1 {
      assert !Decides(live, legacyDay, table[|table| - 1], d, k);
      LastEntryDecides(live, legacyDay, Init(table), i, d, k);
    }
  }

  /** And nothing about a key that no entry decides. */
  lemma {:induction false} NoEntryDecides(live: LiveTable, legacyDay: Option<Day>, table: Table, d: Day, k: Key)
    requires forall i :: 0 <= i < |table| ==> !Decides(live, legacyDay, table[i], d, k)
    ensures Find(Upgraded(live, legacyDay, table), d, k) == None
  {
    if table != [] {
      hide Decides, Decision, Find, Entered;
      EntryDecides(live, legacyDay, Upgraded(live, legacyDay, Init(table)), Last(table), d, k);
      assert !Decides(live, legacyDay, table[|table| - 1], d, k);
      NoEntryDecides(live, legacyDay, Init(table), d, k);
    }
  }

  lemma EntryDecides(live: LiveTable, legacyDay: Option<Day>, idem: Idempotency, entry: (string, Stored), d: Day, k: Key)
    ensures Find(Entered(live, legacyDay, idem, entry), d, k) ==
      if Decides(live, legacyDay, entry, d, k) then Decision(entry, k) else Find(idem, d, k)
  {
    if entry.1.Outcome? {
      DayExactly(live, legacyDay, entry.1.marker, entry.1.recordedDay, d);
    }
    hide DayFor, BelongsTo;
  }

  lemma DayExactly(live: LiveTable, legacyDay: Option<Day>, m: Marker, recordedDay: Option<Day>, d: Day)
    ensures DayFor(live, legacyDay, m, recordedDay) == Some(d) <==> BelongsTo(live, legacyDay, m, recordedDay, d)
  {
  }

  /** The entry says that a key has outcome m on day d. */
  predicate Says(live: LiveTable, legacyDay: Option<Day>, entry: (string, Stored), d: Day, k: Key, m: Marker) {
    Decides(live, legacyDay, entry, d, k) && Decision(entry, k) == Some(m)
  }

  /** Entry i has the last word on a key of a day, and it says m. */
  predicate HasLastWord(live: LiveTable, legacyDay: Option<Day>, table: Table, i: nat, d: Day, k: Key, m: Marker) {
    LastToDecide(live, legacyDay, table, i, d, k) && Decision(table[i], k) == Some(m)
  }

  /** What an upgraded table holds, whatever forms the stored one mixes: the outcomes
      that some entry has the last word on, and nothing else. */
  lemma OutcomesRead(live: LiveTable, legacyDay: Option<Day>, table: Table, d: Day, k: Key, m: Marker)
    ensures Find(Upgraded(live, legacyDay, table), d, k) == Some(m) <==>
      exists i: nat :: HasLastWord(live, legacyDay, table, i, d, k, m)
  {
    hide Find, Upgraded, Decides, Decision;
    if exists i: nat :: LastToDecide(live, legacyDay, table, i, d, k) {
      var i: nat :| LastToDecide(live, legacyDay, table, i, d, k);
      LastEntryDecides(live, legacyDay, table, i, d, k);
      if Decision(table[i], k) == Some(m) {
        assert HasLastWord(live, legacyDay, table, i, d, k, m);
      }
      forall j: nat | LastToDecide(live, legacyDay, table, j, d, k)
        ensures j == i
      {
        OneLast(live, legacyDay, table, i, j, d, k);
      }
    } else {
      NobodyDecides(live, legacyDay, table, |table|, d, k);
      NoEntryDecides(live, legacyDay, table, d, k);
    }
  }

  lemma OneLast(live: LiveTable, legacyDay: Option<Day>, table: Table, i: nat, j: nat, d: Day, k: Key)
    requires LastToDecide(live, legacyDay, table, i, d, k) && LastToDecide(live, legacyDay, table, j, d, k)
    ensures i == j
  {
    hide Decides;
  }

  /** If no entry is the last to decide, then none decides at all. */
  lemma {:induction false} NobodyDecides(live: LiveTable, legacyDay: Option<Day>, table: Table, n: nat, d: Day, k: Key)
    requires n <= |table| && forall i: nat :: !LastToDecide(live, legacyDay, table, i, d, k)
    ensures forall j :: |table| - n <= j < |table| ==> !Decides(live, legacyDay, table[j], d, k)
  {
    hide Decides;
    if n > 0 {
      NobodyDecides(live, legacyDay, table, n - 1, d, k);
      assert !LastToDecide(live, legacyDay, table, |table| - n, d, k);
    }
  }

  // ----- tables in which the order of entries does not matter ---------------------------

  /** No day has both a bucket of its own and old outcomes that belong to it, as in
      a table wholly in either form. */
  predicate Separate(live: LiveTable, legacyDay: Option<Day>, table: Table) {
    forall i, j :: 0 <= i < |table| && 0 <= j < |table| && table[i].1.Bucket? && table[j].1.Outcome? ==>
      DayFor(live, legacyDay, table[j].1.marker, table[j].1.recordedDay) != Some(table[i].0)
  }

  lemma DecidedOnce(live: LiveTable, legacyDay: Option<Day>, table: Table, i: nat, d: Day, k: Key)
    requires DistinctKeys(table) && Separate(live, legacyDay, table)
    requires i < |table| && Decides(live, legacyDay, table[i], d, k)
    ensures LastToDecide(live, legacyDay, table, i, d, k)
  {
  }

  /** There every entry is heard: every old entry lands on exactly one day, the one
      it belongs to, every bucket on its own day, and nothing else is there. */
  lemma EveryEntryHeard(live: LiveTable, legacyDay: Option<Day>, table: Table, d: Day, k: Key, m: Marker)
    requires DistinctKeys(table) && Separate(live, legacyDay, table)
    ensures Find(Upgraded(live, legacyDay, table), d, k) == Some(m) <==>
      exists i :: 0 <= i < |table| && Says(live, legacyDay, table[i], d, k, m)
  {
    hide Find, Upgraded, Decides, Decision, Separate, DistinctKeys;
    OutcomesRead(live, legacyDay, table, d, k, m);
    forall i | 0 <= i < |table| && Says(live, legacyDay, table[i], d, k, m)
      ensures HasLastWord(live, legacyDay, table, i, d, k, m)
    {
      DecidedOnce(live, legacyDay, table, i, d, k);
    }
    forall i: nat | HasLastWord(live, legacyDay, table, i, d, k, m)
      ensures Says(live, legacyDay, table[i], d, k, m)
    {
    }
  }

  lemma OneFormSeparate(live: LiveTable, legacyDay: Option<Day>, table: Table)
    requires (forall i :: 0 <= i < |table| ==> !table[i].1.Bucket?) || (forall i :: 0 <= i < |table| ==> !table[i].1.Outcome?)
    ensures Separate(live, legacyDay, table)
  {
  }

  // ----- live reservations and live markers --------------------------------------------

  /** Each live reservation has the live marker of its own day and key, and each live
      marker names a live reservation of that day and key. */
  ghost predicate Bijection(live: LiveTable, idem: Idempotency) {
    && (forall r :: r in live ==> Find(idem, live[r].day, live[r].key) == Some(Marker(Live, r)))
    && (forall d, k, r :: Find(idem, d, k) == Some(Marker(Live, r)) ==> r in live && live[r].day == d && live[r].key == k)
  }

  /** The stored table's own consistency: the last word on each live reservation's day
      and key is that it is live, and no last word calls anything else live. */
  ghost predicate TableConsistent(live: LiveTable, legacyDay: Option<Day>, table: Table) {
    && (forall r :: r in live ==>
          exists i: nat :: HasLastWord(live, legacyDay, table, i, live[r].day, live[r].key, Marker(Live, r)))
    && (forall i: nat, d, k, r :: HasLastWord(live, legacyDay, table, i, d, k, Marker(Live, r)) ==>
          r in live && live[r].day == d && live[r].key == k)
  }

  /** The upgrade establishes the bijection that the ledger then keeps if and only if
      the stored table is consistent, whatever forms it mixes. */
  lemma UpgradeEstablishesBijection(live: LiveTable, legacyDay: Option<Day>, table: Table)
    ensures Bijection(live, Upgraded(live, legacyDay, table)) <==> TableConsistent(live, legacyDay, table)
  {
    hide Find, Upgraded, HasLastWord;
    var idem := Upgraded(live, legacyDay, table);
    forall r | r in live
      ensures Find(idem, live[r].day, live[r].key) == Some(Marker(Live, r)) <==>
        exists i: nat :: HasLastWord(live, legacyDay, table, i, live[r].day, live[r].key, Marker(Live, r))
    {
      OutcomesRead(live, legacyDay, table, live[r].day, live[r].key, Marker(Live, r));
    }
    if Bijection(live, idem) {
      forall i: nat, d, k, r | HasLastWord(live, legacyDay, table, i, d, k, Marker(Live, r))
        ensures r in live && live[r].day == d && live[r].key == k
      {
        OutcomesRead(live, legacyDay, table, d, k, Marker(Live, r));
      }
    }
    if TableConsistent(live, legacyDay, table) {
      forall d, k, r | Find(idem, d, k) == Some(Marker(Live, r))
        ensures r in live && live[r].day == d && live[r].key == k
      {
        OutcomesRead(live, legacyDay, table, d, k, Marker(Live, r));
        var i: nat :| HasLastWord(live, legacyDay, table, i, d, k, Marker(Live, r));
      }
    }
  }

  /** Live reservations and the entries that call one live name each other, whatever
      day an old entry was recorded with. */
  ghost predicate EntriesConsistent(live: LiveTable, table: Table) {
    && (forall r :: r in live ==> exists i :: 0 <= i < |table| && Names(table[i], live[r].day, live[r].key, r))
    && (forall i, k :: 0 <= i < |table| && NamesLive(table[i], k) ==> HeldFor(live, table[i], k, Decision(table[i], k).value.rid))
  }

  /** The entry says of a key that some reservation under it is live. */
  predicate NamesLive(entry: (string, Stored), k: Key) {
    && Decision(entry, k).Some? && Decision(entry, k).value.status == Live
    && (entry.1.Outcome? ==> entry.0 == k)
  }

  predicate Names(entry: (string, Stored), d: Day, k: Key, r: Rid) {
    Decision(entry, k) == Some(Marker(Live, r)) && entry.0 == if entry.1.Bucket? then d else k
  }

  /** The live reservation that an entry names for a key is one of that key, and of
      the entry's own day if it is a bucket. */
  predicate HeldFor(live: LiveTable, entry: (string, Stored), k: Key, r: Rid) {
    r in live && live[r].key == k && (entry.1.Bucket? ==> live[r].day == entry.0)
  }

  /** So a table in either form is consistent when its entries are: an old outcome
      that calls a reservation live goes to that reservation's own day. */
  lemma ConsistentEntries(live: LiveTable, legacyDay: Option<Day>, table: Table)
    requires DistinctKeys(table) && Separate(live, legacyDay, table) && EntriesConsistent(live, table)
    ensures TableConsistent(live, legacyDay, table)
  {
    hide Separate, DistinctKeys;
    forall r | r in live
      ensures exists i: nat :: HasLastWord(live, legacyDay, table, i, live[r].day, live[r].key, Marker(Live, r))
    {
      var i :| 0 <= i < |table| && Names(table[i], live[r].day, live[r].key, r);
      DecidedOnce(live, legacyDay, table, i, live[r].day, live[r].key);
      assert HasLastWord(live, legacyDay, table, i, live[r].day, live[r].key, Marker(Live, r));
    }
    forall i: nat, d, k, r | HasLastWord(live, legacyDay, table, i, d, k, Marker(Live, r))
      ensures r in live && live[r].day == d && live[r].key == k
    {
      assert NamesLive(table[i], k) && HeldFor(live, table[i], k, r);
    }
  }

  // ----- an upgraded snapshot beside its history -----------------------------------

  /** The markers of an upgraded table are true of the history if and only if every
      last word is, on the day the upgrade gives it: an old entry of a closed
      reservation is right exactly when the day it is assigned is that reservation's
      own. */
  lemma UpgradeTruthfulExactly(c: Core, legacyDay: Option<Day>, h: History, table: Table)
    ensures MarkersSound(c.(idem := Upgraded(c.live, legacyDay, table)), h) <==>
      forall i: nat, d, k, m :: HasLastWord(c.live, legacyDay, table, i, d, k, m) ==> Truthful(h, d, k, m)
  {
    hide Find, Upgraded, Truthful, HasLastWord;
    var c' := c.(idem := Upgraded(c.live, legacyDay, table));
    if MarkersSound(c', h) {
      forall i: nat, d, k, m | HasLastWord(c.live, legacyDay, table, i, d, k, m)
        ensures Truthful(h, d, k, m)
      {
        OutcomesRead(c.live, legacyDay, table, d, k, m);
        assert Find(c'.idem, d, k) == Some(m);
      }
    }
    if forall i: nat, d, k, m :: HasLastWord(c.live, legacyDay, table, i, d, k, m) ==> Truthful(h, d, k, m) {
      forall d, k | Find(c'.idem, d, k).Some?
        ensures Truthful(h, d, k, Find(c'.idem, d, k).value)
      {
        var m := Find(c'.idem, d, k).value;
        OutcomesRead(c.live, legacyDay, table, d, k, m);
        var i: nat :| HasLastWord(c.live, legacyDay, table, i, d, k, m);
        assert Truthful(h, d, k, m);
      }
    }
  }

  /** An upgraded snapshot whose other parts agree with its history agrees with it as
      a new ledger's does if and only if every last word is true and each live
      reservation has one; and its markers are complete from a day on if and only if
      each reservation that holds a key of such a day has one. */
  lemma UpgradedAgrees(c: Core, legacyDay: Option<Day>, h: History, table: Table, horizon: Day)
    requires LiveAgrees(c, h) && StandingsAgree(h) && TotalsAgree(c, h) && LiveSumAgrees(c, h) && OverageAgrees(c, h)
    ensures var upgraded := c.(idem := Upgraded(c.live, legacyDay, table));
      && (Agrees(upgraded, h) <==>
            && (forall i: nat, d, k, m :: HasLastWord(c.live, legacyDay, table, i, d, k, m) ==> Truthful(h, d, k, m))
            && (forall r :: r in c.live ==> HasWord(c.live, legacyDay, table, h, r)))
      && (MarkersComplete(upgraded, h, horizon) <==>
            forall r :: Holds(h, r) && Le(horizon, ReserveOf(h, r).day) ==> HasWord(c.live, legacyDay, table, h, r))
  {
    hide Find, Upgraded, StatusOf, ReserveOf, OpenedIds, ClosedIds, TotalAt, Charged, LiveUsage, Unclosed, HasLastWord, Le;
    var upgraded := c.(idem := Upgraded(c.live, legacyDay, table));
    UpgradeTruthfulExactly(c, legacyDay, h, table);
    hide MarkersSound, Truthful;
    forall r | Holds(h, r)
      ensures HasWord(c.live, legacyDay, table, h, r) <==> Marked(upgraded, h, r)
    {
      OutcomesRead(c.live, legacyDay, table, ReserveOf(h, r).day, ReserveOf(h, r).key, Marker(StatusOf(h, r).value, r));
    }
    assert forall r :: r in c.live ==> Holds(h, r) && StatusOf(h, r) == Some(Live) && c.live[r] == ReserveOf(h, r);
    assert LiveMarked(upgraded) <==> forall r :: r in c.live ==> Marked(upgraded, h, r);
    assert TotalsAgree(upgraded, h) && LiveSumAgrees(upgraded, h);
  }

  /** Some entry has the last word on the reservation's day and key, and says what the
      reservation's standing is. */
  ghost predicate HasWord(live: LiveTable, legacyDay: Option<Day>, table: Table, h: History, r: Rid) {
    Holds(h, r) &&
    exists i: nat ::
      HasLastWord(live, legacyDay, table, i, ReserveOf(h, r).day, ReserveOf(h, r).key, Marker(StatusOf(h, r).value, r))
  }
}
