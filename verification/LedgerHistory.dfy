/** What the full event history says, read naively, and the agreement between
    it and the replayed state. The history is every event ever journalled,
    across all rotations, as a sequence of bodies. */
module LedgerHistory {
  import opened Basics
  import opened Days
  import opened LedgerModel

  type History = seq<Body>

  // ----- reading a history ------------------------------------------------

  /** A kind that consumes a reservation. */
  predicate Terminal(b: Body) {
    b.kind.SETTLE? || b.kind.SETTLE_UNKNOWN? || b.kind.RELEASE? || b.kind.RECOVERY?
  }

  /** An event whose actual amounts are charged to its scopes. */
  predicate Charging(b: Body) {
    b.kind.SETTLE? || b.kind.SETTLE_UNKNOWN? || (b.kind.RECOVERY? && b.outcome == Settled)
  }

  /** The reservation ids that a history opens. */
  function OpenedIds(h: History): set<Rid> {
    if h == [] then {}
    else if Last(h).kind.RESERVE? then OpenedIds(Init(h)) + {Last(h).rid}
    else OpenedIds(Init(h))
  }

  /** The reservation ids that a history consumes. */
  function ClosedIds(h: History): set<Rid> {
    if h == [] then {}
    else if Terminal(Last(h)) then ClosedIds(Init(h)) + {Last(h).rid}
    else ClosedIds(Init(h))
  }

  function ReserveOf(h: History, r: Rid): (b: Body)
    requires r in OpenedIds(h)
    ensures b.kind.RESERVE? && b.rid == r && b in h
  {
    if Last(h).kind.RESERVE? && Last(h).rid == r then Last(h) else ReserveOf(Init(h), r)
  }

  /** The standing that a terminal event gives its key; None frees the key. */
  function Standing(b: Body): Option<Status> {
    match b.kind
    case SETTLE => if FreeRejection(b) then None else Some(Closed)
    case SETTLE_UNKNOWN => Some(Unknown)
    case RECOVERY => if b.outcome == Settled then Some(Recovered) else None
    case _ => None
  }

  /** The standing of a reservation: None when it never existed or was freed. */
  function StatusOf(h: History, r: Rid): Option<Status> {
    if h == [] then None
    else if Last(h).kind.RESERVE? && Last(h).rid == r then Some(Live)
    else if Terminal(Last(h)) && Last(h).rid == r then Standing(Last(h))
    else StatusOf(Init(h), r)
  }

  /** The sum of everything charged to a scope on a day. */
  function Charged(h: History, day: Day, s: Scope): Usage {
    if h == [] then ZERO
    else
      var rest := Charged(Init(h), day, s);
      if Charging(Last(h)) then Plus(rest, Charge(Last(h), day, s)) else rest
  }

  /** The sum of the claims of the reservations that are not among `closed`. */
  function Unclosed(h: History, closed: set<Rid>, day: Day, s: Scope): Usage {
    if h == [] then ZERO
    else
      var rest := Unclosed(Init(h), closed, day, s);
      if Last(h).kind.RESERVE? && Last(h).rid !in closed then Plus(Claim(Last(h), day, s), rest) else rest
  }

  /** Usage with no index at all: charges so far plus reservations never closed. */
  function NaiveUsage(h: History, day: Day, s: Scope): Usage {
    Plus(Charged(h, day, s), Unclosed(h, ClosedIds(h), day, s))
  }

  predicate HasOverage(h: History) {
    h != [] && (Last(h).kind.OVERAGE? || HasOverage(Init(h)))
  }

  /** No reservation was opened after an overage. */
  predicate OverageFinal(h: History) {
    h == [] || (OverageFinal(Init(h)) && (Last(h).kind.RESERVE? ==> !HasOverage(Init(h))))
  }

  /** No reservation id is opened twice. */
  predicate OpenedOnce(h: History) {
    h == [] || (OpenedOnce(Init(h)) && (Last(h).kind.RESERVE? ==> Last(h).rid !in OpenedIds(Init(h))))
  }

  /** Every terminal event consumes a reservation that was open until then. */
  predicate ClosedOnce(h: History) {
    h == [] ||
    (ClosedOnce(Init(h)) && (Terminal(Last(h)) ==> Last(h).rid in OpenedIds(Init(h)) - ClosedIds(Init(h))))
  }

  /** Two bodies that make the same claim on the budget. */
  predicate SameClaim(a: Body, b: Body) {
    a.day == b.day && a.key == b.key && a.rid == b.rid &&
    a.aggregate == b.aggregate && a.provider == b.provider && a.route == b.route && a.modelScope == b.modelScope &&
    a.reservedCalls == b.reservedCalls && a.reservedMicro == b.reservedMicro
  }

  // ----- agreement of the replayed state with the history -----------------

  /** The live table is exactly the reservations opened and not closed. */
  ghost predicate LiveAgrees(c: Core, h: History) {
    && OpenedOnce(h)
    && ClosedIds(h) <= OpenedIds(h)
    && c.live.Keys == OpenedIds(h) - ClosedIds(h)
    && (forall r :: r in c.live ==> c.live[r] == ReserveOf(h, r))
  }

  /** The standing of an id is Live exactly while it is open. */
  ghost predicate StandingsAgree(h: History) {
    && ClosedOnce(h)
    && ClosedIds(h) <= OpenedIds(h)
    && (forall r :: StatusOf(h, r) == Some(Live) <==> r in OpenedIds(h) - ClosedIds(h))
    && (forall r :: r !in OpenedIds(h) ==> StatusOf(h, r) == None)
  }

  ghost predicate TotalsAgree(c: Core, h: History) {
    forall day, s :: TotalAt(c.totals, day, s) == Charged(h, day, s)
  }

  ghost predicate LiveSumAgrees(c: Core, h: History) {
    forall day, s :: LiveUsage(c.live, day, s) == Unclosed(h, ClosedIds(h), day, s)
  }

  /** Every marker tells the truth about the reservation it names. */
  ghost predicate MarkersSound(c: Core, h: History) {
    forall d, k :: Find(c.idem, d, k).Some? ==> Truthful(h, d, k, Find(c.idem, d, k).value)
  }

  ghost predicate Truthful(h: History, d: Day, k: Key, m: Marker) {
    && m.rid in OpenedIds(h)
    && ReserveOf(h, m.rid).day == d && ReserveOf(h, m.rid).key == k
    && StatusOf(h, m.rid) == Some(m.status)
  }

  /** A reservation holds its key: it is live, unknown, recovered, or settled
      other than by a free rejection. */
  ghost predicate Holds(h: History, r: Rid) {
    r in OpenedIds(h) && StatusOf(h, r).Some?
  }

  /** Every live reservation has the live marker of its day and key. */
  ghost predicate LiveMarked(c: Core) {
    forall r :: r in c.live ==> Find(c.idem, c.live[r].day, c.live[r].key) == Some(Marker(Live, r))
  }

  ghost predicate SameKey(h: History, r: Rid, q: Rid)
    requires r in OpenedIds(h) && q in OpenedIds(h)
  {
    ReserveOf(h, r).day == ReserveOf(h, q).day && ReserveOf(h, r).key == ReserveOf(h, q).key
  }

  ghost predicate OverageAgrees(c: Core, h: History) {
    (c.blocked <==> HasOverage(h)) && OverageFinal(h)
  }

  ghost predicate Agrees(c: Core, h: History) {
    && LiveAgrees(c, h)
    && StandingsAgree(h)
    && TotalsAgree(c, h)
    && LiveSumAgrees(c, h)
    && MarkersSound(c, h)
    && LiveMarked(c)
    && OverageAgrees(c, h)
  }

  /** The events the ledger's operations append, given the state they read. */
  ghost predicate Admissible(c: Core, h: History, b: Body) {
    match b.kind
    case RESERVE => b.rid !in OpenedIds(h) && !c.blocked && Find(c.idem, b.day, b.key).None?
    case OVERAGE => true
    case CHECKPOINT => true
    case RECOVERY => b.rid in c.live && SameClaim(b, c.live[b.rid]) && (b.outcome == Released || b.outcome == Settled)
    case _ => b.rid in c.live && SameClaim(b, c.live[b.rid])
  }

  // ----- unfolding lemmas for h + [b] ---------------------------------------

  lemma Extended(h: History, b: Body)
    ensures OpenedIds(h + [b]) == if b.kind.RESERVE? then OpenedIds(h) + {b.rid} else OpenedIds(h)
    ensures ClosedIds(h + [b]) == if Terminal(b) then ClosedIds(h) + {b.rid} else ClosedIds(h)
    ensures HasOverage(h + [b]) <==> b.kind.OVERAGE? || HasOverage(h)
    ensures OpenedOnce(h + [b]) <==> OpenedOnce(h) && (b.kind.RESERVE? ==> b.rid !in OpenedIds(h))
    ensures ClosedOnce(h + [b]) <==> ClosedOnce(h) && (Terminal(b) ==> b.rid in OpenedIds(h) - ClosedIds(h))
    ensures OverageFinal(h + [b]) <==> OverageFinal(h) && (b.kind.RESERVE? ==> !HasOverage(h))
  {
    AppendParts(h, b);
  }

  lemma ExtendedReserve(h: History, b: Body, r: Rid)
    requires r in OpenedIds(h + [b])
    ensures !(b.kind.RESERVE? && b.rid == r) ==> r in OpenedIds(h)
    ensures ReserveOf(h + [b], r) == if b.kind.RESERVE? && b.rid == r then b else ReserveOf(h, r)
  {
    AppendParts(h, b);
  }

  lemma ExtendedStatus(h: History, b: Body, r: Rid)
    ensures StatusOf(h + [b], r) ==
      if b.kind.RESERVE? && b.rid == r then Some(Live)
      else if Terminal(b) && b.rid == r then Standing(b)
      else StatusOf(h, r)
  {
    AppendParts(h, b);
  }

  lemma ExtendedCharged(h: History, b: Body, day: Day, s: Scope)
    ensures Charged(h + [b], day, s) ==
      if Charging(b) then Plus(Charged(h, day, s), Charge(b, day, s)) else Charged(h, day, s)
  {
    AppendParts(h, b);
  }

  lemma ExtendedUnclosed(h: History, b: Body, closed: set<Rid>, day: Day, s: Scope)
    ensures Unclosed(h + [b], closed, day, s) ==
      if b.kind.RESERVE? && b.rid !in closed then Plus(Claim(b, day, s), Unclosed(h, closed, day, s))
      else Unclosed(h, closed, day, s)
  {
    AppendParts(h, b);
  }

  // ----- what one event does to each part of the state ----------------------

  /** The effect of an accepted event, part by part. */
  ghost predicate Effect(c: Core, b: Body, c': Core) {
    && c'.live == (if b.kind.RESERVE? then c.live[b.rid := b]
                   else if Terminal(b) then c.live - {b.rid} else c.live)
    && c'.totals == (if Charging(b) then AddTotals(c.totals, b) else c.totals)
    && (c'.blocked <==> b.kind.OVERAGE? || c.blocked)
    && (Terminal(b) ==> b.rid in c.live)
    && (forall d, k :: Find(c'.idem, d, k) == FoundAfter(c, b, d, k))
  }

  function FoundAfter(c: Core, b: Body, d: Day, k: Key): Option<Marker>
    requires Terminal(b) ==> b.rid in c.live
  {
    if b.kind.RESERVE? && b.day == d && b.key == k then Some(Marker(Live, b.rid))
    else if Terminal(b) && c.live[b.rid].day == d && c.live[b.rid].key == k then
      match Standing(b)
      case None => None
      case Some(status) => Some(Marker(status, b.rid))
    else Find(c.idem, d, k)
  }

  lemma StepHasEffect(c: Core, b: Body)
    requires Step(c, b).Some?
    ensures Effect(c, b, Step(c, b).value)
  {
    hide AddTotals, Find, Put, Drop, ScopesOf;
    match b.kind
    case RESERVE =>
    case SETTLE =>
    case RELEASE =>
    case SETTLE_UNKNOWN =>
    case RECOVERY =>
    case OVERAGE =>
    case CHECKPOINT =>
  }

  lemma StepSucceeds(c: Core, h: History, b: Body)
    requires LiveAgrees(c, h) && Admissible(c, h, b)
    ensures Step(c, b).Some?
  {
  }

  // ----- each part of the agreement survives each admissible event ----------

  lemma LiveKept(c: Core, h: History, b: Body, c': Core)
    requires LiveAgrees(c, h) && Admissible(c, h, b) && Effect(c, b, c')
    ensures LiveAgrees(c', h + [b])
  {
    hide StatusOf, ReserveOf, OpenedIds, ClosedIds, ScopesOf, AddTotals, FoundAfter;
    Extended(h, b);
    forall r | r in c'.live
      ensures c'.live[r] == ReserveOf(h + [b], r)
    {
      ExtendedReserve(h, b, r);
    }
  }

  lemma StandingsKept(c: Core, h: History, b: Body)
    requires LiveAgrees(c, h) && StandingsAgree(h) && Admissible(c, h, b)
    ensures StandingsAgree(h + [b])
  {
    Extended(h, b);
    forall r
      ensures StatusOf(h + [b], r) == Some(Live) <==> r in OpenedIds(h + [b]) - ClosedIds(h + [b])
      ensures r !in OpenedIds(h + [b]) ==> StatusOf(h + [b], r) == None
    {
      ExtendedStatus(h, b, r);
    }
  }

  lemma TotalsKept(c: Core, h: History, b: Body, c': Core)
    requires TotalsAgree(c, h) && Effect(c, b, c')
    ensures TotalsAgree(c', h + [b])
  {
    forall day, s
      ensures TotalAt(c'.totals, day, s) == Charged(h + [b], day, s)
    {
      ExtendedCharged(h, b, day, s);
      AddTotalsAt(c.totals, b, day, s);
    }
  }

  /** Closing a reservation removes exactly its own claim from the open sum. */
  lemma {:induction false} UnclosedWithout(h: History, closed: set<Rid>, r: Rid, day: Day, s: Scope)
    requires r in OpenedIds(h) && r !in closed && OpenedOnce(h)
    ensures Unclosed(h, closed, day, s)
         == Plus(Claim(ReserveOf(h, r), day, s), Unclosed(h, closed + {r}, day, s))
  {
    var b, rest := Last(h), Init(h);
    if b.kind.RESERVE? && b.rid == r {
      UnclosedWithoutAbsent(rest, closed, r, day, s);
    } else {
      UnclosedWithout(rest, closed, r, day, s);
      PlusAssociates(Claim(b, day, s), Claim(ReserveOf(h, r), day, s), Unclosed(rest, closed + {r}, day, s));
      assert ReserveOf(h, r) == ReserveOf(rest, r);
    }
  }

  lemma {:induction false} UnclosedWithoutAbsent(h: History, closed: set<Rid>, r: Rid, day: Day, s: Scope)
    requires r !in OpenedIds(h)
    ensures Unclosed(h, closed, day, s) == Unclosed(h, closed + {r}, day, s)
  {
    if h != [] {
      UnclosedWithoutAbsent(Init(h), closed, r, day, s);
    }
  }

  lemma LiveSumKept(c: Core, h: History, b: Body, c': Core)
    requires LiveAgrees(c, h) && LiveSumAgrees(c, h) && Admissible(c, h, b) && Effect(c, b, c')
    ensures LiveSumAgrees(c', h + [b])
  {
    Extended(h, b);
    forall day, s
      ensures LiveUsage(c'.live, day, s) == Unclosed(h + [b], ClosedIds(h + [b]), day, s)
    {
      ExtendedUnclosed(h, b, ClosedIds(h + [b]), day, s);
      if b.kind.RESERVE? {
        LiveUsageAdd(c.live, b.rid, b, day, s);
      } else if Terminal(b) {
        LiveUsageTake(c.live, b.rid, day, s);
        UnclosedWithout(h, ClosedIds(h), b.rid, day, s);
        PlusCancels(Claim(c.live[b.rid], day, s), LiveUsage(c'.live, day, s), Unclosed(h, ClosedIds(h + [b]), day, s));
      }
    }
  }

  lemma MarkersSoundKept(c: Core, h: History, b: Body, c': Core)
    requires LiveAgrees(c, h) && StandingsAgree(h) && MarkersSound(c, h) && LiveMarked(c)
    requires Admissible(c, h, b) && Effect(c, b, c')
    ensures MarkersSound(c', h + [b])
  {
    hide Find, StatusOf, ReserveOf, OpenedIds, ClosedIds, ScopesOf;
    Extended(h, b);
    forall d, k | Find(c'.idem, d, k).Some?
      ensures Truthful(h + [b], d, k, Find(c'.idem, d, k).value)
    {
      var m := Find(c'.idem, d, k).value;
      ExtendedStatus(h, b, m.rid);
      assert Find(c'.idem, d, k) == FoundAfter(c, b, d, k);
      if Terminal(b) {
        var record := c.live[b.rid];
        assert Find(c.idem, record.day, record.key) == Some(Marker(Live, b.rid));
      }
      ExtendedReserve(h, b, m.rid);
    }
  }

  lemma LiveMarkedKept(c: Core, h: History, b: Body, c': Core)
    requires LiveMarked(c) && Admissible(c, h, b) && Effect(c, b, c')
    ensures LiveMarked(c')
  {
    hide Find, OpenedIds, ScopesOf;
    forall r | r in c'.live
      ensures Find(c'.idem, c'.live[r].day, c'.live[r].key) == Some(Marker(Live, r))
    {
      assert Find(c'.idem, c'.live[r].day, c'.live[r].key) == FoundAfter(c, b, c'.live[r].day, c'.live[r].key);
    }
  }

  lemma OverageKept(c: Core, h: History, b: Body, c': Core)
    requires OverageAgrees(c, h) && Admissible(c, h, b) && Effect(c, b, c')
    ensures OverageAgrees(c', h + [b])
  {
    Extended(h, b);
  }

  /** Every event an operation may append is accepted, and the replayed state
      goes on agreeing with the longer history. */
  lemma AgreementKept(c: Core, h: History, b: Body)
    requires Agrees(c, h) && Admissible(c, h, b)
    ensures Step(c, b).Some? && Agrees(Step(c, b).value, h + [b])
  {
    StepSucceeds(c, h, b);
    StepHasEffect(c, b);
    var c' := Step(c, b).value;
    LiveKept(c, h, b, c');
    StandingsKept(c, h, b);
    TotalsKept(c, h, b, c');
    LiveSumKept(c, h, b, c');
    MarkersSoundKept(c, h, b, c');
    LiveMarkedKept(c, h, b, c');
    OverageKept(c, h, b, c');
  }
}
