/** What the ledger's operations answer and what they cost, said of the full
    history alone. */
module LedgerAnswers {
  import opened Basics
  import opened Days
  import opened LedgerModel
  import opened LedgerHistory
  import opened LedgerDisk
  import opened LedgerSafety
  import opened LedgerRuns
  import opened LedgerCaps
  import opened LedgerTheorems

  // ----- what a reservation is answered ---------------------------------------------

  /** The scope is capped, and what the history used of it leaves one call and the
      money. */
  ghost predicate HasRoom(cfg: Config, h: History, day: Day, micro: nat, s: Scope) {
    && s in cfg.caps
    && NaiveUsage(h, day, s).calls < cfg.caps[s].calls
    && NaiveUsage(h, day, s).micro + micro <= cfg.caps[s].micro
  }

  /** The i-th scope of a request is the first without room for it. */
  ghost predicate FirstWithoutRoom(cfg: Config, h: History, day: Day, micro: nat, scopes: seq<Scope>, i: int) {
    && 0 <= i < |scopes| && !HasRoom(cfg, h, day, micro, scopes[i])
    && forall j :: 0 <= j < i ==> HasRoom(cfg, h, day, micro, scopes[j])
  }

  /** The scopes a request names, in the order in which their caps are looked at. */
  predicate NamesInOrder(scopes: seq<Scope>, spec: Spec) {
    && |scopes| == (if spec.modelScope == "" then 3 else 4)
    && scopes[0] == spec.aggregate && scopes[1] == spec.provider && scopes[2] == spec.route
    && (spec.modelScope != "" ==> scopes[3] == spec.modelScope)
  }

  /** The request is for this ledger's domain, price cards and accounts. */
  predicate ForThisLedger(cfg: Config, spec: Spec) {
    && spec.domain == cfg.domain && spec.priceCard in cfg.priceCards
    && (cfg.accounts.Some? ==> spec.account in cfg.accounts.value)
  }

  lemma RoomAgrees(cfg: Config, c: Core, h: History, day: Day, micro: nat, s: Scope)
    requires Agrees(c, h)
    ensures HasRoom(cfg, h, day, micro, s) <==> s in cfg.caps && !Exceeds(c, cfg.caps[s], day, micro, s)
  {
    hide Agrees, NaiveUsage, UsageForScope;
    IndexAgrees(c, h, day, s);
  }

  /** The first scope without room decides how the scope loop refuses. */
  lemma {:induction false} FirstDecides(cfg: Config, c: Core, h: History, day: Day, micro: nat, scopes: seq<Scope>, i: int)
    requires Agrees(c, h) && FirstWithoutRoom(cfg, h, day, micro, scopes, i)
    ensures ScopeRefusal(cfg, c, day, micro, scopes)
         == Some(if scopes[i] in cfg.caps then BudgetDenied else LedgerUnavailable)
  {
    hide Agrees, Exceeds, HasRoom;
    RoomAgrees(cfg, c, h, day, micro, scopes[0]);
    if i > 0 {
      assert forall j :: 0 <= j < i - 1 ==> scopes[1..][j] == scopes[j + 1];
      FirstDecides(cfg, c, h, day, micro, scopes[1..], i - 1);
    }
  }

  lemma {:induction false} FirstOrAll(cfg: Config, h: History, day: Day, micro: nat, scopes: seq<Scope>, n: nat) returns (i: nat)
    requires n <= |scopes| && forall j :: 0 <= j < n ==> HasRoom(cfg, h, day, micro, scopes[j])
    ensures i == |scopes| || FirstWithoutRoom(cfg, h, day, micro, scopes, i)
    ensures i == |scopes| ==> forall j :: 0 <= j < |scopes| ==> HasRoom(cfg, h, day, micro, scopes[j])
    decreases |scopes| - n
  {
    hide HasRoom;
    i := n;
    if n < |scopes| && HasRoom(cfg, h, day, micro, scopes[n]) {
      i := FirstOrAll(cfg, h, day, micro, scopes, n + 1);
    }
  }

  /** Which answer a request gets, in the order in which the ledger decides: a block
      denies it; a marker of its day and key conflicts, with the standing that the
      history gives the reservation it names; then the first scope without room
      denies it if that scope is capped and fails it if not; else it is granted. */
  lemma ReserveAnswersExactly(cfg: Config, d: Disk, spec: Spec, today: Day, rid: Rid)
    requires Sound(cfg, d) && Load(cfg, d).Some? && ValidSpec(spec) && ForThisLedger(cfg, spec)
    requires rid !in OpenedIds(Bodies(d.history))
    ensures NamesInOrder(SpecScopes(spec), spec)
    ensures var h, scopes := Bodies(d.history), SpecScopes(spec);
      var marker := Find(Load(cfg, d).value.core.idem, today, spec.key);
      var answer := ReserveOp(cfg, d, spec, today, rid, Fine).1;
      && (answer == Err(BudgetDenied) <==>
            HasOverage(h)
            || (marker.None? && exists i :: FirstWithoutRoom(cfg, h, today, spec.micro, scopes, i) && scopes[i] in cfg.caps))
      && (answer == Err(LedgerUnavailable) <==>
            && !HasOverage(h) && marker.None?
            && exists i :: FirstWithoutRoom(cfg, h, today, spec.micro, scopes, i) && scopes[i] !in cfg.caps)
      && (forall status :: answer == Err(IdempotencyConflict(status)) <==>
            !HasOverage(h) && marker.Some? && StatusOf(h, marker.value.rid) == Some(status))
      && (answer.Ok? <==>
            !HasOverage(h) && marker.None? && forall i :: 0 <= i < |scopes| ==> HasRoom(cfg, h, today, spec.micro, scopes[i]))
  {
    var s, h, scopes := Load(cfg, d).value, Bodies(d.history), SpecScopes(spec);
    LoadedAgrees(cfg, d);
    assert s.core.blocked <==> HasOverage(h);
    assert Find(s.core.idem, today, spec.key).Some? ==> Truthful(h, today, spec.key, Find(s.core.idem, today, spec.key).value);
    hide Sound, Load, Agrees, Bodies, Exceeds, HasRoom, HasOverage, Find, SpecScopes, StatusOf, OpenedIds, Append, Truthful;
    if Find(s.core.idem, today, spec.key).Some? {
      TruthfulStatus(h, today, spec.key, Find(s.core.idem, today, spec.key).value);
    }
    var first := FirstOrAll(cfg, h, today, spec.micro, scopes, 0);
    if first < |scopes| {
      FirstDecides(cfg, s.core, h, today, spec.micro, scopes, first);
      OnlyFirst(cfg, h, today, spec.micro, scopes, first);
      assert FirstWithoutRoom(cfg, h, today, spec.micro, scopes, first);
    } else {
      RoomForAll(cfg, s.core, h, today, spec.micro, scopes);
    }
    if Refusal(cfg, s.core, spec, today).None? {
      ReserveAdmissible(cfg, d, s, spec, today, rid);
      AppendSound(cfg, d, s, s, ReserveBody(spec, today, rid), Fine);
    }
    ScopesInOrder(spec);
  }

  lemma ScopesInOrder(spec: Spec)
    ensures NamesInOrder(SpecScopes(spec), spec)
  {
  }

  lemma TruthfulStatus(h: History, d: Day, k: Key, m: Marker)
    requires Truthful(h, d, k, m)
    ensures StatusOf(h, m.rid) == Some(m.status)
  {
    hide StatusOf, ReserveOf, OpenedIds;
  }

  lemma OnlyFirst(cfg: Config, h: History, day: Day, micro: nat, scopes: seq<Scope>, i: int)
    requires FirstWithoutRoom(cfg, h, day, micro, scopes, i)
    ensures forall j :: FirstWithoutRoom(cfg, h, day, micro, scopes, j) ==> j == i
  {
    hide HasRoom;
  }

  lemma RoomForAll(cfg: Config, c: Core, h: History, day: Day, micro: nat, scopes: seq<Scope>)
    requires Agrees(c, h) && forall i :: 0 <= i < |scopes| ==> HasRoom(cfg, h, day, micro, scopes[i])
    ensures ScopeRefusal(cfg, c, day, micro, scopes).None?
  {
    hide Agrees, Exceeds, HasRoom;
    forall s | s in scopes
      ensures s in cfg.caps && !Exceeds(c, cfg.caps[s], day, micro, s)
    {
      RoomAgrees(cfg, c, h, day, micro, s);
    }
    ScopesAllow(cfg, c, day, micro, scopes);
  }

  lemma ReserveAdmissible(cfg: Config, d: Disk, s: State, spec: Spec, today: Day, rid: Rid)
    requires rid !in OpenedIds(Bodies(d.history)) && Refusal(cfg, s.core, spec, today).None?
    ensures Admissible(s.core, Bodies(d.history), ReserveBody(spec, today, rid))
  {
    hide Bodies, OpenedIds, ScopeRefusal, Find;
  }

  /** A request for another domain, price card or account fails, and so does one on a
      ledger that refuses to load; neither changes a file. */
  lemma ForeignRequestsFail(cfg: Config, d: Disk, spec: Spec, today: Day, rid: Rid, io: Io)
    requires !ForThisLedger(cfg, spec) || Load(cfg, d).None?
    ensures ReserveOp(cfg, d, spec, today, rid, io) == (d, Err(LedgerUnavailable))
  {
    hide Load, Refusal, Append;
  }

  // ----- what a reservation holds -----------------------------------------------------

  /** How often a record names a scope. */
  function Listed(b: Body, s: Scope): nat {
    if s == "" then 0
    else
      (if b.aggregate == s then 1 else 0) + (if b.provider == s then 1 else 0)
        + (if b.route == s then 1 else 0) + (if b.modelScope == s then 1 else 0)
  }

  function Times(n: nat, u: Usage): Usage {
    Usage(n * u.calls, n * u.micro)
  }

  lemma CountedListed(b: Body, s: Scope, amount: Usage)
    ensures Counted(EventScopes(b), s, amount) == Times(Listed(b, s), amount)
    ensures s in EventScopes(b) <==> Listed(b, s) > 0
  {
    var named := [b.aggregate, b.provider, b.route] + if b.modelScope != "" then [b.modelScope] else [];
    CountedNonEmpty(named, s, amount);
    hide NonEmpty, Counted, Times;
    assert b.modelScope == "" ==> named == [b.aggregate, b.provider, b.route];
    assert b.modelScope != "" ==> named == [b.aggregate, b.provider, b.route, b.modelScope];
    CountedFour(b.aggregate, b.provider, b.route, b.modelScope, s, amount);
    TimesNone(amount);
  }

  lemma TimesNone(u: Usage)
    ensures Times(0, u) == ZERO
  {
  }

  lemma {:induction false} CountedNonEmpty(values: seq<Scope>, s: Scope, amount: Usage)
    ensures Counted(NonEmpty(values), s, amount) == if s == "" then ZERO else Counted(values, s, amount)
    ensures s in NonEmpty(values) <==> s != "" && s in values
  {
    if values != [] {
      CountedNonEmpty(Init(values), s, amount);
      assert values == Init(values) + [Last(values)];
      if Last(values) != "" {
        AppendParts(NonEmpty(Init(values)), Last(values));
      }
    }
  }

  lemma CountedFour(a: Scope, p: Scope, r: Scope, m: Scope, s: Scope, amount: Usage)
    ensures Counted([a, p, r], s, amount)
         == Times((if a == s then 1 else 0) + (if p == s then 1 else 0) + (if r == s then 1 else 0), amount)
    ensures Counted([a, p, r, m], s, amount)
         == Times((if a == s then 1 else 0) + (if p == s then 1 else 0) + (if r == s then 1 else 0)
                  + (if m == s then 1 else 0), amount)
  {
    assert [a, p, r, m][..3] == [a, p, r] && [a, p, r][..2] == [a, p] && [a, p][..1] == [a] && [a][..0] == [];
    assert Counted([], s, amount) == ZERO;
    assert Counted([a], s, amount) == Times(if a == s then 1 else 0, amount);
    assert Counted([a, p], s, amount) == Times((if a == s then 1 else 0) + (if p == s then 1 else 0), amount);
  }

  /** The record of a granted reservation: what was asked for, for one call, under the
      id and the day it was given. */
  predicate RecordsRequest(b: Body, spec: Spec, today: Day, rid: Rid) {
    && b.kind.RESERVE? && b.rid == rid && b.day == today && b.key == spec.key
    && b.aggregate == spec.aggregate && b.provider == spec.provider && b.route == spec.route && b.modelScope == spec.modelScope
    && b.reservedCalls == 1 && b.reservedMicro == spec.micro
  }

  /** A granted reservation is live under its record, owns the marker of its day and
      key, and takes one call and its money from each scope that the request names, on
      its day only; nothing else changes. */
  lemma GrantedHolds(cfg: Config, d: Disk, spec: Spec, today: Day, rid: Rid)
    requires Sound(cfg, d) && Load(cfg, d).Some? && rid !in OpenedIds(Bodies(d.history)) && ValidSpec(spec)
    requires ReserveOp(cfg, d, spec, today, rid, Fine).1.Ok?
    ensures var (d', granted) := ReserveOp(cfg, d, spec, today, rid, Fine); var h, h' := Bodies(d.history), Bodies(d'.history);
      && granted.value.rid == rid && granted.value.day == today && granted.value.key == spec.key
      && granted.value.calls == 1 && granted.value.micro == spec.micro && NamesInOrder(granted.value.scopes, spec)
      && Sound(cfg, d') && Load(cfg, d').Some?
      && (var c, c' := Load(cfg, d).value.core, Load(cfg, d').value.core;
          && rid !in c.live && c'.live.Keys == c.live.Keys + {rid} && RecordsRequest(c'.live[rid], spec, today, rid)
          && (forall q :: q in c.live ==> c'.live[q] == c.live[q])
          && (forall k, day :: Find(c'.idem, day, k) ==
                if day == today && k == spec.key then Some(Marker(Live, rid)) else Find(c.idem, day, k)))
      && (HasOverage(h') <==> HasOverage(h))
      && (forall day, s :: NaiveUsage(h', day, s) == Plus(NaiveUsage(h, day, s), AskedOf(spec, today, day, s)))
  {
    hide Sound, Load, Bodies, Append, Agrees, Find, ScopeRefusal, OpenedIds, HasOverage, NaiveUsage, AskedOf, Step,
         RecordsRequest;
    var s, h, b := Load(cfg, d).value, Bodies(d.history), ReserveBody(spec, today, rid);
    ReserveAdmissible(cfg, d, s, spec, today, rid);
    AppendSound(cfg, d, s, s, b, Fine);
    JournalPresent(cfg, d);
    GrantedHistory(cfg, d, s, b);
    LoadedAgrees(cfg, d);
    StepHasEffect(s.core, b);
    ScopesInOrder(spec);
    NeverLive(cfg, d, rid);
    OpensNewClaim(s.core, h, b);
    forall day, s
      ensures NaiveUsage(h + [b], day, s) == Plus(NaiveUsage(h, day, s), AskedOf(spec, today, day, s))
    {
      OpenedUsage(h, spec, today, rid, day, s);
    }
    assert RecordsRequest(b, spec, today, rid) by { MakesRecord(spec, today, rid); }
    Extended(h, b);
  }

  lemma GrantedHistory(cfg: Config, d: Disk, s: State, b: Body)
    requires d.journal.Some?
    ensures Bodies(Append(cfg, d, s, b, Fine).0.history) == Bodies(d.history) + [b]
  {
    hide Bodies, Step;
    BodiesAppend(d.history, MakeEvent(cfg, s, b));
  }

  lemma MakesRecord(spec: Spec, today: Day, rid: Rid)
    ensures RecordsRequest(ReserveBody(spec, today, rid), spec, today, rid)
  {
  }

  lemma NeverLive(cfg: Config, d: Disk, rid: Rid)
    requires Sound(cfg, d) && Load(cfg, d).Some? && rid !in OpenedIds(Bodies(d.history))
    ensures rid !in Load(cfg, d).value.core.live
  {
    hide Load, Bodies, OpenedIds, ClosedIds, TotalsAgree, LiveSumAgrees, MarkersSound, LiveMarked, StandingsAgree,
         OverageAgrees, Sound;
    LoadedAgrees(cfg, d);
  }

  /** What a request takes from a scope on a day. */
  function AskedOf(spec: Spec, today: Day, day: Day, s: Scope): Usage {
    if day == today && (s == spec.aggregate || s == spec.provider || s == spec.route || (s == spec.modelScope && s != ""))
    then Usage(1, spec.micro) else ZERO
  }

  lemma OpenedUsage(h: History, spec: Spec, today: Day, rid: Rid, day: Day, s: Scope)
    requires ValidSpec(spec) && rid !in ClosedIds(h)
    ensures NaiveUsage(h + [ReserveBody(spec, today, rid)], day, s)
         == Plus(NaiveUsage(h, day, s), AskedOf(spec, today, day, s))
  {
    var b := ReserveBody(spec, today, rid);
    hide EventScopes, ClosedIds, Charged, Unclosed, Listed;
    Extended(h, b);
    ExtendedCharged(h, b, day, s);
    ExtendedUnclosed(h, b, ClosedIds(h), day, s);
    CountedListed(b, s, ZERO);
    ListedIfNamed(b, s);
    PlusAssociates(Charged(h, day, s), Claim(b, day, s), Unclosed(h, ClosedIds(h), day, s));
    PlusMoves(Charged(h, day, s), Claim(b, day, s), Unclosed(h, ClosedIds(h), day, s));
  }

  lemma ListedIfNamed(b: Body, s: Scope)
    ensures Listed(b, s) > 0 <==> s != "" && (s == b.aggregate || s == b.provider || s == b.route || s == b.modelScope)
  {
  }

  lemma PlusMoves(charged: Usage, claim: Usage, rest: Usage)
    ensures Plus(charged, Plus(claim, rest)) == Plus(Plus(charged, rest), claim)
  {
  }

  // ----- what is left of a budget -----------------------------------------------------

  /** The budget that is reported left of a scope and day is what the history leaves of
      its cap, and never below zero; an uncapped scope has none to report. */
  lemma RemainingExactly(cfg: Config, d: Disk, s: Scope, today: Day)
    requires Sound(cfg, d) && Load(cfg, d).Some?
    ensures var r := RemainingOp(cfg, d, s, today); var used := NaiveUsage(Bodies(d.history), today, s);
      && (r == Err(LedgerUnavailable) <==> s !in cfg.caps)
      && (s in cfg.caps ==>
            && r.Ok? && r.value.scope == s && r.value.day == today
            && r.value.callsLimit == cfg.caps[s].calls && r.value.microLimit == cfg.caps[s].micro
            && LeftOf(r.value.callsLeft, cfg.caps[s].calls, used.calls)
            && LeftOf(r.value.microLeft, cfg.caps[s].micro, used.micro))
  {
    LoadedAgrees(cfg, d);
    hide Sound, Load, Bodies, Agrees, UsageForScope, NaiveUsage;
    IndexAgrees(Load(cfg, d).value.core, Bodies(d.history), today, s);
  }

  /** What is used and what is left make up the limit, unless more was used. */
  predicate LeftOf(left: nat, limit: nat, used: nat) {
    if used <= limit then used + left == limit else left == 0
  }

  // ----- what a closing costs -----------------------------------------------------------

  /** Between two histories the reservation was closed at this cost: that much was
      charged for it in all, to its own day only, once for each time it names a scope,
      in exchange for what it claimed. */
  ghost predicate ClosedFor(h: History, h': History, rid: Rid, calls: nat, micro: nat)
    requires rid in OpenedIds(h)
  {
    var record := ReserveOf(h, rid);
    && rid in ClosedIds(h')
    && MicroOf(h', rid) == micro
    && (forall day, s :: Charged(h', day, s) == Plus(Charged(h, day, s), CostAt(record, day, s, Usage(calls, micro))))
    && (forall day, s :: Plus(NaiveUsage(h', day, s), HeldAt(record, day, s))
                      == Plus(NaiveUsage(h, day, s), CostAt(record, day, s, Usage(calls, micro))))
  }

  function CostAt(record: Body, day: Day, s: Scope, amount: Usage): Usage {
    if day == record.day then Times(Listed(record, s), amount) else ZERO
  }

  function HeldAt(record: Body, day: Day, s: Scope): Usage {
    if day == record.day && Listed(record, s) > 0 then Usage(record.reservedCalls, record.reservedMicro) else ZERO
  }

  lemma HeldIsClaim(record: Body, day: Day, s: Scope)
    ensures HeldAt(record, day, s) == Claim(record, day, s)
  {
    hide EventScopes;
    CountedListed(record, s, ZERO);
  }

  lemma CostIsCharge(b: Body, record: Body, day: Day, s: Scope)
    requires SameClaim(b, record)
    ensures CostAt(record, day, s, Actual(b)) == Charge(b, day, s)
  {
    hide EventScopes, Counted, Listed;
    CountedListed(b, s, Actual(b));
    SameListed(b, record, s);
  }

  lemma SameListed(b: Body, record: Body, s: Scope)
    requires SameClaim(b, record)
    ensures Listed(b, s) == Listed(record, s)
  {
  }

  lemma MicroOfAppend(h: History, b: Body, r: Rid)
    ensures MicroOf(h + [b], r) == MicroOf(h, r) + if Charging(b) && b.rid == r then b.actualMicro else 0
  {
    AppendParts(h, b);
  }

  function CostOf(b: Body): Usage {
    if Charging(b) then Actual(b) else ZERO
  }

  /** One closing event about an open reservation. */
  lemma ClosedBy(h: History, b: Body)
    requires Terminal(b) && b.rid in OpenedIds(h) - ClosedIds(h) && OpenedOnce(h) && SameClaim(b, ReserveOf(h, b.rid))
    ensures ClosedFor(h, h + [b], b.rid, CostOf(b).calls, CostOf(b).micro)
  {
    var record := ReserveOf(h, b.rid);
    hide ReserveOf, OpenedIds, ClosedIds, MicroOf, Charged, Unclosed, OpenedOnce, CostAt, HeldAt, Charge, Claim;
    Extended(h, b);
    MicroOfAppend(h, b, b.rid);
    OpenCostsNothing(h, b.rid);
    forall day, s
      ensures Charged(h + [b], day, s) == Plus(Charged(h, day, s), CostAt(record, day, s, CostOf(b)))
      ensures Plus(NaiveUsage(h + [b], day, s), HeldAt(record, day, s))
           == Plus(NaiveUsage(h, day, s), CostAt(record, day, s, CostOf(b)))
    {
      ExtendedCharged(h, b, day, s);
      CostIsCharge(b, record, day, s);
      HeldIsClaim(record, day, s);
      UnclosedWithout(h, ClosedIds(h), b.rid, day, s);
      ExtendedUnclosed(h, b, ClosedIds(h) + {b.rid}, day, s);
      FreeCost(record, day, s);
      PlusZero(Charged(h, day, s));
      PlusExchange(Charged(h, day, s), CostAt(record, day, s, CostOf(b)), Claim(record, day, s), Unclosed(h,
          ClosedIds(h) + {b.rid}, day, s));
    }
  }

  lemma FreeCost(record: Body, day: Day, s: Scope)
    ensures CostAt(record, day, s, ZERO) == ZERO
  {
  }

  lemma PlusExchange(charged: Usage, charge: Usage, claim: Usage, rest: Usage)
    ensures Plus(Plus(Plus(charged, charge), rest), claim) == Plus(Plus(charged, Plus(claim, rest)), charge)
  {
  }

  /** An event about no reservation changes no cost and no usage. */
  lemma QuietCosts(h: History, b: Body, rid: Rid, before: History, calls: nat, micro: nat)
    requires Quiet(b) && rid in OpenedIds(before) && ClosedFor(before, h, rid, calls, micro)
    ensures ClosedFor(before, h + [b], rid, calls, micro)
  {
    hide ReserveOf, OpenedIds, ClosedIds, MicroOf, Charged, NaiveUsage, CostAt, HeldAt;
    Extended(h, b);
    MicroOfAppend(h, b, rid);
    forall day, s
      ensures Charged(h + [b], day, s) == Charged(h, day, s) && NaiveUsage(h + [b], day, s) == NaiveUsage(h, day, s)
    {
      ExtendedCharged(h, b, day, s);
      QuietCaps(h, b, s, day);
    }
  }

  // ----- each way of closing ------------------------------------------------------------

  /** A confirmed closing line closes its reservation at the line's own cost. */
  lemma LineCloses(cfg: Config, d: Disk, s: State, rid: Rid, b: Body)
    requires Sound(cfg, d) && Load(cfg, d) == Some(s) && rid in s.core.live
    requires b == s.core.live[rid].(kind := b.kind, actualCalls := b.actualCalls, actualMicro := b.actualMicro,
      inputTokens := b.inputTokens, outputTokens := b.outputTokens, outcome := b.outcome)
    requires Terminal(b) && (b.kind.RECOVERY? ==> b.outcome == Released || b.outcome == Settled)
    ensures d.journal.Some?
    ensures rid in OpenedIds(Bodies(d.history)) && ReserveOf(Bodies(d.history), rid) == s.core.live[rid] && b.rid == rid
    ensures var (d', r) := Append(cfg, d, s, b, Fine); var h, h' := Bodies(d.history), Bodies(d'.history);
      && Sound(cfg, d') && r.Ok? && Load(cfg, d') == Some(r.value)
      && h' == h + [b]
      && ClosedFor(h, h', rid, CostOf(b).calls, CostOf(b).micro)
      && StatusOf(h', rid) == Standing(b)
      && HasOverage(h') == HasOverage(h)
  {
    hide Sound, Load, Bodies, Agrees, Admissible, Step, ClosedFor, OpenedIds, ClosedIds, ReserveOf, StatusOf,
         Standing, OpenedOnce;
    var h := Bodies(d.history);
    JournalPresent(cfg, d);
    LoadedAgrees(cfg, d);
    LiveNamesItself(cfg, d, rid);
    ClosingAdmissible(cfg, d, s, rid, b);
    LiveRecord(s.core, h, rid);
    AppendSound(cfg, d, s, s, b, Fine);
    GrantedHistory(cfg, d, s, b);
    ClosableNow(s.core, h, b);
    ClosedBy(h, b);
    ExtendedStatus(h, b, rid);
    Extended(h, b);
  }

  lemma ClosableNow(c: Core, h: History, b: Body)
    requires Agrees(c, h) && Admissible(c, h, b) && Terminal(b)
    ensures b.rid in OpenedIds(h) - ClosedIds(h) && OpenedOnce(h) && SameClaim(b, ReserveOf(h, b.rid))
  {
    hide Agrees, Admissible;
    ClosesOpenClaim(c, h, b);
  }

  lemma LiveRecord(c: Core, h: History, rid: Rid)
    requires Agrees(c, h) && rid in c.live
    ensures rid in OpenedIds(h) && ReserveOf(h, rid) == c.live[rid]
  {
    hide OpenedIds, ClosedIds, ReserveOf, TotalsAgree, LiveSumAgrees, MarkersSound, LiveMarked, StandingsAgree, OverageAgrees;
  }

  /** The record under which a live reservation was made. */
  ghost function RecordOf(cfg: Config, d: Disk, rid: Rid): (record: Body)
    requires Load(cfg, d).Some? && rid in Load(cfg, d).value.core.live
  {
    Load(cfg, d).value.core.live[rid]
  }

  /** Every live record is a reservation that has cost nothing yet. */
  lemma RecordsAreFresh(cfg: Config, d: Disk, rid: Rid)
    requires Sound(cfg, d) && Load(cfg, d).Some? && rid in Load(cfg, d).value.core.live
    ensures rid in OpenedIds(Bodies(d.history)) && RecordOf(cfg, d, rid) == ReserveOf(Bodies(d.history), rid)
  {
    LoadedAgrees(cfg, d);
    hide Sound, Load, Bodies, Agrees;
    LiveRecord(Load(cfg, d).value.core, Bodies(d.history), rid);
  }

  /** An unknown outcome costs the whole reservation: its calls and all its money, in
      place of what was held, so that with distinct scopes no usage changes. */
  lemma UnknownCostsItsReservation(cfg: Config, d: Disk, rid: Rid)
    requires Sound(cfg, d) && Load(cfg, d).Some? && rid in Load(cfg, d).value.core.live
    ensures rid in OpenedIds(Bodies(d.history))
    ensures var h := Bodies(d.history); var record := ReserveOf(h, rid);
      var (d', r) := SettleUnknownOp(cfg, d, rid, Fine); var h' := Bodies(d'.history);
      && r.Ok? && Sound(cfg, d') && Load(cfg, d').Some?
      && ClosedFor(h, h', rid, record.reservedCalls, record.reservedMicro)
      && StatusOf(h', rid) == Some(Unknown)
      && (HasOverage(h') <==> HasOverage(h))
      && ((forall s :: Listed(record, s) <= 1) ==> forall day, s :: NaiveUsage(h', day, s) == NaiveUsage(h, day, s))
  {
    hide Sound, Load, Bodies, Append, ClosedFor, StatusOf, OpenedIds, ReserveOf, Listed, NaiveUsage, HasOverage;
    var s := Load(cfg, d).value;
    LineCloses(cfg, d, s, rid, UnknownBody(s.core.live[rid]));
    var h, h' := Bodies(d.history), Bodies(SettleUnknownOp(cfg, d, rid, Fine).0.history);
    var record := ReserveOf(h, rid);
    if forall s :: Listed(record, s) <= 1 {
      forall day, s
        ensures NaiveUsage(h', day, s) == NaiveUsage(h, day, s)
      {
        SameUsage(h, h', rid, day, s);
      }
    }
  }

  lemma SameUsage(h: History, h': History, rid: Rid, day: Day, s: Scope)
    requires rid in OpenedIds(h) && Listed(ReserveOf(h, rid), s) <= 1
    requires ClosedFor(h, h', rid, ReserveOf(h, rid).reservedCalls, ReserveOf(h, rid).reservedMicro)
    ensures NaiveUsage(h', day, s) == NaiveUsage(h, day, s)
  {
    hide OpenedIds, ClosedIds, ReserveOf, Listed, NaiveUsage, Charged, MicroOf;
    var record := ReserveOf(h, rid);
    var cost := Usage(record.reservedCalls, record.reservedMicro);
    assert Plus(NaiveUsage(h', day, s), HeldAt(record, day, s)) == Plus(NaiveUsage(h, day, s), CostAt(record, day, s, cost));
  }

  /** A settlement costs one call and what is settled, carries the tokens it was told,
      frees the key exactly when it is a provider failure that cost nothing, and
      blocks the domain exactly when it is above the reservation. */
  lemma SettlementCostsWhatIsSettled(cfg: Config, d: Disk, rid: Rid, actual: nat, inputTokens: nat, outputTokens: nat,
                                     outcome: Outcome)
    requires Sound(cfg, d) && Load(cfg, d).Some? && rid in Load(cfg, d).value.core.live
    ensures rid in OpenedIds(Bodies(d.history))
    ensures var h := Bodies(d.history); var record := ReserveOf(h, rid);
      var (d', r) := SettleOp(cfg, d, rid, actual, inputTokens, outputTokens, outcome, Fine, Fine); var h' := Bodies(d'.history);
      && r.Ok? && Sound(cfg, d') && Load(cfg, d').Some?
      && ClosedFor(h, h', rid, 1, actual)
      && StatusOf(h', rid) == (if outcome == ProviderFailure && actual == 0 then None else Some(Closed))
      && (HasOverage(h') <==> HasOverage(h) || actual > record.reservedMicro)
      && |h'| > |h| && h'[|h|].kind.SETTLE? && h'[|h|].outcome == outcome
      && h'[|h|].inputTokens == inputTokens && h'[|h|].outputTokens == outputTokens
  {
    hide Sound, Load, Bodies, Append, ClosedFor, StatusOf, OpenedIds, ReserveOf, HasOverage;
    var s, h := Load(cfg, d).value, Bodies(d.history);
    var b := SettleBody(s.core.live[rid], actual, inputTokens, outputTokens, outcome);
    LineCloses(cfg, d, s, rid, b);
    var (d1, settled) := Append(cfg, d, s, b, Fine);
    if actual > b.reservedMicro {
      OverageCosts(cfg, d1, settled.value, b, h, rid, actual);
    }
  }

  lemma OverageCosts(cfg: Config, d: Disk, s: State, b: Body, before: History, rid: Rid, actual: nat)
    requires Sound(cfg, d) && Load(cfg, d) == Some(s)
    requires rid in OpenedIds(before) && ClosedFor(before, Bodies(d.history), rid, 1, actual)
    ensures d.journal.Some?
    ensures var (d', r) := Append(cfg, d, s, OverageBody(b), Fine); var h, h' := Bodies(d.history), Bodies(d'.history);
      && r.Ok? && Sound(cfg, d') && Load(cfg, d').Some?
      && ClosedFor(before, h', rid, 1, actual) && HasOverage(h')
      && StatusOf(h', rid) == StatusOf(h, rid) && h <= h'
  {
    hide Sound, Load, Bodies, ClosedFor, StatusOf, OpenedIds, ReserveOf, Step;
    JournalPresent(cfg, d);
    OverageAdmissible(s.core, Bodies(d.history), b);
    hide Admissible;
    AppendSound(cfg, d, s, s, OverageBody(b), Fine);
    BodiesAppend(d.history, MakeEvent(cfg, s, OverageBody(b)));
    Extended(Bodies(d.history), OverageBody(b));
    ExtendedStatus(Bodies(d.history), OverageBody(b), rid);
    QuietCosts(Bodies(d.history), OverageBody(b), rid, before, 1, actual);
  }

  /** A release costs nothing and frees the key; so does a recovery that releases, and
      one that names a charge costs one call and that charge and keeps the key. */
  lemma ReleasesAndRecoveriesCost(cfg: Config, d: Disk, rid: Rid, charge: nat)
    requires Sound(cfg, d) && Load(cfg, d).Some? && rid in Load(cfg, d).value.core.live
    ensures rid in OpenedIds(Bodies(d.history))
    ensures var h := Bodies(d.history);
      var (released, r) := ReleaseOp(cfg, d, rid, Fine);
      var (freed, q) := RecoverOp(cfg, d, rid, true, None, true, Fine);
      var (charged, p) := RecoverOp(cfg, d, rid, true, Some(charge), false, Fine);
      && r.Ok? && q.Ok? && p.Ok?
      && Sound(cfg, released) && Sound(cfg, freed) && Sound(cfg, charged)
      && (HasOverage(Bodies(released.history)) <==> HasOverage(h))
      && (HasOverage(Bodies(freed.history)) <==> HasOverage(h))
      && (HasOverage(Bodies(charged.history)) <==> HasOverage(h))
      && ClosedFor(h, Bodies(released.history), rid, 0, 0) && StatusOf(Bodies(released.history), rid) == None
      && ClosedFor(h, Bodies(freed.history), rid, 0, 0) && StatusOf(Bodies(freed.history), rid) == None
      && ClosedFor(h, Bodies(charged.history), rid, 1, charge) && StatusOf(Bodies(charged.history), rid) == Some(Recovered)
  {
    hide Sound, Load, Bodies, Append, ClosedFor, StatusOf, OpenedIds, ReserveOf, HasOverage;
    var s := Load(cfg, d).value;
    LineCloses(cfg, d, s, rid, ReleaseBody(s.core.live[rid]));
    LineCloses(cfg, d, s, rid, RecoveryBody(s.core.live[rid], None));
    LineCloses(cfg, d, s, rid, RecoveryBody(s.core.live[rid], Some(charge)));
  }

  /** A settlement succeeds if and only if nothing in it is negative and it is of a live
      reservation of a ledger that loads; when it does not, no file changes. */
  lemma SettlesExactly(cfg: Config, d: Disk, rid: Rid, actual: int, inputTokens: int, outputTokens: int, outcome: Outcome)
    requires Sound(cfg, d)
    ensures var (d', r) := SettleOp(cfg, d, rid, actual, inputTokens, outputTokens, outcome, Fine, Fine);
      && (r.Ok? <==>
            && actual >= 0 && inputTokens >= 0 && outputTokens >= 0
            && Load(cfg, d).Some? && StatusOf(Bodies(d.history), rid) == Some(Live))
      && (r.Err? ==> d' == d)
  {
    hide Sound, Load, Bodies, AppendSettlement, StatusOf, ClosedFor, HasOverage;
    if Load(cfg, d).Some? {
      LiveExactly(cfg, d, rid);
      if rid in Load(cfg, d).value.core.live && actual >= 0 && inputTokens >= 0 && outputTokens >= 0 {
        SettlementCostsWhatIsSettled(cfg, d, rid, actual, inputTokens, outputTokens, outcome);
      }
    }
  }

  lemma LiveExactly(cfg: Config, d: Disk, rid: Rid)
    requires Sound(cfg, d) && Load(cfg, d).Some?
    ensures rid in Load(cfg, d).value.core.live <==> StatusOf(Bodies(d.history), rid) == Some(Live)
  {
    LoadedAgrees(cfg, d);
    hide Load, Bodies, StatusOf, OpenedIds, ClosedIds, TotalsAgree, LiveSumAgrees, MarkersSound, LiveMarked, OverageAgrees;
  }

  /** A reservation that would be granted and whose line is not confirmed is an
      unavailable ledger. */
  lemma UnconfirmedReservation(cfg: Config, d: Disk, spec: Spec, today: Day, rid: Rid, io: Io)
    requires ReserveOp(cfg, d, spec, today, rid, Fine).1.Ok? && io != Fine
    ensures ReserveOp(cfg, d, spec, today, rid, io).1 == Err(LedgerUnavailable)
  {
    hide Load, Step, Refusal;
  }

  /** Only a reservation is ever denied or conflicts: whatever else fails is an
      unavailable ledger. */
  lemma OtherFailures(cfg: Config, d: Disk, op: Op)
    requires !op.Reserve? && Exec(cfg, d, op).1.Failed?
    ensures Exec(cfg, d, op).1 == Failed(LedgerUnavailable)
  {
    hide Load, Step, Refusal, CompactOp, LedgerModel.UsageForScope;
    if op.Compact? {
      CompactFails(cfg, d, op.pruneDay, op.eventDay, op.month, op.fault);
    }
  }

  lemma CompactFails(cfg: Config, d: Disk, pruneDay: Day, eventDay: Day, month: Month, fault: CompactFault)
    ensures var r := CompactOp(cfg, d, pruneDay, eventDay, month, fault).1; r.Err? ==> r.error == LedgerUnavailable
  {
    hide Load, Step, Prune;
  }

  // ----- what a compaction leaves ---------------------------------------------------------

  /** A compaction in which no write fails succeeds if and only if no archive is of its
      month, and then the journal has moved whole into a new archive of that month, with
      a checkpoint after it, and a journal with one line begins. Otherwise the ledger
      refuses to load. */
  lemma CompactsExactly(cfg: Config, d: Disk, pruneDay: Day, eventDay: Day, month: Month)
    requires Sound(cfg, d) && Load(cfg, d).Some?
    ensures d.journal.Some?
    ensures var (d', r) := CompactOp(cfg, d, pruneDay, eventDay, month, NoFault);
      var c := Load(cfg, d).value.core;
      var taken := exists i :: 0 <= i < |d.archives| && d.archives[i].month == month;
      && (taken ==> r == Err(LedgerUnavailable) && Load(cfg, d').None? && d'.archives == d.archives)
      && (!taken ==>
            && r == Ok(month) && Load(cfg, d').Some?
            && |d'.archives| == |d.archives| + 1 && d'.archives[..|d.archives|] == d.archives
            && Last(d'.archives).month == month
            && |Last(d'.archives).events| == |d.journal.value.events| + 1
            && Init(Last(d'.archives).events) == d.journal.value.events
            && Last(Last(d'.archives).events).content.body.kind.CHECKPOINT?
            && d'.journal.Some? && |d'.journal.value.events| == 1
            && var c' := Load(cfg, d').value.core;
               && c'.live == c.live && c'.totals == c.totals && c'.blocked == c.blocked
               && forall day, k :: Find(c'.idem, day, k)
                    == (if Le(pruneDay, day) || Find(c.idem, day, k) == None || Find(c.idem, day, k).value.status == Live
                        then Find(c.idem, day, k) else None))
  {
    hide Sound, Load, Bodies, Agrees, Step, Prune, Find, Le, Replay;
    var s := Load(cfg, d).value;
    JournalPresent(cfg, d);
    CompactOutcome(cfg, d, s, pruneDay, eventDay, month, NoFault);
    CompactFiles(cfg, d, pruneDay, eventDay, month);
  }

  lemma CompactFiles(cfg: Config, d: Disk, pruneDay: Day, eventDay: Day, month: Month)
    requires Load(cfg, d).Some? && d.journal.Some?
    ensures var (d', r) := CompactOp(cfg, d, pruneDay, eventDay, month, NoFault);
      && (r.Err? ==> r == Err(LedgerUnavailable))
      && (HasArchive(d, month) ==> d'.archives == d.archives)
      && (r.Ok? ==>
            && r == Ok(month) && |d'.archives| == |d.archives| + 1 && d'.archives[..|d.archives|] == d.archives
            && Last(d'.archives).month == month
            && |Last(d'.archives).events| == |d.journal.value.events| + 1
            && Init(Last(d'.archives).events) == d.journal.value.events
            && Last(Last(d'.archives).events).content.body.kind.CHECKPOINT?
            && d'.journal.Some? && |d'.journal.value.events| == 1)
  {
    hide Load, Step, Prune;
  }
}
