/** The data of the usage ledger and the effect of one journal event on the
    state that the ledger replays: a value-level account of what the
    dictionaries of the program hold. */
module LedgerModel {
  import opened Basics
  import opened Days

  type Scope = string
  type Key = string
  type Rid = string
  type Month = string

  datatype Kind = RESERVE | SETTLE | RELEASE | SETTLE_UNKNOWN | OVERAGE | CHECKPOINT | RECOVERY

  datatype Outcome =
    | Reserved
    | Success
    | ProviderFailure
    | Released
    | Settled
    | UnknownOutcome
    | Checkpointed
    | JournalOpened
    | OtherOutcome(text: string)

  /** The accounting fields of a journal event. An absent model scope is "". */
  datatype Body = Body(
    kind: Kind,
    day: Day,
    aggregate: Scope,
    provider: Scope,
    route: Scope,
    modelScope: Scope,
    key: Key,
    rid: Rid,
    reservedCalls: nat,
    reservedMicro: nat,
    actualCalls: nat,
    actualMicro: nat,
    inputTokens: nat,
    outputTokens: nat,
    outcome: Outcome)

  /** Everything of an event that its digest covers. */
  datatype Content = Content(
    sequence: nat,
    previous: Digest,
    domain: string,
    timezone: string,
    body: Body)

  /** An ideal digest: injective in the content, and never the genesis value. */
  datatype Digest = Genesis | Sha(content: Content)

  datatype Event = Event(content: Content, digest: Digest)

  datatype Usage = Usage(calls: nat, micro: nat)

  datatype Status = Live | Unknown | Closed | Recovered

  datatype Marker = Marker(status: Status, rid: Rid)

  type Totals = map<Day, map<Scope, Usage>>
  type Idempotency = map<Day, map<Key, Marker>>
  type LiveTable = map<Rid, Body>

  /** The four coupled parts of the replayed state. */
  datatype Core = Core(totals: Totals, live: LiveTable, idem: Idempotency, blocked: bool)

  datatype State = State(core: Core, lastSequence: nat, lastDigest: Digest)

  const EMPTY_CORE: Core := Core(map[], map[], map[], false)
  const ZERO: Usage := Usage(0, 0)

  // ----- arithmetic on usage -------------------------------------------------

  function Plus(u: Usage, v: Usage): Usage {
    Usage(u.calls + v.calls, u.micro + v.micro)
  }

  lemma PlusZero(u: Usage)
    ensures Plus(u, ZERO) == u && Plus(ZERO, u) == u
  {
  }

  lemma PlusCancels(u: Usage, v: Usage, w: Usage)
    requires Plus(u, v) == Plus(u, w)
    ensures v == w
  {
  }

  lemma PlusAssociates(u: Usage, v: Usage, w: Usage)
    ensures Plus(Plus(u, v), w) == Plus(u, Plus(v, w))
    ensures Plus(u, Plus(v, w)) == Plus(v, Plus(u, w))
  {
  }

  // ----- scopes ---------------------------------------------------------------

  function NonEmpty(values: seq<Scope>): seq<Scope> {
    if values == [] then []
    else if Last(values) == "" then NonEmpty(Init(values))
    else NonEmpty(Init(values)) + [Last(values)]
  }

  function ScopesOf(aggregate: Scope, provider: Scope, route: Scope, modelScope: Scope): seq<Scope> {
    NonEmpty([aggregate, provider, route] + if modelScope != "" then [modelScope] else [])
  }

  function EventScopes(b: Body): seq<Scope> {
    ScopesOf(b.aggregate, b.provider, b.route, b.modelScope)
  }

  predicate Distinct(scopes: seq<Scope>) {
    forall i, j :: 0 <= i < j < |scopes| ==> scopes[i] != scopes[j]
  }

  /** An amount, counted once for every time the scope is listed. */
  function Counted(scopes: seq<Scope>, s: Scope, amount: Usage): Usage {
    if scopes == [] then ZERO
    else
      var rest := Counted(Init(scopes), s, amount);
      if Last(scopes) == s then Plus(rest, amount) else rest
  }

  lemma {:induction false} CountedDistinct(scopes: seq<Scope>, s: Scope, amount: Usage)
    requires Distinct(scopes)
    ensures Counted(scopes, s, amount) == if s in scopes then amount else ZERO
  {
    if scopes != [] {
      CountedDistinct(Init(scopes), s, amount);
      assert scopes == Init(scopes) + [Last(scopes)];
      assert Last(scopes) !in Init(scopes);
      PlusZero(amount);
    }
  }

  // ----- totals ---------------------------------------------------------------

  function ScopeTotal(dayTotals: map<Scope, Usage>, s: Scope): Usage {
    if s in dayTotals then dayTotals[s] else ZERO
  }

  function TotalAt(totals: Totals, day: Day, s: Scope): Usage {
    if day in totals then ScopeTotal(totals[day], s) else ZERO
  }

  function Actual(b: Body): Usage {
    Usage(b.actualCalls, b.actualMicro)
  }

  function Bump(dayTotals: map<Scope, Usage>, s: Scope, amount: Usage): map<Scope, Usage> {
    dayTotals[s := Plus(ScopeTotal(dayTotals, s), amount)]
  }

  lemma BumpAt(dayTotals: map<Scope, Usage>, s: Scope, amount: Usage, t: Scope)
    ensures ScopeTotal(Bump(dayTotals, s, amount), t) ==
            if t == s then Plus(ScopeTotal(dayTotals, t), amount) else ScopeTotal(dayTotals, t)
  {
  }

  function AddScopes(dayTotals: map<Scope, Usage>, scopes: seq<Scope>, amount: Usage): map<Scope, Usage> {
    if scopes == [] then dayTotals
    else
      Bump(AddScopes(dayTotals, Init(scopes), amount), Last(scopes), amount)
  }

  function AddTotals(totals: Totals, b: Body): Totals {
    var dayTotals := if b.day in totals then totals[b.day] else map[];
    totals[b.day := AddScopes(dayTotals, EventScopes(b), Actual(b))]
  }

  lemma {:induction false} AddScopesAt(dayTotals: map<Scope, Usage>, scopes: seq<Scope>, amount: Usage, s: Scope)
    ensures ScopeTotal(AddScopes(dayTotals, scopes, amount), s)
         == Plus(ScopeTotal(dayTotals, s), Counted(scopes, s, amount))
  {
    var start := ScopeTotal(dayTotals, s);
    if scopes == [] {
      PlusZero(start);
    } else {
      var rest, t := Init(scopes), Last(scopes);
      var before, count := AddScopes(dayTotals, rest, amount), Counted(rest, s, amount);
      AddScopesAt(dayTotals, rest, amount, s);
      BumpAt(before, t, amount, s);
      if t == s {
        PlusAssociates(start, count, amount);
        calc {
          ScopeTotal(AddScopes(dayTotals, scopes, amount), s);
          ScopeTotal(Bump(before, t, amount), s);
          Plus(Plus(start, count), amount);
          Plus(start, Plus(count, amount));
          Plus(start, Counted(scopes, s, amount));
        }
      } else {
        calc {
          ScopeTotal(AddScopes(dayTotals, scopes, amount), s);
          ScopeTotal(Bump(before, t, amount), s);
          Plus(start, count);
          Plus(start, Counted(scopes, s, amount));
        }
      }
    }
  }

  /** What one charging event adds to a (day, scope) total: its amounts, once
      for every time the event lists the scope. */
  function Charge(b: Body, day: Day, s: Scope): Usage {
    if b.day == day then Counted(EventScopes(b), s, Actual(b)) else ZERO
  }

  lemma AddTotalsAt(totals: Totals, b: Body, day: Day, s: Scope)
    ensures TotalAt(AddTotals(totals, b), day, s) == Plus(TotalAt(totals, day, s), Charge(b, day, s))
  {
    PlusZero(TotalAt(totals, day, s));
    if b.day == day {
      AddScopesAt(if b.day in totals then totals[b.day] else map[], EventScopes(b), Actual(b), s);
    }
  }

  // ----- idempotency markers -----------------------------------------------

  function Find(idem: Idempotency, day: Day, key: Key): Option<Marker> {
    if day in idem && key in idem[day] then Some(idem[day][key]) else None
  }

  function Put(idem: Idempotency, day: Day, key: Key, m: Marker): (r: Idempotency)
    ensures forall d, k :: Find(r, d, k) == if d == day && k == key then Some(m) else Find(idem, d, k)
  {
    var bucket := if day in idem then idem[day] else map[];
    idem[day := bucket[key := m]]
  }

  function Drop(idem: Idempotency, day: Day, key: Key): (r: Idempotency)
    ensures forall d, k :: Find(r, d, k) == if d == day && k == key then None else Find(idem, d, k)
  {
    if day !in idem then idem
    else
      var bucket := idem[day] - {key};
      assert forall k :: k in bucket <==> k in idem[day] && k != key;
      if bucket == map[] then idem - {day} else idem[day := bucket]
  }

  function LiveOnly(bucket: map<Key, Marker>): map<Key, Marker> {
    map k | k in bucket && bucket[k].status == Live :: bucket[k]
  }

  /** What pruning at `day` leaves of a marker of day `d`. */
  function Kept(found: Option<Marker>, day: Day, d: Day): Option<Marker> {
    if found.Some? && (Le(day, d) || found.value.status == Live) then found else None
  }

  /** Drops the terminal markers of days before `day`, and the buckets this empties. */
  function Prune(idem: Idempotency, day: Day): (r: Idempotency)
    ensures forall d, k :: Find(r, d, k) == Kept(Find(idem, d, k), day, d)
  {
    var r := map d | d in idem && (Le(day, d) || LiveOnly(idem[d]) != map[]) ::
        if Le(day, d) then idem[d] else LiveOnly(idem[d]);
    assert forall d, k | d in idem && k in idem[d] && idem[d][k].status == Live :: k in LiveOnly(idem[d]);
    r
  }

  // ----- one event --------------------------------------------------------

  /** A definitive rejection that cost nothing. */
  predicate FreeRejection(b: Body) {
    b.kind.SETTLE? && b.outcome == ProviderFailure && b.actualMicro == 0
  }

  /** The effect of one event; None where the program raises. */
  function Step(c: Core, b: Body): Option<Core> {
    match b.kind
    case RESERVE =>
      if b.rid in c.live || Find(c.idem, b.day, b.key).Some? then None
      else Some(c.(live := c.live[b.rid := b], idem := Put(c.idem, b.day, b.key, Marker(Live, b.rid))))
    case RELEASE =>
      if b.rid !in c.live then None
      else Some(Unmark(TakeLive(c, b.rid), c.live[b.rid]))
    case SETTLE =>
      if b.rid !in c.live then None
      else
        var taken := TakeLive(c, b.rid).(totals := AddTotals(c.totals, b));
        Some(if FreeRejection(b) then Unmark(taken, c.live[b.rid])
             else Remark(taken, c.live[b.rid], Marker(Closed, b.rid)))
    case SETTLE_UNKNOWN =>
      if b.rid !in c.live then None
      else
        var taken := TakeLive(c, b.rid).(totals := AddTotals(c.totals, b));
        Some(Remark(taken, c.live[b.rid], Marker(Unknown, b.rid)))
    case OVERAGE => Some(c.(blocked := true))
    case RECOVERY =>
      if b.rid !in c.live then None
      else if b.outcome == Released then Some(Unmark(TakeLive(c, b.rid), c.live[b.rid]))
      else if b.outcome == Settled then
        var taken := TakeLive(c, b.rid).(totals := AddTotals(c.totals, b));
        Some(Remark(taken, c.live[b.rid], Marker(Recovered, b.rid)))
      else None
    case CHECKPOINT => Some(c)
  }

  function TakeLive(c: Core, rid: Rid): Core {
    c.(live := c.live - {rid})
  }

  function Unmark(c: Core, record: Body): Core {
    c.(idem := Drop(c.idem, record.day, record.key))
  }

  function Remark(c: Core, record: Body, m: Marker): Core {
    c.(idem := Put(c.idem, record.day, record.key, m))
  }

  // ----- usage of a scope: settled totals plus live reservations ----------

  function Claim(b: Body, day: Day, s: Scope): Usage {
    if b.day == day && s in EventScopes(b) then Usage(b.reservedCalls, b.reservedMicro) else ZERO
  }

  ghost function Sum(amounts: map<Rid, Usage>): Usage {
    if amounts == map[] then ZERO
    else
      var r :| r in amounts;
      Plus(amounts[r], Sum(amounts - {r}))
  }

  /** The sum over a table does not depend on the order of its entries. */
  lemma {:induction false} SumTake(amounts: map<Rid, Usage>, r: Rid)
    requires r in amounts
    ensures Sum(amounts) == Plus(amounts[r], Sum(amounts - {r}))
    decreases |amounts|
  {
    var q :| q in amounts && Sum(amounts) == Plus(amounts[q], Sum(amounts - {q}));
    if q != r {
      SumTake(amounts - {q}, r);
      assert amounts - {q} - {r} == amounts - {r} - {q};
      SumTake(amounts - {r}, q);
      PlusAssociates(amounts[q], amounts[r], Sum(amounts - {q} - {r}));
    }
  }

  ghost function Claims(live: LiveTable, day: Day, s: Scope): map<Rid, Usage> {
    map r | r in live :: Claim(live[r], day, s)
  }

  ghost function LiveUsage(live: LiveTable, day: Day, s: Scope): Usage {
    Sum(Claims(live, day, s))
  }

  lemma LiveUsageTake(live: LiveTable, r: Rid, day: Day, s: Scope)
    requires r in live
    ensures LiveUsage(live, day, s) == Plus(Claim(live[r], day, s), LiveUsage(live - {r}, day, s))
  {
    SumTake(Claims(live, day, s), r);
    assert Claims(live, day, s) - {r} == Claims(live - {r}, day, s);
  }

  lemma LiveUsageAdd(live: LiveTable, r: Rid, b: Body, day: Day, s: Scope)
    requires r !in live
    ensures LiveUsage(live[r := b], day, s) == Plus(Claim(b, day, s), LiveUsage(live, day, s))
  {
    LiveUsageTake(live[r := b], r, day, s);
    assert live[r := b] - {r} == live;
  }

  ghost function UsageForScope(c: Core, day: Day, s: Scope): Usage {
    Plus(TotalAt(c.totals, day, s), LiveUsage(c.live, day, s))
  }
}
