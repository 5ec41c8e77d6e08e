/** What the invariant means for the callers of the ledger. */
module LedgerTheorems {
  import opened Basics
  import opened Days
  import opened LedgerModel
  import opened LedgerHistory
  import opened LedgerDisk
  import opened LedgerSafety
  import opened LedgerRuns
  import opened LedgerCaps
  import opened LedgerKeys

  // ----- at most one paid outcome per budget day and key --------------------

  /** The money charged for one reservation. */
  function MicroOf(h: History, r: Rid): nat {
    if h == [] then 0
    else MicroOf(Init(h), r) + if Charging(Last(h)) && Last(h).rid == r then Last(h).actualMicro else 0
  }

  /** The reservation is live, unknown, recovered, settled, or was charged money. */
  ghost predicate Spends(h: History, r: Rid) {
    Holds(h, r) || MicroOf(h, r) > 0
  }

  lemma {:induction false} OpenCostsNothing(h: History, r: Rid)
    requires r !in ClosedIds(h)
    ensures MicroOf(h, r) == 0
  {
    if h != [] {
      OpenCostsNothing(Init(h), r);
    }
  }

  /** A reservation that was freed has cost nothing. */
  lemma {:induction false} FreedCostsNothing(h: History, r: Rid)
    requires ClosedOnce(h) && StatusOf(h, r) == None
    ensures MicroOf(h, r) == 0
  {
    if h != [] {
      if Terminal(Last(h)) && Last(h).rid == r {
        OpenCostsNothing(Init(h), r);
      } else {
        FreedCostsNothing(Init(h), r);
      }
    }
  }

  lemma {:induction false} OpenedAt(h: History, i: nat)
    requires OpenedOnce(h) && i < |h| && h[i].kind.RESERVE?
    ensures h[i].rid in OpenedIds(h) && ReserveOf(h, h[i].rid) == h[i]
  {
    if i < |h| - 1 {
      OpenedAt(Init(h), i);
    }
  }

  lemma {:induction false} OpenedApart(h: History, i: nat, j: nat)
    requires OpenedOnce(h) && i < j < |h| && h[i].kind.RESERVE? && h[j].kind.RESERVE?
    ensures h[i].rid != h[j].rid
  {
    if j < |h| - 1 {
      OpenedApart(Init(h), i, j);
    } else {
      OpenedAt(Init(h), i);
    }
  }

  lemma RunOrderly(cfg: Config, ops: seq<Op>)
    requires Legal(cfg, ops)
    ensures Orderly(Bodies(Run(cfg, ops).history))
  {
    hide Orderly, Chained, Current, Load, Legal, Run;
    RunSound(cfg, ops);
  }

  /** Over every run whose budget days do not go back behind a compaction, of two
      reservations made for one day and key at most one is live, unknown, recovered, settled or charged any money. */
  lemma {:induction false} AtMostOnce(cfg: Config, ops: seq<Op>, i: nat, j: nat)
    requires Legal(cfg, ops) && DaysInOrder(ops) && i < j < |Bodies(Run(cfg, ops).history)|
    requires var h := Bodies(Run(cfg, ops).history);
      h[i].kind.RESERVE? && h[j].kind.RESERVE? && h[i].day == h[j].day && h[i].key == h[j].key
    ensures var h := Bodies(Run(cfg, ops).history); !Spends(h, h[i].rid) || !Spends(h, h[j].rid)
  {
    RunKeyed(cfg, ops);
    hide Run, Legal, Bodies, Orderly, Spends, KeysHeldOnce, DaysInOrder;
    RunOrderly(cfg, ops);
    SpentOnce(Bodies(Run(cfg, ops).history), i, j);
  }

  lemma SpentOnce(h: History, i: nat, j: nat)
    requires Orderly(h) && KeysHeldOnce(h) && i < j < |h|
    requires h[i].kind.RESERVE? && h[j].kind.RESERVE? && h[i].day == h[j].day && h[i].key == h[j].key
    ensures !Spends(h, h[i].rid) || !Spends(h, h[j].rid)
  {
    hide OpenedOnce, OpenedIds, ReserveOf, StandingsAgree, OverageFinal, LiveApart, KeysHeldOnce, Spends, Holds;
    OpenedAt(h, i);
    OpenedAt(h, j);
    OpenedApart(h, i, j);
    if Spends(h, h[i].rid) && Spends(h, h[j].rid) {
      SpendingHolds(h, h[i].rid);
      SpendingHolds(h, h[j].rid);
      HoldersDiffer(h, h[i].rid, h[j].rid);
    }
  }

  lemma SpendingHolds(h: History, r: Rid)
    requires Orderly(h) && r in OpenedIds(h) && Spends(h, r)
    ensures Holds(h, r)
  {
    hide OpenedOnce, OverageFinal, OpenedIds, ClosedIds, MicroOf;
    if StatusOf(h, r) == None {
      FreedCostsNothing(h, r);
    }
  }

  // ----- live reservations and live markers are in bijection ------------------

  /** Each live reservation owns the marker at its day and key, and each live
      marker names a live reservation of that day and key. */
  lemma {:induction false} LiveBijection(cfg: Config, ops: seq<Op>)
    requires Legal(cfg, ops) && Load(cfg, Run(cfg, ops)).Some?
    ensures var c := Load(cfg, Run(cfg, ops)).value.core;
      && (forall r :: r in c.live ==> Find(c.idem, c.live[r].day, c.live[r].key) == Some(Marker(Live, r)))
      && (forall d, k, r :: Find(c.idem, d, k) == Some(Marker(Live, r)) ==>
            r in c.live && c.live[r].day == d && c.live[r].key == k)
  {
    var d := Run(cfg, ops);
    var c, h := Load(cfg, d).value.core, Bodies(d.history);
    RunSound(cfg, ops);
    LoadedAgrees(cfg, d);
    hide Run, Legal, Load, Bodies, Find, TotalsAgree, LiveSumAgrees, OverageAgrees;
    forall r | r in c.live
      ensures Find(c.idem, c.live[r].day, c.live[r].key) == Some(Marker(Live, r))
    {
      assert LiveMarked(c);
    }
    forall day, k, r | Find(c.idem, day, k) == Some(Marker(Live, r))
      ensures r in c.live && c.live[r].day == day && c.live[r].key == k
    {
      assert Truthful(h, day, k, Marker(Live, r));
    }
  }

  /** Each reservation id gets at most one terminal event, after its reservation. */
  lemma {:induction false} ClosedAtMostOnce(h: History, i: nat, j: nat)
    requires ClosedOnce(h) && i < j < |h| && Terminal(h[i]) && Terminal(h[j])
    ensures h[i].rid != h[j].rid
  {
    if j < |h| - 1 {
      ClosedAtMostOnce(Init(h), i, j);
    } else {
      ClosedAt(Init(h), i);
    }
  }

  lemma {:induction false} ClosedAt(h: History, i: nat)
    requires i < |h| && Terminal(h[i])
    ensures h[i].rid in ClosedIds(h)
  {
    if i < |h| - 1 {
      ClosedAt(Init(h), i);
    }
  }

  lemma {:induction false} OneTerminalEach(cfg: Config, ops: seq<Op>, i: nat, j: nat)
    requires Legal(cfg, ops) && i < j < |Bodies(Run(cfg, ops).history)|
    requires var h := Bodies(Run(cfg, ops).history); Terminal(h[i]) && Terminal(h[j])
    ensures var h := Bodies(Run(cfg, ops).history); h[i].rid != h[j].rid
  {
    RunOrderly(cfg, ops);
    hide Run, Legal, Bodies;
    ClosedAtMostOnce(Bodies(Run(cfg, ops).history), i, j);
  }

  // ----- an overage is final ----------------------------------------------------

  lemma {:induction false} OverageAt(h: History, i: nat)
    requires i < |h| && h[i].kind.OVERAGE?
    ensures HasOverage(h)
  {
    if i < |h| - 1 {
      OverageAt(Init(h), i);
    }
  }

  lemma {:induction false} NoReserveAfter(h: History, i: nat, j: nat)
    requires OverageFinal(h) && i < j < |h| && h[i].kind.OVERAGE?
    ensures !h[j].kind.RESERVE?
  {
    if j < |h| - 1 {
      NoReserveAfter(Init(h), i, j);
    } else {
      OverageAt(Init(h), i);
    }
  }

  /** No reservation event ever follows an overage event. */
  lemma {:induction false} OverageIsFinal(cfg: Config, ops: seq<Op>, i: nat, j: nat)
    requires Legal(cfg, ops) && i < j < |Bodies(Run(cfg, ops).history)|
    requires Bodies(Run(cfg, ops).history)[i].kind.OVERAGE?
    ensures !Bodies(Run(cfg, ops).history)[j].kind.RESERVE?
  {
    RunOrderly(cfg, ops);
    hide Run, Legal, Bodies;
    NoReserveAfter(Bodies(Run(cfg, ops).history), i, j);
  }

  predicate LineComplete(io: Io) {
    io == Fine || io == WrittenButFailed
  }

  /** When a settlement blocks the domain: exactly when it is above its
      reservation and both of its events reach the disk, or it was blocked. */
  lemma SettleBlocksExactly(cfg: Config, d: Disk, rid: Rid, actual: nat, inputTokens: nat,
                            outputTokens: nat, outcome: Outcome, io: Io, overageIo: Io)
    requires Sound(cfg, d) && Load(cfg, d).Some? && rid in Load(cfg, d).value.core.live
    ensures var s := Load(cfg, d).value;
      var (d', r) := SettleOp(cfg, d, rid, actual, inputTokens, outputTokens, outcome, io, overageIo);
      && (Load(cfg, d').Some? ==>
            (Load(cfg, d').value.core.blocked <==>
               s.core.blocked || (actual > s.core.live[rid].reservedMicro && io == Fine && LineComplete(overageIo))))
      && (r.Ok? && actual > s.core.live[rid].reservedMicro ==> Load(cfg, d').Some? && Load(cfg, d').value.core.blocked)
  {
    hide Sound, Replay, Accept, Bodies, MakeEvent, Admissible, AddTotals, Put, Drop;
    var s := Load(cfg, d).value;
    var b := SettleBody(s.core.live[rid], actual, inputTokens, outputTokens, outcome);
    ClosingAdmissible(cfg, d, s, rid, b);
    AppendSound(cfg, d, s, s, b, io);
    LoadAfterLine(cfg, d, s, MakeEvent(cfg, s, b));
    AcceptsMade(cfg, s, b);
    var (d1, settled) := Append(cfg, d, s, b, io);
    if settled.Ok? && actual > b.reservedMicro {
      var over := OverageBody(b);
      LoadAfterLine(cfg, d1, settled.value, MakeEvent(cfg, settled.value, over));
      AcceptsMade(cfg, settled.value, over);
    }
  }

  /** Operator recovery never blocks the domain, whatever it charges. */
  lemma RecoveryNeverBlocks(cfg: Config, d: Disk, rid: Rid, evidenceOk: bool, actual: Option<int>,
                            release: bool, io: Io)
    requires Sound(cfg, d) && Load(cfg, d).Some?
    ensures var d' := RecoverOp(cfg, d, rid, evidenceOk, actual, release, io).0;
      Load(cfg, d').Some? ==> (Load(cfg, d').value.core.blocked <==> Load(cfg, d).value.core.blocked)
  {
    hide Sound, Replay, Accept, Bodies, MakeEvent, Admissible, AddTotals, Put, Drop;
    var s := Load(cfg, d).value;
    if evidenceOk && release != actual.Some? && !(actual.Some? && actual.value < 0) && rid in s.core.live {
      var b := RecoveryBody(s.core.live[rid], if actual.Some? then Some(actual.value as nat) else None);
      ClosingAdmissible(cfg, d, s, rid, b);
      AppendSound(cfg, d, s, s, b, io);
      LoadAfterLine(cfg, d, s, MakeEvent(cfg, s, b));
      AcceptsMade(cfg, s, b);
    }
  }

  /** A reservation is live exactly when it can be closed, block or no block. */
  lemma ClosesWhenLive(cfg: Config, d: Disk, rid: Rid, how: Closing)
    requires Sound(cfg, d)
    ensures CloseWith(cfg, d, rid, Fine, how).1.Ok? <==>
      Load(cfg, d).Some? && rid in Load(cfg, d).value.core.live
  {
    hide Sound, Load, Replay, Accept, Step, Bodies, MakeEvent, Admissible;
    if Load(cfg, d).Some? && rid in Load(cfg, d).value.core.live {
      var s := Load(cfg, d).value;
      var b := ClosingBody(s.core.live[rid], how);
      ClosingAdmissible(cfg, d, s, rid, b);
      AppendSound(cfg, d, s, s, b, Fine);
    }
  }

  /** Operator recovery succeeds exactly on an open reservation, with evidence and
      either a release or a charge: one whose outcome was recorded as unknown can
      no longer be recovered. */
  lemma RecoversExactly(cfg: Config, d: Disk, rid: Rid, evidenceOk: bool, actual: Option<int>, release: bool)
    requires Sound(cfg, d)
    ensures RecoverOp(cfg, d, rid, evidenceOk, actual, release, Fine).1.Ok? <==>
      && evidenceOk && release != actual.Some? && (actual.Some? ==> actual.value >= 0)
      && Load(cfg, d).Some? && StatusOf(Bodies(d.history), rid) == Some(Live)
  {
    hide Sound, Load, CloseWith, Bodies;
    if Load(cfg, d).Some? {
      LoadedAgrees(cfg, d);
      hide TotalsAgree, LiveSumAgrees, MarkersSound, LiveMarked, OverageAgrees;
    }
    ClosesWhenLive(cfg, d, rid, AsRecovered(None));
    if actual.Some? && actual.value >= 0 {
      ClosesWhenLive(cfg, d, rid, AsRecovered(Some(actual.value as nat)));
    }
  }

  lemma {:induction false} ClosedForever(h: History, h': History)
    requires h <= h'
    ensures ClosedIds(h) <= ClosedIds(h')
  {
    if |h| < |h'| {
      ClosedForever(h, Init(h'));
    } else {
      assert h == h';
    }
  }

  lemma {:induction false} ClosedWereOpened(h: History)
    requires ClosedOnce(h)
    ensures ClosedIds(h) <= OpenedIds(h)
  {
    if h != [] {
      ClosedWereOpened(Init(h));
    }
  }

  /** What a closed reservation has cost, and how it stands, never changes again. */
  lemma {:induction false} CostIsFinal(h: History, h': History, r: Rid)
    requires h <= h' && ClosedOnce(h') && OpenedOnce(h') && r in ClosedIds(h)
    ensures MicroOf(h', r) == MicroOf(h, r) && StatusOf(h', r) == StatusOf(h, r)
  {
    if |h| < |h'| {
      CostIsFinal(h, Init(h'), r);
      ClosedForever(h, Init(h'));
      ClosedWereOpened(Init(h'));
    } else {
      assert h == h';
    }
  }

  /** Recording an outcome as unknown succeeds, and from then on no recovery of that
      reservation does, whatever it names and however the ledger goes on. */
  lemma UnknownNeverRecovered(cfg: Config, d: Disk, rid: Rid, later: Disk, evidenceOk: bool, actual: Option<int>,
                              release: bool, io: Io)
    requires Sound(cfg, d) && Load(cfg, d).Some? && rid in Load(cfg, d).value.core.live
    requires Sound(cfg, later) && Bodies(SettleUnknownOp(cfg, d, rid, Fine).0.history) <= Bodies(later.history)
    ensures SettleUnknownOp(cfg, d, rid, Fine).1.Ok? && Load(cfg, SettleUnknownOp(cfg, d, rid, Fine).0).Some?
    ensures RecoverOp(cfg, later, rid, evidenceOk, actual, release, io) == (later, Err(LedgerUnavailable))
  {
    hide Sound, Load, SettleUnknownOp, Bodies, ClosedIds, OpenedIds;
    RecordedUnknown(cfg, d, rid);
    ClosedForever(Bodies(SettleUnknownOp(cfg, d, rid, Fine).0.history), Bodies(later.history));
    if Load(cfg, later).Some? {
      LoadedAgrees(cfg, later);
      hide TotalsAgree, LiveSumAgrees, MarkersSound, LiveMarked, StandingsAgree, OverageAgrees;
      assert rid !in Load(cfg, later).value.core.live;
    }
  }

  lemma RecordedUnknown(cfg: Config, d: Disk, rid: Rid)
    requires Sound(cfg, d) && Load(cfg, d).Some? && rid in Load(cfg, d).value.core.live
    ensures var (d', r) := SettleUnknownOp(cfg, d, rid, Fine);
      r.Ok? && Load(cfg, d').Some? && rid in ClosedIds(Bodies(d'.history))
  {
    hide Sound, Load, Replay, Accept, Step, Bodies, Admissible, ClosedIds, OpenedIds;
    var s := Load(cfg, d).value;
    var b := UnknownBody(s.core.live[rid]);
    ClosingAdmissible(cfg, d, s, rid, b);
    AppendSound(cfg, d, s, s, b, Fine);
    LiveNamesItself(cfg, d, rid);
    BodiesAppend(d.history, MakeEvent(cfg, s, b));
    Extended(Bodies(d.history), b);
  }

  lemma LiveNamesItself(cfg: Config, d: Disk, rid: Rid)
    requires Sound(cfg, d) && Load(cfg, d).Some?
    ensures var live := Load(cfg, d).value.core.live; rid in live ==> live[rid].rid == rid
  {
    LoadedAgrees(cfg, d);
    hide Load, Bodies, TotalsAgree, LiveSumAgrees, MarkersSound, LiveMarked, OverageAgrees;
  }

  // ----- a reservation is granted exactly when the budget covers it -----------

  /** A scope is capped and has one call and the requested money left. */
  ghost predicate Covered(cfg: Config, d: Disk, today: Day, micro: nat, s: Scope) {
    RemainingOp(cfg, d, s, today).Ok? &&
    RemainingOp(cfg, d, s, today).value.callsLeft >= 1 &&
    RemainingOp(cfg, d, s, today).value.microLeft >= micro
  }

  lemma CoveredExactly(cfg: Config, d: Disk, s: State, today: Day, micro: nat, scope: Scope)
    requires Load(cfg, d) == Some(s) && micro > 0
    ensures Covered(cfg, d, today, micro, scope) <==>
      scope in cfg.caps && !Exceeds(s.core, cfg.caps[scope], today, micro, scope)
  {
    hide Load, UsageForScope;
  }

  /** What a reservation asks for is granted if and only if the domain is not
      blocked, the key is unused that day, and the remaining budget that the
      ledger reports for each of its scopes covers it. */
  lemma GrantedExactly(cfg: Config, d: Disk, spec: Spec, today: Day, rid: Rid)
    requires Sound(cfg, d) && ValidSpec(spec)
    requires rid !in OpenedIds(Bodies(d.history))
    ensures ReserveOp(cfg, d, spec, today, rid, Fine).1.Ok? <==>
      && SpecFits(cfg, spec)
      && Load(cfg, d).Some?
      && !Load(cfg, d).value.core.blocked
      && Find(Load(cfg, d).value.core.idem, today, spec.key).None?
      && forall s :: s in SpecScopes(spec) ==> Covered(cfg, d, today, spec.micro, s)
  {
    hide Sound, Load, Step, Bodies, Exceeds, Covered, SpecScopes;
    if SpecFits(cfg, spec) && Load(cfg, d).Some? {
      var s := Load(cfg, d).value;
      ScopesAllow(cfg, s.core, today, spec.micro, SpecScopes(spec));
      forall scope
        ensures Covered(cfg, d, today, spec.micro, scope) <==>
          scope in cfg.caps && !Exceeds(s.core, cfg.caps[scope], today, spec.micro, scope)
      {
        CoveredExactly(cfg, d, s, today, spec.micro, scope);
      }
      if Refusal(cfg, s.core, spec, today).None? {
        AppendSound(cfg, d, s, s, ReserveBody(spec, today, rid), Fine);
      }
    }
  }

  // ----- one unbroken chain -----------------------------------------------------

  /** Two chained histories that end in the same digest are the same events. */
  lemma {:induction false} SameDigestSameHistory(cfg: Config, other: Config, a: seq<Event>, b: seq<Event>)
    requires Chained(cfg, a) && Chained(other, b) && LastDigest(a) == LastDigest(b)
    ensures a == b
  {
    if a != [] && b != [] {
      assert Last(a).content == Last(b).content;
      SameDigestSameHistory(cfg, other, Init(a), Init(b));
      assert a == Init(a) + [Last(a)] && b == Init(b) + [Last(b)];
    }
  }

  /** In every loadable state the archives followed by the active journal are
      one chain from the genesis digest, and it is the whole history. */
  lemma {:induction false} OneChain(cfg: Config, ops: seq<Op>)
    requires Legal(cfg, ops) && Load(cfg, Run(cfg, ops)).Some?
    ensures var d := Run(cfg, ops);
      var chain := ArchivedEvents(d.archives) + d.journal.value.events;
      && chain == d.history && Chained(cfg, chain)
      && Load(cfg, d).value.lastDigest == LastDigest(chain)
      && Load(cfg, d).value.lastSequence == |chain|
  {
    hide Run, Legal, Load, Agrees, Orderly;
    RunSound(cfg, ops);
    JournalPresent(cfg, Run(cfg, ops));
  }

  // ----- storage is never poisoned, nothing is forgotten ------------------------

  /** A ledger that refuses to load is never changed again, and grants nothing. */
  lemma RefusedForever(cfg: Config, d: Disk, op: Op)
    requires Load(cfg, d) == None
    ensures Exec(cfg, d, op) == (d, Failed(LedgerUnavailable))
  {
    hide Load, Rotate;
  }

  /** Apart from a compaction, only a torn line makes the next load refuse: a
      complete line is accepted whatever it says. */
  lemma OnlyTornLinesRefuse(cfg: Config, d: Disk, op: Op)
    requires Sound(cfg, d) && Promised(d, op) && Load(cfg, d).Some? && !op.Compact?
    ensures var d' := Exec(cfg, d, op).0;
      d'.journal.Some? && (Load(cfg, d').Some? <==> !d'.journal.value.torn)
  {
    hide Sound, Load, Replay, Accept, Step, Bodies, MakeEvent, Admissible, Refusal, RemainingOp, Append, Promised;
    var s := Load(cfg, d).value;
    NotTorn(cfg, d);
    if Principal(cfg, d, op).Some? {
      var b := Principal(cfg, d, op).value;
      PrincipalAdmissible(cfg, d, op);
      TornExactly(cfg, d, s, b, op.io);
      if op.Settle? && Append(cfg, d, s, b, op.io).1.Ok? {
        var (d1, settled) := Append(cfg, d, s, b, op.io);
        OverageSound(cfg, d1, settled.value, b, op.overageIo);
        OverageAdmissible(settled.value.core, Bodies(d1.history), b);
        TornExactly(cfg, d1, settled.value, OverageBody(b), op.overageIo);
      }
    }
  }

  lemma NotTorn(cfg: Config, d: Disk)
    requires Load(cfg, d).Some?
    ensures d.journal.Some? && !d.journal.value.torn
  {
  }

  lemma TornExactly(cfg: Config, d: Disk, s: State, b: Body, io: Io)
    requires Sound(cfg, d) && Load(cfg, d) == Some(s)
    requires Admissible(s.core, Bodies(d.history), b)
    ensures d.journal.Some?
    ensures var (d', r) := Append(cfg, d, s, b, io);
      && Sound(cfg, d')
      && d'.journal.Some? && (Load(cfg, d').Some? <==> !d'.journal.value.torn)
      && (r.Ok? ==> Load(cfg, d') == Some(r.value))
  {
    hide Sound, Replay, Accept, Step, Bodies, Admissible;
    AppendSound(cfg, d, s, s, b, io);
    LoadAfterLine(cfg, d, s, MakeEvent(cfg, s, b));
    AcceptsMade(cfg, s, b);
  }

  /** Crash safety at every write: whatever the operation and wherever it stops,
      the next load is refused, or reads a state whose usage and live table are
      those of the whole history, and the history never loses an event. */
  lemma NothingForgotten(cfg: Config, d: Disk, op: Op, day: Day, s: Scope)
    requires Sound(cfg, d) && Promised(d, op)
    ensures var d' := Exec(cfg, d, op).0; var h' := Bodies(d'.history);
      && d.history <= d'.history
      && (Load(cfg, d').Some? ==>
            && UsageForScope(Load(cfg, d').value.core, day, s) == NaiveUsage(h', day, s)
            && Load(cfg, d').value.core.live.Keys == OpenedIds(h') - ClosedIds(h')
            && (Load(cfg, d').value.core.blocked <==> HasOverage(h')))
  {
    hide Sound, Load, Exec, Bodies, Promised, UsageForScope, NaiveUsage;
    ExecSound(cfg, d, op);
    var added := ExecGrows(cfg, d, op);
    var d' := Exec(cfg, d, op).0;
    if Load(cfg, d').Some? {
      LoadedAgrees(cfg, d');
      IndexAgrees(Load(cfg, d').value.core, Bodies(d'.history), day, s);
      hide TotalsAgree, LiveSumAgrees, MarkersSound, LiveMarked, StandingsAgree;
    }
  }
}
