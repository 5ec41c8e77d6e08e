/** Compaction cannot be observed: a compacted ledger that still loads answers
    every later operation as the uncompacted one would have. */
module LedgerCompaction {
  import opened Basics
  import opened Days
  import opened LedgerModel
  import opened LedgerHistory
  import opened LedgerDisk
  import opened LedgerSafety
  import opened LedgerRuns
  import opened LedgerCaps
  import opened LedgerKeys
  import opened LedgerTheorems

  /** b is a, but for terminal markers of days before `from` that b may lack. */
  ghost predicate Same(a: Core, b: Core, from: Day) {
    && a.totals == b.totals && a.live == b.live && a.blocked == b.blocked
    && forall d, k :: Find(b.idem, d, k) == Find(a.idem, d, k) || Forgettable(a, b, from, d, k)
  }

  predicate Forgettable(a: Core, b: Core, from: Day, d: Day, k: Key) {
    !Le(from, d) && Find(b.idem, d, k).None? && Find(a.idem, d, k).Some? && Find(a.idem, d, k).value.status != Live
  }

  /** Both ledgers refuse to load, or both load and are the same in that sense. */
  ghost predicate Twins(cfg: Config, da: Disk, db: Disk, from: Day) {
    (Load(cfg, da).None? && Load(cfg, db).None?) ||
    (Load(cfg, da).Some? && Load(cfg, db).Some? && Same(Load(cfg, da).value.core, Load(cfg, db).value.core, from))
  }

  lemma PrunedIsSame(c: Core, from: Day)
    ensures Same(c, PruneCore(c, from), from)
  {
  }

  /** The same event is accepted by both and keeps them the same. */
  lemma StepSame(a: Core, b: Core, from: Day, e: Body)
    requires Same(a, b, from) && (e.kind.RESERVE? ==> Le(from, e.day))
    ensures Step(a, e).Some? <==> Step(b, e).Some?
    ensures Step(a, e).Some? ==> Same(Step(a, e).value, Step(b, e).value, from)
  {
    hide Find, AddTotals, Put, Drop, ScopesOf, Le;
    if Step(a, e).Some? && Step(b, e).Some? {
      StepHasEffect(a, e);
      StepHasEffect(b, e);
      hide Step;
      var a', b' := Step(a, e).value, Step(b, e).value;
      forall d, k
        ensures Find(b'.idem, d, k) == Find(a'.idem, d, k) || Forgettable(a', b', from, d, k)
      {
        assert Find(a'.idem, d, k) == FoundAfter(a, e, d, k) && Find(b'.idem, d, k) == FoundAfter(b, e, d, k);
      }
    }
  }

  /** The same append, failing in the same way, keeps twins twins. */
  lemma AppendSame(cfg: Config, da: Disk, sa: State, db: Disk, sb: State, e: Body, io: Io, from: Day)
    requires Load(cfg, da) == Some(sa) && Load(cfg, db) == Some(sb) && Same(sa.core, sb.core, from)
    requires e.kind.RESERVE? ==> Le(from, e.day)
    ensures da.journal.Some? && db.journal.Some?
    ensures var (da', ra) := Append(cfg, da, sa, e, io); var (db', rb) := Append(cfg, db, sb, e, io);
      && Twins(cfg, da', db', from)
      && (ra.Ok? <==> rb.Ok?)
      && (ra.Ok? ==> Load(cfg, da') == Some(ra.value) && Load(cfg, db') == Some(rb.value))
      && (ra.Err? ==> ra == rb == Err(LedgerUnavailable))
  {
    hide Same, Step, Replay, Load;
    JournalPresent(cfg, da);
    JournalPresent(cfg, db);
    StepSame(sa.core, sb.core, from, e);
    LoadAfterLine(cfg, da, sa, MakeEvent(cfg, sa, e));
    LoadAfterLine(cfg, db, sb, MakeEvent(cfg, sb, e));
  }

  lemma RefusalSame(cfg: Config, a: Core, b: Core, spec: Spec, today: Day, from: Day)
    requires Same(a, b, from) && Le(from, today)
    ensures Refusal(cfg, a, spec, today) == Refusal(cfg, b, spec, today)
  {
    hide SpecScopes;
    assert Find(a.idem, today, spec.key) == Find(b.idem, today, spec.key);
    hide Find, Same;
    ScopeRefusalSame(cfg, a, b, today, spec.micro, SpecScopes(spec));
  }

  lemma {:induction false} ScopeRefusalSame(cfg: Config, a: Core, b: Core, day: Day, micro: nat, scopes: seq<Scope>)
    requires a.totals == b.totals && a.live == b.live
    ensures ScopeRefusal(cfg, a, day, micro, scopes) == ScopeRefusal(cfg, b, day, micro, scopes)
  {
    hide LiveUsage, TotalAt;
    if scopes != [] {
      ScopeRefusalSame(cfg, a, b, day, micro, scopes[1..]);
    }
  }

  lemma ReserveSame(cfg: Config, da: Disk, db: Disk, spec: Spec, today: Day, rid: Rid, io: Io, from: Day)
    requires Twins(cfg, da, db, from) && Le(from, today) && Load(cfg, da).Some?
    ensures var (da', ra) := ReserveOp(cfg, da, spec, today, rid, io);
      var (db', rb) := ReserveOp(cfg, db, spec, today, rid, io);
      && ra == rb
      && Twins(cfg, da', db', from)
  {
    hide Same, Load, Append, Refusal;
    var sa, sb := Load(cfg, da).value, Load(cfg, db).value;
    RefusalSame(cfg, sa.core, sb.core, spec, today, from);
    AppendSame(cfg, da, sa, db, sb, ReserveBody(spec, today, rid), io, from);
    if SpecFits(cfg, spec) && Refusal(cfg, sa.core, spec, today).None? {
      var da' := Append(cfg, da, sa, ReserveBody(spec, today, rid), io).0;
      var db' := Append(cfg, db, sb, ReserveBody(spec, today, rid), io).0;
      assert ReserveOp(cfg, da, spec, today, rid, io).0 == da' && ReserveOp(cfg, db, spec, today, rid, io).0 == db';
      assert Twins(cfg, da', db', from);
    }
  }

  lemma CloseSame(cfg: Config, da: Disk, db: Disk, rid: Rid, io: Io, how: Closing, from: Day)
    requires Twins(cfg, da, db, from) && Load(cfg, da).Some?
    ensures var (da', ra) := CloseWith(cfg, da, rid, io, how);
      var (db', rb) := CloseWith(cfg, db, rid, io, how);
      && ra == rb
      && Twins(cfg, da', db', from)
  {
    hide Load, Append, Find;
    var sa, sb := Load(cfg, da).value, Load(cfg, db).value;
    if rid in sa.core.live {
      AppendSame(cfg, da, sa, db, sb, ClosingBody(sa.core.live[rid], how), io, from);
      var da' := Append(cfg, da, sa, ClosingBody(sa.core.live[rid], how), io).0;
      var db' := Append(cfg, db, sb, ClosingBody(sb.core.live[rid], how), io).0;
      assert CloseWith(cfg, da, rid, io, how).0 == da' && CloseWith(cfg, db, rid, io, how).0 == db';
      assert Twins(cfg, da', db', from);
    }
  }

  lemma AppendSettlementSame(cfg: Config, da: Disk, sa: State, db: Disk, sb: State, b: Body, io: Io, overageIo: Io,
                             from: Day)
    requires Load(cfg, da) == Some(sa) && Load(cfg, db) == Some(sb) && Same(sa.core, sb.core, from)
    requires b.kind.SETTLE?
    ensures da.journal.Some? && db.journal.Some?
    ensures var (da', ra) := AppendSettlement(cfg, da, sa, b, io, overageIo);
      var (db', rb) := AppendSettlement(cfg, db, sb, b, io, overageIo);
      && ra == rb
      && Twins(cfg, da', db', from)
  {
    AppendSame(cfg, da, sa, db, sb, b, io, from);
    var (da1, ra) := Append(cfg, da, sa, b, io);
    var (db1, rb) := Append(cfg, db, sb, b, io);
    if ra.Ok? && b.actualMicro > b.reservedMicro {
      assert Same(ra.value.core, rb.value.core, from);
      hide Twins, Same, Load, Append, OverageBody;
      AppendSame(cfg, da1, ra.value, db1, rb.value, OverageBody(b), overageIo, from);
      var da2 := Append(cfg, da1, ra.value, OverageBody(b), overageIo).0;
      var db2 := Append(cfg, db1, rb.value, OverageBody(b), overageIo).0;
      assert AppendSettlement(cfg, da, sa, b, io, overageIo).0 == da2;
      assert AppendSettlement(cfg, db, sb, b, io, overageIo).0 == db2;
    } else {
      hide Twins, Same, Load, Append;
      assert AppendSettlement(cfg, da, sa, b, io, overageIo).0 == da1;
      assert AppendSettlement(cfg, db, sb, b, io, overageIo).0 == db1;
    }
  }

  lemma SettleSame(cfg: Config, da: Disk, db: Disk, rid: Rid, actual: int, inputTokens: int, outputTokens: int,
                   outcome: Outcome, io: Io, overageIo: Io, from: Day)
    requires Twins(cfg, da, db, from) && Load(cfg, da).Some?
    ensures var (da', ra) := SettleOp(cfg, da, rid, actual, inputTokens, outputTokens, outcome, io, overageIo);
      var (db', rb) := SettleOp(cfg, db, rid, actual, inputTokens, outputTokens, outcome, io, overageIo);
      && ra == rb
      && Twins(cfg, da', db', from)
  {
    var sa, sb := Load(cfg, da).value, Load(cfg, db).value;
    assert Same(sa.core, sb.core, from) && sa.core.live == sb.core.live;
    hide Twins, Same, Load, AppendSettlement;
    if actual >= 0 && inputTokens >= 0 && outputTokens >= 0 && rid in sa.core.live {
      var b := SettleBody(sa.core.live[rid], actual, inputTokens, outputTokens, outcome);
      AppendSettlementSame(cfg, da, sa, db, sb, b, io, overageIo, from);
      assert SettleOp(cfg, da, rid, actual, inputTokens, outputTokens, outcome, io, overageIo)
          == AppendSettlement(cfg, da, sa, b, io, overageIo);
      assert SettleOp(cfg, db, rid, actual, inputTokens, outputTokens, outcome, io, overageIo)
          == AppendSettlement(cfg, db, sb, b, io, overageIo);
    }
  }

  lemma RemainingSame(cfg: Config, da: Disk, db: Disk, scope: Scope, today: Day, from: Day)
    requires Twins(cfg, da, db, from)
    ensures RemainingOp(cfg, da, scope, today) == RemainingOp(cfg, db, scope, today)
  {
    hide Load, LiveUsage, TotalAt, Find;
  }

  /** Twins answer alike and stay twins, as long as reservations are made for
      days that the pruning kept. */
  lemma ExecSame(cfg: Config, da: Disk, db: Disk, op: Op, from: Day)
    requires Twins(cfg, da, db, from) && !op.Compact? && InTime(from, op)
    ensures Exec(cfg, da, op).1 == Exec(cfg, db, op).1
    ensures Twins(cfg, Exec(cfg, da, op).0, Exec(cfg, db, op).0, from)
  {
    if Load(cfg, da).None? {
      RefusedForever(cfg, da, op);
      RefusedForever(cfg, db, op);
    } else {
      hide Twins, Load, ReserveOp, SettleOp, CloseWith, RemainingOp;
      match op
      case Reserve(spec, today, newId, io) => ReserveSame(cfg, da, db, spec, today, newId, io, from);
      case Settle(rid, actual, inputTokens, outputTokens, outcome, io, overageIo) =>
        SettleSame(cfg, da, db, rid, actual, inputTokens, outputTokens, outcome, io, overageIo, from);
      case Release(rid, io) => CloseSame(cfg, da, db, rid, io, AsReleased, from);
      case SettleUnknown(rid, io) => CloseSame(cfg, da, db, rid, io, AsUnknown, from);
      case Recover(rid, evidenceOk, recovered, release, io) =>
        if recovered.Some? && recovered.value >= 0 {
          CloseSame(cfg, da, db, rid, io, AsRecovered(Some(recovered.value as nat)), from);
        }
        CloseSame(cfg, da, db, rid, io, AsRecovered(None), from);
      case RemainingBudget(scope, today) => RemainingSame(cfg, da, db, scope, today, from);
    }
  }

  // ----- the theorem ------------------------------------------------------------

  ghost function After(cfg: Config, d: Disk, ops: seq<Op>): Disk {
    if ops == [] then d else Exec(cfg, After(cfg, d, Init(ops)), Last(ops)).0
  }

  ghost function Answers(cfg: Config, d: Disk, ops: seq<Op>): seq<Answer> {
    if ops == [] then []
    else Answers(cfg, d, Init(ops)) + [Exec(cfg, After(cfg, d, Init(ops)), Last(ops)).1]
  }

  /** Operations other than compaction, reserving on days not before `from`. */
  predicate NotBefore(ops: seq<Op>, from: Day) {
    forall op :: op in ops ==> !op.Compact? && InTime(from, op)
  }

  lemma {:induction false} TwinsAnswerAlike(cfg: Config, da: Disk, db: Disk, ops: seq<Op>, from: Day)
    requires Twins(cfg, da, db, from) && NotBefore(ops, from)
    ensures Answers(cfg, da, ops) == Answers(cfg, db, ops)
    ensures Twins(cfg, After(cfg, da, ops), After(cfg, db, ops), from)
  {
    hide Twins, Exec;
    if ops != [] {
      assert Last(ops) in ops && forall op :: op in Init(ops) ==> op in ops;
      TwinsAnswerAlike(cfg, da, db, Init(ops), from);
      ExecSame(cfg, After(cfg, da, Init(ops)), After(cfg, db, Init(ops)), Last(ops), from);
    }
  }

  /** Wherever a compaction stops, the ledger it leaves either refuses to load,
      or answers every sequence of later operations, made for days not before
      the pruning day, exactly as if it had never been compacted. */
  lemma CompactionUnobservable(cfg: Config, d: Disk, pruneDay: Day, eventDay: Day, month: Month,
                               fault: CompactFault, ops: seq<Op>)
    requires Sound(cfg, d) && Load(cfg, d).Some? && NotBefore(ops, pruneDay)
    ensures var d' := CompactOp(cfg, d, pruneDay, eventDay, month, fault).0;
      Load(cfg, d').Some? ==> Answers(cfg, d', ops) == Answers(cfg, d, ops)
  {
    hide Sound, Load, CompactOp, Answers, Same, Prune;
    var d' := CompactOp(cfg, d, pruneDay, eventDay, month, fault).0;
    var c := Load(cfg, d).value.core;
    CompactOutcome(cfg, d, Load(cfg, d).value, pruneDay, eventDay, month, fault);
    if Load(cfg, d').Some? {
      PrunedIsSame(c, pruneDay);
      SameAsItself(c, pruneDay);
      TwinsAnswerAlike(cfg, d, d', ops, pruneDay);
    }
  }

  lemma SameAsItself(c: Core, from: Day)
    ensures Same(c, c, from)
  {
  }

  // ----- whole runs, with any number of compactions -----------------------------------

  /** The run without its compactions. */
  function Erased(ops: seq<Op>): seq<Op> {
    if ops == [] then []
    else if Last(ops).Compact? then Erased(Init(ops))
    else Erased(Init(ops)) + [Last(ops)]
  }

  /** What a run answers to all but its compactions. */
  ghost function OtherAnswers(cfg: Config, ops: seq<Op>): seq<Answer> {
    if ops == [] then []
    else if Last(ops).Compact? then OtherAnswers(cfg, Init(ops))
    else OtherAnswers(cfg, Init(ops)) + [Exec(cfg, Run(cfg, Init(ops)), Last(ops)).1]
  }

  lemma SameLater(a: Core, b: Core, from: Day, later: Day)
    requires Same(a, b, from) && Le(from, later)
    ensures Same(a, b, later)
  {
    hide Find;
    forall d, k | Forgettable(a, b, from, d, k)
      ensures Forgettable(a, b, later, d, k)
    {
      if Le(later, d) {
        LeTransitive(from, later, d);
      }
    }
  }

  /** Pruning the copy that may already lack markers leaves it lacking only such. */
  lemma SamePruned(a: Core, b: Core, from: Day, pruneDay: Day)
    requires Same(a, b, from)
    ensures Same(a, PruneCore(b, pruneDay), Later(from, pruneDay))
  {
    var later, pruned := Later(from, pruneDay), PruneCore(b, pruneDay);
    LeTotal(from, pruneDay);
    LeReflexive(from);
    LeReflexive(pruneDay);
    SameLater(a, b, from, later);
    forall d, k
      ensures Find(pruned.idem, d, k) == Find(a.idem, d, k) || Forgettable(a, pruned, later, d, k)
    {
      assert Find(pruned.idem, d, k) == Kept(Find(b.idem, d, k), pruneDay, d);
      if Le(later, d) {
        LeTransitive(pruneDay, later, d);
      }
    }
  }

  /** Compacting one of two twins, in any way that leaves it loading, keeps them twins. */
  lemma CompactedTwin(cfg: Config, da: Disk, db: Disk, horizon: Day, op: Op)
    requires Twins(cfg, da, db, horizon) && Sound(cfg, db) && op.Compact?
    requires Load(cfg, db).Some? && Load(cfg, Exec(cfg, db, op).0).Some?
    ensures Twins(cfg, da, Exec(cfg, db, op).0, NextHorizon(horizon, op))
  {
    hide Sound, Load, CompactOp, Same, Prune;
    var a, b := Load(cfg, da).value.core, Load(cfg, db).value.core;
    CompactOutcome(cfg, db, Load(cfg, db).value, op.pruneDay, op.eventDay, op.month, op.fault);
    LaterOfBoth(horizon, op.pruneDay, op.pruneDay);
    SameLater(a, b, horizon, Later(horizon, op.pruneDay));
    SamePruned(a, b, horizon, op.pruneDay);
  }

  /** Compactions cannot be told from the answers of a run: in every run that ends
      on a ledger that loads, each operation answers as it does in the same run
      without any compaction, and both end on the same usage, live reservations
      and block. */
  lemma {:induction false} CompactionsErased(cfg: Config, ops: seq<Op>)
    requires Legal(cfg, ops) && DaysInOrder(ops) && Load(cfg, Run(cfg, ops)).Some?
    ensures OtherAnswers(cfg, ops) == Answers(cfg, InitialDisk(cfg), Erased(ops))
    ensures Twins(cfg, After(cfg, InitialDisk(cfg), Erased(ops)), Run(cfg, ops), Horizon(ops))
  {
    hide Sound, Load, Exec, Same, Promised;
    if ops == [] {
      InitialSound(cfg);
      SameAsItself(Load(cfg, InitialDisk(cfg)).value.core, "");
    } else {
      var before, op := Init(ops), Last(ops);
      var plain, d := After(cfg, InitialDisk(cfg), Erased(before)), Run(cfg, before);
      if Load(cfg, d).None? {
        RefusedForever(cfg, d, op);
      }
      CompactionsErased(cfg, before);
      if op.Compact? {
        RunSound(cfg, before);
        CompactedTwin(cfg, plain, d, Horizon(before), op);
      } else {
        AppendParts(Erased(before), op);
        ExecSame(cfg, plain, d, op, Horizon(before));
      }
    }
  }
}
