/** Where the ledger's promises stop, stated exactly. */
module LedgerLimits {
  import opened Basics
  import opened Days
  import opened LedgerModel
  import opened LedgerHistory
  import opened LedgerDisk
  import opened LedgerSafety
  import opened LedgerRuns
  import opened LedgerCaps
  import opened LedgerKeys
  import opened LedgerTheorems
  import opened LedgerAnswers

  // ----- a scope named twice ----------------------------------------------------

  lemma {:induction false} CountedAtLeast(scopes: seq<Scope>, s: Scope, amount: Usage)
    requires s in scopes
    ensures Counted(scopes, s, amount).calls >= amount.calls
  {
    if Last(scopes) != s {
      assert scopes == Init(scopes) + [Last(scopes)];
      CountedAtLeast(Init(scopes), s, amount);
    }
  }

  lemma {:induction false} CountedTwice(scopes: seq<Scope>, i: nat, j: nat, amount: Usage)
    requires i < j < |scopes| && scopes[i] == scopes[j]
    ensures Counted(scopes, scopes[i], amount).calls >= 2 * amount.calls
  {
    var s := scopes[i];
    if j == |scopes| - 1 {
      assert s == Init(scopes)[i];
      CountedAtLeast(Init(scopes), s, amount);
    } else {
      CountedTwice(Init(scopes), i, j, amount);
    }
  }

  /** What a settlement at exactly the reserved price changes in a scope's usage. */
  lemma SettledUsage(c: Core, rid: Rid, b: Body, s: Scope)
    requires rid in c.live && c.live[rid].rid == rid
    requires b == SettleBody(c.live[rid], c.live[rid].reservedMicro, b.inputTokens, b.outputTokens, b.outcome)
    ensures Step(c, b).Some?
    ensures Plus(UsageForScope(Step(c, b).value, b.day, s), Claim(c.live[rid], b.day, s))
         == Plus(UsageForScope(c, b.day, s), Charge(b, b.day, s))
  {
    hide AddTotals, LiveUsage, ScopesOf, TotalAt, Charge, Claim, Plus, FoundAfter, Put, Drop, Counted;
    assert Step(c, b).Some?;
    StepHasEffect(c, b);
    hide Step;
    AddTotalsAt(c.totals, b, b.day, s);
    LiveUsageTake(c.live, rid, b.day, s);
    PlusShuffle(TotalAt(c.totals, b.day, s), Charge(b, b.day, s), LiveUsage(c.live - {rid}, b.day, s),
                Claim(c.live[rid], b.day, s));
  }

  lemma PlusShuffle(total: Usage, charge: Usage, rest: Usage, claim: Usage)
    ensures Plus(Plus(Plus(total, charge), rest), claim) == Plus(Plus(total, Plus(claim, rest)), charge)
  {
  }

  lemma PlusSame(after: Usage, before: Usage, claim: Usage, charge: Usage)
    requires Plus(after, claim) == Plus(before, charge)
    ensures claim == charge ==> after == before
    ensures claim.calls < charge.calls ==> after != before
  {
  }

  /** Settling at exactly the reserved price leaves the usage of every scope as
      it was if and only if the reservation names its scopes once each: live
      usage counts a repeated scope once, the settled totals every time. */
  lemma SettleConservesExactly(c: Core, rid: Rid, b: Body)
    requires rid in c.live && c.live[rid].rid == rid && c.live[rid].reservedCalls == 1
    requires b == SettleBody(c.live[rid], c.live[rid].reservedMicro, b.inputTokens, b.outputTokens, b.outcome)
    ensures Step(c, b).Some?
    ensures (forall s :: UsageForScope(Step(c, b).value, b.day, s) == UsageForScope(c, b.day, s)) <==>
      Distinct(EventScopes(b))
  {
    var scopes := EventScopes(b);
    assert scopes == EventScopes(c.live[rid]);
    SettledUsage(c, rid, b, "");
    hide Step, ScopesOf, UsageForScope, Counted, Plus;
    var c' := Step(c, b).value;
    if Distinct(scopes) {
      forall s
        ensures UsageForScope(c', b.day, s) == UsageForScope(c, b.day, s)
      {
        SettledUsage(c, rid, b, s);
        CountedDistinct(scopes, s, Actual(b));
        PlusSame(UsageForScope(c', b.day, s), UsageForScope(c, b.day, s), Claim(c.live[rid], b.day, s), Charge(b, b.day, s));
      }
    } else {
      var i, j :| 0 <= i < j < |scopes| && scopes[i] == scopes[j];
      SettledUsage(c, rid, b, scopes[i]);
      CountedTwice(scopes, i, j, Actual(b));
      PlusSame(UsageForScope(c', b.day, scopes[i]), UsageForScope(c, b.day, scopes[i]),
               Claim(c.live[rid], b.day, scopes[i]), Charge(b, b.day, scopes[i]));
      assert UsageForScope(c', b.day, scopes[i]) != UsageForScope(c, b.day, scopes[i]);
    }
  }

  /** On a ledger whose scopes allow one call each, reserving and then settling at
      the reserved price keeps every scope within its call cap if and only if the
      reservation names its scopes once each. */
  lemma CallCapHeldExactly(cfg: Config, spec: Spec, today: Day, rid: Rid)
    requires ValidSpec(spec) && SpecFits(cfg, spec)
    requires forall s :: s in SpecScopes(spec) ==> s in cfg.caps && cfg.caps[s].calls == 1 && cfg.caps[s].micro >= spec.micro
    ensures var (d1, granted) := ReserveOp(cfg, InitialDisk(cfg), spec, today, rid, Fine);
      var d2 := SettleOp(cfg, d1, rid, spec.micro, 0, 0, Success, Fine, Fine).0;
      && granted.Ok?
      && Load(cfg, d2).Some?
      && ((forall s :: s in SpecScopes(spec) ==> UsageForScope(Load(cfg, d2).value.core, today, s).calls <= cfg.caps[s].calls)
          <==> Distinct(SpecScopes(spec)))
  {
    hide ScopesOf, AddTotals, Put, Drop, Find, Sound, Replay, ReserveOp, SpecScopes, UsageForScope, Step, Distinct;
    FirstReserved(cfg, spec, today, rid);
    var d1 := ReserveOp(cfg, InitialDisk(cfg), spec, today, rid, Fine).0;
    var s1 := Load(cfg, d1).value;
    var settled := SettleBody(s1.core.live[rid], spec.micro, 0, 0, Success);
    ClosingAdmissible(cfg, d1, s1, rid, settled);
    AppendSound(cfg, d1, s1, s1, settled, Fine);
    SettledWithinExactly(s1.core, spec, today, rid);
  }

  /** The overrun, for every way of naming a scope twice: the reservation is granted
      and settled at its reserved price, and some scope then exceeds its call cap. */
  lemma RepeatedScopeOverruns(cfg: Config, spec: Spec, today: Day, rid: Rid)
    requires ValidSpec(spec) && SpecFits(cfg, spec) && !Distinct(SpecScopes(spec))
    requires forall s :: s in SpecScopes(spec) ==> s in cfg.caps && cfg.caps[s].calls == 1 && cfg.caps[s].micro >= spec.micro
    ensures var (d1, granted) := ReserveOp(cfg, InitialDisk(cfg), spec, today, rid, Fine);
      var d2 := SettleOp(cfg, d1, rid, spec.micro, 0, 0, Success, Fine, Fine).0;
      && granted.Ok?
      && Load(cfg, d2).Some?
      && exists s :: s in SpecScopes(spec) && UsageForScope(Load(cfg, d2).value.core, today, s).calls > cfg.caps[s].calls
  {
    hide ReserveOp, SettleOp, SpecScopes, UsageForScope, Distinct, Load;
    CallCapHeldExactly(cfg, spec, today, rid);
  }

  /** With distinct scopes whose money caps just cover a reservation, the scopes stay
      within them across its settlement if and only if the charge is no more than
      was reserved. */
  lemma MoneyCapHeldExactly(cfg: Config, spec: Spec, today: Day, rid: Rid, actual: nat)
    requires ValidSpec(spec) && SpecFits(cfg, spec) && Distinct(SpecScopes(spec))
    requires forall s :: s in SpecScopes(spec) ==> s in cfg.caps && cfg.caps[s].calls == 1 && cfg.caps[s].micro == spec.micro
    ensures var (d1, granted) := ReserveOp(cfg, InitialDisk(cfg), spec, today, rid, Fine);
      var d2 := SettleOp(cfg, d1, rid, actual, 0, 0, Success, Fine, Fine).0;
      && granted.Ok?
      && Load(cfg, d2).Some?
      && ((forall s :: s in SpecScopes(spec) ==> UsageForScope(Load(cfg, d2).value.core, today, s).micro <= cfg.caps[s].micro)
          <==> actual <= spec.micro)
  {
    hide ScopesOf, AddTotals, Put, Drop, Find, Sound, Replay, ReserveOp, SpecScopes, UsageForScope, Step, Distinct, Append, Admissible;
    FirstReserved(cfg, spec, today, rid);
    var d1 := ReserveOp(cfg, InitialDisk(cfg), spec, today, rid, Fine).0;
    var s1 := Load(cfg, d1).value;
    var b := SettleBody(s1.core.live[rid], actual, 0, 0, Success);
    ClosingAdmissible(cfg, d1, s1, rid, b);
    AppendSound(cfg, d1, s1, s1, b, Fine);
    SettledAlone(s1.core, spec, today, rid, actual);
    if actual > spec.micro {
      var (d2, settled) := Append(cfg, d1, s1, b, Fine);
      OverageAdmissible(settled.value.core, Bodies(d2.history), b);
      AppendSound(cfg, d2, settled.value, settled.value, OverageBody(b), Fine);
      OverageKeepsUsage(settled.value.core, b, today);
    }
    assert spec.aggregate in SpecScopes(spec) by { NamesAggregate(spec); }
  }

  lemma NamesAggregate(spec: Spec)
    ensures spec.aggregate in SpecScopes(spec)
  {
  }

  lemma OverageKeepsUsage(c: Core, b: Body, day: Day)
    ensures Step(c, OverageBody(b)).Some?
    ensures forall s :: UsageForScope(Step(c, OverageBody(b)).value, day, s) == UsageForScope(c, day, s)
  {
  }

  /** The usage of each scope after the only reservation was settled. */
  lemma SettledAlone(c: Core, spec: Spec, today: Day, rid: Rid, actual: nat)
    requires ValidSpec(spec) && Distinct(SpecScopes(spec))
    requires Step(EMPTY_CORE, ReserveBody(spec, today, rid)) == Some(c) && rid in c.live
    requires c.live[rid] == ReserveBody(spec, today, rid)
    ensures var b := SettleBody(c.live[rid], actual, 0, 0, Success);
      && Step(c, b).Some?
      && forall s :: s in SpecScopes(spec) ==> UsageForScope(Step(c, b).value, today, s) == Usage(1, actual)
  {
    hide Put, Drop, Find, ScopesOf, AddTotals, SpecScopes, Distinct, TotalAt, Counted, LiveUsage, FoundAfter;
    var b := SettleBody(c.live[rid], actual, 0, 0, Success);
    ReserveScopes(spec, today, rid);
    FirstCore(c, ReserveBody(spec, today, rid));
    assert Step(c, b).Some?;
    StepHasEffect(c, b);
    hide Step;
    forall s | s in SpecScopes(spec)
      ensures UsageForScope(Step(c, b).value, today, s) == Usage(1, actual)
    {
      AddTotalsAt(c.totals, b, today, s);
      CountedDistinct(SpecScopes(spec), s, Actual(b));
      EmptyUsage(today, s);
      PlusZero(Usage(1, actual));
    }
  }

  lemma FirstCore(c: Core, b: Body)
    requires b.kind.RESERVE? && Step(EMPTY_CORE, b) == Some(c)
    ensures c.totals == EMPTY_CORE.totals && c.live - {b.rid} == EMPTY_CORE.live
  {
    hide Put, ScopesOf;
  }

  lemma SettledWithinExactly(c: Core, spec: Spec, today: Day, rid: Rid)
    requires ValidSpec(spec)
    requires Step(EMPTY_CORE, ReserveBody(spec, today, rid)) == Some(c)
    requires rid in c.live && c.live[rid] == ReserveBody(spec, today, rid)
    ensures var settled := SettleBody(c.live[rid], spec.micro, 0, 0, Success);
      && Step(c, settled).Some?
      && ((forall s :: s in SpecScopes(spec) ==> UsageForScope(Step(c, settled).value, today, s).calls <= 1)
          <==> Distinct(SpecScopes(spec)))
  {
    var b, scopes := ReserveBody(spec, today, rid), SpecScopes(spec);
    var settled := SettleBody(b, spec.micro, 0, 0, Success);
    ReserveScopes(spec, today, rid);
    SettleConservesExactly(c, rid, settled);
    assert EventScopes(settled) == EventScopes(b) == scopes;
    if Distinct(scopes) {
      forall s
        ensures UsageForScope(c, today, s).calls <= 1
      {
        FirstClaim(c, spec, today, rid, s);
      }
    } else {
      var i, j :| 0 <= i < j < |scopes| && scopes[i] == scopes[j];
      hide UsageForScope, Counted, Step, ScopesOf, SpecScopes;
      SettledTwice(c, spec, today, rid, i, j);
    }
  }

  lemma FirstClaim(c: Core, spec: Spec, today: Day, rid: Rid, s: Scope)
    requires Step(EMPTY_CORE, ReserveBody(spec, today, rid)) == Some(c)
    ensures UsageForScope(c, today, s).calls <= 1
  {
    hide ScopesOf, Put;
    LiveUsageAdd(map[], rid, ReserveBody(spec, today, rid), today, s);
    EmptyUsage(today, s);
  }

  lemma SettledTwice(c: Core, spec: Spec, today: Day, rid: Rid, i: nat, j: nat)
    requires ValidSpec(spec) && i < j < |SpecScopes(spec)| && SpecScopes(spec)[i] == SpecScopes(spec)[j]
    requires rid in c.live && c.live[rid] == ReserveBody(spec, today, rid)
    ensures var settled := SettleBody(c.live[rid], spec.micro, 0, 0, Success);
      Step(c, settled).Some? && UsageForScope(Step(c, settled).value, today, SpecScopes(spec)[i]).calls >= 2
  {
    var b, s := ReserveBody(spec, today, rid), SpecScopes(spec)[i];
    var settled := SettleBody(b, spec.micro, 0, 0, Success);
    SettledUsage(c, rid, settled, s);
    ReserveScopes(spec, today, rid);
    LiveCountsOnce(c, rid, today, s);
    hide UsageForScope, Counted, Step, ScopesOf, SpecScopes;
    CountedTwice(SpecScopes(spec), i, j, Actual(settled));
    assert EventScopes(settled) == EventScopes(b);
  }

  lemma FirstReserved(cfg: Config, spec: Spec, today: Day, rid: Rid)
    requires ValidSpec(spec) && SpecFits(cfg, spec)
    requires forall s :: s in SpecScopes(spec) ==> s in cfg.caps && cfg.caps[s].calls == 1 && cfg.caps[s].micro >= spec.micro
    ensures var (d1, granted) := ReserveOp(cfg, InitialDisk(cfg), spec, today, rid, Fine);
      && granted.Ok? && Sound(cfg, d1) && Load(cfg, d1).Some?
      && Step(EMPTY_CORE, ReserveBody(spec, today, rid)) == Some(Load(cfg, d1).value.core)
      && rid in Load(cfg, d1).value.core.live
      && Load(cfg, d1).value.core.live[rid] == ReserveBody(spec, today, rid)
  {
    hide ScopesOf, Sound, Replay, SpecScopes, Refusal;
    var d, b := InitialDisk(cfg), ReserveBody(spec, today, rid);
    InitialSound(cfg);
    FirstReservationFits(cfg, spec, today);
    FirstAdmissible(cfg, spec, today, rid);
    var s := Load(cfg, d).value;
    AppendSound(cfg, d, s, s, b, Fine);
  }

  lemma LiveCountsOnce(c: Core, rid: Rid, day: Day, s: Scope)
    requires rid in c.live
    ensures UsageForScope(c, day, s).calls >= Claim(c.live[rid], day, s).calls
  {
    hide Claim;
    LiveUsageTake(c.live, rid, day, s);
  }

  lemma EmptyUsage(day: Day, s: Scope)
    ensures UsageForScope(EMPTY_CORE, day, s) == ZERO
  {
    hide Claim;
    assert Claims(EMPTY_CORE.live, day, s) == map[];
    NothingSummed();
    PlusZero(ZERO);
  }

  lemma NothingSummed()
    ensures Sum(map[]) == ZERO
  {
  }

  lemma FirstReservationFits(cfg: Config, spec: Spec, today: Day)
    requires ValidSpec(spec)
    requires forall s :: s in SpecScopes(spec) ==> s in cfg.caps && cfg.caps[s].calls == 1 && cfg.caps[s].micro >= spec.micro
    ensures Refusal(cfg, EMPTY_CORE, spec, today).None?
  {
    hide UsageForScope, SpecScopes;
    forall s
      ensures UsageForScope(EMPTY_CORE, today, s) == ZERO
    {
      EmptyUsage(today, s);
    }
    ScopesAllow(cfg, EMPTY_CORE, today, spec.micro, SpecScopes(spec));
  }

  lemma FirstAdmissible(cfg: Config, spec: Spec, today: Day, rid: Rid)
    ensures Admissible(EMPTY_CORE, Bodies(InitialDisk(cfg).history), ReserveBody(spec, today, rid))
  {
    assert Bodies(InitialDisk(cfg).history) == [];
  }

  // ----- a budget day before the pruning day ------------------------------------

  /** A consumed key that the ledger still remembers can be consumed again after a compaction exactly
      when the compaction pruned at a later day: at-most-once needs budget days
      that never go back behind a compaction. */
  lemma KeyForgottenExactly(cfg: Config, d: Disk, pruneDay: Day, eventDay: Day, month: Month,
                            r: Rid, spec: Spec, rid: Rid, io: Io)
    requires Sound(cfg, d) && Load(cfg, d).Some? && !HasArchive(d, month)
    requires var h := Bodies(d.history);
      && Holds(h, r) && StatusOf(h, r) != Some(Live) && ReserveOf(h, r).key == spec.key
      && Marked(Load(cfg, d).value.core, h, r)
    requires SpecFits(cfg, spec) && !Load(cfg, d).value.core.blocked
    ensures var h := Bodies(d.history);
      var d' := CompactOp(cfg, d, pruneDay, eventDay, month, NoFault).0;
      (ReserveOp(cfg, d', spec, ReserveOf(h, r).day, rid, io).1 == Err(IdempotencyConflict(StatusOf(h, r).value)))
      <==> Le(pruneDay, ReserveOf(h, r).day)
  {
    hide Sound, Load, CompactOp, Bodies, Find, Step, WriteLine, MakeEvent, Refusal, ReserveOf, StatusOf, OpenedIds;
    var s, h := Load(cfg, d).value, Bodies(d.history);
    CompactOutcome(cfg, d, s, pruneDay, eventDay, month, NoFault);
    RefusalAfterPruning(cfg, s.core, pruneDay, ReserveOf(h, r).day, spec);
  }

  /** And it is consumed again: a request under a consumed key that the remaining
      budget covers is granted after a compaction, and then holds the key of its day
      beside the reservation that consumed it, exactly when the compaction pruned at
      a later day. */
  lemma KeyReusedExactly(cfg: Config, d: Disk, pruneDay: Day, eventDay: Day, month: Month,
                         r: Rid, spec: Spec, rid: Rid)
    requires Sound(cfg, d) && Load(cfg, d).Some? && !HasArchive(d, month)
    requires var h := Bodies(d.history);
      && Holds(h, r) && StatusOf(h, r) != Some(Live) && ReserveOf(h, r).key == spec.key
      && Marked(Load(cfg, d).value.core, h, r)
    requires SpecFits(cfg, spec) && ValidSpec(spec) && !Load(cfg, d).value.core.blocked && rid !in OpenedIds(Bodies(d.history))
    requires forall s :: s in SpecScopes(spec) ==> Covered(cfg, d, ReserveOf(Bodies(d.history), r).day, spec.micro, s)
    ensures var day := ReserveOf(Bodies(d.history), r).day;
      var d' := CompactOp(cfg, d, pruneDay, eventDay, month, NoFault).0;
      var (d'', again) := ReserveOp(cfg, d', spec, day, rid, Fine);
      && (again.Ok? <==> !Le(pruneDay, day))
      && (again.Ok? ==>
            Load(cfg, d'').Some? && rid in Load(cfg, d'').value.core.live
            && Load(cfg, d'').value.core.live[rid] == ReserveBody(spec, day, rid))
  {
    hide Sound, Load, CompactOp, Bodies, Find, Step, Replay, Accept, Refusal, ReserveOf, StatusOf, OpenedIds, Covered,
         SpecScopes, PruneCore;
    var s, h := Load(cfg, d).value, Bodies(d.history);
    var day := ReserveOf(h, r).day;
    var d' := CompactOp(cfg, d, pruneDay, eventDay, month, NoFault).0;
    CompactOutcome(cfg, d, s, pruneDay, eventDay, month, NoFault);
    RefusalAfterPruning(cfg, s.core, pruneDay, day, spec);
    if !Le(pruneDay, day) {
      NeverLive(cfg, d, rid);
      CoveredNotRefused(cfg, d, s, pruneDay, day, spec);
      var s', b := Load(cfg, d').value, ReserveBody(spec, day, rid);
      UnmarkedAccepts(s'.core, b);
      JournalPresent(cfg, d');
      LoadAfterLine(cfg, d', s', MakeEvent(cfg, s', b));
      AcceptsMade(cfg, s', b);
    }
  }

  /** A covered request whose marker was pruned is not refused. */
  lemma CoveredNotRefused(cfg: Config, d: Disk, s: State, pruneDay: Day, day: Day, spec: Spec)
    requires Load(cfg, d) == Some(s) && !s.core.blocked && ValidSpec(spec) && !Le(pruneDay, day)
    requires Find(s.core.idem, day, spec.key).Some? && Find(s.core.idem, day, spec.key).value.status != Live
    requires forall scope :: scope in SpecScopes(spec) ==> Covered(cfg, d, day, spec.micro, scope)
    ensures var pruned := PruneCore(s.core, pruneDay);
      && Refusal(cfg, pruned, spec, day).None? && Find(pruned.idem, day, spec.key).None?
      && pruned.live == s.core.live
  {
    var pruned := PruneCore(s.core, pruneDay);
    assert Find(pruned.idem, day, spec.key) == Kept(Find(s.core.idem, day, spec.key), pruneDay, day);
    hide Find, SpecScopes, Prune, Load, Covered, Exceeds;
    ScopesAllow(cfg, pruned, day, spec.micro, SpecScopes(spec));
    forall scope | scope in SpecScopes(spec)
      ensures scope in cfg.caps && !Exceeds(pruned, cfg.caps[scope], day, spec.micro, scope)
    {
      CoveredExactly(cfg, d, s, day, spec.micro, scope);
      PrunedUsage(s.core, pruneDay, day, scope);
      if scope in cfg.caps {
        SameExcess(s.core, pruned, cfg.caps[scope], day, spec.micro, scope);
      }
    }
  }

  lemma PrunedUsage(c: Core, pruneDay: Day, day: Day, s: Scope)
    ensures UsageForScope(PruneCore(c, pruneDay), day, s) == UsageForScope(c, day, s)
  {
  }

  lemma SameExcess(a: Core, b: Core, cap: Cap, day: Day, micro: nat, s: Scope)
    requires UsageForScope(a, day, s) == UsageForScope(b, day, s)
    ensures Exceeds(a, cap, day, micro, s) <==> Exceeds(b, cap, day, micro, s)
  {
    hide UsageForScope;
  }

  lemma UnmarkedAccepts(c: Core, b: Body)
    requires b.kind.RESERVE? && b.rid !in c.live && Find(c.idem, b.day, b.key).None?
    ensures Step(c, b).Some? && Step(c, b).value.live == c.live[b.rid := b]
  {
    hide Find, Put;
  }

  lemma RefusalAfterPruning(cfg: Config, c: Core, pruneDay: Day, day: Day, spec: Spec)
    requires !c.blocked && Find(c.idem, day, spec.key).Some? && Find(c.idem, day, spec.key).value.status != Live
    ensures
      Refusal(cfg, PruneCore(c, pruneDay), spec, day) == Some(IdempotencyConflict(Find(c.idem, day, spec.key).value.status))
      <==> Le(pruneDay, day)
  {
    var pruned := PruneCore(c, pruneDay);
    assert Find(pruned.idem, day, spec.key) == Kept(Find(c.idem, day, spec.key), pruneDay, day);
    hide Find, SpecScopes, Prune;
    NoConflict(cfg, pruned, day, spec.micro, SpecScopes(spec));
  }

  lemma {:induction false} NoConflict(cfg: Config, c: Core, day: Day, micro: nat, scopes: seq<Scope>)
    ensures var e := ScopeRefusal(cfg, c, day, micro, scopes);
      e.Some? ==> !e.value.IdempotencyConflict?
  {
    hide Exceeds;
    if scopes != [] {
      NoConflict(cfg, c, day, micro, scopes[1..]);
    }
  }
}
