/** The caps hold in every reachable state, and the index the caps are checked
    against is the naive sum over the whole history. */
module LedgerCaps {
  import opened Basics
  import opened Days
  import opened LedgerModel
  import opened LedgerHistory
  import opened LedgerDisk
  import opened LedgerSafety
  import opened LedgerRuns

  function Excess(b: Body): nat {
    if b.actualMicro > b.reservedMicro then b.actualMicro - b.reservedMicro else 0
  }

  /** How much was charged to a scope above what had been reserved. */
  function Overcharged(h: History, day: Day, s: Scope): nat {
    if h == [] then 0
    else
      var b := Last(h);
      Overcharged(Init(h), day, s) +
      if Charging(b) && b.day == day && s in EventScopes(b) then Excess(b) else 0
  }

  predicate Within(cap: Cap, usage: Usage, overcharge: nat) {
    usage.calls <= cap.calls && usage.micro <= cap.micro + overcharge
  }

  ghost predicate CapsHold(caps: map<Scope, Cap>, h: History) {
    forall s, day :: s in caps ==> Within(caps[s], NaiveUsage(h, day, s), Overcharged(h, day, s))
  }

  /** Reservations for one call whose scopes are pairwise distinct. */
  predicate PlainReserves(h: History) {
    forall b :: b in h && b.kind.RESERVE? ==> b.reservedCalls == 1 && Distinct(EventScopes(b))
  }

  /** The event passed the checks its operation makes before appending it. */
  ghost predicate Checked(caps: map<Scope, Cap>, c: Core, b: Body) {
    && (Charging(b) ==> b.actualCalls <= 1)
    && (b.kind.RESERVE? ==> b.reservedCalls == 1 && Distinct(EventScopes(b)) && Affordable(caps, c, b))
  }

  ghost predicate Affordable(caps: map<Scope, Cap>, c: Core, b: Body) {
    forall s :: s in EventScopes(b) ==> s in caps && !Exceeds(c, caps[s], b.day, b.reservedMicro, s)
  }

  /** The index equals the sum over the whole history. */
  lemma IndexAgrees(c: Core, h: History, day: Day, s: Scope)
    requires Agrees(c, h)
    ensures UsageForScope(c, day, s) == NaiveUsage(h, day, s)
  {
    hide MarkersSound, LiveMarked, StandingsAgree, LiveAgrees;
  }

  lemma ExtendedOvercharged(h: History, b: Body, day: Day, s: Scope)
    ensures Overcharged(h + [b], day, s) == Overcharged(h, day, s) +
      if Charging(b) && b.day == day && s in EventScopes(b) then Excess(b) else 0
  {
    AppendParts(h, b);
  }

  lemma OpensNewClaim(c: Core, h: History, b: Body)
    requires Agrees(c, h) && Admissible(c, h, b) && b.kind.RESERVE?
    ensures b.rid !in ClosedIds(h)
  {
    hide TotalsAgree, LiveSumAgrees, MarkersSound, LiveMarked, StandingsAgree, OverageAgrees;
  }

  /** A reservation adds a claim only where the claim was checked to fit. */
  lemma OpenCaps(cap: Cap, h: History, b: Body, s: Scope, day: Day)
    requires b.kind.RESERVE? && b.rid !in ClosedIds(h) && b.reservedCalls == 1
    requires s in EventScopes(b) && day == b.day ==>
      NaiveUsage(h, day, s).calls + 1 <= cap.calls && NaiveUsage(h, day, s).micro + b.reservedMicro <= cap.micro
    requires Within(cap, NaiveUsage(h, day, s), Overcharged(h, day, s))
    ensures Within(cap, NaiveUsage(h + [b], day, s), Overcharged(h + [b], day, s))
  {
    hide ScopesOf, Charged, Unclosed, Overcharged, ClosedIds, OpenedIds, OpenedOnce;
    Extended(h, b);
    ExtendedCharged(h, b, day, s);
    ExtendedUnclosed(h, b, ClosedIds(h), day, s);
    ExtendedOvercharged(h, b, day, s);
  }

  /** A closing event repeats the claim that its reservation made. */
  lemma ClosesOpenClaim(c: Core, h: History, b: Body)
    requires Agrees(c, h) && Admissible(c, h, b) && Terminal(b)
    ensures b.rid in OpenedIds(h) - ClosedIds(h) && OpenedOnce(h) && SameClaim(b, ReserveOf(h, b.rid))
  {
    hide TotalsAgree, LiveSumAgrees, MarkersSound, LiveMarked, StandingsAgree, OverageAgrees;
    assert c.live[b.rid] == ReserveOf(h, b.rid);
  }

  /** A closing event exchanges a claim for a charge, so usage rises by at most
      what the charge exceeds the claim. */
  lemma CloseCaps(cap: Cap, h: History, b: Body, s: Scope, day: Day)
    requires Terminal(b) && (Charging(b) ==> b.actualCalls <= 1) && PlainReserves(h)
    requires b.rid in OpenedIds(h) - ClosedIds(h) && OpenedOnce(h) && SameClaim(b, ReserveOf(h, b.rid))
    requires Within(cap, NaiveUsage(h, day, s), Overcharged(h, day, s))
    ensures Within(cap, NaiveUsage(h + [b], day, s), Overcharged(h + [b], day, s))
  {
    var record := ReserveOf(h, b.rid);
    assert record in h;
    assert EventScopes(b) == EventScopes(record) && b.reservedCalls == 1 && Distinct(EventScopes(b));
    hide ScopesOf, Charged, Unclosed, Overcharged, PlainReserves, OpenedIds, ClosedIds, ReserveOf, OpenedOnce, Distinct,
      Counted;
    Extended(h, b);
    ExtendedCharged(h, b, day, s);
    UnclosedWithout(h, ClosedIds(h), b.rid, day, s);
    ExtendedUnclosed(h, b, ClosedIds(h) + {b.rid}, day, s);
    ExtendedOvercharged(h, b, day, s);
    CountedDistinct(EventScopes(b), s, Actual(b));
  }

  lemma QuietCaps(h: History, b: Body, s: Scope, day: Day)
    requires Quiet(b)
    ensures NaiveUsage(h + [b], day, s) == NaiveUsage(h, day, s)
    ensures Overcharged(h + [b], day, s) == Overcharged(h, day, s)
  {
    Extended(h, b);
    ExtendedCharged(h, b, day, s);
    ExtendedUnclosed(h, b, ClosedIds(h), day, s);
    ExtendedOvercharged(h, b, day, s);
  }

  lemma CapsKept(caps: map<Scope, Cap>, c: Core, h: History, b: Body)
    requires Agrees(c, h) && Admissible(c, h, b) && Checked(caps, c, b)
    requires PlainReserves(h) && CapsHold(caps, h)
    ensures CapsHold(caps, h + [b])
  {
    forall s, day | s in caps
      ensures Within(caps[s], NaiveUsage(h + [b], day, s), Overcharged(h + [b], day, s))
    {
      hide Agrees, Admissible, NaiveUsage, Overcharged, PlainReserves, ScopesOf, UsageForScope;
      if b.kind.RESERVE? {
        OpensNewClaim(c, h, b);
        IndexAgrees(c, h, day, s);
        OpenCaps(caps[s], h, b, s, day);
      } else if Terminal(b) {
        ClosesOpenClaim(c, h, b);
        CloseCaps(caps[s], h, b, s, day);
      } else {
        QuietCaps(h, b, s, day);
      }
    }
  }

  // ----- from one event to runs -----------------------------------------------

  lemma {:induction false} NonEmptyKeepsAll(values: seq<Scope>)
    requires forall v :: v in values ==> v != ""
    ensures NonEmpty(values) == values
  {
    if values != [] {
      assert Last(values) in values && forall v :: v in Init(values) ==> v in values;
      NonEmptyKeepsAll(Init(values));
      assert values == Init(values) + [Last(values)];
    }
  }

  lemma ReserveScopes(spec: Spec, today: Day, rid: Rid)
    requires ValidSpec(spec)
    ensures EventScopes(ReserveBody(spec, today, rid)) == SpecScopes(spec)
  {
    hide NonEmpty;
    NonEmptyKeepsAll(SpecScopes(spec));
  }

  /** The scope loop lets a reservation through exactly when every scope is
      capped and has room for it. */
  lemma {:induction false} ScopesAllow(cfg: Config, c: Core, day: Day, micro: nat, scopes: seq<Scope>)
    ensures ScopeRefusal(cfg, c, day, micro, scopes).None? <==>
      forall s :: s in scopes ==> s in cfg.caps && !Exceeds(c, cfg.caps[s], day, micro, s)
  {
    hide Exceeds;
    if scopes != [] {
      ScopesAllow(cfg, c, day, micro, scopes[1..]);
      assert scopes == [scopes[0]] + scopes[1..];
    }
  }

  lemma PrincipalAdmissible(cfg: Config, d: Disk, op: Op)
    requires Sound(cfg, d) && Promised(d, op) && Principal(cfg, d, op).Some?
    ensures Load(cfg, d).Some?
    ensures Admissible(Load(cfg, d).value.core, Bodies(d.history), Principal(cfg, d, op).value)
  {
    hide Sound, Load, Bodies;
    var s, b := Load(cfg, d).value, Principal(cfg, d, op).value;
    if !op.Reserve? {
      hide Admissible;
      ClosingAdmissible(cfg, d, s, op.rid, b);
    }
  }

  predicate PlainSpec(op: Op) {
    op.Reserve? ==> Distinct(SpecScopes(op.spec))
  }

  lemma PrincipalChecked(cfg: Config, d: Disk, op: Op)
    requires Promised(d, op) && PlainSpec(op) && Principal(cfg, d, op).Some?
    requires Load(cfg, d).Some? && PlainReserves(Bodies(d.history)) && Sound(cfg, d)
    ensures Checked(cfg.caps, Load(cfg, d).value.core, Principal(cfg, d, op).value)
  {
    hide Load, Bodies, Exceeds, ScopesOf, SpecScopes, Sound, PlainReserves;
    var s, b := Load(cfg, d).value, Principal(cfg, d, op).value;
    if op.Reserve? {
      ReserveScopes(op.spec, op.today, op.newId);
      ScopesAllow(cfg, s.core, op.today, op.spec.micro, SpecScopes(op.spec));
    } else {
      LiveIsPlain(cfg, d, op.rid);
    }
  }

  lemma LiveIsPlain(cfg: Config, d: Disk, rid: Rid)
    requires Sound(cfg, d) && Load(cfg, d).Some? && rid in Load(cfg, d).value.core.live
    requires PlainReserves(Bodies(d.history))
    ensures Load(cfg, d).value.core.live[rid].reservedCalls == 1
  {
    hide Load, TotalsAgree, LiveSumAgrees, MarkersSound, LiveMarked, StandingsAgree, OverageAgrees;
    assert Load(cfg, d).value.core.live[rid] in Bodies(d.history);
  }

  lemma PlainKept(h: History, b: Body)
    requires PlainReserves(h) && (b.kind.RESERVE? ==> b.reservedCalls == 1 && Distinct(EventScopes(b)))
    ensures PlainReserves(h + [b])
  {
    hide ScopesOf, Distinct;
  }

  lemma QuietKept(caps: map<Scope, Cap>, h: History, b: Body)
    requires Quiet(b) && PlainReserves(h) && CapsHold(caps, h)
    ensures PlainReserves(h + [b]) && CapsHold(caps, h + [b])
  {
    hide NaiveUsage, Overcharged, ScopesOf;
    PlainKept(h, b);
    forall s, day | s in caps
      ensures Within(caps[s], NaiveUsage(h + [b], day, s), Overcharged(h + [b], day, s))
    {
      QuietCaps(h, b, s, day);
    }
  }

  lemma ExecKeepsCaps(cfg: Config, d: Disk, op: Op)
    requires Sound(cfg, d) && Promised(d, op) && PlainSpec(op)
    requires PlainReserves(Bodies(d.history)) && CapsHold(cfg.caps, Bodies(d.history))
    ensures PlainReserves(Bodies(Exec(cfg, d, op).0.history))
    ensures CapsHold(cfg.caps, Bodies(Exec(cfg, d, op).0.history))
  {
    hide Sound, Promised, Bodies, Exec, PlainReserves, CapsHold, Load, Principal, Quiet;
    var h := Bodies(d.history);
    var added := ExecGrows(cfg, d, op);
    if added == [] {
      assert h + added == h;
    } else {
      if Quiet(added[0]) {
        QuietKept(cfg.caps, h, added[0]);
      } else {
        PrincipalAdmissible(cfg, d, op);
        PrincipalChecked(cfg, d, op);
        LoadedAgrees(cfg, d);
        CapsKept(cfg.caps, Load(cfg, d).value.core, h, added[0]);
        PlainKept(h, added[0]);
      }
      if |added| == 2 {
        QuietKept(cfg.caps, h + [added[0]], added[1]);
        assert h + added == h + [added[0]] + [added[1]];
      } else {
        assert h + added == h + [added[0]];
      }
    }
  }

  lemma LoadedAgrees(cfg: Config, d: Disk)
    requires Sound(cfg, d) && Load(cfg, d).Some?
    ensures Agrees(Load(cfg, d).value.core, Bodies(d.history))
  {
    hide Agrees, Load, Orderly;
  }

  lemma {:induction false} RunKeepsCaps(cfg: Config, ops: seq<Op>)
    requires Legal(cfg, ops) && forall op :: op in ops ==> PlainSpec(op)
    ensures PlainReserves(Bodies(Run(cfg, ops).history)) && CapsHold(cfg.caps, Bodies(Run(cfg, ops).history))
  {
    hide Sound, Promised, PlainReserves, PlainSpec, Exec, CapsHold;
    if ops == [] {
      NoHistory(cfg.caps);
    } else {
      RunKeepsCaps(cfg, Init(ops));
      RunSound(cfg, Init(ops));
      ExecKeepsCaps(cfg, Run(cfg, Init(ops)), Last(ops));
    }
  }

  lemma NothingCharged(day: Day, s: Scope)
    ensures Charged([], day, s) == ZERO
  {
  }

  lemma NothingUnclosed(closed: set<Rid>, day: Day, s: Scope)
    ensures Unclosed([], closed, day, s) == ZERO
  {
  }

  lemma NothingUsed(day: Day, s: Scope)
    ensures NaiveUsage([], day, s) == ZERO
  {
    hide Charged, Unclosed;
    NothingCharged(day, s);
    NothingUnclosed(ClosedIds([]), day, s);
    PlusZero(ZERO);
  }

  lemma NoHistory(caps: map<Scope, Cap>)
    ensures PlainReserves([]) && CapsHold(caps, [])
  {
    hide NaiveUsage, Overcharged, ScopesOf;
    forall s, day | s in caps
      ensures Within(caps[s], NaiveUsage([], day, s), Overcharged([], day, s))
    {
      NothingUsed(day, s);
    }
  }

  /** Cap safety: in every reachable state, calls never exceed a scope's cap,
      and money exceeds it by no more than what was charged above reservations. */
  lemma {:induction false} CapSafety(cfg: Config, ops: seq<Op>, s: Scope, day: Day)
    requires Legal(cfg, ops) && forall op :: op in ops ==> PlainSpec(op)
    requires s in cfg.caps
    ensures var d := Run(cfg, ops);
      && Within(cfg.caps[s], NaiveUsage(Bodies(d.history), day, s), Overcharged(Bodies(d.history), day, s))
      && (Load(cfg, d).Some? ==>
            UsageForScope(Load(cfg, d).value.core, day, s) == NaiveUsage(Bodies(d.history), day, s))
  {
    hide Sound, NaiveUsage, UsageForScope, Run, Load, Legal, Overcharged, Bodies;
    RunKeepsCaps(cfg, ops);
    RunSound(cfg, ops);
    var d := Run(cfg, ops);
    if Load(cfg, d).Some? {
      LoadedAgrees(cfg, d);
      IndexAgrees(Load(cfg, d).value.core, Bodies(d.history), day, s);
    }
  }
}
