/** Keys over whole runs: as long as budget days do not go back behind a
    compaction, no key of a day is ever held twice. */
module LedgerKeys {
  import opened Basics
  import opened Days
  import opened LedgerModel
  import opened LedgerHistory
  import opened LedgerDisk
  import opened LedgerSafety
  import opened LedgerRuns
  import opened LedgerCaps

  // ----- the order of days ------------------------------------------------------

  function Later(a: Day, b: Day): Day {
    if Le(a, b) then b else a
  }

  lemma LaterOfBoth(a: Day, b: Day, day: Day)
    ensures Le(Later(a, b), day) ==> Le(a, day) && Le(b, day)
    ensures Le(a, Later(a, b))
  {
    LeTotal(a, b);
    LeReflexive(a);
    if Le(Later(a, b), day) {
      LeTransitive(if Le(a, b) then a else b, Later(a, b), day);
    }
  }

  /** The latest day that a compaction has pruned at. */
  function Horizon(ops: seq<Op>): Day {
    if ops == [] then "" else NextHorizon(Horizon(Init(ops)), Last(ops))
  }

  function NextHorizon(horizon: Day, op: Op): Day {
    if op.Compact? then Later(horizon, op.pruneDay) else horizon
  }

  /** The operation reserves for no day before the horizon. */
  predicate InTime(horizon: Day, op: Op) {
    op.Reserve? ==> Le(horizon, op.today)
  }

  predicate DaysInOrder(ops: seq<Op>) {
    ops == [] || (DaysInOrder(Init(ops)) && InTime(Horizon(Init(ops)), Last(ops)))
  }

  // ----- what a history and a state say about keys ----------------------------------

  /** At most one reservation holds any (day, key), even among those whose
      markers were pruned. */
  ghost predicate KeysHeldOnce(h: History) {
    forall r, q :: Holds(h, r) && Holds(h, q) && SameKey(h, r, q) ==> r == q
  }

  lemma HoldersDiffer(h: History, r: Rid, q: Rid)
    requires KeysHeldOnce(h) && Holds(h, r) && Holds(h, q) && r != q
    ensures !SameKey(h, r, q)
  {
  }

  /** Every holding reservation not older than the horizon has its marker. */
  ghost predicate MarkersComplete(c: Core, h: History, horizon: Day) {
    forall r :: Holds(h, r) && Le(horizon, ReserveOf(h, r).day) ==> Marked(c, h, r)
  }

  ghost predicate Marked(c: Core, h: History, r: Rid)
    requires Holds(h, r)
  {
    Find(c.idem, ReserveOf(h, r).day, ReserveOf(h, r).key) == Some(Marker(StatusOf(h, r).value, r))
  }

  /** The part of the invariant that needs the order of days. */
  ghost predicate Keyed(cfg: Config, d: Disk, horizon: Day) {
    && KeysHeldOnce(Bodies(d.history))
    && (Load(cfg, d).Some? ==> MarkersComplete(Load(cfg, d).value.core, Bodies(d.history), horizon))
  }

  // ----- one event --------------------------------------------------------------

  lemma MarkersCompleteKept(c: Core, h: History, horizon: Day, b: Body, c': Core)
    requires Agrees(c, h) && MarkersComplete(c, h, horizon)
    requires Admissible(c, h, b) && Effect(c, b, c')
    ensures MarkersComplete(c', h + [b], horizon)
  {
    hide Find, StatusOf, ReserveOf, OpenedIds, ClosedIds, ScopesOf, TotalsAgree, LiveSumAgrees, MarkersSound, OverageAgrees;
    Extended(h, b);
    forall r | Holds(h + [b], r) && Le(horizon, ReserveOf(h + [b], r).day)
      ensures Marked(c', h + [b], r)
    {
      ExtendedStatus(h, b, r);
      ExtendedReserve(h, b, r);
      if b.rid != r || !(b.kind.RESERVE? || Terminal(b)) {
        assert Holds(h, r) && Marked(c, h, r);
      }
    }
  }

  /** The only reservation that an event can make hold a key is the one it opens,
      and then no other reservation of that day held it. */
  lemma HeldBefore(c: Core, h: History, horizon: Day, b: Body, r: Rid)
    requires Agrees(c, h) && MarkersComplete(c, h, horizon) && (b.kind.RESERVE? ==> Le(horizon, b.day))
    requires Admissible(c, h, b) && Holds(h + [b], r)
    ensures (b.kind.RESERVE? && b.rid == r) || Holds(h, r)
    ensures b.kind.RESERVE? && Holds(h, r) ==> ReserveOf(h, r).day != b.day || ReserveOf(h, r).key != b.key
  {
    hide TotalsAgree, LiveSumAgrees, MarkersSound, OverageAgrees;
    Extended(h, b);
    ExtendedStatus(h, b, r);
    if b.kind.RESERVE? && Holds(h, r) && ReserveOf(h, r).day == b.day {
      assert Marked(c, h, r);
    }
  }

  lemma KeysHeldOnceKept(c: Core, h: History, horizon: Day, b: Body)
    requires Agrees(c, h) && MarkersComplete(c, h, horizon) && KeysHeldOnce(h)
    requires Admissible(c, h, b) && (b.kind.RESERVE? ==> Le(horizon, b.day))
    ensures KeysHeldOnce(h + [b])
  {
    hide Agrees, Admissible, MarkersComplete, ReserveOf, OpenedIds, StatusOf;
    Extended(h, b);
    forall r, q | Holds(h + [b], r) && Holds(h + [b], q) && SameKey(h + [b], r, q)
      ensures r == q
    {
      HeldBefore(c, h, horizon, b, r);
      HeldBefore(c, h, horizon, b, q);
      ExtendedReserve(h, b, r);
      ExtendedReserve(h, b, q);
    }
  }

  /** One append, however it ends. `memory` is the loaded state, but for markers
      pruned from it. */
  lemma AppendKeyed(cfg: Config, d: Disk, horizon: Day, s: State, memory: State, b: Body, io: Io)
    requires Sound(cfg, d) && Keyed(cfg, d, horizon) && Load(cfg, d) == Some(s)
    requires Admissible(s.core, Bodies(d.history), b) && (b.kind.RESERVE? ==> Le(horizon, b.day))
    requires memory.lastSequence == s.lastSequence && memory.lastDigest == s.lastDigest
    ensures d.journal.Some? && Keyed(cfg, Append(cfg, d, memory, b, io).0, horizon)
  {
    hide Agrees, Admissible, Step, Bodies, Sound, KeysHeldOnce, MarkersComplete, Effect, Replay, Accept;
    var h, e := Bodies(d.history), MakeEvent(cfg, s, b);
    JournalPresent(cfg, d);
    assert MakeEvent(cfg, memory, b) == e;
    LoadAfterLine(cfg, d, s, e);
    if io == Fine || io == WrittenButFailed {
      LoadedAgrees(cfg, d);
      BodiesAppend(d.history, e);
      AgreementKept(s.core, h, b);
      AcceptsMade(cfg, s, b);
      StepHasEffect(s.core, b);
      MarkersCompleteKept(s.core, h, horizon, b, Step(s.core, b).value);
      KeysHeldOnceKept(s.core, h, horizon, b);
    }
  }

  // ----- each operation -----------------------------------------------------------

  lemma ReserveKeyed(cfg: Config, d: Disk, horizon: Day, spec: Spec, today: Day, rid: Rid, io: Io)
    requires Sound(cfg, d) && Keyed(cfg, d, horizon) && rid !in OpenedIds(Bodies(d.history)) && Le(horizon, today)
    ensures Keyed(cfg, ReserveOp(cfg, d, spec, today, rid, io).0, horizon)
  {
    hide Sound, Keyed, Load, Append, Bodies, OpenedIds, Find, ScopeRefusal;
    if SpecFits(cfg, spec) && Load(cfg, d).Some? {
      var s := Load(cfg, d).value;
      if Refusal(cfg, s.core, spec, today).None? {
        AppendKeyed(cfg, d, horizon, s, s, ReserveBody(spec, today, rid), io);
      }
    }
  }

  lemma CloseKeyed(cfg: Config, d: Disk, horizon: Day, rid: Rid, io: Io, how: Closing)
    requires Sound(cfg, d) && Keyed(cfg, d, horizon)
    ensures Keyed(cfg, CloseWith(cfg, d, rid, io, how).0, horizon)
  {
    hide Sound, Keyed, Load, Append, Bodies, Admissible;
    if Load(cfg, d).Some? && rid in Load(cfg, d).value.core.live {
      var s := Load(cfg, d).value;
      var b := ClosingBody(s.core.live[rid], how);
      ClosingAdmissible(cfg, d, s, rid, b);
      AppendKeyed(cfg, d, horizon, s, s, b, io);
    }
  }

  lemma SettleKeyed(cfg: Config, d: Disk, horizon: Day, rid: Rid, actual: int, inputTokens: int, outputTokens: int,
                    outcome: Outcome, io: Io, overageIo: Io)
    requires Sound(cfg, d) && Keyed(cfg, d, horizon)
    ensures Keyed(cfg, SettleOp(cfg, d, rid, actual, inputTokens, outputTokens, outcome, io, overageIo).0, horizon)
  {
    hide Sound, Keyed, Load, AppendSettlement, Bodies, Admissible;
    if actual >= 0 && inputTokens >= 0 && outputTokens >= 0 && Load(cfg, d).Some? && rid in Load(cfg, d).value.core.live {
      var s := Load(cfg, d).value;
      var b := SettleBody(s.core.live[rid], actual, inputTokens, outputTokens, outcome);
      ClosingAdmissible(cfg, d, s, rid, b);
      SettlementKeyed(cfg, d, horizon, s, b, io, overageIo);
    }
  }

  lemma SettlementKeyed(cfg: Config, d: Disk, horizon: Day, s: State, b: Body, io: Io, overageIo: Io)
    requires Sound(cfg, d) && Keyed(cfg, d, horizon) && Load(cfg, d) == Some(s)
    requires Admissible(s.core, Bodies(d.history), b) && b.kind.SETTLE?
    ensures d.journal.Some? && Keyed(cfg, AppendSettlement(cfg, d, s, b, io, overageIo).0, horizon)
  {
    hide Sound, Keyed, Load, Append, Bodies, Admissible, Step, MakeEvent;
    AppendKeyed(cfg, d, horizon, s, s, b, io);
    AppendSound(cfg, d, s, s, b, io);
    var (d1, settled) := Append(cfg, d, s, b, io);
    if settled.Ok? && b.actualMicro > b.reservedMicro {
      OverageAdmissible(settled.value.core, Bodies(d1.history), b);
      AppendKeyed(cfg, d1, horizon, settled.value, settled.value, OverageBody(b), overageIo);
    }
  }

  /** Events about no reservation change nothing that a history says about keys. */
  lemma QuietHolds(h: History, added: seq<Body>, r: Rid)
    requires |added| <= 2 && forall i :: 0 <= i < |added| ==> Quiet(added[i])
    ensures OpenedIds(h + added) == OpenedIds(h) && StatusOf(h + added, r) == StatusOf(h, r)
    ensures r in OpenedIds(h) ==> ReserveOf(h + added, r) == ReserveOf(h, r)
  {
    hide OpenedIds, StatusOf, ReserveOf;
    if added == [] {
      assert h + added == h;
    } else {
      var h1 := h + [added[0]];
      Extended(h, added[0]);
      ExtendedStatus(h, added[0], r);
      if r in OpenedIds(h) {
        ExtendedReserve(h, added[0], r);
      }
      if |added| == 2 {
        assert h + added == h1 + [added[1]];
        Extended(h1, added[1]);
        ExtendedStatus(h1, added[1], r);
        if r in OpenedIds(h) {
          ExtendedReserve(h1, added[1], r);
        }
      } else {
        assert h + added == h1;
      }
    }
  }

  lemma QuietKeys(h: History, added: seq<Body>)
    requires |added| <= 2 && (forall i :: 0 <= i < |added| ==> Quiet(added[i])) && KeysHeldOnce(h)
    ensures KeysHeldOnce(h + added)
  {
    hide OpenedIds, StatusOf, ReserveOf, Quiet;
    forall r, q | Holds(h + added, r) && Holds(h + added, q) && SameKey(h + added, r, q)
      ensures r == q
    {
      QuietHolds(h, added, r);
      QuietHolds(h, added, q);
      assert Holds(h, r) && Holds(h, q) && SameKey(h, r, q);
    }
  }

  lemma QuietComplete(c: Core, h: History, added: seq<Body>, horizon: Day)
    requires |added| <= 2 && (forall i :: 0 <= i < |added| ==> Quiet(added[i])) && MarkersComplete(c, h, horizon)
    ensures MarkersComplete(c, h + added, horizon)
  {
    hide OpenedIds, StatusOf, ReserveOf, Quiet, Find, Le;
    forall r | Holds(h + added, r) && Le(horizon, ReserveOf(h + added, r).day)
      ensures Marked(c, h + added, r)
    {
      QuietHolds(h, added, r);
      assert Marked(c, h, r);
    }
  }

  /** Pruning forgets only markers of days before the later horizon. */
  lemma PruneComplete(c: Core, h: History, horizon: Day, pruneDay: Day)
    requires MarkersComplete(c, h, horizon)
    ensures MarkersComplete(c, h, Later(horizon, pruneDay))
    ensures MarkersComplete(PruneCore(c, pruneDay), h, Later(horizon, pruneDay))
  {
    var later, pruned := Later(horizon, pruneDay), PruneCore(c, pruneDay);
    forall r | Holds(h, r) && Le(later, ReserveOf(h, r).day)
      ensures Marked(c, h, r) && Marked(pruned, h, r)
    {
      var b := ReserveOf(h, r);
      LaterOfBoth(horizon, pruneDay, b.day);
      assert Find(pruned.idem, b.day, b.key) == Kept(Find(c.idem, b.day, b.key), pruneDay, b.day);
      assert Marked(c, h, r);
    }
  }

  lemma CompactKeyed(cfg: Config, d: Disk, horizon: Day, pruneDay: Day, eventDay: Day, month: Month, fault: CompactFault)
    requires Sound(cfg, d) && Keyed(cfg, d, horizon)
    ensures Keyed(cfg, CompactOp(cfg, d, pruneDay, eventDay, month, fault).0, Later(horizon, pruneDay))
  {
    hide Sound, Load, CompactOp, Bodies, KeysHeldOnce, MarkersComplete, Prune, Le;
    var h := Bodies(d.history);
    var added := CompactGrows(cfg, d, pruneDay, eventDay, month, fault);
    QuietKeys(h, added);
    if Load(cfg, d).Some? {
      CompactOutcome(cfg, d, Load(cfg, d).value, pruneDay, eventDay, month, fault);
      PruneComplete(Load(cfg, d).value.core, h, horizon, pruneDay);
      QuietComplete(Load(cfg, d).value.core, h, added, Later(horizon, pruneDay));
      QuietComplete(PruneCore(Load(cfg, d).value.core, pruneDay), h, added, Later(horizon, pruneDay));
    } else {
      RefusedCompaction(cfg, d, pruneDay, eventDay, month, fault);
    }
  }

  lemma RefusedCompaction(cfg: Config, d: Disk, pruneDay: Day, eventDay: Day, month: Month, fault: CompactFault)
    requires Load(cfg, d).None?
    ensures CompactOp(cfg, d, pruneDay, eventDay, month, fault).0 == d
  {
    hide Load;
  }

  /** Every operation in time keeps keys held once, however its writes fail. */
  lemma ExecKeyed(cfg: Config, d: Disk, horizon: Day, op: Op)
    requires Sound(cfg, d) && Keyed(cfg, d, horizon) && Promised(d, op) && InTime(horizon, op)
    ensures Keyed(cfg, Exec(cfg, d, op).0, NextHorizon(horizon, op))
  {
    hide Sound, Keyed, ReserveOp, SettleOp, CloseWith, CompactOp, RemainingOp, Bodies, OpenedIds, Le;
    match op
    case Reserve(spec, today, newId, io) => ReserveKeyed(cfg, d, horizon, spec, today, newId, io);
    case Settle(rid, actual, inputTokens, outputTokens, outcome, io, overageIo) =>
      SettleKeyed(cfg, d, horizon, rid, actual, inputTokens, outputTokens, outcome, io, overageIo);
    case Release(rid, io) => CloseKeyed(cfg, d, horizon, rid, io, AsReleased);
    case SettleUnknown(rid, io) => CloseKeyed(cfg, d, horizon, rid, io, AsUnknown);
    case Recover(rid, evidenceOk, recovered, release, io) =>
      if recovered.Some? && recovered.value >= 0 {
        CloseKeyed(cfg, d, horizon, rid, io, AsRecovered(Some(recovered.value as nat)));
      }
      CloseKeyed(cfg, d, horizon, rid, io, AsRecovered(None));
    case RemainingBudget(scope, today) =>
    case Compact(pruneDay, eventDay, month, fault) =>
      CompactKeyed(cfg, d, horizon, pruneDay, eventDay, month, fault);
  }

  // ----- runs ---------------------------------------------------------------------

  lemma InitialKeyed(cfg: Config)
    ensures Keyed(cfg, InitialDisk(cfg), "")
  {
    assert Bodies(InitialDisk(cfg).history) == [];
  }

  /** Over every run whose days are in order no key of a day is held twice, and
      markers from the horizon on are complete. */
  lemma {:induction false} RunKeyed(cfg: Config, ops: seq<Op>)
    requires Legal(cfg, ops) && DaysInOrder(ops)
    ensures Keyed(cfg, Run(cfg, ops), Horizon(ops))
  {
    hide Sound, Keyed, Exec, Promised, InTime;
    if ops == [] {
      InitialKeyed(cfg);
    } else {
      RunKeyed(cfg, Init(ops));
      RunSound(cfg, Init(ops));
      ExecKeyed(cfg, Run(cfg, Init(ops)), Horizon(Init(ops)), Last(ops));
    }
  }
}
