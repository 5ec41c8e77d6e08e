/** Runs of ledger operations: any number of processes, each operation one
    atomic step under the lock, any durable write failing at any point. */
module LedgerRuns {
  import opened Basics
  import opened Days
  import opened LedgerModel
  import opened LedgerHistory
  import opened LedgerDisk
  import opened LedgerSafety

  /** What the environment promises: new ids are new, and requests are
      well formed. */
  ghost predicate Promised(d: Disk, op: Op) {
    op.Reserve? ==> op.newId !in OpenedIds(Bodies(d.history)) && ValidSpec(op.spec)
  }

  ghost function Run(cfg: Config, ops: seq<Op>): Disk {
    if ops == [] then InitialDisk(cfg) else Exec(cfg, Run(cfg, Init(ops)), Last(ops)).0
  }

  ghost predicate Legal(cfg: Config, ops: seq<Op>) {
    ops == [] || (Legal(cfg, Init(ops)) && Promised(Run(cfg, Init(ops)), Last(ops)))
  }

  /** Every operation keeps the invariant, however its writes fail. */
  lemma ExecSound(cfg: Config, d: Disk, op: Op)
    requires Sound(cfg, d) && Promised(d, op)
    ensures Sound(cfg, Exec(cfg, d, op).0)
  {
    hide Sound, ReserveOp, SettleOp, CloseWith, CompactOp, RemainingOp, Load;
    match op
    case Reserve(spec, today, newId, io) => ReserveSound(cfg, d, spec, today, newId, io);
    case Settle(rid, actual, inputTokens, outputTokens, outcome, io, overageIo) =>
      SettleSound(cfg, d, rid, actual, inputTokens, outputTokens, outcome, io, overageIo);
    case Release(rid, io) => CloseSound(cfg, d, rid, io, AsReleased);
    case SettleUnknown(rid, io) => CloseSound(cfg, d, rid, io, AsUnknown);
    case Recover(rid, evidenceOk, recovered, release, io) =>
      if recovered.Some? && recovered.value >= 0 {
        CloseSound(cfg, d, rid, io, AsRecovered(Some(recovered.value as nat)));
      }
      CloseSound(cfg, d, rid, io, AsRecovered(None));
    case RemainingBudget(scope, today) =>
    case Compact(pruneDay, eventDay, month, fault) => CompactSound(cfg, d, pruneDay, eventDay, month, fault);
  }

  lemma CompactSound(cfg: Config, d: Disk, pruneDay: Day, eventDay: Day, month: Month, fault: CompactFault)
    requires Sound(cfg, d)
    ensures Sound(cfg, CompactOp(cfg, d, pruneDay, eventDay, month, fault).0)
  {
    if Load(cfg, d).Some? {
      hide Sound, Load;
      CompactOutcome(cfg, d, Load(cfg, d).value, pruneDay, eventDay, month, fault);
    } else {
      RefusedSound(cfg, d, d);
    }
  }

  lemma {:induction false} RunSound(cfg: Config, ops: seq<Op>)
    requires Legal(cfg, ops)
    ensures Sound(cfg, Run(cfg, ops))
  {
    hide Sound, Exec, Promised;
    if ops == [] {
      InitialSound(cfg);
    } else {
      RunSound(cfg, Init(ops));
      ExecSound(cfg, Run(cfg, Init(ops)), Last(ops));
    }
  }

  // ----- what an operation adds to the history --------------------------------

  /** Events that concern no reservation. */
  predicate Quiet(b: Body) {
    b.kind.OVERAGE? || b.kind.CHECKPOINT?
  }

  /** The event about a reservation that an operation sets out to append. */
  ghost function Principal(cfg: Config, d: Disk, op: Op): Option<Body> {
    match Load(cfg, d)
    case None => None
    case Some(s) =>
      match op
      case Reserve(spec, today, newId, _) =>
        if SpecFits(cfg, spec) && Refusal(cfg, s.core, spec, today).None?
        then Some(ReserveBody(spec, today, newId)) else None
      case Settle(rid, actual, inputTokens, outputTokens, outcome, _, _) =>
        if actual >= 0 && inputTokens >= 0 && outputTokens >= 0 && rid in s.core.live
        then Some(SettleBody(s.core.live[rid], actual, inputTokens, outputTokens, outcome)) else None
      case Release(rid, _) => if rid in s.core.live then Some(ReleaseBody(s.core.live[rid])) else None
      case SettleUnknown(rid, _) => if rid in s.core.live then Some(UnknownBody(s.core.live[rid])) else None
      case Recover(rid, _, recovered, _, _) =>
        if rid !in s.core.live then None
        else if recovered.None? then Some(RecoveryBody(s.core.live[rid], None))
        else if recovered.value >= 0 then Some(RecoveryBody(s.core.live[rid], Some(recovered.value as nat)))
        else None
      case _ => None
  }

  ghost predicate Grows(d: Disk, d': Disk, added: seq<Body>) {
    d.history <= d'.history && Bodies(d'.history) == Bodies(d.history) + added
  }

  lemma NothingGrows(d: Disk, d': Disk)
    requires d'.history == d.history
    ensures Grows(d, d', [])
  {
    assert Bodies(d.history) + [] == Bodies(d.history);
  }

  /** Whatever the fault, an append adds its event completely or not at all. */
  lemma AppendGrows(cfg: Config, d: Disk, s: State, b: Body, io: Io) returns (added: seq<Body>)
    requires d.journal.Some?
    ensures Grows(d, Append(cfg, d, s, b, io).0, added)
    ensures added == if io == Fine || io == WrittenButFailed then [b] else []
  {
    added := if io == Fine || io == WrittenButFailed then [b] else [];
    NothingGrows(d, d);
    BodiesAppend(d.history, MakeEvent(cfg, s, b));
  }

  lemma GrowsTwice(d: Disk, d1: Disk, d2: Disk, first: seq<Body>, second: seq<Body>)
    requires Grows(d, d1, first) && Grows(d1, d2, second)
    ensures Grows(d, d2, first + second)
  {
    hide Bodies;
    assert Bodies(d.history) + (first + second) == Bodies(d.history) + first + second;
  }

  lemma SettleGrows(cfg: Config, d: Disk, rid: Rid, actual: int, inputTokens: int, outputTokens: int,
                    outcome: Outcome, io: Io, overageIo: Io) returns (added: seq<Body>)
    requires Load(cfg, d).Some? && rid in Load(cfg, d).value.core.live
    requires actual >= 0 && inputTokens >= 0 && outputTokens >= 0
    ensures Grows(d, SettleOp(cfg, d, rid, actual, inputTokens, outputTokens, outcome, io, overageIo).0, added)
    ensures var b := SettleBody(Load(cfg, d).value.core.live[rid], actual, inputTokens, outputTokens, outcome);
      added == [] || added == [b] || added == [b] + [OverageBody(b)]
  {
    hide Load, Bodies, Step, Grows;
    var s := Load(cfg, d).value;
    var b := SettleBody(s.core.live[rid], actual, inputTokens, outputTokens, outcome);
    JournalPresent(cfg, d);
    added := AppendGrows(cfg, d, s, b, io);
    var (d1, settled) := Append(cfg, d, s, b, io);
    if settled.Ok? && actual > b.reservedMicro {
      var more := AppendGrows(cfg, d1, settled.value, OverageBody(b), overageIo);
      GrowsTwice(d, d1, Append(cfg, d1, settled.value, OverageBody(b), overageIo).0, added, more);
      added := added + more;
    }
  }

  lemma CompactGrows(cfg: Config, d: Disk, pruneDay: Day, eventDay: Day, month: Month, fault: CompactFault)
    returns (added: seq<Body>)
    ensures Grows(d, CompactOp(cfg, d, pruneDay, eventDay, month, fault).0, added)
    ensures |added| <= 2 && forall i :: 0 <= i < |added| ==> Quiet(added[i])
  {
    hide Load, Bodies, Step, Grows, Prune;
    var d' := CompactOp(cfg, d, pruneDay, eventDay, month, fault).0;
    if Load(cfg, d).None? {
      NothingGrows(d, d);
      added := [];
      return;
    }
    JournalPresent(cfg, d);
    var s := Load(cfg, d).value.(core := PruneCore(Load(cfg, d).value.core, pruneDay));
    added := AppendGrows(cfg, d, s, CheckpointBody(eventDay, Checkpointed), CheckpointIo(fault));
    var (d1, closed) := Append(cfg, d, s, CheckpointBody(eventDay, Checkpointed), CheckpointIo(fault));
    if closed.Ok? {
      var more := RotateGrows(cfg, d1.(snapshot := SnapshotOf(cfg, closed.value)), eventDay, month, fault);
      SameHistoryGrows(d, d1, d1.(snapshot := SnapshotOf(cfg, closed.value)), added);
      if d' == Rotate(cfg, d1.(snapshot := SnapshotOf(cfg, closed.value)), eventDay, month, fault).0 {
        GrowsTwice(d, d1.(snapshot := SnapshotOf(cfg, closed.value)), d', added, more);
        added := added + more;
      }
    }
  }

  lemma SameHistoryGrows(d: Disk, d1: Disk, d2: Disk, added: seq<Body>)
    requires Grows(d, d1, added) && d2.history == d1.history
    ensures Grows(d, d2, added)
  {
  }

  lemma RotateGrows(cfg: Config, d2: Disk, eventDay: Day, month: Month, fault: CompactFault)
    returns (added: seq<Body>)
    requires d2.journal.Some?
    ensures Grows(d2, Rotate(cfg, d2, eventDay, month, fault).0, added)
    ensures added == [] || added == [CheckpointBody(eventDay, JournalOpened)]
  {
    hide Load, Bodies, Step, Grows;
    var d' := Rotate(cfg, d2, eventDay, month, fault).0;
    var d4 := d2.(archives := d2.archives + [Archive(month, d2.journal.value.events)],
                  journal := Some(Journal([], false)));
    added := [];
    if d'.history == d2.history {
      NothingGrows(d2, d');
    } else {
      var s := Load(cfg, d4).value;
      added := AppendGrows(cfg, d4, s, CheckpointBody(eventDay, JournalOpened), OpeningIo(fault));
      NothingGrows(d2, d4);
      GrowsTwice(d2, d4, d', [], added);
      assert [] + added == added;
    }
  }

  /** The history only grows: by the operation's own event, then at most quiet ones. */
  lemma ExecGrows(cfg: Config, d: Disk, op: Op) returns (added: seq<Body>)
    ensures Grows(d, Exec(cfg, d, op).0, added)
    ensures |added| <= 2
    ensures forall i :: 0 <= i < |added| ==> Quiet(added[i]) || (i == 0 && Principal(cfg, d, op) == Some(added[0]))
  {
    hide Load, Bodies, Step, Grows, Refusal, CompactOp;
    var d' := Exec(cfg, d, op).0;
    NothingGrows(d, d);
    added := [];
    if op.Compact? {
      added := CompactGrows(cfg, d, op.pruneDay, op.eventDay, op.month, op.fault);
    } else if Load(cfg, d).Some? && Principal(cfg, d, op).Some? {
      var s, b := Load(cfg, d).value, Principal(cfg, d, op).value;
      JournalPresent(cfg, d);
      if op.Settle? {
        added := SettleGrows(cfg, d, op.rid, op.actual, op.inputTokens, op.outputTokens, op.outcome, op.io, op.overageIo);
      } else {
        var line := AppendGrows(cfg, d, s, b, op.io);
        if d' != d {
          added := line;
        }
      }
    }
  }
}
