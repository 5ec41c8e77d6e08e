/** The invariant of the ledger's files, kept by every operation however its
    writes fail, and by every run of operations. */
module LedgerSafety {
  import opened Basics
  import opened Days
  import opened LedgerModel
  import opened LedgerHistory
  import opened LedgerDisk

  function Bodies(events: seq<Event>): History {
    if events == [] then [] else Bodies(Init(events)) + [Last(events).content.body]
  }

  function LastDigest(events: seq<Event>): Digest {
    if events == [] then Genesis else Last(events).digest
  }

  /** A single sequence 1..n, each event naming the digest of the one before
      and carrying its own. */
  predicate Chained(cfg: Config, events: seq<Event>) {
    events == [] ||
    (Chained(cfg, Init(events)) && Linked(cfg, |events| - 1, LastDigest(Init(events)), Last(events)))
  }

  predicate Linked(cfg: Config, before: nat, previous: Digest, e: Event) {
    && e.content.sequence == before + 1
    && e.content.previous == previous
    && e.digest == Sha(e.content)
    && e.content.domain == cfg.domain && e.content.timezone == cfg.timezone
  }

  function ArchivedEvents(archives: seq<Archive>): seq<Event> {
    if archives == [] then [] else ArchivedEvents(Init(archives)) + Last(archives).events
  }

  /** The facts about a history that outlive the state it was replayed into. */
  ghost predicate Orderly(h: History) {
    && OpenedOnce(h)
    && StandingsAgree(h)
    && OverageFinal(h)
    && LiveApart(h)
  }

  ghost predicate OpenIn(h: History, r: Rid) {
    r in OpenedIds(h) && StatusOf(h, r) == Some(Live)
  }

  /** No two open reservations share a day and key. */
  ghost predicate LiveApart(h: History) {
    forall r, q :: OpenIn(h, r) && OpenIn(h, q) && SameKey(h, r, q) ==> r == q
  }

  /** A loaded state stands at the end of the whole history and agrees with it. */
  ghost predicate Current(d: Disk, s: State) {
    && s.lastSequence == |d.history|
    && s.lastDigest == LastDigest(d.history)
    && Agrees(s.core, Bodies(d.history))
    && d.journal.Some?
    && d.history == ArchivedEvents(d.archives) + d.journal.value.events
  }

  /** The invariant. A ledger that refuses to load keeps an orderly history. */
  ghost predicate Sound(cfg: Config, d: Disk) {
    && Chained(cfg, d.history)
    && Orderly(Bodies(d.history))
    && (Load(cfg, d).Some? ==> Current(d, Load(cfg, d).value))
  }

  lemma InitialSound(cfg: Config)
    ensures Load(cfg, InitialDisk(cfg)) == Some(State(EMPTY_CORE, 0, Genesis))
    ensures Sound(cfg, InitialDisk(cfg))
  {
    var d := InitialDisk(cfg);
    assert d.journal.value.events == [];
    assert ArchivedEvents(d.archives) + d.journal.value.events == [];
    assert Bodies(d.history) == [];
    assert LiveUsage(EMPTY_CORE.live, "", "") == ZERO;
    forall day, s
      ensures LiveUsage(EMPTY_CORE.live, day, s) == ZERO
    {
      assert Claims(EMPTY_CORE.live, day, s) == map[];
    }
    assert Agrees(EMPTY_CORE, []);
  }

  lemma BodiesAppend(events: seq<Event>, e: Event)
    ensures Bodies(events + [e]) == Bodies(events) + [e.content.body]
  {
    AppendParts(events, e);
  }

  /** A new line is accepted by the next load exactly as it was applied in memory. */
  lemma LoadAfterLine(cfg: Config, d: Disk, s: State, e: Event)
    requires Load(cfg, d) == Some(s)
    ensures Load(cfg, WriteLine(d, e, Fine)) == Accept(cfg, s, e)
    ensures WriteLine(d, e, WrittenButFailed) == WriteLine(d, e, Fine)
    ensures Load(cfg, WriteLine(d, e, TornLine)) == None
  {
    AppendParts(d.journal.value.events, e);
  }

  lemma AcceptsMade(cfg: Config, s: State, b: Body)
    requires Step(s.core, b).Some?
    ensures var e := MakeEvent(cfg, s, b);
      Accept(cfg, s, e) == Some(State(Step(s.core, b).value, e.content.sequence, e.digest))
  {
    hide Step;
  }

  lemma ChainGrows(cfg: Config, history: seq<Event>, s: State, b: Body)
    requires Chained(cfg, history) && s.lastSequence == |history| && s.lastDigest == LastDigest(history)
    ensures Chained(cfg, history + [MakeEvent(cfg, s, b)])
    ensures LastDigest(history + [MakeEvent(cfg, s, b)]) == MakeEvent(cfg, s, b).digest
  {
    AppendParts(history, MakeEvent(cfg, s, b));
  }

  /** A complete line about an admissible body is accepted and keeps the invariant. */
  lemma LineSound(cfg: Config, d: Disk, s: State, b: Body)
    requires Sound(cfg, d) && Load(cfg, d) == Some(s)
    requires Admissible(s.core, Bodies(d.history), b)
    ensures Step(s.core, b).Some?
    ensures var e := MakeEvent(cfg, s, b);
      Load(cfg, WriteLine(d, e, Fine)) == Some(State(Step(s.core, b).value, e.content.sequence, e.digest))
    ensures Sound(cfg, WriteLine(d, MakeEvent(cfg, s, b), Fine))
  {
    hide Agrees, Admissible, Step, Bodies, ArchivedEvents, Replay, Accept, Orderly, Chained, Linked, LastDigest;
    var h, e := Bodies(d.history), MakeEvent(cfg, s, b);
    var d' := WriteLine(d, e, Fine);
    AgreementKept(s.core, h, b);
    LoadAfterLine(cfg, d, s, e);
    var s' := State(Step(s.core, b).value, e.content.sequence, e.digest);
    assert Load(cfg, d') == Some(s') by { AcceptsMade(cfg, s, b); }
    assert Bodies(d'.history) == h + [b] by { BodiesAppend(d.history, e); }
    ChainGrows(cfg, d.history, s, b);
    assert d'.history == ArchivedEvents(d'.archives) + d'.journal.value.events by {
      assert ArchivedEvents(d.archives) + (d.journal.value.events + [e]) == d.history + [e];
    }
    assert Current(d', s');
    AgreesOrderly(s'.core, h + [b]);
  }

  lemma AgreesOrderly(c: Core, h: History)
    requires Agrees(c, h)
    ensures Orderly(h)
  {
    hide OpenedIds, ClosedIds, StatusOf, ReserveOf, Find, TotalsAgree, LiveSumAgrees, MarkersSound;
    forall r, q | OpenIn(h, r) && OpenIn(h, q) && SameKey(h, r, q)
      ensures r == q
    {
      assert r in c.live && q in c.live && c.live[r] == ReserveOf(h, r) && c.live[q] == ReserveOf(h, q);
    }
  }

  /** One append, ending in any way, keeps the invariant; and an append that
      succeeds leaves in memory what the next load will read. `memory` is the
      state in memory: the loaded state, but for markers pruned from it. */
  lemma AppendSound(cfg: Config, d: Disk, s: State, memory: State, b: Body, io: Io)
    requires Sound(cfg, d) && Load(cfg, d) == Some(s)
    requires Admissible(s.core, Bodies(d.history), b)
    requires memory.lastSequence == s.lastSequence && memory.lastDigest == s.lastDigest
    ensures Step(s.core, b).Some?
    ensures Sound(cfg, Append(cfg, d, memory, b, io).0)
    ensures Append(cfg, d, memory, b, io).1.Ok? ==> io == Fine
    ensures io == Fine ==>
      (var loaded := State(Step(s.core, b).value, s.lastSequence + 1, MakeEvent(cfg, s, b).digest);
       && Load(cfg, Append(cfg, d, memory, b, io).0) == Some(loaded)
       && (memory == s ==> Append(cfg, d, s, b, io).1 == Ok(loaded)))
  {
    hide Agrees, Admissible, Step, Bodies, Orderly, Current, ScopesOf, Chained;
    LineSound(cfg, d, s, b);
    assert MakeEvent(cfg, memory, b) == MakeEvent(cfg, s, b);
    if io == TornLine {
      LoadAfterLine(cfg, d, s, MakeEvent(cfg, s, b));
    }
  }

  // ----- the operations -------------------------------------------------------

  lemma ReserveSound(cfg: Config, d: Disk, spec: Spec, today: Day, rid: Rid, io: Io)
    requires Sound(cfg, d) && rid !in OpenedIds(Bodies(d.history))
    ensures Sound(cfg, ReserveOp(cfg, d, spec, today, rid, io).0)
    ensures var (d', r) := ReserveOp(cfg, d, spec, today, rid, io); r.Ok? ==> Load(cfg, d').Some? && rid in Load(cfg, d').value.core.live
  {
    if SpecFits(cfg, spec) && Load(cfg, d).Some? {
      var s := Load(cfg, d).value;
      if Refusal(cfg, s.core, spec, today).None? {
        AppendSound(cfg, d, s, s, ReserveBody(spec, today, rid), io);
      }
    }
  }

  /** Every event made from a live record by a closing operation is admissible. */
  lemma ClosingAdmissible(cfg: Config, d: Disk, s: State, rid: Rid, b: Body)
    requires Sound(cfg, d) && Load(cfg, d) == Some(s) && rid in s.core.live
    requires b == s.core.live[rid].(kind := b.kind, actualCalls := b.actualCalls, actualMicro := b.actualMicro,
      inputTokens := b.inputTokens, outputTokens := b.outputTokens, outcome := b.outcome)
    requires Terminal(b) && (b.kind.RECOVERY? ==> b.outcome == Released || b.outcome == Settled)
    ensures Admissible(s.core, Bodies(d.history), b)
  {
    hide TotalsAgree, LiveSumAgrees, MarkersSound, LiveMarked, OverageAgrees, StandingsAgree;
    assert LiveAgrees(s.core, Bodies(d.history));
    assert s.core.live[rid].rid == rid;
  }

  lemma OverageAdmissible(c: Core, h: History, b: Body)
    ensures Admissible(c, h, OverageBody(b))
  {
  }

  lemma CloseSound(cfg: Config, d: Disk, rid: Rid, io: Io, how: Closing)
    requires Sound(cfg, d)
    ensures Sound(cfg, CloseWith(cfg, d, rid, io, how).0)
  {
    hide Sound, Admissible, Load, Replay, Accept, Step, Bodies, MakeEvent, WriteLine;
    if Load(cfg, d).Some? && rid in Load(cfg, d).value.core.live {
      var s := Load(cfg, d).value;
      var b := ClosingBody(s.core.live[rid], how);
      ClosingAdmissible(cfg, d, s, rid, b);
      AppendSound(cfg, d, s, s, b, io);
    }
  }

  lemma OverageSound(cfg: Config, d: Disk, s: State, b: Body, io: Io)
    requires Sound(cfg, d) && Load(cfg, d) == Some(s)
    ensures d.journal.Some? && Sound(cfg, Append(cfg, d, s, OverageBody(b), io).0)
  {
    hide Sound, Replay, Accept, Step, Bodies, MakeEvent, WriteLine, Admissible;
    OverageAdmissible(s.core, Bodies(d.history), b);
    AppendSound(cfg, d, s, s, OverageBody(b), io);
  }

  lemma SettleSound(cfg: Config, d: Disk, rid: Rid, actual: int, inputTokens: int, outputTokens: int,
                    outcome: Outcome, io: Io, overageIo: Io)
    requires Sound(cfg, d)
    ensures Sound(cfg, SettleOp(cfg, d, rid, actual, inputTokens, outputTokens, outcome, io, overageIo).0)
  {
    hide Sound, Load, Replay, Accept, Step, Bodies, MakeEvent, WriteLine, Admissible, Append;
    if actual >= 0 && inputTokens >= 0 && outputTokens >= 0 && Load(cfg, d).Some? {
      var s := Load(cfg, d).value;
      if rid in s.core.live {
        var b := SettleBody(s.core.live[rid], actual, inputTokens, outputTokens, outcome);
        JournalPresent(cfg, d);
        ClosingAdmissible(cfg, d, s, rid, b);
        AppendSound(cfg, d, s, s, b, io);
        var (d1, settled) := Append(cfg, d, s, b, io);
        if settled.Ok? {
          OverageSound(cfg, d1, settled.value, b, overageIo);
        }
      }
    }
  }

  /** Pruning forgets only what the agreement does not need. */
  lemma PruneAgrees(c: Core, h: History, pruneDay: Day)
    requires Agrees(c, h)
    ensures Agrees(PruneCore(c, pruneDay), h)
  {
  }

  // ----- compaction -----------------------------------------------------------

  lemma {:induction false} ChainedAt(cfg: Config, events: seq<Event>, i: nat)
    requires Chained(cfg, events) && i < |events|
    ensures events[i].content.sequence == i + 1
  {
    if i < |events| - 1 {
      ChainedAt(cfg, Init(events), i);
    }
  }

  /** A journal whose first event does not continue the snapshot is refused. */
  lemma {:induction false} StaleJournalRefused(cfg: Config, s: State, events: seq<Event>)
    requires events != [] && events[0].content.sequence != s.lastSequence + 1
    ensures Replay(cfg, s, events) == None
  {
    if |events| > 1 {
      StaleJournalRefused(cfg, s, Init(events));
    } else {
      assert Init(events) == [];
    }
  }

  /** Once the snapshot is replaced, the journal it already covers is refused
      until the journal is rotated away. */
  lemma CoveredJournalRefused(cfg: Config, d: Disk, s: State, p: Snapshot)
    requires Sound(cfg, d) && Load(cfg, d) == Some(s)
    requires d.journal.value.events != [] && p.sequence == |d.history|
    ensures Load(cfg, d.(snapshot := p)) == None
  {
    var archived, events := ArchivedEvents(d.archives), d.journal.value.events;
    assert d.history == archived + events;
    ChainedAt(cfg, d.history, |archived|);
    StaleJournalRefused(cfg, SnapshotState(p), events);
  }

  /** The state after the checkpoint of a compaction, on disk and in memory. */
  lemma CheckpointStep(cfg: Config, d: Disk, s: State, pruneDay: Day, eventDay: Day)
    requires Sound(cfg, d) && Load(cfg, d) == Some(s)
    ensures var memory := s.(core := PruneCore(s.core, pruneDay));
      var b := CheckpointBody(eventDay, Checkpointed);
      var (d1, closed) := Append(cfg, d, memory, b, Fine);
      && Sound(cfg, d1)
      && closed == Ok(State(PruneCore(s.core, pruneDay), s.lastSequence + 1, MakeEvent(cfg, s, b).digest))
      && Load(cfg, d1) == Some(State(s.core, s.lastSequence + 1, MakeEvent(cfg, s, b).digest))
      && d1.journal.value.events != []
      && d1.archives == d.archives
  {
    hide Sound, Load, Agrees, Bodies;
    var memory := s.(core := PruneCore(s.core, pruneDay));
    CheckpointAdmissible(s.core, Bodies(d.history), eventDay, Checkpointed);
    AppendSound(cfg, d, s, memory, CheckpointBody(eventDay, Checkpointed), Fine);
    assert d.journal.Some? by { JournalPresent(cfg, d); }
  }

  lemma JournalPresent(cfg: Config, d: Disk)
    requires Load(cfg, d).Some?
    ensures d.journal.Some?
  {
  }

  lemma CheckpointAdmissible(c: Core, h: History, day: Day, outcome: Outcome)
    ensures Admissible(c, h, CheckpointBody(day, outcome))
  {
  }

  /** A rotated ledger loads the state that its snapshot holds. */
  lemma RotatedSound(cfg: Config, d1: Disk, s1: State, pruneDay: Day, month: Month)
    requires Sound(cfg, d1) && Load(cfg, d1) == Some(s1)
    ensures var pruned := s1.(core := PruneCore(s1.core, pruneDay));
      var d4 := Disk(SnapshotOf(cfg, pruned), Some(Journal([], false)),
                     d1.archives + [Archive(month, d1.journal.value.events)], d1.history);
      Load(cfg, d4) == Some(pruned) && Sound(cfg, d4)
  {
    hide Agrees, Bodies, Prune;
    var archive := Archive(month, d1.journal.value.events);
    AppendParts(d1.archives, archive);
    assert ArchivedEvents(d1.archives + [archive]) + [] == d1.history;
    PruneAgrees(s1.core, Bodies(d1.history), pruneDay);
  }

  /** Files that refuse to load need only keep the history they had. */
  lemma RefusedSound(cfg: Config, d: Disk, d': Disk)
    requires Sound(cfg, d) && d'.history == d.history && Load(cfg, d') == None
    ensures Sound(cfg, d')
  {
    hide Orderly, Chained, Current, Load;
  }

  predicate Harmless(fault: CompactFault) {
    fault == NoFault || fault == CheckpointFails(Fine) || fault == OpeningFails(Fine)
  }

  /** The fault strikes after the snapshot was replaced and before the journal
      was rotated and reopened. */
  predicate LeavesCoveredJournal(fault: CompactFault) {
    fault == SnapshotFails(true) || fault.ArchiveFails? || (fault.RotateFails? && !(fault.moved && fault.reopened))
  }

  lemma FreshRotation(cfg: Config, d1: Disk, s1: State, pruneDay: Day, eventDay: Day, month: Month,
                      fault: CompactFault)
    requires Sound(cfg, d1) && Load(cfg, d1) == Some(s1)
    requires d1.journal.value.events != [] && !LeavesCoveredJournal(fault)
    ensures var pruned := s1.(core := PruneCore(s1.core, pruneDay));
      var (d', r) := Rotate(cfg, d1.(snapshot := SnapshotOf(cfg, pruned)), eventDay, month, fault);
      && Sound(cfg, d')
      && (Load(cfg, d').Some? ==> Load(cfg, d').value.core == pruned.core)
      && (r.Ok? <==> OpeningIo(fault) == Fine && !fault.RotateFails?)
      && (r.Ok? ==> Load(cfg, d').Some? && HasArchive(d', month))
  {
    hide Sound, Agrees, Bodies, Prune, Replay, Admissible;
    var pruned := s1.(core := PruneCore(s1.core, pruneDay));
    var d4 := Disk(SnapshotOf(cfg, pruned), Some(Journal([], false)),
                   d1.archives + [Archive(month, d1.journal.value.events)], d1.history);
    RotatedSound(cfg, d1, s1, pruneDay, month);
    var b := CheckpointBody(eventDay, JournalOpened);
    CheckpointAdmissible(pruned.core, Bodies(d4.history), eventDay, JournalOpened);
    AppendSound(cfg, d4, pruned, pruned, b, OpeningIo(fault));
    assert d4.archives[|d1.archives|].month == month;
    LoadAfterLine(cfg, d4, pruned, MakeEvent(cfg, pruned, b));
    AcceptsMade(cfg, pruned, b);
  }

  /** After the snapshot is replaced, a rotation that stops half way leaves
      files that refuse to load. */
  lemma HalfRotation(cfg: Config, d1: Disk, s1: State, pruneDay: Day, eventDay: Day, month: Month,
                     fault: CompactFault)
    requires Sound(cfg, d1) && Load(cfg, d1) == Some(s1)
    requires d1.journal.value.events != [] && LeavesCoveredJournal(fault)
    requires s1.lastSequence == |d1.history|
    ensures var pruned := s1.(core := PruneCore(s1.core, pruneDay));
      var (d', r) := Rotate(cfg, d1.(snapshot := SnapshotOf(cfg, pruned)), eventDay, month, fault);
      !fault.SnapshotFails? ==> d'.history == d1.history && Load(cfg, d') == None && r.Err?
  {
    hide Sound, Agrees, Bodies, Prune, Replay;
    var p := SnapshotOf(cfg, s1.(core := PruneCore(s1.core, pruneDay)));
    CoveredJournalRefused(cfg, d1, s1, p);
  }

  lemma AtHistoryEnd(cfg: Config, d: Disk)
    requires Sound(cfg, d) && Load(cfg, d).Some?
    ensures Load(cfg, d).value.lastSequence == |d.history|
  {
    hide Agrees, Orderly, Chained;
  }

  /** A checkpoint that is not durably confirmed leaves the files loadable with
      nothing pruned, or torn. */
  lemma FailedCheckpoint(cfg: Config, d: Disk, s: State, pruneDay: Day, eventDay: Day, io: Io)
    requires Sound(cfg, d) && Load(cfg, d) == Some(s) && io != Fine
    ensures var memory := s.(core := PruneCore(s.core, pruneDay));
      var (d', r) := Append(cfg, d, memory, CheckpointBody(eventDay, Checkpointed), io);
      && Sound(cfg, d')
      && (Load(cfg, d').Some? ==> Load(cfg, d').value.core == s.core)
      && r == Err(LedgerUnavailable)
  {
    hide Sound, Agrees, Bodies, Prune, Replay, Load, Admissible;
    var memory := s.(core := PruneCore(s.core, pruneDay));
    var b := CheckpointBody(eventDay, Checkpointed);
    JournalPresent(cfg, d);
    CheckpointAdmissible(s.core, Bodies(d.history), eventDay, Checkpointed);
    AppendSound(cfg, d, s, memory, b, io);
    LoadAfterLine(cfg, d, s, MakeEvent(cfg, s, b));
    AcceptsMade(cfg, s, b);
  }

  /** Every way a compaction can end. The files stay sound; the next load is
      refused, or reads the state as it was or with its stale markers pruned;
      and without a fault the compaction succeeds exactly when the month has no
      archive yet, and then archives it, while an existing archive leaves the
      ledger refusing to load. */
  lemma CompactOutcome(cfg: Config, d: Disk, s: State, pruneDay: Day, eventDay: Day, month: Month,
                       fault: CompactFault)
    requires Sound(cfg, d) && Load(cfg, d) == Some(s)
    ensures var (d', r) := CompactOp(cfg, d, pruneDay, eventDay, month, fault);
      && Sound(cfg, d')
      && (Load(cfg, d').Some? ==>
            Load(cfg, d').value.core == s.core || Load(cfg, d').value.core == PruneCore(s.core, pruneDay))
      && (r.Ok? <==> Harmless(fault) && !HasArchive(d, month))
      && (r.Ok? ==> Load(cfg, d').Some? && Load(cfg, d').value.core == PruneCore(s.core, pruneDay) && HasArchive(d', month))
      && (Harmless(fault) && HasArchive(d, month) ==> Load(cfg, d') == None)
  {
    hide Sound, Agrees, Bodies, Prune, Replay, Load, Admissible, Rotate;
    var memory := s.(core := PruneCore(s.core, pruneDay));
    var b := CheckpointBody(eventDay, Checkpointed);
    JournalPresent(cfg, d);
    if CheckpointIo(fault) != Fine {
      FailedCheckpoint(cfg, d, s, pruneDay, eventDay, CheckpointIo(fault));
    } else {
      CheckpointStep(cfg, d, s, pruneDay, eventDay);
      var (d1, closed) := Append(cfg, d, memory, b, Fine);
      var s1 := Load(cfg, d1).value;
      AtHistoryEnd(cfg, d1);
      var d2 := d1.(snapshot := SnapshotOf(cfg, closed.value));
      CoveredJournalRefused(cfg, d1, s1, d2.snapshot);
      RefusedSound(cfg, d1, d2);
      JournalPresent(cfg, d1);
      if LeavesCoveredJournal(fault) {
        HalfRotation(cfg, d1, s1, pruneDay, eventDay, month, fault);
        if !fault.SnapshotFails? {
          RefusedSound(cfg, d1, Rotate(cfg, d2, eventDay, month, fault).0);
        }
      } else if !fault.SnapshotFails? {
        FreshRotation(cfg, d1, s1, pruneDay, eventDay, month, fault);
      }
    }
  }

  /** A second compaction in a month: the first succeeds, the second is refused and
      leaves a ledger that refuses to load. */
  lemma SecondCompactionRefuses(cfg: Config, d: Disk, pruneDay: Day, eventDay: Day, laterPruneDay: Day,
                                laterEventDay: Day, month: Month)
    requires Sound(cfg, d) && Load(cfg, d).Some? && !HasArchive(d, month)
    ensures var (d1, first) := CompactOp(cfg, d, pruneDay, eventDay, month, NoFault);
      var (d2, second) := CompactOp(cfg, d1, laterPruneDay, laterEventDay, month, NoFault);
      && first.Ok? && Load(cfg, d1).Some?
      && second.Err? && Load(cfg, d2) == None
  {
    hide Sound, Load, CompactOp, Prune, HasArchive;
    CompactOutcome(cfg, d, Load(cfg, d).value, pruneDay, eventDay, month, NoFault);
    var (d1, first) := CompactOp(cfg, d, pruneDay, eventDay, month, NoFault);
    assert first.Ok? && HasArchive(d1, month);
    CompactOutcome(cfg, d1, Load(cfg, d1).value, laterPruneDay, laterEventDay, month, NoFault);
    var (d2, second) := CompactOp(cfg, d1, laterPruneDay, laterEventDay, month, NoFault);
    assert !second.Ok?;
    assert Load(cfg, d2) == None;
  }
}
