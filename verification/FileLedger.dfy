/** The ledger as the program runs it: a mutable state rebuilt from the files
    under the lock, and methods that loop over it, append to the journal and
    rotate it. Each method is held to the function that specifies it. */
module FileLedgers {
  import opened Basics
  import opened Days
  import opened LedgerModel
  import opened LedgerDisk

  /** The state dictionary of one operation. */
  class LedgerState {
    var totals: Totals
    var live: LiveTable
    var idem: Idempotency
    var blocked: bool
    var lastSequence: nat
    var lastDigest: Digest

    ghost function CoreValue(): Core
      reads this
    {
      Core(totals, live, idem, blocked)
    }

    ghost function Value(): State
      reads this
    {
      State(CoreValue(), lastSequence, lastDigest)
    }

    constructor (p: Snapshot)
      ensures Value() == SnapshotState(p)
    {
      totals, live, idem, blocked := p.core.totals, p.core.live, p.core.idem, p.core.blocked;
      lastSequence, lastDigest := p.sequence, p.digest;
    }

    method AddTotals(b: Body)
      modifies this`totals
      ensures totals == LedgerModel.AddTotals(old(totals), b)
    {
      hide ScopesOf;
      var scopes := EventScopes(b);
      var start := if b.day in totals then totals[b.day] else map[];
      assert AddScopes(start, scopes[..0], Actual(b)) == start;
      hide AddScopes;
      var dayTotals := start;
      for i := 0 to |scopes|
        invariant totals == old(totals)
        invariant dayTotals == AddScopes(start, scopes[..i], Actual(b))
      {
        var current := if scopes[i] in dayTotals then dayTotals[scopes[i]] else Usage(0, 0);
        var bumped := dayTotals[scopes[i] := Usage(current.calls + b.actualCalls, current.micro + b.actualMicro)];
        assert bumped == Bump(dayTotals, scopes[i], Actual(b));
        AddScopesGrows(start, scopes, i, Actual(b));
        dayTotals := bumped;
      }
      assert scopes[..|scopes|] == scopes;
      assert dayTotals == AddScopes(start, EventScopes(b), Actual(b));
      totals := totals[b.day := dayTotals];
    }

    method RemoveIdempotency(record: Body)
      modifies this`idem
      ensures idem == Drop(old(idem), record.day, record.key)
    {
      if record.day in idem {
        var bucket := idem[record.day] - {record.key};
        if bucket == map[] {
          idem := idem - {record.day};
        } else {
          idem := idem[record.day := bucket];
        }
      }
    }

    method SetIdempotency(record: Body, m: Marker)
      modifies this`idem
      ensures idem == Put(old(idem), record.day, record.key, m)
    {
      var bucket := if record.day in idem then idem[record.day] else map[];
      idem := idem[record.day := bucket[record.key := m]];
    }

    /** Applies an event in place; when it reports failure the state is discarded. */
    method ApplyEvent(b: Body) returns (ok: bool)
      modifies this
      ensures ok <==> Step(old(CoreValue()), b).Some?
      ensures ok ==> CoreValue() == Step(old(CoreValue()), b).value
      ensures lastSequence == old(lastSequence) && lastDigest == old(lastDigest)
    {
      match b.kind {
      case RESERVE =>
        if b.rid in live || (b.day in idem && b.key in idem[b.day]) {
          return false;
        }
        live := live[b.rid := b];
        SetIdempotency(b, Marker(Live, b.rid));
      case RELEASE =>
        if b.rid !in live {
          return false;
        }
        var record := live[b.rid];
        live := live - {b.rid};
        RemoveIdempotency(record);
      case SETTLE =>
        if b.rid !in live {
          return false;
        }
        var record := live[b.rid];
        live := live - {b.rid};
        AddTotals(b);
        if b.outcome == ProviderFailure && b.actualMicro == 0 {
          RemoveIdempotency(record);
        } else {
          SetIdempotency(record, Marker(Closed, b.rid));
        }
      case SETTLE_UNKNOWN =>
        if b.rid !in live {
          return false;
        }
        var record := live[b.rid];
        live := live - {b.rid};
        AddTotals(b);
        SetIdempotency(record, Marker(Unknown, b.rid));
      case OVERAGE =>
        blocked := true;
      case RECOVERY =>
        if b.rid !in live {
          return false;
        }
        var record := live[b.rid];
        live := live - {b.rid};
        if b.outcome == Released {
          RemoveIdempotency(record);
        } else if b.outcome == Settled {
          AddTotals(b);
          SetIdempotency(record, Marker(Recovered, b.rid));
        } else {
          return false;
        }
      case CHECKPOINT =>
      }
      return true;
    }

    /** Settled totals plus every live reservation of the day that names the scope. */
    method UsageForScope(day: Day, s: Scope) returns (used: Usage)
      ensures used == LedgerModel.UsageForScope(CoreValue(), day, s)
    {
      hide ScopesOf;
      used := if day in totals && s in totals[day] then totals[day][s] else Usage(0, 0);
      ghost var settled := used;
      var rest := live;
      while rest != map[]
        invariant rest.Keys <= live.Keys && forall r :: r in rest ==> rest[r] == live[r]
        invariant Plus(used, LiveUsage(rest, day, s)) == Plus(settled, LiveUsage(live, day, s))
        decreases |rest|
      {
        var r :| r in rest;
        var record := rest[r];
        LiveUsageTake(rest, r, day, s);
        ghost var before := used;
        if record.day == day && s in EventScopes(record) {
          used := Usage(used.calls + record.reservedCalls, used.micro + record.reservedMicro);
        }
        rest := rest - {r};
        MovesClaim(before, Claim(record, day, s), LiveUsage(rest, day, s), used);
      }
      NothingLive(day, s);
      PlusZero(used);
    }

    /** Drops the terminal markers of earlier days, bucket by bucket. */
    method PruneStaleIdempotency(day: Day)
      modifies this`idem
      ensures idem == Prune(old(idem), day)
    {
      var start := idem;
      var days := idem.Keys;
      while days != {}
        invariant days <= start.Keys
        invariant forall d :: d in idem <==> d in start && (d in days || Le(day, d) || LiveOnly(start[d]) != map[])
        invariant forall d :: d in idem ==> idem[d] == if d in days || Le(day, d) then start[d] else LiveOnly(start[d])
        decreases |days|
      {
        var d :| d in days;
        days := days - {d};
        if !Le(day, d) {
          var bucket := KeepLive(idem[d]);
          if bucket == map[] {
            idem := idem - {d};
          } else {
            idem := idem[d := bucket];
          }
        }
      }
      PrunedMap(start, idem, day);
    }
  }

  lemma AddScopesGrows(start: map<Scope, Usage>, scopes: seq<Scope>, i: nat, amount: Usage)
    requires i < |scopes|
    ensures AddScopes(start, scopes[..i + 1], amount) == Bump(AddScopes(start, scopes[..i], amount), scopes[i], amount)
  {
    hide Bump;
    AppendParts(scopes[..i], scopes[i]);
    assert scopes[..i + 1] == scopes[..i] + [scopes[i]];
  }

  lemma PrunedMap(start: Idempotency, pruned: Idempotency, day: Day)
    requires forall d :: d in pruned <==> d in start && (Le(day, d) || LiveOnly(start[d]) != map[])
    requires forall d :: d in pruned ==> pruned[d] == if Le(day, d) then start[d] else LiveOnly(start[d])
    ensures pruned == Prune(start, day)
  {
  }

  lemma MovesClaim(before: Usage, claim: Usage, rest: Usage, used: Usage)
    requires used == Plus(before, claim)
    ensures Plus(before, Plus(claim, rest)) == Plus(used, rest)
  {
  }

  lemma NothingLive(day: Day, s: Scope)
    ensures LiveUsage(map[], day, s) == ZERO
  {
    assert Claims(map[], day, s) == map[];
  }

  /** Removes the markers that are not live, one by one. */
  method KeepLive(bucket: map<Key, Marker>) returns (kept: map<Key, Marker>)
    ensures kept == LiveOnly(bucket)
  {
    kept := bucket;
    var keys := bucket.Keys;
    while keys != {}
      invariant keys <= bucket.Keys
      invariant forall k :: k in kept <==> k in bucket && (k in keys || bucket[k].status == Live)
      invariant forall k :: k in kept ==> kept[k] == bucket[k]
      decreases |keys|
    {
      var k :| k in keys;
      keys := keys - {k};
      if bucket[k].status != Live {
        kept := kept - {k};
      }
    }
  }

  /** One ledger directory. `history` records every line ever written whole. */
  class FileLedger {
    const cfg: Config
    var snapshot: Snapshot
    var journal: Option<Journal>
    var archives: seq<Archive>
    ghost var history: seq<Event>

    ghost function Files(): Disk
      reads this
    {
      Disk(snapshot, journal, archives, history)
    }

    constructor Create(cfg: Config)
      ensures this.cfg == cfg && Files() == InitialDisk(cfg)
    {
      this.cfg := cfg;
      snapshot := Snapshot(cfg.domain, cfg.timezone, cfg.priceCards, 0, Genesis, EMPTY_CORE);
      journal := Some(Journal([], false));
      archives := [];
      history := [];
    }

    /** The explicit deployment step: it refuses a directory where any of the
        ledger's files is already present, and never overwrites one. */
    static method Initialize(cfg: Config, lockPresent: bool, snapshotPresent: bool, journalPresent: bool)
      returns (r: Option<FileLedger>)
      ensures r.Some? <==> !lockPresent && !snapshotPresent && !journalPresent
      ensures r.Some? ==> fresh(r.value) && r.value.cfg == cfg && r.value.Files() == InitialDisk(cfg)
    {
      if lockPresent || snapshotPresent || journalPresent {
        return None;
      }
      var ledger := new FileLedger.Create(cfg);
      return Some(ledger);
    }

    /** Replays the journal onto the snapshot, checking each line against the
        sequence number and the digest that the line before it left. */
    method LoadState() returns (loaded: Option<LedgerState>)
      ensures loaded.Some? <==> Load(cfg, Files()).Some?
      ensures loaded.Some? ==> fresh(loaded.value) && loaded.value.Value() == Load(cfg, Files()).value
    {
      if !SnapshotFits(cfg, snapshot) || journal.None? || journal.value.torn {
        return None;
      }
      var state := new LedgerState(snapshot);
      var events := journal.value.events;
      var expectedSequence, previousDigest := state.lastSequence + 1, state.lastDigest;
      for i := 0 to |events|
        invariant expectedSequence == state.lastSequence + 1 && previousDigest == state.lastDigest
        invariant Replay(cfg, SnapshotState(snapshot), events[..i]) == Some(state.Value())
      {
        var event := events[i];
        AppendParts(events[..i], event);
        assert events[..i + 1] == events[..i] + [event];
        var accepted := event.content.sequence == expectedSequence && event.content.previous == previousDigest &&
          event.digest == Sha(event.content) &&
          event.content.domain == cfg.domain && event.content.timezone == cfg.timezone;
        if accepted {
          accepted := state.ApplyEvent(event.content.body);
        }
        if !accepted {
          assert Replay(cfg, SnapshotState(snapshot), events[..i + 1]) == None;
          RefusedPrefix(cfg, SnapshotState(snapshot), events, i + 1);
          return None;
        }
        expectedSequence, previousDigest := expectedSequence + 1, event.digest;
        state.lastSequence, state.lastDigest := event.content.sequence, event.digest;
      }
      assert events[..|events|] == events;
      return Some(state);
    }

    /** Writes the line, then applies the event. */
    method AppendEvent(state: LedgerState, b: Body, io: Io) returns (ok: bool)
      requires journal.Some?
      modifies this`journal, this`history, state
      ensures journal.Some?
      ensures Files() == Append(cfg, old(Files()), old(state.Value()), b, io).0
      ensures ok <==> Append(cfg, old(Files()), old(state.Value()), b, io).1.Ok?
      ensures ok ==> Ok(state.Value()) == Append(cfg, old(Files()), old(state.Value()), b, io).1
      ensures !ok ==> Append(cfg, old(Files()), old(state.Value()), b, io).1 == Err(LedgerUnavailable)
    {
      var content := Content(state.lastSequence + 1, state.lastDigest, cfg.domain, cfg.timezone, b);
      var event := Event(content, Sha(content));
      if io == TornLine {
        journal := Some(journal.value.(torn := true));
      } else if io != NotWritten {
        journal := Some(journal.value.(events := journal.value.events + [event]));
        history := history + [event];
      }
      if io != Fine {
        return false;
      }
      ok := state.ApplyEvent(b);
      if ok {
        state.lastSequence, state.lastDigest := event.content.sequence, event.digest;
      }
    }

    method Reserve(spec: Spec, today: Day, newId: Rid, io: Io) returns (r: Result<Reservation, Error>)
      requires ValidSpec(spec)
      modifies this`journal, this`history
      ensures (Files(), r) == ReserveOp(cfg, old(Files()), spec, today, newId, io)
    {
      hide Load, ScopesOf, LedgerModel.UsageForScope, SpecScopes, Append;
      if !SpecFits(cfg, spec) {
        return Err(LedgerUnavailable);
      }
      var loaded := LoadState();
      if loaded.None? {
        return Err(LedgerUnavailable);
      }
      var state := loaded.value;
      if state.blocked {
        return Err(BudgetDenied);
      }
      if today in state.idem && spec.key in state.idem[today] {
        return Err(IdempotencyConflict(state.idem[today][spec.key].status));
      }
      var scopes := SpecScopes(spec);
      for i := 0 to |scopes|
        invariant ScopeRefusal(cfg, state.CoreValue(), today, spec.micro, scopes)
               == ScopeRefusal(cfg, state.CoreValue(), today, spec.micro, scopes[i..])
        invariant Files() == old(Files()) && state.Value() == Load(cfg, old(Files())).value
      {
        if scopes[i] !in cfg.caps {
          return Err(LedgerUnavailable);
        }
        var cap := cfg.caps[scopes[i]];
        var used := state.UsageForScope(today, scopes[i]);
        if used.calls + 1 > cap.calls || used.micro + spec.micro > cap.micro {
          return Err(BudgetDenied);
        }
      }
      assert journal.Some? by { Loadable(cfg, Files()); }
      var ok := AppendEvent(state, ReserveBody(spec, today, newId), io);
      if !ok {
        return Err(LedgerUnavailable);
      }
      return Ok(Reservation(newId, today, 1, spec.micro, scopes, spec.key));
    }

    method Settle(rid: Rid, actual: int, inputTokens: int, outputTokens: int, outcome: Outcome, io: Io, overageIo: Io)
      returns (r: Result<(), Error>)
      modifies this`journal, this`history
      ensures (Files(), r) == SettleOp(cfg, old(Files()), rid, actual, inputTokens, outputTokens, outcome, io, overageIo)
    {
      hide Load, AppendSettlement, SettleBody;
      if actual < 0 || inputTokens < 0 || outputTokens < 0 {
        return Err(LedgerUnavailable);
      }
      var loaded := LoadState();
      if loaded.None? || rid !in loaded.value.live {
        return Err(LedgerUnavailable);
      }
      assert journal.Some? by { Loadable(cfg, Files()); }
      var record := SettleBody(loaded.value.live[rid], actual, inputTokens, outputTokens, outcome);
      assert SettleOp(cfg, Files(), rid, actual, inputTokens, outputTokens, outcome, io, overageIo)
          == AppendSettlement(cfg, Files(), loaded.value.Value(), record, io, overageIo);
      r := RecordSettlement(loaded.value, record, io, overageIo);
    }

    method RecordSettlement(state: LedgerState, record: Body, io: Io, overageIo: Io) returns (r: Result<(), Error>)
      requires journal.Some?
      modifies this`journal, this`history, state
      ensures (Files(), r) == AppendSettlement(cfg, old(Files()), old(state.Value()), record, io, overageIo)
    {
      hide Append, ScopesOf;
      var settled := AppendEvent(state, record, io);
      if !settled {
        return Err(LedgerUnavailable);
      }
      if record.actualMicro > record.reservedMicro {
        var blocked := AppendEvent(state, OverageBody(record), overageIo);
        if !blocked {
          return Err(LedgerUnavailable);
        }
      }
      return Ok(());
    }

    /** The shared shape of release, settle_unknown and recover. */
    method Close(rid: Rid, how: Closing, io: Io) returns (r: Result<(), Error>)
      modifies this`journal, this`history
      ensures (Files(), r) == CloseWith(cfg, old(Files()), rid, io, how)
    {
      hide Load, Append;
      var loaded := LoadState();
      if loaded.None? || rid !in loaded.value.live {
        return Err(LedgerUnavailable);
      }
      assert journal.Some? by { Loadable(cfg, Files()); }
      var ok := AppendEvent(loaded.value, ClosingBody(loaded.value.live[rid], how), io);
      return if ok then Ok(()) else Err(LedgerUnavailable);
    }

    method Release(rid: Rid, io: Io) returns (r: Result<(), Error>)
      modifies this`journal, this`history
      ensures (Files(), r) == ReleaseOp(cfg, old(Files()), rid, io)
    {
      r := Close(rid, AsReleased, io);
    }

    method SettleUnknown(rid: Rid, io: Io) returns (r: Result<(), Error>)
      modifies this`journal, this`history
      ensures (Files(), r) == SettleUnknownOp(cfg, old(Files()), rid, io)
    {
      r := Close(rid, AsUnknown, io);
    }

    method Recover(rid: Rid, evidenceOk: bool, actual: Option<int>, release: bool, io: Io) returns (r: Result<(), Error>)
      modifies this`journal, this`history
      ensures (Files(), r) == RecoverOp(cfg, old(Files()), rid, evidenceOk, actual, release, io)
    {
      if !evidenceOk || release == actual.Some? {
        return Err(LedgerUnavailable);
      }
      if release {
        r := Close(rid, AsRecovered(None), io);
      } else if actual.value < 0 {
        return Err(LedgerUnavailable);
      } else {
        r := Close(rid, AsRecovered(Some(actual.value as nat)), io);
      }
    }

    method RemainingBudget(scope: Scope, today: Day) returns (r: Result<Remaining, Error>)
      ensures r == RemainingOp(cfg, Files(), scope, today)
    {
      hide Load, LedgerModel.UsageForScope;
      if scope !in cfg.caps {
        return Err(LedgerUnavailable);
      }
      var loaded := LoadState();
      if loaded.None? {
        return Err(LedgerUnavailable);
      }
      var used := loaded.value.UsageForScope(today, scope);
      var cap := cfg.caps[scope];
      return Ok(Remaining(scope, today, FlooredDifference(cap.calls, used.calls), FlooredDifference(cap.micro, used.micro), cap.calls, cap.micro));
    }

    /** Checkpoint, snapshot, archive, rotate and reopen, in that order. */
    method Compact(pruneDay: Day, eventDay: Day, month: Month, fault: CompactFault) returns (r: Result<Month, Error>)
      modifies this`snapshot, this`journal, this`archives, this`history
      ensures (Files(), r) == CompactOp(cfg, old(Files()), pruneDay, eventDay, month, fault)
    {
      hide Load, Prune, Append, Rotate;
      var loaded := LoadState();
      if loaded.None? {
        return Err(LedgerUnavailable);
      }
      assert journal.Some? by { Loadable(cfg, Files()); }
      var state := loaded.value;
      state.PruneStaleIdempotency(pruneDay);
      var ok := AppendEvent(state, CheckpointBody(eventDay, Checkpointed), CheckpointIo(fault));
      if !ok || fault == SnapshotFails(false) {
        return Err(LedgerUnavailable);
      }
      snapshot := Snapshot(cfg.domain, cfg.timezone, cfg.priceCards, state.lastSequence, state.lastDigest,
                           Core(state.totals, state.live, state.idem, state.blocked));
      if fault.SnapshotFails? || HasArchive(Disk(snapshot, journal, archives, []), month) {
        return Err(LedgerUnavailable);
      }
      r := RotateJournal(eventDay, month, fault);
    }

    method RotateJournal(eventDay: Day, month: Month, fault: CompactFault) returns (r: Result<Month, Error>)
      requires journal.Some?
      modifies this`journal, this`archives, this`history
      ensures (Files(), r) == Rotate(cfg, old(Files()), eventDay, month, fault)
    {
      hide Load, Append;
      if fault == ArchiveFails(false) {
        return Err(LedgerUnavailable);
      }
      if fault == ArchiveFails(true) {
        archives := archives + [Archive(month, [])];
        return Err(LedgerUnavailable);
      }
      archives := archives + [Archive(month, journal.value.events)];
      if fault.RotateFails? && !fault.moved {
        return Err(LedgerUnavailable);
      }
      if fault.RotateFails? && !fault.reopened {
        journal := None;
        return Err(LedgerUnavailable);
      }
      journal := Some(Journal([], false));
      if fault.RotateFails? {
        return Err(LedgerUnavailable);
      }
      var current := LoadState();
      if current.None? {
        return Err(LedgerUnavailable);
      }
      var ok := AppendEvent(current.value, CheckpointBody(eventDay, JournalOpened), OpeningIo(fault));
      return if ok then Ok(month) else Err(LedgerUnavailable);
    }
  }

  lemma Loadable(cfg: Config, d: Disk)
    requires Load(cfg, d).Some?
    ensures d.journal.Some?
  {
  }

  /** A refused line makes the whole journal refused. */
  lemma {:induction false} RefusedPrefix(cfg: Config, s: State, events: seq<Event>, n: nat)
    requires n <= |events| && Replay(cfg, s, events[..n]) == None
    ensures Replay(cfg, s, events) == None
  {
    if n < |events| {
      assert Init(events)[..n] == events[..n];
      RefusedPrefix(cfg, s, Init(events), n);
    } else {
      assert events[..n] == events;
    }
  }
}
