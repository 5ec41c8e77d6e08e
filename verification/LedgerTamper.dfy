/** What a load checks, line by line, and the changes to a journal that it sees. */
module LedgerTamper {
  import opened Basics
  import opened LedgerModel
  import opened LedgerDisk

  /** The i-th line continues the one before it, carries its own digest, and belongs
      to this ledger. */
  predicate LineFits(cfg: Config, p: Snapshot, events: seq<Event>, i: int) {
    0 <= i < |events| &&
    var e := events[i];
    && e.content.sequence == p.sequence + 1 + i
    && e.content.previous == (if i == 0 then p.digest else events[i - 1].digest)
    && e.digest == Sha(e.content)
    && e.content.domain == cfg.domain && e.content.timezone == cfg.timezone
  }

  predicate LinesFit(cfg: Config, p: Snapshot, events: seq<Event>) {
    forall i :: 0 <= i < |events| ==> LineFits(cfg, p, events, i)
  }

  /** What the events of the lines make of a state, in order, if each is accepted. */
  function CoreAfter(c: Core, events: seq<Event>): Option<Core> {
    if events == [] then Some(c)
    else
      match CoreAfter(c, Init(events))
      case None => None
      case Some(before) => Step(before, Last(events).content.body)
  }

  lemma LinesFitOn(cfg: Config, p: Snapshot, events: seq<Event>)
    requires events != []
    ensures LinesFit(cfg, p, events) <==> LinesFit(cfg, p, Init(events)) && LineFits(cfg, p, events, |events| - 1)
  {
    forall i | 0 <= i < |Init(events)|
      ensures LineFits(cfg, p, Init(events), i) <==> LineFits(cfg, p, events, i)
    {
    }
  }

  lemma {:induction false} ReplaysExactly(cfg: Config, p: Snapshot, events: seq<Event>)
    ensures Replay(cfg, SnapshotState(p), events)
         == if LinesFit(cfg, p, events) && CoreAfter(p.core, events).Some?
            then Some(State(CoreAfter(p.core, events).value, p.sequence + |events|,
                            if events == [] then p.digest else Last(events).digest))
            else None
  {
    hide Step, LinesFit;
    if events == [] {
      assert LinesFit(cfg, p, events) by { NoLines(cfg, p, events); }
    } else {
      LinesFitOn(cfg, p, events);
      ReplaysExactly(cfg, p, Init(events));
    }
  }

  lemma NoLines(cfg: Config, p: Snapshot, events: seq<Event>)
    requires events == []
    ensures LinesFit(cfg, p, events)
  {
  }

  /** A ledger loads if and only if its snapshot was made for this domain, timezone and
      price cards, its journal is there and not torn, every line fits, and the state
      accepts every event in turn; and what it loads is what those events make. */
  lemma LoadsExactly(cfg: Config, d: Disk)
    ensures Load(cfg, d).Some? <==>
      && d.snapshot.domain == cfg.domain && d.snapshot.timezone == cfg.timezone && d.snapshot.priceCards == cfg.priceCards
      && d.journal.Some? && !d.journal.value.torn
      && LinesFit(cfg, d.snapshot, d.journal.value.events)
      && CoreAfter(d.snapshot.core, d.journal.value.events).Some?
    ensures Load(cfg, d).Some? ==>
      var events := d.journal.value.events;
      Load(cfg, d).value == State(CoreAfter(d.snapshot.core, events).value, d.snapshot.sequence + |events|,
                                  if events == [] then d.snapshot.digest else Last(events).digest)
  {
    hide Replay, LinesFit, CoreAfter;
    if d.journal.Some? {
      ReplaysExactly(cfg, d.snapshot, d.journal.value.events);
    }
  }

  function WithJournal(d: Disk, events: seq<Event>): Disk {
    d.(journal := Some(Journal(events, false)))
  }

  /** A line that was changed is noticed: any change, if another line follows it, and
      at the end every change that does not forge the line's own digest. */
  lemma ChangedLineRefused(cfg: Config, d: Disk, i: nat, e: Event)
    requires Load(cfg, d).Some? && i < |d.journal.value.events| && e != d.journal.value.events[i]
    requires i + 1 < |d.journal.value.events| || e.digest != Sha(e.content)
    ensures Load(cfg, WithJournal(d, d.journal.value.events[i := e])).None?
  {
    var events := d.journal.value.events;
    var changed := events[i := e];
    LoadsExactly(cfg, d);
    LoadsExactly(cfg, WithJournal(d, changed));
    hide Load, CoreAfter;
    assert LineFits(cfg, d.snapshot, events, i);
    if i + 1 < |events| {
      assert LineFits(cfg, d.snapshot, events, i + 1);
      assert !LineFits(cfg, d.snapshot, changed, i) || !LineFits(cfg, d.snapshot, changed, i + 1);
    } else {
      assert !LineFits(cfg, d.snapshot, changed, i);
    }
  }

  /** So is a line that is missing, unless it was the last, and one that was added
      before another. */
  lemma MissingOrAddedLineRefused(cfg: Config, d: Disk, i: nat, e: Event)
    requires Load(cfg, d).Some? && i < |d.journal.value.events|
    ensures var events := d.journal.value.events;
      && (i + 1 < |events| ==> Load(cfg, WithJournal(d, events[..i] + events[i + 1..])).None?)
      && Load(cfg, WithJournal(d, events[..i] + [e] + events[i..])).None?
  {
    var events := d.journal.value.events;
    var less, more := events[..i] + events[i + 1..], events[..i] + [e] + events[i..];
    LoadsExactly(cfg, d);
    LoadsExactly(cfg, WithJournal(d, less));
    LoadsExactly(cfg, WithJournal(d, more));
    hide Load, CoreAfter;
    if i + 1 < |events| {
      assert LineFits(cfg, d.snapshot, events, i + 1) && less[i] == events[i + 1];
      assert !LineFits(cfg, d.snapshot, less, i);
    }
    assert LineFits(cfg, d.snapshot, events, i) && more[i + 1] == events[i];
    assert !LineFits(cfg, d.snapshot, more, i + 1);
  }

  /** And a line of another domain or timezone, wherever it stands. */
  lemma ForeignLineRefused(cfg: Config, d: Disk, i: nat)
    requires d.journal.Some? && i < |d.journal.value.events|
    requires var e := d.journal.value.events[i]; e.content.domain != cfg.domain || e.content.timezone != cfg.timezone
    ensures Load(cfg, d).None?
  {
    LoadsExactly(cfg, d);
    hide Load, CoreAfter;
    assert !LineFits(cfg, d.snapshot, d.journal.value.events, i);
  }

  /** Which events a state accepts: a reservation under an id that is not live and a
      key unused that day, a closing of a live reservation that says what a closing of
      its kind may say, and anything about no reservation. */
  lemma AcceptedExactly(c: Core, b: Body)
    ensures Step(c, b).Some? <==>
      match b.kind
      case RESERVE => b.rid !in c.live && (b.day in c.idem ==> b.key !in c.idem[b.day])
      case RECOVERY => b.rid in c.live && (b.outcome == Released || b.outcome == Settled)
      case OVERAGE => true
      case CHECKPOINT => true
      case _ => b.rid in c.live
  {
    hide AddTotals, Put, Drop;
  }
}
