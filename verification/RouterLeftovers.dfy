/** Which reservations a call leaves open, exactly: what a failing write can do to
    a reservation on its way in, and on its way out. */
module RouterLeftovers {
  import opened Basics
  import opened Days
  import opened LedgerModel
  import opened LedgerHistory
  import opened LedgerDisk
  import opened LedgerSafety
  import opened LedgerRuns
  import opened LedgerCaps
  import opened LedgerTheorems
  import opened LedgerAnswers
  import opened RouterModel
  import opened RouterProtocol
  import opened RouterRuns

  ghost predicate IsOpen(d: Disk, q: Rid) {
    StatusOf(Bodies(d.history), q) == Some(Live)
  }

  // ----- one line ---------------------------------------------------------------------

  /** However an append ends, its event is at the end of the history or nowhere. */
  lemma LineOrNothing(cfg: Config, d: Disk, s: State, b: Body, io: Io)
    requires d.journal.Some?
    ensures var (d', r) := Append(cfg, d, s, b, io);
      && d'.journal.Some?
      && (if d'.history == d.history then true else Bodies(d'.history) == Bodies(d.history) + [b])
      && d.history <= d'.history
      && (r.Ok? ==> d'.history != d.history)
      && (d'.history != d.history <==> io == Fine || io == WrittenButFailed)
  {
    hide Step, Bodies;
    BodiesAppend(d.history, MakeEvent(cfg, s, b));
  }

  /** A terminal line closes its own reservation if it reaches the disk, and
      touches no other. */
  lemma TerminalLine(cfg: Config, d: Disk, s: State, b: Body, io: Io, q: Rid)
    requires d.journal.Some? && Terminal(b)
    ensures var d' := Append(cfg, d, s, b, io).0;
      IsOpen(d', q) <==> IsOpen(d, q) && !(q == b.rid && d'.history != d.history)
  {
    hide Append, Bodies, StatusOf;
    LineOrNothing(cfg, d, s, b, io);
    ExtendedStatus(Bodies(d.history), b, q);
  }

  lemma QuietLine(cfg: Config, d: Disk, s: State, b: Body, io: Io, q: Rid)
    requires d.journal.Some? && Quiet(b)
    ensures IsOpen(Append(cfg, d, s, b, io).0, q) <==> IsOpen(d, q)
  {
    hide Append, Bodies, StatusOf;
    LineOrNothing(cfg, d, s, b, io);
    ExtendedStatus(Bodies(d.history), b, q);
  }

  // ----- the ledger operations of a call ------------------------------------------------

  /** An attempt to reserve opens its own id exactly when its line reaches the
      disk, whatever the caller is told; a denied one writes nothing. */
  lemma OpeningOpens(cfg: Config, w: World, req: Request, d: Disk, c: Candidate, micro: nat, q: Rid)
    ensures var (d', r) := OpenOp(cfg, w, req, d, c, micro);
      && (IsOpen(d', q) <==> IsOpen(d, q) || (q == w.newId(c) && d'.history != d.history))
      && (r.Ok? ==> d'.history != d.history && r.value.rid == w.newId(c))
      && (r.Err? && RefusedAs(r.error) == Denied ==> d'.history == d.history)
  {
    hide Append, Bodies, StatusOf, Load, Refusal;
    var spec := SpecFor(cfg, req, c, micro);
    if SpecFits(cfg, spec) && Load(cfg, d).Some? && Refusal(cfg, Load(cfg, d).value.core, spec, w.today(c)).None? {
      JournalPresent(cfg, d);
      var b := ReserveBody(spec, w.today(c), w.newId(c));
      LineOrNothing(cfg, d, Load(cfg, d).value, b, w.reserveIo(c));
      ExtendedStatus(Bodies(d.history), b, q);
      FailedAppend(cfg, d, Load(cfg, d).value, b, w.reserveIo(c));
    }
  }

  lemma FailedAppend(cfg: Config, d: Disk, s: State, b: Body, io: Io)
    requires d.journal.Some?
    ensures Append(cfg, d, s, b, io).1.Err? ==> Append(cfg, d, s, b, io).1.error == LedgerUnavailable
  {
    hide Step;
  }

  /** An attempt to close closes its own reservation exactly when its line reaches
      the disk; a recorded closure reached it. */
  lemma ClosingCloses(cfg: Config, d: Disk, rid: Rid, closure: Closure, io: Io, overageIo: Io, q: Rid)
    requires Sound(cfg, d)
    ensures var (d', r) := CloseOp(cfg, d, rid, closure, io, overageIo);
      && (IsOpen(d', q) <==> IsOpen(d, q) && !(q == rid && d'.history != d.history))
      && (r.Ok? ==> d'.history != d.history)
  {
    hide Append, IsOpen, Load, Sound, AppendSettlement;
    if Load(cfg, d).Some? {
      JournalPresent(cfg, d);
      LiveNamesItself(cfg, d, rid);
      var s := Load(cfg, d).value;
      if rid in s.core.live {
        match closure
        case Freed =>
          TerminalLine(cfg, d, s, ReleaseBody(s.core.live[rid]), io, q);
          LineOrNothing(cfg, d, s, ReleaseBody(s.core.live[rid]), io);
        case LeftUnknown =>
          TerminalLine(cfg, d, s, UnknownBody(s.core.live[rid]), io, q);
          LineOrNothing(cfg, d, s, UnknownBody(s.core.live[rid]), io);
        case ChargedFailure(actual) =>
          if actual >= 0 {
            SettlementCloses(cfg, d, s, SettleBody(s.core.live[rid], actual, 0, 0, ProviderFailure), io, overageIo, q);
          }
        case ChargedSuccess(actual, inputTokens, outputTokens) =>
          if actual >= 0 {
            SettlementCloses(cfg, d, s, SettleBody(s.core.live[rid], actual, inputTokens, outputTokens, Success), io, overageIo, q);
          }
      }
    }
  }

  lemma SettlementCloses(cfg: Config, d: Disk, s: State, b: Body, io: Io, overageIo: Io, q: Rid)
    requires d.journal.Some? && b.kind.SETTLE?
    ensures var (d', r) := AppendSettlement(cfg, d, s, b, io, overageIo);
      && (IsOpen(d', q) <==> IsOpen(d, q) && !(q == b.rid && d'.history != d.history))
      && (r.Ok? ==> d'.history != d.history)
  {
    hide Append, IsOpen;
    TerminalLine(cfg, d, s, b, io, q);
    LineOrNothing(cfg, d, s, b, io);
    var (d1, settled) := Append(cfg, d, s, b, io);
    if settled.Ok? && b.actualMicro > b.reservedMicro {
      QuietLine(cfg, d1, settled.value, OverageBody(b), overageIo, q);
      LineOrNothing(cfg, d1, settled.value, OverageBody(b), overageIo);
    }
  }

  lemma ClosingSound(cfg: Config, d: Disk, rid: Rid, closure: Closure, io: Io, overageIo: Io)
    requires Sound(cfg, d)
    ensures Sound(cfg, CloseOp(cfg, d, rid, closure, io, overageIo).0)
  {
    hide Sound, SettleOp, CloseWith;
    match closure
    case Freed => CloseSound(cfg, d, rid, io, AsReleased);
    case LeftUnknown => CloseSound(cfg, d, rid, io, AsUnknown);
    case ChargedFailure(actual) => SettleSound(cfg, d, rid, actual, 0, 0, ProviderFailure, io, overageIo);
    case ChargedSuccess(actual, inputTokens, outputTokens) =>
      SettleSound(cfg, d, rid, actual, inputTokens, outputTokens, Success, io, overageIo);
  }

  // ----- a call -------------------------------------------------------------------------

  /** Every id a call reserves under is new when it does. */
  ghost predicate FreshIds(cfg: Config, w: World, req: Request, start: Disk, trace: seq<Action>) {
    trace == [] ||
    (FreshIds(cfg, w, req, start, Init(trace)) &&
     (Path(cfg, w, req, start, Init(trace)).Some? && (Last(trace).Opened? || Last(trace).Refused?) ==>
        FreshId(w, Path(cfg, w, req, start, Init(trace)).value.files, Last(trace).candidate)))
  }

  ghost predicate FreshId(w: World, d: Disk, c: Candidate) {
    w.newId(c) !in OpenedIds(Bodies(d.history))
  }

  /** The last action leaves this reservation open: a refusal whose line is on the
      disk all the same, or a closure whose line is not. */
  predicate LeavesOpen(w: World, before: Disk, after: Disk, action: Action, q: Rid) {
    match action
    case FreeTry(_) => false
    case Refused(c, _) => q == w.newId(c) && after.history != before.history
    case Opened(_, rid, _) => q == rid
    case Dispatched(_, rid, _) => q == rid
    case ClosedAs(_, rid, _, _) => q == rid && after.history == before.history
  }

  /** Standing here, a call has nothing open. */
  predicate Settled(stand: Stand) {
    stand.Idle? || stand.Succeeds? || stand.EndsUnknown?
  }

  /** At any point of a call, of the reservations that it made the open ones are
      exactly those that its last action leaves open. */
  lemma {:induction false} OpenExactly(cfg: Config, w: World, req: Request, start: Disk, trace: seq<Action>, q: Rid)
    requires Sound(cfg, start) && !IsOpen(start, q)
    requires Path(cfg, w, req, start, trace).Some? && FreshIds(cfg, w, req, start, trace)
    ensures Sound(cfg, Path(cfg, w, req, start, trace).value.files)
    ensures var at := Path(cfg, w, req, start, trace).value;
      && (IsOpen(at.files, q) <==>
            trace != [] && LeavesOpen(w, Path(cfg, w, req, start, Init(trace)).value.files, at.files, Last(trace), q))
      && (Settled(at.stand) ==> !IsOpen(at.files, q))
  {
    hide Sound, IsOpen, ReserveOp, CloseOp, FreshId;
    if trace != [] {
      OpenExactly(cfg, w, req, start, Init(trace), q);
      StandAfter(cfg, w, req, start, Init(trace));
      FollowOpens(cfg, w, req, Path(cfg, w, req, start, Init(trace)).value, Last(trace), q);
    }
  }

  /** What one action does to the open reservations, from where the call stands. */
  lemma FollowOpens(cfg: Config, w: World, req: Request, at: Point, action: Action, q: Rid)
    requires Sound(cfg, at.files) && Follow(cfg, w, req, at, action).Some?
    requires action.Opened? || action.Refused? ==> FreshId(w, at.files, action.candidate)
    requires at.stand.Idle? ==> !IsOpen(at.files, q)
    requires HeldBy(at.stand).Some? ==> (IsOpen(at.files, q) <==> q == HeldBy(at.stand).value)
    ensures var next := Follow(cfg, w, req, at, action).value;
      && Sound(cfg, next.files)
      && (IsOpen(next.files, q) <==> LeavesOpen(w, at.files, next.files, action, q))
      && (Settled(next.stand) ==> !IsOpen(next.files, q))
  {
    hide Sound, IsOpen, ReserveOp, CloseOp;
    match action
    case FreeTry(_) =>
    case Refused(c, micro) =>
      OpeningOpens(cfg, w, req, at.files, c, micro, q);
      ReserveSound(cfg, at.files, SpecFor(cfg, req, c, micro), w.today(c), w.newId(c), w.reserveIo(c));
    case Opened(c, _, micro) =>
      OpeningOpens(cfg, w, req, at.files, c, micro, q);
      ReserveSound(cfg, at.files, SpecFor(cfg, req, c, micro), w.today(c), w.newId(c), w.reserveIo(c));
    case Dispatched(_, _, _) =>
    case ClosedAs(c, rid, closure, _) =>
      ClosingCloses(cfg, at.files, rid, closure, w.closeIo(c), w.overageIo(c), q);
      ClosingSound(cfg, at.files, rid, closure, w.closeIo(c), w.overageIo(c));
  }

  /** When a call has ended, a reservation it made is still open if and only if the
      call ended on a closure whose line did not reach the disk, reported as an
      unknown outcome, or on a reservation reported as failed whose line did. */
  lemma LeftOpenExactly(cfg: Config, w: World, req: Request, route: RoutePolicy, selection: Selection, start: Disk, q: Rid)
    requires Sound(cfg, start) && !IsOpen(start, q)
    requires FreshIds(cfg, w, req, start, Completed(cfg, w, req, route, selection, start).2)
    ensures var (left, r, actions) := Completed(cfg, w, req, route, selection, start);
      && Path(cfg, w, req, start, actions).Some?
      && (IsOpen(left, q) <==> actions != [] && EndsOpen(cfg, w, req, start, actions, q))
      && (IsOpen(left, q) ==>
            r == Raised(if Last(actions).Refused? then Unavailable else OutcomeIsUnknown))
  {
    hide Sound, IsOpen, Completed, Follow, FreshIds;
    var (left, r, actions) := Completed(cfg, w, req, route, selection, start);
    CompletedKeeps(cfg, w, req, route, selection, start);
    OpenExactly(cfg, w, req, start, actions, q);
    StandAfter(cfg, w, req, start, actions);
    if IsOpen(left, q) && Last(actions).Refused? {
      RefusedWithLine(cfg, w, req, start, actions);
    }
  }

  ghost predicate EndsOpen(cfg: Config, w: World, req: Request, start: Disk, actions: seq<Action>, q: Rid)
    requires actions != [] && Path(cfg, w, req, start, actions).Some?
  {
    var before, after := Path(cfg, w, req, start, Init(actions)).value.files, Path(cfg, w, req, start, actions).value.files;
    match Last(actions)
    case Refused(c, _) => q == w.newId(c) && after.history != before.history
    case ClosedAs(_, rid, _, _) => q == rid && after.history == before.history
    case _ => false
  }

  /** A refusal that left a line was reported as an unavailable ledger. */
  lemma RefusedWithLine(cfg: Config, w: World, req: Request, start: Disk, actions: seq<Action>)
    requires actions != [] && Path(cfg, w, req, start, actions).Some? && Last(actions).Refused?
    requires Path(cfg, w, req, start, actions).value.files.history != Path(cfg, w, req, start, Init(actions)).value.files.history
    ensures Path(cfg, w, req, start, actions).value.stand == Stopped(Unavailable)
  {
    hide Append, Load, Refusal, CloseOp;
    var d, c := Path(cfg, w, req, start, Init(actions)).value.files, Last(actions).candidate;
    var spec := SpecFor(cfg, req, c, Last(actions).micro);
    if SpecFits(cfg, spec) && Load(cfg, d).Some? && Refusal(cfg, Load(cfg, d).value.core, spec, w.today(c)).None? {
      JournalPresent(cfg, d);
      FailedAppend(cfg, d, Load(cfg, d).value, ReserveBody(spec, w.today(c), w.newId(c)), w.reserveIo(c));
    }
  }

  // ----- when that happens, in terms of the writes ----------------------------------------

  /** A reservation reported as failed is on the disk, and live, if and only if the
      ledger would have granted it and only the confirmation of its line failed. */
  lemma FailedReservationStaysExactly(cfg: Config, d: Disk, spec: Spec, today: Day, rid: Rid, io: Io)
    requires Sound(cfg, d) && rid !in OpenedIds(Bodies(d.history))
    requires ReserveOp(cfg, d, spec, today, rid, io).1.Err?
    ensures var (d', r) := ReserveOp(cfg, d, spec, today, rid, io);
      && (d'.history != d.history <==> ReserveOp(cfg, d, spec, today, rid, Fine).1.Ok? && io == WrittenButFailed)
      && (d'.history != d.history ==> r == Err(LedgerUnavailable) && LiveIn(cfg, d', rid))
  {
    hide Sound, Load, Step, Bodies, Append, Refusal, OpenedIds;
    if SpecFits(cfg, spec) && Load(cfg, d).Some? && Refusal(cfg, Load(cfg, d).value.core, spec, today).None? {
      var s, b := Load(cfg, d).value, ReserveBody(spec, today, rid);
      JournalPresent(cfg, d);
      ReserveAdmissible(cfg, d, s, spec, today, rid);
      AppendSound(cfg, d, s, s, b, io);
      AppendSound(cfg, d, s, s, b, Fine);
      LineOrNothing(cfg, d, s, b, io);
      FailedAppend(cfg, d, s, b, io);
      if io == WrittenButFailed {
        SameLine(cfg, d, s, b);
        GrantedIsLive(cfg, d, spec, today, rid, Fine);
      }
    }
  }

  lemma SameLine(cfg: Config, d: Disk, s: State, b: Body)
    requires d.journal.Some?
    ensures Append(cfg, d, s, b, WrittenButFailed).0 == Append(cfg, d, s, b, Fine).0
  {
    hide Step;
  }

  /** The closure of a live reservation leaves no line if and only if its write
      fails before the line is complete, or its charge is negative. */
  lemma ClosureLineExactly(cfg: Config, d: Disk, rid: Rid, closure: Closure, io: Io, overageIo: Io)
    requires LiveIn(cfg, d, rid)
    ensures CloseOp(cfg, d, rid, closure, io, overageIo).0.history == d.history <==>
      !LineComplete(io) || ((closure.ChargedFailure? || closure.ChargedSuccess?) && closure.micro < 0)
  {
    hide Append, Load;
    JournalPresent(cfg, d);
    var s := Load(cfg, d).value;
    match closure
    case Freed => LineOrNothing(cfg, d, s, ReleaseBody(s.core.live[rid]), io);
    case LeftUnknown => LineOrNothing(cfg, d, s, UnknownBody(s.core.live[rid]), io);
    case ChargedFailure(actual) =>
      if actual >= 0 {
        SettlementLine(cfg, d, s, SettleBody(s.core.live[rid], actual, 0, 0, ProviderFailure), io, overageIo);
      }
    case ChargedSuccess(actual, inputTokens, outputTokens) =>
      if actual >= 0 {
        SettlementLine(cfg, d, s, SettleBody(s.core.live[rid], actual, inputTokens, outputTokens, Success), io, overageIo);
      }
  }

  lemma SettlementLine(cfg: Config, d: Disk, s: State, b: Body, io: Io, overageIo: Io)
    requires d.journal.Some?
    ensures AppendSettlement(cfg, d, s, b, io, overageIo).0.history == d.history <==> !LineComplete(io)
  {
    hide Append;
    LineOrNothing(cfg, d, s, b, io);
    var (d1, settled) := Append(cfg, d, s, b, io);
    if settled.Ok? && b.actualMicro > b.reservedMicro {
      LineOrNothing(cfg, d1, settled.value, OverageBody(b), overageIo);
    }
  }
}
