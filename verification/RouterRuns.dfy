/** Many calls of the router on one ledger, interleaved with compactions,
    budget queries and operator recoveries: every ledger operation is one atomic
    turn, and between two actions of a call anything else may happen. */
module RouterRuns {
  import opened Basics
  import opened Days
  import opened LedgerModel
  import opened LedgerHistory
  import opened LedgerDisk
  import opened LedgerSafety
  import opened LedgerRuns
  import opened LedgerCaps
  import opened LedgerKeys
  import opened LedgerTheorems
  import opened RouterModel
  import opened RouterProtocol
  import Pricing

  /** A paid request handed to an adapter under a reservation, and how it ended. */
  datatype Sent = Sent(rid: Rid, ending: Ending)

  /** The files, where every call stands, and every paid dispatch so far. */
  datatype System = System(disk: Disk, callers: map<nat, Stand>, sent: seq<Sent>)

  datatype Turn =
    | Move(caller: nat, w: World, req: Request, action: Action)
    | Maintain(op: Op)

  function Start(cfg: Config): System {
    System(InitialDisk(cfg), map[], [])
  }

  function StandOf(y: System, caller: nat): Stand {
    if caller in y.callers then y.callers[caller] else Idle
  }

  function HeldBy(stand: Stand): Option<Rid> {
    if stand.Holding? || stand.InFlight? then Some(stand.rid) else None
  }

  /** The provider may have charged for a dispatch that ended this way. */
  predicate MayCost(ending: Ending) {
    match ending
    case Succeeded(_, _, _) => true
    case AdapterFailed(PreDispatch, _) => false
    case AdapterFailed(Definitive, actual) => actual.Some? && actual.value > 0
    case AdapterFailed(UnknownPhase, _) => true
    case Crashed => true
  }

  ghost function Next(cfg: Config, y: System, turn: Turn): Option<System> {
    match turn
    case Move(caller, w, req, action) =>
      (match Follow(cfg, w, req, Point(StandOf(y, caller), y.disk), action)
       case None => None
       case Some(at) =>
         Some(System(at.files, y.callers[caller := at.stand],
                     y.sent + if action.Dispatched? then [Sent(action.rid, action.ending)] else [])))
    case Maintain(op) =>
      if op.Compact? || op.RemainingBudget? || op.Recover?
      then Some(y.(disk := Exec(cfg, y.disk, op).0))
      else None
  }

  /** What the environment promises: new ids are new, an operator recovers no
      reservation that a call still holds, and releases none whose dispatch may have cost money. */
  ghost predicate Promises(y: System, turn: Turn) {
    match turn
    case Move(_, w, req, action) =>
      action.Opened? || action.Refused? ==>
        w.newId(action.candidate) !in OpenedIds(Bodies(y.disk.history))
    case Maintain(op) =>
      op.Recover? ==>
        ((forall k :: k in y.callers ==> HeldBy(y.callers[k]) != Some(op.rid))
         && (op.recovered.None? ==> forall i :: 0 <= i < |y.sent| && y.sent[i].rid == op.rid ==> !MayCost(y.sent[i].ending)))
  }

  /** Where an interleaving leads, if every turn in it can happen and the
      environment keeps its promises. */
  ghost function Reached(cfg: Config, turns: seq<Turn>): Option<System> {
    if turns == [] then Some(Start(cfg))
    else
      match Reached(cfg, Init(turns))
      case None => None
      case Some(y) => if Promises(y, Last(turns)) then Next(cfg, y, Last(turns)) else None
  }

  /** The latest day that a compaction has pruned at. */
  function PrunedUpTo(turns: seq<Turn>): Day {
    if turns == [] then ""
    else if Last(turns).Maintain? then NextHorizon(PrunedUpTo(Init(turns)), Last(turns).op)
    else PrunedUpTo(Init(turns))
  }

  /** Budget days do not go back behind a compaction. */
  predicate TurnsInOrder(turns: seq<Turn>) {
    turns == [] || (TurnsInOrder(Init(turns)) && TurnInTime(PrunedUpTo(Init(turns)), Last(turns)))
  }

  predicate TurnInTime(horizon: Day, turn: Turn) {
    turn.Move? && (turn.action.Opened? || turn.action.Refused?) ==> Le(horizon, turn.w.today(turn.action.candidate))
  }

  // ----- a call's ledger actions are ledger operations --------------------------

  function CloseAsOp(rid: Rid, closure: Closure, io: Io, overageIo: Io): Op {
    match closure
    case Freed => Release(rid, io)
    case ChargedFailure(micro) => Settle(rid, micro, 0, 0, ProviderFailure, io, overageIo)
    case LeftUnknown => SettleUnknown(rid, io)
    case ChargedSuccess(micro, inputTokens, outputTokens) =>
      Settle(rid, micro, inputTokens, outputTokens, Success, io, overageIo)
  }

  function ReserveAsOp(cfg: Config, w: World, req: Request, c: Candidate, micro: nat): Op {
    Reserve(SpecFor(cfg, req, c, micro), w.today(c), w.newId(c), w.reserveIo(c))
  }

  lemma CloseAsExec(cfg: Config, d: Disk, rid: Rid, closure: Closure, io: Io, overageIo: Io)
    ensures CloseOp(cfg, d, rid, closure, io, overageIo).0 == Exec(cfg, d, CloseAsOp(rid, closure, io, overageIo)).0
  {
    hide ReleaseOp, SettleOp, SettleUnknownOp;
  }

  // ----- what one operation leaves of the other reservations --------------------

  /** Reservations stay what they were; only the touched ones change status. */
  ghost predicate Carries(h: History, h': History, touched: set<Rid>) {
    forall q :: q in OpenedIds(h) ==>
      q in OpenedIds(h') && ReserveOf(h', q) == ReserveOf(h, q)
      && (q !in touched ==> StatusOf(h', q) == StatusOf(h, q))
  }

  predicate Touches(b: Body, q: Rid) {
    Terminal(b) && b.rid == q
  }

  lemma OneMore(h: History, b: Body, q: Rid)
    requires q in OpenedIds(h) && (b.kind.RESERVE? ==> b.rid != q)
    ensures q in OpenedIds(h + [b]) && ReserveOf(h + [b], q) == ReserveOf(h, q)
    ensures StatusOf(h + [b], q) == if Touches(b, q) then Standing(b) else StatusOf(h, q)
  {
    Extended(h, b);
    ExtendedReserve(h, b, q);
    ExtendedStatus(h, b, q);
  }

  /** What an operation's events do to a reservation opened before them. */
  lemma AddedOnTo(h: History, added: seq<Body>, principal: Option<Body>, q: Rid)
    requires |added| <= 2 && q in OpenedIds(h)
    requires forall i :: 0 <= i < |added| ==> Quiet(added[i]) || (i == 0 && principal == Some(added[0]))
    requires principal.Some? && principal.value.kind.RESERVE? ==> principal.value.rid != q
    ensures q in OpenedIds(h + added) && ReserveOf(h + added, q) == ReserveOf(h, q)
    ensures StatusOf(h + added, q) != StatusOf(h, q) ==>
      principal.Some? && Touches(principal.value, q) && StatusOf(h + added, q) == Standing(principal.value)
  {
    hide OpenedIds, ReserveOf, StatusOf, Standing;
    if added == [] {
      assert h + [] == h;
    } else {
      OneMore(h, added[0], q);
      if |added| == 1 {
        assert h + added == h + [added[0]];
      } else {
        OneMore(h + [added[0]], added[1], q);
        assert h + added == h + [added[0]] + [added[1]];
      }
    }
  }

  function Touched(op: Op): set<Rid> {
    match op
    case Settle(rid, _, _, _, _, _, _) => {rid}
    case Release(rid, _) => {rid}
    case SettleUnknown(rid, _) => {rid}
    case Recover(rid, _, _, _, _) => {rid}
    case _ => {}
  }

  /** An operation touches at most its own reservation, and gives it the standing
      of the event it appends, if any. */
  lemma ExecCarries(cfg: Config, d: Disk, op: Op)
    requires Sound(cfg, d)
    requires op.Reserve? ==> op.newId !in OpenedIds(Bodies(d.history))
    ensures var h, h' := Bodies(d.history), Bodies(Exec(cfg, d, op).0.history);
      && Carries(h, h', Touched(op))
      && (forall q :: q in Touched(op) && q in OpenedIds(h) && StatusOf(h', q) != StatusOf(h, q) ==>
            Principal(cfg, d, op).Some? && StatusOf(h', q) == Standing(Principal(cfg, d, op).value))
  {
    hide Exec, Bodies, Principal, Sound, Load, OpenedIds, ReserveOf, StatusOf, Standing;
    var h, h' := Bodies(d.history), Bodies(Exec(cfg, d, op).0.history);
    var added := ExecGrows(cfg, d, op);
    if Principal(cfg, d, op).Some? {
      PrincipalTouches(cfg, d, op);
    }
    forall q | q in OpenedIds(h)
      ensures q in OpenedIds(h') && ReserveOf(h', q) == ReserveOf(h, q)
      ensures StatusOf(h', q) != StatusOf(h, q) ==>
        Principal(cfg, d, op).Some? && q in Touched(op) && StatusOf(h', q) == Standing(Principal(cfg, d, op).value)
    {
      AddedOnTo(h, added, Principal(cfg, d, op), q);
    }
  }

  lemma PrincipalTouches(cfg: Config, d: Disk, op: Op)
    requires Sound(cfg, d) && Principal(cfg, d, op).Some?
    ensures var b := Principal(cfg, d, op).value;
      if op.Reserve? then b.kind.RESERVE? && b.rid == op.newId else Terminal(b) && Touched(op) == {b.rid}
  {
    if Load(cfg, d).Some? {
      LoadedAgrees(cfg, d);
    }
  }

  // ----- the invariant of the interleaving --------------------------------------

  /** Each call that holds a reservation holds it alone, and it is open. */
  ghost predicate HoldersApart(callers: map<nat, Stand>, h: History) {
    && (forall k :: k in callers && HeldBy(callers[k]).Some? ==> StatusOf(h, HeldBy(callers[k]).value) == Some(Live))
    && (forall j, k :: j in callers && k in callers && j != k && HeldBy(callers[j]).Some? ==>
          HeldBy(callers[j]) != HeldBy(callers[k]))
  }

  /** Each reservation is dispatched at most once; while a call still holds it
      the dispatch is that call's own; and one that may have cost money keeps
      its key. */
  ghost predicate SentOnce(callers: map<nat, Stand>, sent: seq<Sent>, h: History) {
    && (forall i :: 0 <= i < |sent| ==> sent[i].rid in OpenedIds(h))
    && (forall i, j :: 0 <= i < j < |sent| ==> sent[i].rid != sent[j].rid)
    && (forall k, i :: k in callers && 0 <= i < |sent| && callers[k].Holding? ==> sent[i].rid != callers[k].rid)
    && (forall k, i :: k in callers && 0 <= i < |sent| && callers[k].InFlight? && sent[i].rid == callers[k].rid ==>
          sent[i].ending == callers[k].ending)
    && (forall i :: 0 <= i < |sent| && MayCost(sent[i].ending) ==> StatusOf(h, sent[i].rid).Some?)
  }

  ghost predicate Consistent(cfg: Config, y: System) {
    && Sound(cfg, y.disk)
    && HoldersApart(y.callers, Bodies(y.disk.history))
    && SentOnce(y.callers, y.sent, Bodies(y.disk.history))
  }

  lemma StartConsistent(cfg: Config)
    ensures Consistent(cfg, Start(cfg))
  {
    hide Sound;
    InitialSound(cfg);
  }

  /** A live status means the reservation was opened. */
  lemma LiveOpened(cfg: Config, d: Disk, r: Rid)
    requires Sound(cfg, d)
    ensures StatusOf(Bodies(d.history), r).Some? ==> r in OpenedIds(Bodies(d.history))
    ensures StatusOf(Bodies(d.history), r) == Some(Live) <==>
      r in OpenedIds(Bodies(d.history)) - ClosedIds(Bodies(d.history))
  {
    hide Chained, Current, Load, OpenedOnce, OverageFinal, LiveApart;
  }

  /** What is true of calls and dispatches stays true while nobody's own
      reservation is touched. */
  lemma OthersUndisturbed(callers: map<nat, Stand>, sent: seq<Sent>, h: History, h': History, touched: set<Rid>)
    requires Carries(h, h', touched)
    requires forall q :: StatusOf(h, q).Some? ==> q in OpenedIds(h)
    requires HoldersApart(callers, h) && SentOnce(callers, sent, h)
    requires forall k :: k in callers && HeldBy(callers[k]).Some? ==> HeldBy(callers[k]).value !in touched
    requires forall i :: 0 <= i < |sent| && sent[i].rid in touched && MayCost(sent[i].ending) ==>
      StatusOf(h', sent[i].rid).Some?
    ensures HoldersApart(callers, h') && SentOnce(callers, sent, h')
  {
    hide OpenedIds, ReserveOf, StatusOf;
  }

  lemma MaintainKeeps(cfg: Config, y: System, op: Op)
    requires Consistent(cfg, y) && Promises(y, Maintain(op)) && Next(cfg, y, Maintain(op)).Some?
    ensures Consistent(cfg, Next(cfg, y, Maintain(op)).value)
  {
    hide Sound, Exec, Bodies, HoldersApart, SentOnce, OpenedIds, ReserveOf, StatusOf;
    var y' := Next(cfg, y, Maintain(op)).value;
    var h, h' := Bodies(y.disk.history), Bodies(y'.disk.history);
    ExecSound(cfg, y.disk, op);
    ExecCarries(cfg, y.disk, op);
    forall q | StatusOf(h, q).Some?
      ensures q in OpenedIds(h)
    {
      LiveOpened(cfg, y.disk, q);
    }
    if op.Recover? {
      RecoveryKeepsCosts(cfg, y, op, h, h');
    }
    OthersUndisturbed(y.callers, y.sent, h, h', Touched(op));
  }

  /** An operator recovery leaves every reservation that may have cost money
      holding its key. */
  lemma RecoveryKeepsCosts(cfg: Config, y: System, op: Op, h: History, h': History)
    requires Consistent(cfg, y) && Promises(y, Maintain(op)) && op.Recover?
    requires h == Bodies(y.disk.history) && h' == Bodies(Exec(cfg, y.disk, op).0.history)
    ensures forall i :: 0 <= i < |y.sent| && y.sent[i].rid == op.rid && MayCost(y.sent[i].ending) ==>
      StatusOf(h', y.sent[i].rid).Some?
  {
    hide Sound, Exec, Bodies, OpenedIds, ReserveOf, StatusOf, Load;
    ExecCarries(cfg, y.disk, op);
  }

  // ----- each kind of turn keeps it ----------------------------------------------

  /** A refused or failed reservation leaves every call where it stood. */
  lemma RefusedKeeps(cfg: Config, y: System, k: nat, w: World, req: Request, action: Action)
    requires action.Refused?
    requires Consistent(cfg, y) && Promises(y, Move(k, w, req, action)) && Next(cfg, y, Move(k, w, req, action)).Some?
    ensures Consistent(cfg, Next(cfg, y, Move(k, w, req, action)).value)
  {
    hide Sound, Bodies, HoldersApart, SentOnce, OpenedIds, ReserveOf, StatusOf, ReserveOp, Load;
    var y' := Next(cfg, y, Move(k, w, req, action)).value;
    ReservingKeeps(cfg, y, w, req, action.candidate, action.micro);
    IdleAgain(y.callers, y.sent, Bodies(y'.disk.history), k, y'.callers[k]);
    assert y.sent + [] == y.sent;
  }

  /** The files after a reservation attempt are sound and disturb nobody. */
  lemma ReservingKeeps(cfg: Config, y: System, w: World, req: Request, c: Candidate, micro: nat)
    requires Consistent(cfg, y)
    requires w.newId(c) !in OpenedIds(Bodies(y.disk.history))
    ensures var d' := OpenOp(cfg, w, req, y.disk, c, micro).0;
      Sound(cfg, d') && HoldersApart(y.callers, Bodies(d'.history)) && SentOnce(y.callers, y.sent, Bodies(d'.history))
  {
    hide Sound, Bodies, HoldersApart, SentOnce, OpenedIds, ReserveOf, StatusOf, ReserveOp, Load;
    var op := ReserveAsOp(cfg, w, req, c, micro);
    var h, h' := Bodies(y.disk.history), Bodies(Exec(cfg, y.disk, op).0.history);
    ReserveSound(cfg, y.disk, SpecFor(cfg, req, c, micro), w.today(c), w.newId(c), w.reserveIo(c));
    ExecCarries(cfg, y.disk, op);
    forall q | StatusOf(h, q).Some?
      ensures q in OpenedIds(h)
    {
      LiveOpened(cfg, y.disk, q);
    }
    OthersUndisturbed(y.callers, y.sent, h, h', {});
  }

  /** A call that holds nothing may stand anywhere that holds nothing. */
  lemma IdleAgain(callers: map<nat, Stand>, sent: seq<Sent>, h: History, k: nat, stand: Stand)
    requires HoldersApart(callers, h) && SentOnce(callers, sent, h) && HeldBy(stand).None?
    ensures HoldersApart(callers[k := stand], h) && SentOnce(callers[k := stand], sent, h)
  {
    hide OpenedIds, StatusOf;
  }

  /** A granted reservation is new, so no other call holds it and no dispatch used it. */
  lemma OpenedKeeps(cfg: Config, y: System, k: nat, w: World, req: Request, action: Action)
    requires action.Opened?
    requires Consistent(cfg, y) && Promises(y, Move(k, w, req, action)) && Next(cfg, y, Move(k, w, req, action)).Some?
    ensures Consistent(cfg, Next(cfg, y, Move(k, w, req, action)).value)
  {
    hide Sound, Bodies, HoldersApart, SentOnce, OpenedIds, ReserveOf, StatusOf, ReserveOp, Load, ClosedIds;
    var c := action.candidate;
    var y' := Next(cfg, y, Move(k, w, req, action)).value;
    ReservingKeeps(cfg, y, w, req, c, action.micro);
    GrantedIsLive(cfg, y.disk, SpecFor(cfg, req, c, action.micro), w.today(c), w.newId(c), w.reserveIo(c));
    LiveStatus(cfg, y'.disk, action.rid);
    assert y.sent + [] == y.sent;
    HoldsNew(cfg, y, y'.disk, k, y'.callers[k], action.rid);
  }

  lemma LiveStatus(cfg: Config, d: Disk, r: Rid)
    requires Sound(cfg, d) && LiveIn(cfg, d, r)
    ensures StatusOf(Bodies(d.history), r) == Some(Live)
  {
    LoadedAgrees(cfg, d);
    hide Load, Bodies, TotalsAgree, LiveSumAgrees, MarkersSound, LiveMarked, OverageAgrees;
  }

  lemma HoldsNew(cfg: Config, y: System, d': Disk, k: nat, stand: Stand, r: Rid)
    requires Consistent(cfg, y) && r !in OpenedIds(Bodies(y.disk.history)) && stand.Holding? && stand.rid == r
    requires HoldersApart(y.callers, Bodies(d'.history)) && SentOnce(y.callers, y.sent, Bodies(d'.history))
    requires StatusOf(Bodies(d'.history), r) == Some(Live)
    ensures HoldersApart(y.callers[k := stand], Bodies(d'.history))
    ensures SentOnce(y.callers[k := stand], y.sent, Bodies(d'.history))
  {
    hide Sound, Bodies, OpenedIds, StatusOf, ClosedIds;
    forall j | j in y.callers && HeldBy(y.callers[j]).Some?
      ensures HeldBy(y.callers[j]).value != r
    {
      LiveOpened(cfg, y.disk, HeldBy(y.callers[j]).value);
    }
  }

  lemma DispatchedKeeps(cfg: Config, y: System, k: nat, w: World, req: Request, action: Action)
    requires action.Dispatched?
    requires Consistent(cfg, y) && Next(cfg, y, Move(k, w, req, action)).Some?
    ensures Consistent(cfg, Next(cfg, y, Move(k, w, req, action)).value)
  {
    hide Sound, Bodies, OpenedIds, StatusOf, ClosedIds;
    var y' := Next(cfg, y, Move(k, w, req, action)).value;
    assert k in y.callers && y.callers[k].Holding? && y.callers[k].rid == action.rid;
    LiveOpened(cfg, y.disk, action.rid);
    assert HeldBy(y'.callers[k]) == HeldBy(y.callers[k]);
  }

  /** Closing a dispatch that may have cost money leaves its key held. */
  lemma ClosureKeepsCost(cfg: Config, d: Disk, ending: Ending, micro: nat, rid: Rid, io: Io, overageIo: Io)
    requires MayCost(ending)
    ensures var op := CloseAsOp(rid, ClosureFor(ending, micro), io, overageIo);
      Principal(cfg, d, op).Some? ==> Standing(Principal(cfg, d, op).value).Some?
  {
    hide Load;
  }

  lemma ClosedKeeps(cfg: Config, y: System, k: nat, w: World, req: Request, action: Action)
    requires action.ClosedAs?
    requires Consistent(cfg, y) && Next(cfg, y, Move(k, w, req, action)).Some?
    ensures Consistent(cfg, Next(cfg, y, Move(k, w, req, action)).value)
  {
    hide Sound, Bodies, OpenedIds, ReserveOf, StatusOf, ClosedIds, Load, Exec, CloseOp, HoldersApart, SentOnce;
    var c, rid := action.candidate, action.rid;
    var y' := Next(cfg, y, Move(k, w, req, action)).value;
    var op := CloseAsOp(rid, action.closure, w.closeIo(c), w.overageIo(c));
    CloseAsExec(cfg, y.disk, rid, action.closure, w.closeIo(c), w.overageIo(c));
    var h, h' := Bodies(y.disk.history), Bodies(y'.disk.history);
    ExecSound(cfg, y.disk, op);
    ExecCarries(cfg, y.disk, op);
    forall q | StatusOf(h, q).Some?
      ensures q in OpenedIds(h)
    {
      LiveOpened(cfg, y.disk, q);
    }
    OwnClosure(cfg, y, k, w, action, h, h');
    IdleAgain(y.callers, y.sent, h, k, y'.callers[k]);
    OthersUndisturbed(y'.callers, y.sent, h, h', {rid});
    assert y.sent + [] == y.sent;
  }

  /** The closing call is the only one that holds the reservation, and its
      dispatch keeps the key if it may have cost money. */
  lemma OwnClosure(cfg: Config, y: System, k: nat, w: World, action: Action, h: History, h': History)
    requires Consistent(cfg, y) && h == Bodies(y.disk.history)
    requires action.ClosedAs? && k in y.callers && y.callers[k].InFlight? && y.callers[k].rid == action.rid
    requires action.closure == ClosureFor(y.callers[k].ending, y.callers[k].micro)
    requires var op := CloseAsOp(action.rid, action.closure, w.closeIo(action.candidate), w.overageIo(action.candidate));
      h' == Bodies(Exec(cfg, y.disk, op).0.history)
    ensures forall j :: j in y.callers && j != k && HeldBy(y.callers[j]).Some? ==> HeldBy(y.callers[j]).value != action.rid
    ensures forall i :: 0 <= i < |y.sent| && y.sent[i].rid == action.rid && MayCost(y.sent[i].ending) ==>
      StatusOf(h', y.sent[i].rid).Some?
  {
    hide Sound, Bodies, OpenedIds, ReserveOf, StatusOf, ClosedIds, Load, Exec, Principal, Standing;
    var c := action.candidate;
    var op := CloseAsOp(action.rid, action.closure, w.closeIo(c), w.overageIo(c));
    assert HeldBy(y.callers[k]) == Some(action.rid);
    ExecCarries(cfg, y.disk, op);
    forall i | 0 <= i < |y.sent| && y.sent[i].rid == action.rid && MayCost(y.sent[i].ending)
      ensures StatusOf(h', y.sent[i].rid).Some?
    {
      ClosureKeepsCost(cfg, y.disk, y.callers[k].ending, y.callers[k].micro, action.rid, w.closeIo(c), w.overageIo(c));
    }
  }

  lemma TurnKeeps(cfg: Config, y: System, turn: Turn)
    requires Consistent(cfg, y) && Promises(y, turn) && Next(cfg, y, turn).Some?
    ensures Consistent(cfg, Next(cfg, y, turn).value)
  {
    match turn
    case Maintain(op) => MaintainKeeps(cfg, y, op);
    case Move(k, w, req, action) =>
      match action
      case FreeTry(_) =>
        hide Sound, Bodies, OpenedIds, StatusOf;
        IdleAgain(y.callers, y.sent, Bodies(y.disk.history), k, Idle);
        assert y.sent + [] == y.sent;
      case Refused(_, _) => RefusedKeeps(cfg, y, k, w, req, action);
      case Opened(_, _, _) => OpenedKeeps(cfg, y, k, w, req, action);
      case Dispatched(_, _, _) => DispatchedKeeps(cfg, y, k, w, req, action);
      case ClosedAs(_, _, _, _) => ClosedKeeps(cfg, y, k, w, req, action);
  }

  lemma {:induction false} ReachedConsistent(cfg: Config, turns: seq<Turn>)
    requires Reached(cfg, turns).Some?
    ensures Consistent(cfg, Reached(cfg, turns).value)
  {
    hide Consistent, Promises, Next;
    if turns == [] {
      StartConsistent(cfg);
    } else {
      ReachedConsistent(cfg, Init(turns));
      TurnKeeps(cfg, Reached(cfg, Init(turns)).value, Last(turns));
    }
  }

  // ----- what this means end to end -----------------------------------------------

  /** In every interleaving, a call that is about to dispatch, or has dispatched
      and not yet closed, has its own reservation open: opened and never closed in
      the full history, and live in whatever state the ledger loads. */
  lemma {:induction false} DispatchWhileOpen(cfg: Config, turns: seq<Turn>, k: nat)
    requires Reached(cfg, turns).Some? && k in Reached(cfg, turns).value.callers
    requires HeldBy(Reached(cfg, turns).value.callers[k]).Some?
    ensures var y := Reached(cfg, turns).value; var r := HeldBy(y.callers[k]).value;
      && r in OpenedIds(Bodies(y.disk.history)) - ClosedIds(Bodies(y.disk.history))
      && (Load(cfg, y.disk).Some? ==> r in Load(cfg, y.disk).value.core.live)
      && (y.callers[k].Holding? ==> forall i :: 0 <= i < |y.sent| ==> y.sent[i].rid != r)
  {
    var y := Reached(cfg, turns).value;
    ReachedConsistent(cfg, turns);
    LiveOpened(cfg, y.disk, HeldBy(y.callers[k]).value);
    hide Sound, Bodies, OpenedIds, StatusOf, ClosedIds, Load, Reached;
    if Load(cfg, y.disk).Some? {
      LoadedAgrees(cfg, y.disk);
    }
  }

  /** Two calls never hold reservations for the same budget day and key. */
  lemma {:induction false} NeverTwoForOneKey(cfg: Config, turns: seq<Turn>, j: nat, k: nat)
    requires Reached(cfg, turns).Some?
    requires var callers := Reached(cfg, turns).value.callers;
      j in callers && k in callers && j != k && HeldBy(callers[j]).Some? && HeldBy(callers[k]).Some?
    ensures var y := Reached(cfg, turns).value; var h := Bodies(y.disk.history);
      var r, q := HeldBy(y.callers[j]).value, HeldBy(y.callers[k]).value;
      r in OpenedIds(h) && q in OpenedIds(h) && !SameKey(h, r, q)
  {
    var y := Reached(cfg, turns).value;
    ReachedConsistent(cfg, turns);
    var h := Bodies(y.disk.history);
    var r, q := HeldBy(y.callers[j]).value, HeldBy(y.callers[k]).value;
    LiveOpened(cfg, y.disk, r);
    LiveOpened(cfg, y.disk, q);
    SoundOrderly(cfg, y.disk);
    hide Sound, Bodies, OpenedIds, StatusOf, ClosedIds, Load, Reached, OpenedOnce, StandingsAgree, OverageFinal, SentOnce;
    assert OpenIn(h, r) && OpenIn(h, q) && r != q;
  }

  lemma SoundOrderly(cfg: Config, d: Disk)
    requires Sound(cfg, d)
    ensures Orderly(Bodies(d.history))
  {
    hide Orderly, Chained, Current, Load;
  }

  /** A turn in time keeps keys held once. */
  lemma TurnKeyed(cfg: Config, y: System, horizon: Day, turn: Turn)
    requires Sound(cfg, y.disk) && Keyed(cfg, y.disk, horizon)
    requires Promises(y, turn) && TurnInTime(horizon, turn) && Next(cfg, y, turn).Some?
    ensures Keyed(cfg, Next(cfg, y, turn).value.disk, if turn.Maintain? then NextHorizon(horizon, turn.op) else horizon)
  {
    hide Sound, Keyed, Exec, ReserveOp, CloseOp, Bodies, OpenedIds, Le;
    match turn
    case Maintain(op) => ExecKeyed(cfg, y.disk, horizon, op);
    case Move(k, w, req, action) =>
      match action
      case FreeTry(_) =>
      case Refused(c, micro) =>
        ReserveKeyed(cfg, y.disk, horizon, SpecFor(cfg, req, c, micro), w.today(c), w.newId(c), w.reserveIo(c));
      case Opened(c, _, micro) =>
        ReserveKeyed(cfg, y.disk, horizon, SpecFor(cfg, req, c, micro), w.today(c), w.newId(c), w.reserveIo(c));
      case Dispatched(_, _, _) =>
      case ClosedAs(c, rid, closure, _) =>
        CloseAsExec(cfg, y.disk, rid, closure, w.closeIo(c), w.overageIo(c));
        ExecKeyed(cfg, y.disk, horizon, CloseAsOp(rid, closure, w.closeIo(c), w.overageIo(c)));
  }

  lemma {:induction false} ReachedKeyed(cfg: Config, turns: seq<Turn>)
    requires Reached(cfg, turns).Some? && TurnsInOrder(turns)
    ensures Keyed(cfg, Reached(cfg, turns).value.disk, PrunedUpTo(turns))
  {
    hide Keyed, Sound, HoldersApart, SentOnce, Promises, Next, TurnInTime, NextHorizon;
    if turns == [] {
      InitialKeyed(cfg);
    } else {
      ReachedKeyed(cfg, Init(turns));
      ReachedConsistent(cfg, Init(turns));
      TurnKeyed(cfg, Reached(cfg, Init(turns)).value, PrunedUpTo(Init(turns)), Last(turns));
    }
  }

  /** At most one charge per budget day and key, end to end: as long as budget days
      do not go back behind a compaction, of two dispatches whose reservations are
      for the same day and key, at most one can have cost money at the provider,
      over every interleaving of calls, compactions, recoveries and failing
      writes. */
  lemma {:induction false} ChargedAtMostOnce(cfg: Config, turns: seq<Turn>, i: nat, j: nat)
    requires Reached(cfg, turns).Some? && TurnsInOrder(turns) && i < j < |Reached(cfg, turns).value.sent|
    ensures var y := Reached(cfg, turns).value; var h := Bodies(y.disk.history);
      && y.sent[i].rid in OpenedIds(h) && y.sent[j].rid in OpenedIds(h) && y.sent[i].rid != y.sent[j].rid
      && (SameKey(h, y.sent[i].rid, y.sent[j].rid) ==> !MayCost(y.sent[i].ending) || !MayCost(y.sent[j].ending))
  {
    var y := Reached(cfg, turns).value;
    ReachedConsistent(cfg, turns);
    ReachedKeyed(cfg, turns);
    hide Sound, Bodies, OpenedIds, StatusOf, ClosedIds, Load, Reached, KeysHeldOnce, HoldersApart, TurnsInOrder;
    if MayCost(y.sent[i].ending) && MayCost(y.sent[j].ending) {
      HoldersDiffer(Bodies(y.disk.history), y.sent[i].rid, y.sent[j].rid);
    }
  }

  // ----- what a failed attempt leaves to the next candidate -----------------------

  /** A recorded closure frees its key, so that the next candidate may reserve
      under it, if and only if the dispatch cannot have cost money: the state that
      the next operation loads has no marker for the reservation's day and key, and
      the history gives the reservation no standing. */
  lemma KeyFreedExactly(cfg: Config, d: Disk, ending: Ending, micro: nat, rid: Rid, io: Io, overageIo: Io)
    requires Sound(cfg, d)
    requires CloseOp(cfg, d, rid, ClosureFor(ending, micro), io, overageIo).1.Ok?
    ensures var d' := CloseOp(cfg, d, rid, ClosureFor(ending, micro), io, overageIo).0;
      && (StatusOf(Bodies(d'.history), rid) == None <==> !MayCost(ending))
      && Load(cfg, d).Some? && rid in Load(cfg, d).value.core.live
      && Load(cfg, d').Some?
      && var closed := Load(cfg, d).value.core.live[rid];
         Find(Load(cfg, d').value.core.idem, closed.day, closed.key).None? <==> !MayCost(ending)
  {
    hide Load, Bodies, StatusOf, Sound, Append, AppendSettlement, Find, Closes;
    JournalPresent(cfg, d);
    var s := Load(cfg, d).value;
    LiveNamesItself(cfg, d, rid);
    BodiesClose(s.core.live[rid]);
    match ClosureFor(ending, micro)
    case Freed =>
      ConfirmedLine(cfg, d, s, ReleaseBody(s.core.live[rid]), io);
      ConfirmedMarker(cfg, d, s, rid, ReleaseBody(s.core.live[rid]), io);
    case LeftUnknown =>
      ConfirmedLine(cfg, d, s, UnknownBody(s.core.live[rid]), io);
      ConfirmedMarker(cfg, d, s, rid, UnknownBody(s.core.live[rid]), io);
    case ChargedFailure(actual) =>
      ConfirmedSettlement(cfg, d, s, rid, SettleBody(s.core.live[rid], actual, 0, 0, ProviderFailure), io, overageIo);
    case ChargedSuccess(actual, inputTokens, outputTokens) =>
      ConfirmedSettlement(cfg, d, s, rid, SettleBody(s.core.live[rid], actual, inputTokens, outputTokens, Success), io, overageIo);
  }

  /** A body that closes a live record and changes only what closing fills in. */
  predicate Closes(record: Body, b: Body) {
    Terminal(b) && !b.kind.RECOVERY? &&
    b == record.(kind := b.kind, actualCalls := b.actualCalls, actualMicro := b.actualMicro,
                 inputTokens := b.inputTokens, outputTokens := b.outputTokens, outcome := b.outcome)
  }

  lemma BodiesClose(record: Body)
    ensures Closes(record, ReleaseBody(record)) && Closes(record, UnknownBody(record))
    ensures forall actual: nat, inputTokens: nat, outputTokens: nat, outcome ::
      Closes(record, SettleBody(record, actual, inputTokens, outputTokens, outcome))
  {
  }

  /** A confirmed closing line is in the state that loads next: what marks the
      record's day and key is the standing that the line gives. */
  lemma ConfirmedMarker(cfg: Config, d: Disk, s: State, rid: Rid, b: Body, io: Io)
    requires Sound(cfg, d) && Load(cfg, d) == Some(s) && rid in s.core.live && s.core.live[rid].rid == rid
    requires Closes(s.core.live[rid], b)
    requires d.journal.Some? && Append(cfg, d, s, b, io).1.Ok?
    ensures var (d', r) := Append(cfg, d, s, b, io);
      && Sound(cfg, d') && Load(cfg, d') == Some(r.value)
      && (Find(r.value.core.idem, b.day, b.key).None? <==> Standing(b).None?)
  {
    hide Sound, Load, Bodies, Step, Find, AddTotals, Admissible, Append, Standing;
    ClosingAdmissible(cfg, d, s, rid, b);
    AppendSound(cfg, d, s, s, b, io);
    MarkedAfter(s.core, rid, b);
  }

  lemma MarkedAfter(c: Core, rid: Rid, b: Body)
    requires rid in c.live && c.live[rid].rid == rid && Closes(c.live[rid], b) && Step(c, b).Some?
    ensures Find(Step(c, b).value.idem, b.day, b.key).None? <==> Standing(b).None?
  {
    hide Find, AddTotals, Put, Drop, Standing, ScopesOf;
    StepHasEffect(c, b);
    hide Step;
    assert Find(Step(c, b).value.idem, b.day, b.key) == FoundAfter(c, b, b.day, b.key);
  }

  lemma ConfirmedLine(cfg: Config, d: Disk, s: State, b: Body, io: Io)
    requires d.journal.Some? && Append(cfg, d, s, b, io).1.Ok?
    ensures Append(cfg, d, s, b, io).0.journal.Some?
    ensures var h, h' := Bodies(d.history), Bodies(Append(cfg, d, s, b, io).0.history);
      && (Terminal(b) ==> StatusOf(h', b.rid) == Standing(b))
      && (Quiet(b) ==> forall q :: StatusOf(h', q) == StatusOf(h, q))
  {
    hide Step, Standing, StatusOf, Bodies;
    var h, h' := Bodies(d.history), Bodies(Append(cfg, d, s, b, io).0.history);
    assert h' == h + [b] by { BodiesAppend(d.history, MakeEvent(cfg, s, b)); }
    hide Append;
    ExtendedStatus(h, b, b.rid);
    forall q
      ensures Quiet(b) ==> StatusOf(h + [b], q) == StatusOf(h, q)
    {
      ExtendedStatus(h, b, q);
    }
  }

  lemma ConfirmedSettlement(cfg: Config, d: Disk, s: State, rid: Rid, b: Body, io: Io, overageIo: Io)
    requires Sound(cfg, d) && Load(cfg, d) == Some(s) && rid in s.core.live && s.core.live[rid].rid == rid
    requires d.journal.Some? && b.kind.SETTLE? && Closes(s.core.live[rid], b)
    requires AppendSettlement(cfg, d, s, b, io, overageIo).1.Ok?
    ensures var d' := AppendSettlement(cfg, d, s, b, io, overageIo).0;
      && StatusOf(Bodies(d'.history), b.rid) == Standing(b)
      && Load(cfg, d').Some? && (Find(Load(cfg, d').value.core.idem, b.day, b.key).None? <==> Standing(b).None?)
  {
    hide Append, StatusOf, Bodies, Standing, Sound, Load, Find, Closes;
    ConfirmedLine(cfg, d, s, b, io);
    ConfirmedMarker(cfg, d, s, rid, b, io);
    var (d1, settled) := Append(cfg, d, s, b, io);
    if b.actualMicro > b.reservedMicro {
      ConfirmedLine(cfg, d1, settled.value, OverageBody(b), overageIo);
      ConfirmedOverage(cfg, d1, settled.value, b, overageIo);
    }
  }

  lemma ConfirmedOverage(cfg: Config, d: Disk, s: State, b: Body, io: Io)
    requires Sound(cfg, d) && Load(cfg, d) == Some(s) && d.journal.Some?
    requires Append(cfg, d, s, OverageBody(b), io).1.Ok?
    ensures var d' := Append(cfg, d, s, OverageBody(b), io).0;
      Load(cfg, d').Some? && Load(cfg, d').value.core.idem == s.core.idem
  {
    hide Sound, Load, Bodies, Append, Admissible;
    OverageAdmissible(s.core, Bodies(d.history), b);
    AppendSound(cfg, d, s, s, OverageBody(b), io);
  }

  // ----- a call is a sequence of turns --------------------------------------------

  /** The turns of one call, undisturbed. */
  ghost function Moved(cfg: Config, y: System, k: nat, w: World, req: Request, trace: seq<Action>): Option<System> {
    if trace == [] then Some(y)
    else
      match Moved(cfg, y, k, w, req, Init(trace))
      case None => None
      case Some(z) => Next(cfg, z, Move(k, w, req, Last(trace)))
  }

  /** Every trace that the router's methods leave is a sequence of turns of the
      interleaving, with the same files and the same standing at its end. */
  lemma {:induction false} CallIsTurns(cfg: Config, y: System, k: nat, w: World, req: Request, trace: seq<Action>)
    requires k !in y.callers && Path(cfg, w, req, y.disk, trace).Some?
    ensures Moved(cfg, y, k, w, req, trace).Some?
    ensures var z := Moved(cfg, y, k, w, req, trace).value;
      && Path(cfg, w, req, y.disk, trace) == Some(Point(StandOf(z, k), z.disk))
  {
    hide Follow;
    if trace != [] {
      CallIsTurns(cfg, y, k, w, req, Init(trace));
    }
  }

  // ----- an estimated reply never blocks the domain -------------------------------

  /** Settling a reply whose tokens stay within the estimate its reservation was
      made for never raises an overage: the domain is blocked afterwards only if
      it was before. */
  lemma EstimatedReplyNeverBlocks(cfg: Config, d: Disk, card: Pricing.PriceCard, inputSize: nat,
                                  maxOutputTokens: nat, inputTokens: nat, outputTokens: nat, rid: Rid,
                                  io: Io, overageIo: Io)
    requires Sound(cfg, d) && Load(cfg, d).Some? && rid in Load(cfg, d).value.core.live
    requires Load(cfg, d).value.core.live[rid].reservedMicro == Pricing.EstimateMaxCharge(card, inputSize, maxOutputTokens)
    requires inputTokens <= Pricing.EstimatedInputTokens(inputSize) && outputTokens <= maxOutputTokens
    ensures var actual := Pricing.Charge(card, inputTokens, outputTokens, false);
      var d' := SettleOp(cfg, d, rid, actual, inputTokens, outputTokens, Success, io, overageIo).0;
      Load(cfg, d').Some? ==> (Load(cfg, d').value.core.blocked <==> Load(cfg, d).value.core.blocked)
  {
    hide Sound, Load, SettleOp, Pricing.Charge;
    Pricing.ReplyWithinReservation(card, inputSize, maxOutputTokens, inputTokens, outputTokens);
    SettleBlocksExactly(cfg, d, rid, Pricing.Charge(card, inputTokens, outputTokens, false), inputTokens,
                        outputTokens, Success, io, overageIo);
  }
}
