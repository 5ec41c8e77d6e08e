/** The files of the ledger and every operation on them, as functions from the
    files before to the files after and an answer. A durable write may fail at
    any point; how it fails is a parameter of the operation. */
module LedgerDisk {
  import opened Basics
  import opened Days
  import opened LedgerModel

  datatype Cap = Cap(calls: nat, micro: nat)

  datatype Config = Config(
    domain: string,
    timezone: string,
    caps: map<Scope, Cap>,
    priceCards: set<string>,
    accounts: Option<set<string>>)

  datatype Snapshot = Snapshot(
    domain: string,
    timezone: string,
    priceCards: set<string>,
    sequence: nat,
    digest: Digest,
    core: Core)

  /** The active journal file: its complete lines, and whether a partial line
      follows them. */
  datatype Journal = Journal(events: seq<Event>, torn: bool)

  datatype Archive = Archive(month: Month, events: seq<Event>)

  /** `history` is every event line ever completely written; no file holds it. */
  datatype Disk = Disk(
    snapshot: Snapshot,
    journal: Option<Journal>,
    archives: seq<Archive>,
    history: seq<Event>)

  datatype Error = LedgerUnavailable | BudgetDenied | IdempotencyConflict(status: Status)

  /** How one journal append ends. The line may be complete on disk although
      the append reports a failure, as when only the flush fails. */
  datatype Io = Fine | NotWritten | TornLine | WrittenButFailed

  /** Where a compaction stops. */
  datatype CompactFault =
    | NoFault
    | CheckpointFails(io: Io)
    | SnapshotFails(replaced: bool)
    | ArchiveFails(created: bool)
    | RotateFails(moved: bool, reopened: bool)
    | OpeningFails(io: Io)

  datatype Spec = Spec(
    domain: string,
    aggregate: Scope,
    provider: Scope,
    route: Scope,
    modelScope: Scope,
    account: string,
    key: Key,
    micro: nat,
    priceCard: string)

  datatype Reservation = Reservation(rid: Rid, day: Day, calls: nat, micro: nat, scopes: seq<Scope>, key: Key)

  datatype Remaining = Remaining(
    scope: Scope, day: Day, callsLeft: nat, microLeft: nat, callsLimit: nat, microLimit: nat)

  // ----- loading ------------------------------------------------------------

  function InitialDisk(cfg: Config): Disk {
    Disk(Snapshot(cfg.domain, cfg.timezone, cfg.priceCards, 0, Genesis, EMPTY_CORE),
         Some(Journal([], false)), [], [])
  }

  /** The checks of one journal line, then its effect. */
  function Accept(cfg: Config, s: State, e: Event): Option<State> {
    if e.content.sequence != s.lastSequence + 1 || e.content.previous != s.lastDigest then None
    else if e.digest != Sha(e.content) then None
    else if e.content.domain != cfg.domain || e.content.timezone != cfg.timezone then None
    else
      match Step(s.core, e.content.body)
      case None => None
      case Some(core) => Some(State(core, e.content.sequence, e.digest))
  }

  function Replay(cfg: Config, s: State, events: seq<Event>): Option<State> {
    if events == [] then Some(s)
    else
      match Replay(cfg, s, Init(events))
      case None => None
      case Some(t) => Accept(cfg, t, Last(events))
  }

  function SnapshotState(p: Snapshot): State {
    State(p.core, p.sequence, p.digest)
  }

  predicate SnapshotFits(cfg: Config, p: Snapshot) {
    p.domain == cfg.domain && p.timezone == cfg.timezone && p.priceCards == cfg.priceCards
  }

  /** The state an operation starts from; None when the load is refused. */
  function Load(cfg: Config, d: Disk): Option<State> {
    if !SnapshotFits(cfg, d.snapshot) || d.journal.None? || d.journal.value.torn then None
    else Replay(cfg, SnapshotState(d.snapshot), d.journal.value.events)
  }

  // ----- appending ------------------------------------------------------------

  function MakeEvent(cfg: Config, s: State, b: Body): Event {
    var content := Content(s.lastSequence + 1, s.lastDigest, cfg.domain, cfg.timezone, b);
    Event(content, Sha(content))
  }

  function WriteLine(d: Disk, e: Event, io: Io): Disk
    requires d.journal.Some?
  {
    match io
    case NotWritten => d
    case TornLine => d.(journal := Some(d.journal.value.(torn := true)))
    case _ => d.(journal := Some(d.journal.value.(events := d.journal.value.events + [e])),
                 history := d.history + [e])
  }

  /** The line is written before the event is applied in memory. */
  function Append(cfg: Config, d: Disk, s: State, b: Body, io: Io): (Disk, Result<State, Error>)
    requires d.journal.Some?
  {
    var e := MakeEvent(cfg, s, b);
    var d' := WriteLine(d, e, io);
    if io != Fine then (d', Err(LedgerUnavailable))
    else
      match Step(s.core, b)
      case None => (d', Err(LedgerUnavailable))
      case Some(core) => (d', Ok(State(core, e.content.sequence, e.digest)))
  }

  // ----- reserving ------------------------------------------------------------

  function SpecScopes(spec: Spec): seq<Scope> {
    [spec.aggregate, spec.provider, spec.route] + if spec.modelScope != "" then [spec.modelScope] else []
  }

  /** What constructing a reservation request enforces. */
  predicate ValidSpec(spec: Spec) {
    spec.aggregate != "" && spec.provider != "" && spec.route != "" && spec.micro > 0
  }

  function ReserveBody(spec: Spec, today: Day, rid: Rid): Body {
    Body(RESERVE, today, spec.aggregate, spec.provider, spec.route, spec.modelScope, spec.key, rid,
         1, spec.micro, 0, 0, 0, 0, Reserved)
  }

  predicate SpecFits(cfg: Config, spec: Spec) {
    spec.domain == cfg.domain && spec.priceCard in cfg.priceCards &&
    (cfg.accounts.None? || spec.account in cfg.accounts.value)
  }

  ghost predicate Exceeds(c: Core, cap: Cap, day: Day, micro: nat, s: Scope) {
    UsageForScope(c, day, s).calls + 1 > cap.calls || UsageForScope(c, day, s).micro + micro > cap.micro
  }

  /** The first scope that stands in the way decides the error. */
  ghost function ScopeRefusal(cfg: Config, c: Core, day: Day, micro: nat, scopes: seq<Scope>): Option<Error> {
    if scopes == [] then None
    else if scopes[0] !in cfg.caps then Some(LedgerUnavailable)
    else if Exceeds(c, cfg.caps[scopes[0]], day, micro, scopes[0]) then Some(BudgetDenied)
    else ScopeRefusal(cfg, c, day, micro, scopes[1..])
  }

  ghost function Refusal(cfg: Config, c: Core, spec: Spec, today: Day): Option<Error> {
    if c.blocked then Some(BudgetDenied)
    else
      match Find(c.idem, today, spec.key)
      case Some(prior) => Some(IdempotencyConflict(prior.status))
      case None => ScopeRefusal(cfg, c, today, spec.micro, SpecScopes(spec))
  }

  ghost function ReserveOp(cfg: Config, d: Disk, spec: Spec, today: Day, rid: Rid, io: Io)
    : (Disk, Result<Reservation, Error>)
  {
    if !SpecFits(cfg, spec) then (d, Err(LedgerUnavailable))
    else
      match Load(cfg, d)
      case None => (d, Err(LedgerUnavailable))
      case Some(s) =>
        match Refusal(cfg, s.core, spec, today)
        case Some(error) => (d, Err(error))
        case None =>
          var (d', written) := Append(cfg, d, s, ReserveBody(spec, today, rid), io);
          match written
          case Err(error) => (d', Err(error))
          case Ok(_) => (d', Ok(Reservation(rid, today, 1, spec.micro, SpecScopes(spec), spec.key)))
  }

  // ----- closing ------------------------------------------------------------

  function SettleBody(record: Body, actual: nat, inputTokens: nat, outputTokens: nat, outcome: Outcome): Body {
    record.(kind := SETTLE, actualCalls := 1, actualMicro := actual,
            inputTokens := inputTokens, outputTokens := outputTokens, outcome := outcome)
  }

  function ReleaseBody(record: Body): Body {
    record.(kind := RELEASE, outcome := Released)
  }

  function UnknownBody(record: Body): Body {
    record.(kind := SETTLE_UNKNOWN, actualCalls := record.reservedCalls, actualMicro := record.reservedMicro,
            outcome := UnknownOutcome)
  }

  function RecoveryBody(record: Body, actual: Option<nat>): Body {
    match actual
    case None => record.(kind := RECOVERY, outcome := Released)
    case Some(micro) => record.(kind := RECOVERY, outcome := Settled, actualCalls := 1, actualMicro := micro)
  }

  function OverageBody(settled: Body): Body {
    settled.(kind := OVERAGE)
  }

  /** A charge above the reservation appends a second event, the overage. */
  function SettleOp(cfg: Config, d: Disk, rid: Rid, actual: int, inputTokens: int, outputTokens: int,
                    outcome: Outcome, io: Io, overageIo: Io): (Disk, Result<(), Error>)
  {
    if actual < 0 || inputTokens < 0 || outputTokens < 0 then (d, Err(LedgerUnavailable))
    else
      match Load(cfg, d)
      case None => (d, Err(LedgerUnavailable))
      case Some(s) =>
        if rid !in s.core.live then (d, Err(LedgerUnavailable))
        else
          AppendSettlement(cfg, d, s, SettleBody(s.core.live[rid], actual, inputTokens, outputTokens, outcome),
                           io, overageIo)
  }

  function AppendSettlement(cfg: Config, d: Disk, s: State, b: Body, io: Io, overageIo: Io)
    : (Disk, Result<(), Error>)
    requires d.journal.Some?
  {
    var (d1, settled) := Append(cfg, d, s, b, io);
    if settled.Err? then (d1, Err(settled.error))
    else if b.actualMicro > b.reservedMicro then
      var (d2, blocked) := Append(cfg, d1, settled.value, OverageBody(b), overageIo);
      if blocked.Err? then (d2, Err(blocked.error)) else (d2, Ok(()))
    else (d1, Ok(()))
  }

  datatype Closing = AsReleased | AsUnknown | AsRecovered(charge: Option<nat>)

  function ClosingBody(record: Body, how: Closing): Body {
    match how
    case AsReleased => ReleaseBody(record)
    case AsUnknown => UnknownBody(record)
    case AsRecovered(charge) => RecoveryBody(record, charge)
  }

  /** The operations that append one event about a live reservation. */
  function CloseWith(cfg: Config, d: Disk, rid: Rid, io: Io, how: Closing): (Disk, Result<(), Error>) {
    match Load(cfg, d)
    case None => (d, Err(LedgerUnavailable))
    case Some(s) =>
      if rid !in s.core.live then (d, Err(LedgerUnavailable))
      else
        var (d', written) := Append(cfg, d, s, ClosingBody(s.core.live[rid], how), io);
        if written.Err? then (d', Err(written.error)) else (d', Ok(()))
  }

  function ReleaseOp(cfg: Config, d: Disk, rid: Rid, io: Io): (Disk, Result<(), Error>) {
    CloseWith(cfg, d, rid, io, AsReleased)
  }

  function SettleUnknownOp(cfg: Config, d: Disk, rid: Rid, io: Io): (Disk, Result<(), Error>) {
    CloseWith(cfg, d, rid, io, AsUnknown)
  }

  /** An operator must either release the reservation or name a charge. */
  function RecoverOp(cfg: Config, d: Disk, rid: Rid, evidenceOk: bool, actual: Option<int>, release: bool, io: Io)
    : (Disk, Result<(), Error>)
  {
    if !evidenceOk || release == actual.Some? || (actual.Some? && actual.value < 0) then
      (d, Err(LedgerUnavailable))
    else
      var charge: Option<nat> := if actual.Some? then Some(actual.value as nat) else None;
      CloseWith(cfg, d, rid, io, AsRecovered(charge))
  }

  // ----- reading ------------------------------------------------------------

  function FlooredDifference(limit: nat, used: nat): nat {
    if used <= limit then limit - used else 0
  }

  ghost function RemainingOp(cfg: Config, d: Disk, scope: Scope, today: Day): Result<Remaining, Error> {
    if scope !in cfg.caps then Err(LedgerUnavailable)
    else
      match Load(cfg, d)
      case None => Err(LedgerUnavailable)
      case Some(s) =>
        var used := UsageForScope(s.core, today, scope);
        var cap := cfg.caps[scope];
        Ok(Remaining(scope, today, FlooredDifference(cap.calls, used.calls), FlooredDifference(cap.micro, used.micro), cap.calls, cap.micro))
  }

  // ----- compacting -----------------------------------------------------------

  function CheckpointBody(day: Day, outcome: Outcome): Body {
    Body(CHECKPOINT, day, "", "", "", "", "", "", 0, 0, 0, 0, 0, 0, outcome)
  }

  function PruneCore(c: Core, day: Day): Core {
    c.(idem := Prune(c.idem, day))
  }

  function SnapshotOf(cfg: Config, s: State): Snapshot {
    Snapshot(cfg.domain, cfg.timezone, cfg.priceCards, s.lastSequence, s.lastDigest, s.core)
  }

  predicate HasArchive(d: Disk, month: Month) {
    exists i :: 0 <= i < |d.archives| && d.archives[i].month == month
  }

  function CheckpointIo(fault: CompactFault): Io {
    if fault.CheckpointFails? then fault.io else Fine
  }

  function OpeningIo(fault: CompactFault): Io {
    if fault.OpeningFails? then fault.io else Fine
  }

  /** Prune, checkpoint, replace the snapshot, archive, rotate, open. The
      snapshot is replaced before the month's archive is looked for. */
  function CompactOp(cfg: Config, d: Disk, pruneDay: Day, eventDay: Day, month: Month, fault: CompactFault)
    : (Disk, Result<Month, Error>)
  {
    match Load(cfg, d)
    case None => (d, Err(LedgerUnavailable))
    case Some(loaded) =>
      var s := loaded.(core := PruneCore(loaded.core, pruneDay));
      var (d1, closed) := Append(cfg, d, s, CheckpointBody(eventDay, Checkpointed), CheckpointIo(fault));
      if closed.Err? then (d1, Err(closed.error))
      else if fault == SnapshotFails(false) then (d1, Err(LedgerUnavailable))
      else
        var d2 := d1.(snapshot := SnapshotOf(cfg, closed.value));
        if fault.SnapshotFails? || HasArchive(d2, month) then (d2, Err(LedgerUnavailable))
        else Rotate(cfg, d2, eventDay, month, fault)
  }

  function Rotate(cfg: Config, d2: Disk, eventDay: Day, month: Month, fault: CompactFault)
    : (Disk, Result<Month, Error>)
    requires d2.journal.Some?
  {
    if fault == ArchiveFails(false) then (d2, Err(LedgerUnavailable))
    else if fault == ArchiveFails(true) then
      // A created but incomplete archive file; what it holds is never read.
      (d2.(archives := d2.archives + [Archive(month, [])]), Err(LedgerUnavailable))
    else
      var d3 := d2.(archives := d2.archives + [Archive(month, d2.journal.value.events)]);
      if fault.RotateFails? && !fault.moved then (d3, Err(LedgerUnavailable))
      else if fault.RotateFails? && !fault.reopened then (d3.(journal := None), Err(LedgerUnavailable))
      else
        var d4 := d3.(journal := Some(Journal([], false)));
        if fault.RotateFails? then (d4, Err(LedgerUnavailable))
        else
          match Load(cfg, d4)
          case None => (d4, Err(LedgerUnavailable))
          case Some(s) =>
            var (d5, begun) := Append(cfg, d4, s, CheckpointBody(eventDay, JournalOpened), OpeningIo(fault));
            if begun.Err? then (d5, Err(begun.error)) else (d5, Ok(month))
  }

  // ----- operations as data, and runs of them ---------------------------------

  datatype Op =
    | Reserve(spec: Spec, today: Day, newId: Rid, io: Io)
    | Settle(rid: Rid, actual: int, inputTokens: int, outputTokens: int, outcome: Outcome, io: Io, overageIo: Io)
    | Release(rid: Rid, io: Io)
    | SettleUnknown(rid: Rid, io: Io)
    | Recover(rid: Rid, evidenceOk: bool, recovered: Option<int>, release: bool, io: Io)
    | RemainingBudget(scope: Scope, today: Day)
    | Compact(pruneDay: Day, eventDay: Day, month: Month, fault: CompactFault)

  datatype Answer =
    | Granted(reservation: Reservation)
    | Done
    | Left(remaining: Remaining)
    | Archived(month: Month)
    | Failed(error: Error)

  ghost function Exec(cfg: Config, d: Disk, op: Op): (Disk, Answer) {
    match op
    case Reserve(spec, today, newId, io) =>
      var (d', r) := ReserveOp(cfg, d, spec, today, newId, io);
      (d', if r.Ok? then Granted(r.value) else Failed(r.error))
    case Settle(rid, actual, inputTokens, outputTokens, outcome, io, overageIo) =>
      var (d', r) := SettleOp(cfg, d, rid, actual, inputTokens, outputTokens, outcome, io, overageIo);
      (d', if r.Ok? then Done else Failed(r.error))
    case Release(rid, io) =>
      var (d', r) := ReleaseOp(cfg, d, rid, io);
      (d', if r.Ok? then Done else Failed(r.error))
    case SettleUnknown(rid, io) =>
      var (d', r) := SettleUnknownOp(cfg, d, rid, io);
      (d', if r.Ok? then Done else Failed(r.error))
    case Recover(rid, evidenceOk, recovered, release, io) =>
      var (d', r) := RecoverOp(cfg, d, rid, evidenceOk, recovered, release, io);
      (d', if r.Ok? then Done else Failed(r.error))
    case RemainingBudget(scope, today) =>
      var r := RemainingOp(cfg, d, scope, today);
      (d, if r.Ok? then Left(r.value) else Failed(r.error))
    case Compact(pruneDay, eventDay, month, fault) =>
      var (d', r) := CompactOp(cfg, d, pruneDay, eventDay, month, fault);
      (d', if r.Ok? then Archived(r.value) else Failed(r.error))
  }
}
