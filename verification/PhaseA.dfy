/**
 * The phase A observer: two candidate builds, four timed checks and the runtime assets, recorded as a
 * row per phase; and, written separately, the report validator that later judges the record.
 */
module PhaseA {
  import opened Basics
  import opened Timing

  datatype Status = NotReached | Success | Failure | Blocked | Poisoned

  datatype Outcome =
    | ObserverEnded | PrerequisiteFailed | Succeeded | Failed | Cancelled | Deadline | NotStarted
    | Postwork | OverBound | CounterFault

  /** One phase row, with the structural counters of a phase that was attempted. */
  datatype Row = Row(status: Status, outcome: Outcome, ms: nat, counters: Option<Counters>)

  const FIRST := 0
  const SECOND := 2
  const RECOVERY := 4
  const EQUALITY := 5
  const PIN := 6
  const POST := 7
  const SETTLEMENT := 8
  const MAX_STAGE_MS := 3_300_000

  datatype Setup =
    | SetupNotReached | FixedInput | RootfsBootstrap | OperationEstablishment | MaterializerDispatch | Complete

  datatype StageStatus = StageNotReached | Attempting | StageSuccess | StageFailure | StageBlocked

  /** A stage row; a timing fault loses it. */
  datatype StageRow = StageRow(status: StageStatus, ms: nat) | Lost

  // ---------------------------------------------------------------- environment

  /** `_begin_operation` returned, or `_materialize_unmasked` was entered. */
  datatype Mark = Began | Materialized

  datatype WorkOutcome = WorkCancelled | WorkDeadline | WorkFailed | WorkNotStarted | WorkSuccess | WorkUnknown

  /** The build's own end: a candidate, its attempt error with an outcome, or another exception. */
  datatype BuildEnd = Built | Attempt(outcome: WorkOutcome) | Broken

  /**
   * One candidate build: whether starting its counters failed, the setup marks it passed, whether a
   * clock or counter fault spoiled its evidence (and as which exception), its end, the results of its
   * outermost cleanups in order, and its times and counters.
   */
  datatype Build = Build(startFault: bool, marks: seq<Mark>, fault: Option<Exit>, end: BuildEnd, cleanups: seq<bool>,
                         workMs: nat, work: Counters, cleanupMs: nat, cleanup: Counters)

  datatype Timed = Passed(ms: nat, counters: Counters) | Missed(ms: nat, counters: Counters) | Spoiled(exit: Exit)

  datatype Script = Script(
    host: Option<Exit>, fixedInput: Option<Exit>, bootstrap: Option<Exit>, tokens: Option<Exit>,
    first: Build, second: Build, equality: Timed, pin: Timed, post: Timed, settlement: Timed,
    assets: Option<Exit>, cacheMs: nat, runtimeMs: nat)

  predicate Interrupts(e: Option<Exit>) {
    e.Some? ==> e.value != Completed
  }

  predicate TimedInRange(t: Timed) {
    match t
    case Passed(ms, counters) => ms <= MAX_PHASE_MS && ValidCounters(counters)
    case Missed(ms, counters) => ms <= MAX_PHASE_MS && ValidCounters(counters)
    case Spoiled(e) => e != Completed
  }

  predicate BuildInRange(b: Build) {
    && Interrupts(b.fault)
    && b.workMs <= MAX_PHASE_MS
    && b.cleanupMs <= MAX_PHASE_MS
    && ValidCounters(b.work)
    && ValidCounters(b.cleanup)
  }

  /** Elapsed times outside the clock's range are faults, not values; exceptions are not normal ends. */
  predicate ValidScript(x: Script) {
    && Interrupts(x.host) && Interrupts(x.fixedInput) && Interrupts(x.bootstrap) && Interrupts(x.tokens)
    && Interrupts(x.assets) && BuildInRange(x.first) && BuildInRange(x.second)
    && TimedInRange(x.equality) && TimedInRange(x.pin) && TimedInRange(x.post) && TimedInRange(x.settlement)
  }

  // ---------------------------------------------------------------- what one build leaves

  function SetupAfter(marks: seq<Mark>, start: Setup): Setup {
    if marks == [] then start
    else if marks[|marks| - 1] == Materialized then Complete
    else MaterializerDispatch
  }

  /** A tracked build that never got as far as materialising leaves no phase row. */
  predicate Unmaterialized(b: Build, tracked: bool) {
    tracked && SetupAfter(b.marks, OperationEstablishment) != Complete
  }

  predicate Unrecorded(b: Build, tracked: bool) {
    Unmaterialized(b, tracked) || b.end == Attempt(WorkUnknown)
  }

  function WorkStatus(b: Build, tracked: bool): Status {
    if b.startFault || b.fault.Some? then Poisoned
    else if Unrecorded(b, tracked) then NotReached
    else if b.end.Built? then Success else Failure
  }

  function CleanupStatus(b: Build, tracked: bool): Status {
    if b.startFault then NotReached
    else if b.fault.Some? then Poisoned
    else if Unrecorded(b, tracked) then NotReached
    else if b.cleanups == [] then Blocked
    else if false in b.cleanups then Failure else Success
  }

  function BuildExit(b: Build, tracked: bool): Exit {
    if b.startFault then Stopped
    else if b.fault.Some? then b.fault.value
    else if Unrecorded(b, tracked) || !b.end.Built? || b.cleanups != [true] then Stopped
    else Completed
  }

  function WorkCategory(end: BuildEnd): Outcome {
    match end
    case Built => Succeeded
    case Broken => Failed
    case Attempt(outcome) =>
      match outcome
      case WorkCancelled => Cancelled
      case WorkDeadline => Deadline
      case WorkFailed => Failed
      case WorkNotStarted => NotStarted
      case WorkSuccess => Postwork
      case WorkUnknown => CounterFault
  }

  // ---------------------------------------------------------------- the report validator

  predicate RowValid(r: Row) {
    && !r.status.Poisoned? && !r.outcome.CounterFault? && r.ms <= MAX_PHASE_MS
    && (r.status == Success <==> r.outcome == Succeeded)
    && (r.status == Blocked <==> r.outcome == PrerequisiteFailed)
    && (r.status == NotReached <==> r.outcome == ObserverEnded)
    && (r.status == Blocked || r.status == NotReached ==> r.ms == 0)
    && (r.counters.Some? <==> r.status == Success || r.status == Failure)
    && (r.counters.Some? ==> ValidCounters(r.counters.value))
  }

  function Repeat(s: Status, n: nat): (r: seq<Status>)
    ensures |r| == n && forall i :: 0 <= i < n ==> r[i] == s
  {
    seq(n, i => s)
  }

  /** `_allowed_observation_statuses`, pattern by pattern. */
  function AllowedStatuses(): set<seq<Status>> {
    Unstopped() + FirstStopped() + SecondStopped() + CheckStopped()
  }

  /** Nothing failed as far as the run went. */
  function Unstopped(): set<seq<Status>> {
    {Repeat(NotReached, 8)}
    + (set n | n in {2, 4, 5, 6, 7} :: Repeat(Success, n) + Repeat(NotReached, 8 - n))
    + {Repeat(Success, 8)}
  }

  function FirstStopped(): set<seq<Status>> {
    (set c | c in {Blocked, Success, Failure} :: [Failure, c] + Repeat(Blocked, 6))
    + (set c | c in {Blocked, Failure} :: [Success, c] + Repeat(Blocked, 6))
  }

  function SecondStopped(): set<seq<Status>> {
    (set c | c in {Blocked, Success, Failure} :: [Success, Success, Failure, c] + Repeat(Blocked, 4))
    + (set c | c in {Blocked, Failure} :: [Success, Success, Success, c] + Repeat(Blocked, 4))
  }

  function CheckStopped(): set<seq<Status>> {
    set n | n in {4, 5, 6, 7} :: Repeat(Success, n) + [Failure] + Repeat(Blocked, 7 - n)
  }

  /** The eight observation phases of a nine-row record, recovery left out. */
  function Observed(rows: seq<Row>): (v: seq<Status>)
    requires |rows| == 9
    ensures |v| == 8
  {
    [rows[0].status, rows[1].status, rows[2].status, rows[3].status,
     rows[5].status, rows[6].status, rows[7].status, rows[8].status]
  }

  predicate PhaseGraphValid(rows: seq<Row>, rootfs: bool) {
    && |rows| == 9
    && (forall i :: 0 <= i < 9 ==> RowValid(rows[i]))
    && Observed(rows) in AllowedStatuses()
    && rows[RECOVERY].status != Blocked
    && (rows[SETTLEMENT].status == Success <==> rootfs)
    && (rootfs ==> Observed(rows) == Repeat(Success, 8))
  }

  predicate StageRowValid(r: StageRow) {
    r.StageRow? && r.status != Attempting && r.ms <= MAX_STAGE_MS
    && (r.status == StageBlocked || r.status == StageNotReached ==> r.ms == 0)
  }

  predicate Prephase(setup: Setup) {
    setup == RootfsBootstrap || setup == OperationEstablishment || setup == MaterializerDispatch
  }

  function RuntimeAfterCache(cache: StageStatus): set<StageStatus> {
    match cache
    case StageSuccess => {StageSuccess, StageFailure, StageBlocked, StageNotReached}
    case StageFailure => {StageBlocked}
    case StageBlocked => {StageBlocked}
    case StageNotReached => {StageNotReached}
    case Attempting => {}
  }

  predicate SetupBoundary(setup: Setup, cache: StageStatus, first: Status) {
    match setup
    case SetupNotReached => (cache == StageBlocked || cache == StageNotReached) && first == NotReached
    case FixedInput => cache == StageFailure && first == NotReached
    case Complete => cache == StageSuccess && (first == Success || first == Failure)
    case _ => cache == StageSuccess && first == NotReached
  }

  function AllowedRuntime(rows: seq<Row>, cache: StageStatus, setup: Setup): set<StageStatus>
    requires |rows| == 9
  {
    if rows[SETTLEMENT].status == Success then {StageSuccess, StageFailure, StageNotReached}
    else if cache == StageFailure || cache == StageBlocked
      || (exists i :: 0 <= i < 9 && (rows[i].status == Failure || rows[i].status == Blocked))
      || Prephase(setup)
    then {StageBlocked} else {StageNotReached}
  }

  /** The stage, setup and phase part of `_canonical_report`. */
  predicate ReportAccepts(rows: seq<Row>, rootfs: bool, setup: Setup, cache: StageRow, runtime: StageRow, assets: nat) {
    && StageRowValid(cache) && StageRowValid(runtime)
    && runtime.status in RuntimeAfterCache(cache.status)
    && (runtime.status == StageBlocked || runtime.status == StageNotReached ==> assets == 0)
    && (runtime.status == StageSuccess ==> assets == 2)
    && PhaseGraphValid(rows, rootfs)
    && SetupBoundary(setup, cache.status, rows[FIRST].status)
    && runtime.status in AllowedRuntime(rows, cache.status, setup)
  }

  // ---------------------------------------------------------------- rendering

  /** The recovery attempt that cleanup recorded. */
  datatype Recovery = Recovery(outcome: RecoveryOutcome, ms: nat, counters: Counters)

  datatype RecoveryOutcome = RecoverySuccess | RecoveryOverBound | RecoveryNondeadline

  function RecoveryRow(a: Recovery): Row {
    match a.outcome
    case RecoverySuccess => Row(Success, Succeeded, a.ms, Some(a.counters))
    case RecoveryOverBound => Row(Failure, OverBound, a.ms, Some(a.counters))
    case RecoveryNondeadline => Row(Failure, Failed, a.ms, Some(a.counters))
  }

  /** `_merge_recovery_attempt`; cleanup may have left no usable attempt, and then nothing is merged. */
  function Merged(rows: seq<Row>, rootfs: bool, attempt: Option<Recovery>): seq<Row>
    requires |rows| == 9
  {
    if attempt.None? || rows[RECOVERY].status != NotReached then rows
    else
      var merged := rows[RECOVERY := RecoveryRow(attempt.value)];
      if PhaseGraphValid(merged, rootfs) then merged else rows
  }

  const EMPTY_ROW := Row(NotReached, ObserverEnded, 0, None)

  /** The rows `_render` starts from: a record whose phases do not validate is replaced by an empty one. */
  function Rendered(rows: seq<Row>, rootfs: bool): (seq<Row>, bool) {
    if PhaseGraphValid(rows, rootfs) then (rows, rootfs) else (seq(9, i => EMPTY_ROW), false)
  }

  /** `_render` up to its own call of the validator: stage rows, setup and assets are taken over. */
  predicate RenderAccepts(rows: seq<Row>, rootfs: bool, setup: Setup, cache: StageRow, runtime: StageRow, assets: nat,
                          attempt: Option<Recovery>)
  {
    var (phases, present) := Rendered(rows, rootfs);
    |phases| == 9 && ReportAccepts(Merged(phases, present, attempt), present, setup, cache, runtime, assets)
  }
}
