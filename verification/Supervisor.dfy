/**
 * The parent's supervision of the helper and of namespace PID 1: one loop that drains the result
 * pipe and the control channel, reaps both processes, and decides what may be believed afterwards.
 */
module Supervisor {
  import opened Basics
  import opened Control
  import Frames

  const NS := 1_000_000_000
  const REAP_SECONDS := 15
  const POST_KILL_REAP_SECONDS := 5
  const TENTH := NS / 10

  /** What the supervisor is started with. */
  datatype Config = Config(
    helperFd: Option<nat>, helperPid: int, pid1Fd: Option<nat>,
    workDeadline: int, settlement: int,
    initialError: Option<Error>, initialNoPid1: bool,
    startClock: int, blocking: seq<PlainError>)

  /** A lost helper pidfd, or the claim that PID 1 never existed, always comes with an error. */
  predicate ValidConfig(c: Config) {
    c.helperFd.None? || c.initialNoPid1 ==> c.initialError.Some?
  }

  type AdoptedError = c: CleanupError | c.stage.Adopted? witness CleanupError(Adopted(""), System(0))

  /** The outcome of killing and reaping processes adopted from the namespace. */
  datatype Drain = Drain(status: Option<Status>, empty: bool, errors: seq<AdoptedError>)

  datatype Poll = Ready(result: bool, control: bool, pid1: bool) | PollFailed(error: PlainError)
  datatype Pipe = PipeBlocked | PipeFailed(error: PlainError) | Chunk(bytes: Bytes)
  datatype Packet = NoPacket | ReceiveFailed(error: PlainError) | Arrived(datagram: Datagram)
  datatype Wait = Pending | Ended(status: Status) | NoChild | WaitFailed(error: PlainError)

  /**
   * Everything the environment answers during one pass of the loop: three clock readings (the loop
   * test, `now`, and the one taken by the first `work` call), each system call's outcome, and an
   * optional exception escaping after one of the pass's numbered sections.
   */
  datatype Pass = Pass(
    clock: int, now: int, at: int,
    pid1Kill: Option<PlainError>, helperKill: Option<PlainError>,
    topDrain: Drain, poll: Poll, pipe: Pipe, packet: Packet,
    helperWait: Wait, pid1Wait: Wait, lateDrain: Drain, fault: Option<(nat, PlainError)>)

  datatype Event = Pid1Signalled(at: int) | HelperSignalled(at: int) | HelperGone

  /** The result pipe: the kept bytes, every byte ever read, and how the reading ended. */
  datatype Intake = Intake(raw: Bytes, stream: Bytes, oversize: bool, eof: bool)

  /**
   * Descriptors received on the control channel: the one held for PID 1, each one received and each
   * attempt to close one; `failed` counts failed closes and `dropped` those whose report was discarded.
   */
  datatype Rights = Rights(pid1Fd: Option<nat>, got: multiset<nat>, shut: multiset<nat>,
                           failed: nat, dropped: nat)

  /** What is known about the helper and PID 1, and the order of signals and the helper's reap. */
  datatype Processes = Processes(
    controlEof: bool, pid1Terminal: bool, helperReaped: bool, noPid1: bool,
    helperInfo: Option<Status>, pid1Report: Option<Status>, adoptedPid1: Option<Status>,
    descendantsEmpty: bool, events: seq<Event>)

  /**
   * The first work error, the cleanup errors in order, and the deadlines: settlement, the time from
   * which the processes are killed, the last time for a signal, and the earliest for the next one.
   */
  datatype Errors = Errors(work: Option<Error>, cleanup: seq<CleanupError>,
                           settlement: int, force: int, until: int, next: int)

  /** The loop's variables. */
  datatype State = State(pipe: Intake, proc: Processes, rights: Rights, err: Errors)

  function One(fd: Option<nat>): multiset<nat> {
    if fd.Some? then multiset{fd.value} else multiset{}
  }

  function Failures(stage: Stage, outcome: Option<Error>): seq<CleanupError> {
    if outcome.Some? then [CleanupError(stage, outcome.value)] else []
  }

  /** The close failures carried inside a work error. */
  function Carried(e: Option<Error>): nat {
    if e.Some? && e.value.Uncertain? then |e.value.cleanup| else 0
  }

  // ---------------------------------------------------------------- sections of one pass

  /** `reserve_reap_time`: signals stop early enough before settlement to leave time for reaping. */
  function SignalUntil(settlement: int, force: int): int {
    var window := Max(0, settlement - force);
    Max(force, settlement - Min(NS, Max(TENTH, window / 5)))
  }

  /** `work`: the first error is kept, brings the settlement deadline forward and starts the killing. */
  function Note(r: Errors, e: Error, at: int): Errors {
    if r.work.Some? then r
    else
      var settlement, force := Min(r.settlement, at + REAP_SECONDS * NS), Min(r.force, at);
      Errors(Some(e), r.cleanup, settlement, force, SignalUntil(settlement, force), Min(r.next, force))
  }

  function Listed(r: Errors, more: seq<CleanupError>): Errors {
    r.(cleanup := r.cleanup + more)
  }

  function Work(s: State, e: Error, at: int): State {
    s.(err := Note(s.err, e, at))
  }

  predicate Pid1Done(s: State) {
    s.proc.noPid1 || s.proc.adoptedPid1.Some?
    || (s.proc.pid1Report.Some? && (s.proc.pid1Terminal || s.rights.pid1Fd.None?))
    || (s.proc.pid1Terminal && s.proc.helperReaped && s.proc.controlEof)
  }

  predicate Quiet(s: State) {
    s.proc.helperReaped && s.pipe.eof && s.proc.controlEof && Pid1Done(s)
  }

  function Adopt(k: Processes, d: Drain): Processes {
    k.(descendantsEmpty := d.empty, adoptedPid1 := if d.status.Some? then d.status else k.adoptedPid1)
  }

  function Drained(s: State, d: Drain): State {
    s.(proc := Adopt(s.proc, d), err := Listed(s.err, d.errors))
  }

  /** A drain that finds PID 1's status also counts PID 1 as terminal. */
  function DrainedTerminal(s: State, d: Drain): State {
    var t := Drained(s, d);
    t.(proc := t.proc.(pid1Terminal := t.proc.pid1Terminal || d.status.Some?))
  }

  function Settle(s: State, p: Pass): State {
    if Quiet(s) then Drained(s, p.topDrain) else s
  }

  function SignalPid1(s: State, kill: Option<Error>, at: int): State {
    if !s.proc.pid1Terminal && s.proc.adoptedPid1.None? && !s.proc.noPid1 && s.rights.pid1Fd.Some? then
      s.(proc := s.proc.(events := s.proc.events + [Pid1Signalled(at)]),
         err := Listed(s.err, Failures(Pid1Signal, kill)))
    else s
  }

  function SignalHelper(s: State, c: Config, kill: Option<Error>, at: int): State {
    if !s.proc.helperReaped && (c.helperFd.Some? || c.helperPid > 0) then
      s.(proc := s.proc.(events := s.proc.events + [HelperSignalled(at)]),
         err := Listed(s.err, Failures(HelperSignal, kill)))
    else s
  }

  function Signal(s: State, c: Config, pid1Kill: Option<Error>, helperKill: Option<Error>, at: int): State {
    SignalHelper(SignalPid1(s, pid1Kill, at), c, helperKill, at)
  }

  /** The errors after the deadlines were looked at: past the force time there is one. */
  function Overdue(r: Errors, c: Config, p: Pass): Errors {
    var r1 := if p.now >= c.workDeadline then Note(r, Native(ChildDeadline), p.at) else r;
    if p.now >= r1.force then Note(r1, Native(SettlementDeadline), p.at) else r1
  }

  predicate SignalDue(r: Errors, now: int) {
    r.force <= now && r.next <= now <= r.until
  }

  function Deadlines(s: State, c: Config, p: Pass): State {
    var s1 := s.(err := Overdue(s.err, c, p));
    if SignalDue(s1.err, p.now) then
      var s2 := Signal(s1, c, p.pid1Kill, p.helperKill, p.now);
      s2.(err := s2.err.(next := p.now + TENTH))
    else s1
  }

  function Polled(s: State, p: Pass): State {
    if p.poll.PollFailed? then Work(s, p.poll.error, p.at) else s
  }

  predicate Oversize(i: Intake, bytes: Bytes) {
    |i.raw| + |bytes| > Frames.MAX_PROTOCOL_BYTES + 4
  }

  function Take(i: Intake, bytes: Bytes): Intake {
    if bytes == [] then i.(eof := true)
    else if Oversize(i, bytes) then Intake([], i.stream + bytes, true, i.eof)
    else Intake(if i.oversize then i.raw else i.raw + bytes, i.stream + bytes, i.oversize, i.eof)
  }

  function ReadPipe(s: State, p: Pass): State {
    if s.pipe.eof || !(p.poll.PollFailed? || p.poll.result) then s
    else
      match p.pipe
      case PipeBlocked => s
      case PipeFailed(e) => Work(s, e, p.at)
      case Chunk(bytes) =>
        s.(pipe := Take(s.pipe, bytes),
           err := if bytes != [] && Oversize(s.pipe, bytes)
                  then Note(s.err, Native(OversizeResult), p.at) else s.err)
  }

  /** Rights received and closed in the same step. */
  function Retired(r: Rights, rights: multiset<nat>, failures: nat, lost: nat): Rights {
    Rights(r.pid1Fd, r.got + rights, r.shut + rights, r.failed + failures, r.dropped + lost)
  }

  /** A refused datagram: every right it carried is closed; the close failures travel in the error. */
  function Refuse(s: State, d: Datagram, e: Error, failures: seq<CleanupError>, at: int): State {
    s.(rights := Retired(s.rights, multiset(d.rights), |failures|,
                         if s.err.work.Some? then |failures| else 0),
       err := Note(s.err, e, at))
  }

  function DisownFailures(d: Datagram, right: Option<nat>): seq<CleanupError> {
    if right.Some? then Failures(RejectedRightClose, CloseOutcome(d, 0)) else []
  }

  /** A packet that does not validate: its right, if any, is closed and the failure is listed. */
  function Disown(s: State, d: Datagram, right: Option<nat>, e: Error, at: int): State {
    var failures := DisownFailures(d, right);
    s.(rights := Retired(s.rights, One(right), |failures|, 0),
       err := Listed(Note(s.err, e, at), failures))
  }

  function Act(s: State, d: Datagram, right: Option<nat>, action: Action, at: int): State {
    match action
    case Reject(e) => Disown(s, d, right, e, at)
    case GotPid1(fd) => s.(rights := s.rights.(pid1Fd := Some(fd), got := s.rights.got + multiset{fd}))
    case Eof => s.(proc := s.proc.(controlEof := true))
    case Pid1Exit(status) => s.(proc := s.proc.(pid1Report := Some(status)))
    case NoPid1(stage, reason) =>
      s.(proc := s.proc.(noPid1 := true), err := Note(s.err, HelperFailed(stage, reason), at))
    case HelperFault(stage, reason) => Work(s, HelperFailed(stage, reason), at)
  }

  function ReadControl(s: State, p: Pass): State {
    if s.proc.controlEof || !(p.poll.PollFailed? || p.poll.control) then s
    else
      match p.packet
      case NoPacket => s
      case ReceiveFailed(e) => Work(s, e, p.at)
      case Arrived(d) =>
        match Receive(d)
        case Refused(e, failures) => Refuse(s, d, e, failures, p.at)
        case Accepted(raw, right) =>
          Act(s, d, right, Classify(raw, right, d.valid, s.rights.pid1Fd.None?), p.at)
  }

  /**
   * PID 1 counts as terminal when its pidfd was in the ready set. After a failed poll the source
   * takes every descriptor as ready, including an absent PID 1 pidfd.
   */
  function MarkPid1(s: State, polled: Option<nat>, p: Pass): State {
    if s.rights.pid1Fd == polled && (p.poll.PollFailed? || (polled.Some? && p.poll.pid1)) then
      s.(proc := s.proc.(pid1Terminal := true))
    else s
  }

  function HelperGoneWith(k: Processes, info: Option<Status>): Processes {
    k.(helperInfo := info, helperReaped := true, events := k.events + [HelperGone])
  }

  function ReapHelper(s: State, c: Config, p: Pass): State {
    if s.proc.helperReaped || (c.helperFd.None? && c.helperPid <= 0) then s
    else
      match p.helperWait
      case Pending => s
      case Ended(status) => s.(proc := HelperGoneWith(s.proc, Some(status)))
      case NoChild =>
        s.(proc := HelperGoneWith(s.proc, None),
           err := if c.helperFd.Some?
                  then Listed(s.err, [CleanupError(HelperReap, Native(NoChildToReap))]) else s.err)
      case WaitFailed(e) => Work(s, e, p.at)
  }

  function ReapPid1(s: State, p: Pass): State {
    if s.proc.helperReaped && s.proc.pid1Terminal && s.proc.adoptedPid1.None? then
      match p.pid1Wait
      case Ended(status) => s.(proc := s.proc.(adoptedPid1 := Some(status)))
      case WaitFailed(e) => s.(err := Listed(s.err, [CleanupError(AdoptedPid1Reap, e)]))
      case Pending => s
      case NoChild => s
    else s
  }

  predicate Unreported(k: Processes) {
    k.helperReaped && k.controlEof && !k.noPid1 && k.pid1Report.None? && k.adoptedPid1.None?
  }

  function MissingReport(s: State, p: Pass): State {
    if Unreported(s.proc) then
      var s1 := Work(s, Native(NoSettlementReport), p.at);
      if s1.rights.pid1Fd.None? then DrainedTerminal(s1, p.lateDrain) else s1
    else s
  }

  // ---------------------------------------------------------------- one pass, all passes

  datatype Next = Continue(state: State) | Leave(state: State)

  predicate Cut(p: Pass, section: nat) {
    p.fault.Some? && p.fault.value.0 == section
  }

  /** An exception that escapes a section ends the loop as a work error. */
  function Escape(s: State, p: Pass): Next
    requires p.fault.Some?
  {
    Leave(Work(s, p.fault.value.1, p.at))
  }

  function Round(s: State, c: Config, p: Pass): Next {
    if p.clock >= s.err.settlement then Leave(s)
    else
      var s1 := Settle(s, p);
      if Quiet(s) && s1.proc.descendantsEmpty then Leave(s1)
      else if Cut(p, 1) then Escape(s1, p)
      else Exchange(Deadlines(s1, c, p), c, p)
  }

  function Exchange(s: State, c: Config, p: Pass): Next {
    if Cut(p, 2) then Escape(s, p) else Hearing(ReadPipe(Polled(s, p), p), c, p)
  }

  function Hearing(s: State, c: Config, p: Pass): Next {
    if Cut(p, 3) then Escape(s, p)
    else
      var s1 := MarkPid1(ReadControl(s, p), s.rights.pid1Fd, p);
      if Cut(p, 4) then Escape(s1, p) else Reaping(s1, c, p)
  }

  function Reaping(s: State, c: Config, p: Pass): Next {
    var s1 := ReapHelper(s, c, p);
    if Cut(p, 5) then Escape(s1, p)
    else
      var s2 := ReapPid1(s1, p);
      if Cut(p, 6) then Escape(s2, p) else Continue(MissingReport(s2, p))
  }

  function Rounds(s: State, c: Config, script: seq<Pass>): State
    decreases |script|
  {
    if script == [] then s
    else
      match Round(s, c, script[0])
      case Leave(s') => s'
      case Continue(s') => Rounds(s', c, script[1..])
  }

  function Blocking(s: State, errors: seq<PlainError>, at: int): State
    decreases |errors|
  {
    if errors == [] then s else Blocking(Work(s, errors[0], at), errors[1..], at)
  }

  /** The deadlines a run starts with; an error handed in brings them all forward. */
  function StartErrors(c: Config): Errors {
    var reserve := Min(POST_KILL_REAP_SECONDS * NS, Max(TENTH, (c.settlement - c.workDeadline) / 2));
    var settlement :=
      if c.initialError.Some? then Min(c.settlement, c.startClock + REAP_SECONDS * NS) else c.settlement;
    var force := if c.initialError.Some? then c.startClock else Max(c.startClock, c.settlement - reserve);
    Errors(c.initialError, [], settlement, force, SignalUntil(settlement, force), force)
  }

  function Start(c: Config): State {
    var s := State(
      Intake([], [], false, false),
      Processes(false, false, false, c.initialNoPid1, None, None, None, false, []),
      Rights(c.pid1Fd, One(c.pid1Fd), multiset{}, Carried(c.initialError), 0),
      StartErrors(c));
    Blocking(s, c.blocking, c.startClock)
  }

  // ---------------------------------------------------------------- after the loop

  /** The environment's answers while the supervisor winds up. */
  datatype Closing = Closing(
    now: int, pid1Kill: Option<PlainError>, helperKill: Option<PlainError>, drain: Drain,
    result: Option<PlainError>, control: Option<PlainError>,
    pid1: Option<PlainError>, helper: Option<PlainError>)

  function LastResort(s: State, c: Config, f: Closing): State {
    if Quiet(s) && s.proc.descendantsEmpty then s
    else DrainedTerminal(if f.now <= s.err.until then Signal(s, c, f.pid1Kill, f.helperKill, f.now) else s, f.drain)
  }

  function Unproved(holds: bool, stage: Stage, why: Reason): seq<CleanupError> {
    if holds then [] else [CleanupError(stage, Native(why))]
  }

  function Residue(s: State): seq<CleanupError> {
    Unproved(s.proc.helperReaped, HelperNotReaped, NotReaped)
    + Unproved(Pid1Done(s), Pid1Unsettled, TeardownUnproved)
    + Unproved(s.proc.descendantsEmpty, DescendantsRemain, DescendantsLeft)
    + Unproved(s.pipe.eof, PipeOpen, PipeNotClosed)
    + Unproved(s.proc.controlEof, ControlOpen, ControlNotClosed)
  }

  function Pid1CloseFailures(r: Rights, f: Closing): seq<CleanupError> {
    if r.pid1Fd.Some? then Failures(Pid1Close, f.pid1) else []
  }

  function CloseFailures(r: Rights, c: Config, f: Closing): seq<CleanupError> {
    Failures(ResultClose, f.result) + Failures(ControlClose, f.control) + Pid1CloseFailures(r, f)
    + (if c.helperFd.Some? then Failures(HelperClose, f.helper) else [])
  }

  function CloseAll(s: State, c: Config, f: Closing): State {
    s.(rights := s.rights.(shut := s.rights.shut + One(s.rights.pid1Fd),
                           failed := s.rights.failed + |Pid1CloseFailures(s.rights, f)|),
       err := Listed(s.err, CloseFailures(s.rights, c, f)))
  }

  function WindUp(s: State, c: Config, f: Closing): State {
    var s1 := LastResort(s, c, f);
    CloseAll(s1.(err := Listed(s1.err, Residue(s1))), c, f)
  }

  /** The PID 1 status that is judged: the helper's report when there is one, else the adopted one. */
  function Terminal(k: Processes): Option<Status> {
    if k.pid1Report.Some? then k.pid1Report else k.adoptedPid1
  }

  /** The errors found after the loop, in the order in which they are offered to `work`. */
  function HelperVerdict(k: Processes): Option<Error> {
    if k.helperInfo.Some? && k.helperInfo.value != CLEAN_EXIT then Some(Native(HelperStatus)) else None
  }

  function Pid1Verdict(terminal: Option<Status>, frame: Option<Frames.Frame>): Option<Error> {
    var child := frame.Some? && frame.value.ChildFailure?;
    if terminal.Some? && terminal.value != CLEAN_EXIT then
      if child && terminal.value == Status(CLD_EXITED, 1)
      then Some(ChildFailed(frame.value.stage, frame.value.category))
      else Some(Native(Pid1Status))
    else if child then
      Some(Native(if terminal.Some? then ErrorFrameZeroStatus else ErrorFrameMissingStatus))
    else if frame.Some? && frame.value.Malformed? then Some(Native(MalformedResult))
    else None
  }

  function Verdict(s: State, frame: Option<Frames.Frame>): Option<Error> {
    var pid1 := Pid1Verdict(Terminal(s.proc), frame);
    if s.err.work.Some? then s.err.work
    else if HelperVerdict(s.proc).Some? then HelperVerdict(s.proc)
    else if pid1.Some? then pid1
    else if s.pipe.raw == [] then Some(Native(MissingFrame))
    else None
  }

  predicate Settled(s: State) {
    && s.proc.helperReaped && s.pipe.eof && s.proc.controlEof && s.proc.descendantsEmpty
    && (s.proc.noPid1 || s.proc.adoptedPid1.Some?
        || (s.proc.pid1Report.Some? && (s.proc.pid1Terminal || s.rights.pid1Fd.None?))
        || s.proc.pid1Terminal)
  }

  datatype Outcome = Outcome(result: Option<Bytes>, workError: Option<Error>,
                             cleanup: seq<CleanupError>, settled: bool)

  function Judge(s: State): Outcome {
    var frame := if s.pipe.raw != [] && !s.pipe.oversize then Some(Frames.ParseFrame(s.pipe.raw)) else None;
    Outcome(if frame.Some? && frame.value.Payload? then Some(frame.value.payload) else None,
            Verdict(s, frame), s.err.cleanup, Settled(s))
  }

  /** The supervisor's last state over a whole run. */
  function Final(c: Config, script: seq<Pass>, f: Closing): State {
    WindUp(Rounds(Start(c), c, script), c, f)
  }

  /** `_supervise_candidate` as the loop it is. */
  method Supervise(c: Config, script: seq<Pass>, f: Closing) returns (outcome: Outcome)
    ensures outcome == Judge(Final(c, script, f))
  {
    var s := Start(c);
    var i := 0;
    var running := true;
    while running && i < |script|
      invariant i <= |script|
      invariant Rounds(Start(c), c, script) == if running then Rounds(s, c, script[i..]) else s
      decreases |script| - i
    {
      assert script[i..][0] == script[i] && script[i..][1..] == script[i + 1..];
      match Round(s, c, script[i]) {
        case Leave(s') => s, running := s', false;
        case Continue(s') => s := s';
      }
      i := i + 1;
    }
    if running {
      assert script[i..] == [];
    }
    s := LastResort(s, c, f);
    s := s.(err := Listed(s.err, Residue(s)));
    s := CloseAll(s, c, f);
    outcome := Judge(s);
  }
}
