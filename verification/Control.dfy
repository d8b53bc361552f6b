/** Packets of the helper's control channel: receiving, classifying, and owning passed descriptors. */
module Control {
  import opened Basics
  import opened Decimals
  import opened Separated

  /** A terminal wait status: how the process ended, and its exit status or signal. */
  datatype Status = Status(code: nat, value: nat)

  const CLD_EXITED := 1
  const CLD_KILLED := 2
  const CLD_DUMPED := 3
  const NSIG := 65
  const CLEAN_EXIT := Status(CLD_EXITED, 0)

  /** The source's fixed diagnostics. */
  datatype Reason =
    | MalformedPid1Report | Pid1FdMissingOrDuplicate | WrongPidfd
    | EofCarriedRight | ReportCarriedRight | MalformedExitReport | MalformedHelperError
    | UnexpectedPacket | TruncatedPacket | ForeignAncillary | MultipleRights
    | ChildDeadline | SettlementDeadline | OversizeResult | NoChildToReap | NoSettlementReport
    | NotReaped | TeardownUnproved | DescendantsLeft | PipeNotClosed | ControlNotClosed
    | HelperStatus | Pid1Status | ErrorFrameZeroStatus | ErrorFrameMissingStatus
    | MalformedResult | MissingFrame
    | PreGateClosure | MalformedReady | GateTimeout | HelperExitedEarly | HelperInvalid
    | GateEof | ChildAbsenceUnproved | ResultAbsent

  datatype Error =
    | Native(why: Reason)
    | ChildFailed(childStage: Bytes, category: Bytes)
    | HelperFailed(stage: string, reason: string)
    | Uncertain(work: Error, cleanup: seq<CleanupError>)
    | System(errno: int)

  /** Where a cleanup failure happened. */
  datatype Stage =
    | RejectedRightClose
    | Pid1Signal | HelperSignal | HelperReap | AdoptedPid1Reap | Adopted(detail: string)
    | HelperNotReaped | Pid1Unsettled | DescendantsRemain | PipeOpen | ControlOpen
    | ResultClose | ControlClose | Pid1Close | HelperClose
    | ParentClose(index: nat) | LaunchClose(index: nat) | SubreaperRestore
    | Suppressed | RetainedCleanup | CacheCleanup | ResidueCheck

  datatype CleanupError = CleanupError(stage: Stage, error: Error)

  /** An error raised by the system or by a check, never an aggregate. */
  type PlainError = e: Error | !e.Uncertain? witness System(0)

  datatype Action =
    | GotPid1(fd: nat)
    | Eof
    | Pid1Exit(status: Status)
    | NoPid1(stage: string, reason: string)
    | HelperFault(stage: string, reason: string)
    | Reject(error: PlainError)

  const PID1_FD := "PID1-FD:"
  const PID1_EXIT := "PID1-EXIT"
  const NO_PID1 := "HELPER-NO-PID1-ERROR"
  const HELPER_ERROR := "HELPER-ERROR"

  predicate IsTokenChar(c: char) {
    'A' <= c <= 'Z' || 'a' <= c <= 'z' || IsDigit(c) || c == '_' || c == '-'
  }

  predicate IsToken(t: string) {
    1 <= |t| <= 64 && forall i :: 0 <= i < |t| ==> IsTokenChar(t[i])
  }

  predicate IsAscii(s: string) {
    forall i :: 0 <= i < |s| ==> s[i] < 128 as char
  }

  predicate TerminalStatus(s: Status) {
    (s.code == CLD_EXITED && s.value <= 255)
    || ((s.code == CLD_KILLED || s.code == CLD_DUMPED) && 0 < s.value < NSIG)
  }

  function ErrorTokens(packet: string, prefix: string): Option<(string, string)> {
    var parts := Split(packet, ':');
    if IsAscii(packet) && |parts| == 3 && parts[0] == prefix && IsToken(parts[1]) && IsToken(parts[2])
    then Some((parts[1], parts[2])) else None
  }

  function ExitStatus(packet: string): Option<Status> {
    var parts := Split(packet, ':');
    if IsAscii(packet) && |parts| == 3 && AllDigits(parts[1]) && AllDigits(parts[2]) then
      var status := Status(Number(parts[1]), Number(parts[2]));
      if TerminalStatus(status) then Some(status) else None
    else None
  }

  /**
   * The supervisor's reading of one packet. `valid` is the outcome of checking the passed pidfd
   * against /proc; `available` says that no PID 1 pidfd is held yet.
   */
  function Classify(packet: string, right: Option<nat>, valid: bool, available: bool): Action {
    if PID1_FD <= packet then
      if !AllDigits(packet[|PID1_FD|..]) then Reject(Native(MalformedPid1Report))
      else if right.None? || !available then Reject(Native(Pid1FdMissingOrDuplicate))
      else if !valid then Reject(Native(WrongPidfd))
      else GotPid1(right.value)
    else if packet == "" then
      if right.Some? then Reject(Native(EofCarriedRight)) else Eof
    else if PID1_EXIT + ":" <= packet then
      if right.Some? then Reject(Native(ReportCarriedRight))
      else
        match ExitStatus(packet)
        case None => Reject(Native(MalformedExitReport))
        case Some(status) => Pid1Exit(status)
    else if NO_PID1 + ":" <= packet then
      if right.Some? then Reject(Native(ReportCarriedRight))
      else
        match ErrorTokens(packet, NO_PID1)
        case None => Reject(Native(MalformedHelperError))
        case Some((stage, reason)) => NoPid1(stage, reason)
    else if HELPER_ERROR + ":" <= packet then
      if right.Some? then Reject(Native(ReportCarriedRight))
      else
        match ErrorTokens(packet, HELPER_ERROR)
        case None => Reject(Native(MalformedHelperError))
        case Some((stage, reason)) => HelperFault(stage, reason)
    else Reject(Native(UnexpectedPacket))
  }

  /** What the helper sends after reaping namespace PID 1. */
  function ExitReport(s: Status): string {
    PID1_EXIT + ":" + Decimal(s.code) + ":" + Decimal(s.value)
  }

  function ErrorReport(prefix: string, stage: string, reason: string): string {
    prefix + ":" + stage + ":" + reason
  }

  lemma ThreeParts(a: string, b: string, c: string)
    requires ':' !in a && ':' !in b && ':' !in c
    ensures Split(a + ":" + b + ":" + c, ':') == [a, b, c]
  {
    var parts := [a, b, c];
    SplitJoin(parts, ':');
    assert parts[1..][1..] == [c];
    assert Join(parts[1..], ':') == b + ":" + c;
    assert a + ":" + (b + ":" + c) == a + ":" + b + ":" + c;
  }

  /** The parent understands the helper's exit report exactly on the terminal statuses. */
  lemma ExitReportUnderstood(s: Status, valid: bool, available: bool)
    ensures Classify(ExitReport(s), None, valid, available) == Pid1Exit(s) <==> TerminalStatus(s)
    ensures Classify(ExitReport(s), None, valid, available).Pid1Exit? ==> TerminalStatus(s)
  {
    var packet := ExitReport(s);
    assert packet[4] == '-' && packet[5] == 'E';
    assert PID1_FD[5] == 'F';
    assert PID1_EXIT + ":" <= packet;
    ThreeParts(PID1_EXIT, Decimal(s.code), Decimal(s.value));
    NumberDecimal(s.code);
    NumberDecimal(s.value);
  }

  lemma TokenIsPlain(t: string)
    requires IsToken(t)
    ensures IsAscii(t) && ':' !in t
  {
  }

  lemma ErrorTokensRead(prefix: string, stage: string, reason: string)
    requires IsAscii(prefix) && ':' !in prefix
    requires IsToken(stage) && IsToken(reason)
    ensures ErrorTokens(ErrorReport(prefix, stage, reason), prefix) == Some((stage, reason))
  {
    TokenIsPlain(stage);
    TokenIsPlain(reason);
    ThreeParts(prefix, stage, reason);
    assert IsAscii(ErrorReport(prefix, stage, reason));
  }

  /** Likewise for both kinds of helper error report. */
  lemma NoPid1ReportUnderstood(stage: string, reason: string, valid: bool, available: bool)
    requires IsToken(stage) && IsToken(reason)
    ensures Classify(ErrorReport(NO_PID1, stage, reason), None, valid, available) == NoPid1(stage, reason)
  {
    ErrorTokensRead(NO_PID1, stage, reason);
    var packet := ErrorReport(NO_PID1, stage, reason);
    assert packet[0] == 'H' && PID1_FD[0] == 'P' && PID1_EXIT[0] == 'P';
    assert NO_PID1 + ":" <= packet;
  }

  lemma HelperErrorReportUnderstood(stage: string, reason: string, valid: bool, available: bool)
    requires IsToken(stage) && IsToken(reason)
    ensures Classify(ErrorReport(HELPER_ERROR, stage, reason), None, valid, available)
         == HelperFault(stage, reason)
  {
    ErrorTokensRead(HELPER_ERROR, stage, reason);
    var packet := ErrorReport(HELPER_ERROR, stage, reason);
    assert packet[0] == 'H' && PID1_FD[0] == 'P' && PID1_EXIT[0] == 'P';
    assert packet[7] == 'E' && NO_PID1[7] == 'N';
    assert HELPER_ERROR + ":" <= packet;
  }

  /**
   * One received datagram. `closes[i]` is the outcome of closing `rights[i]`, if it is closed
   * while the packet is refused.
   */
  datatype Datagram = Datagram(raw: string, rights: seq<nat>, closes: seq<Option<PlainError>>,
                               truncated: bool, foreign: bool, valid: bool)

  function CloseOutcome(d: Datagram, i: nat): Option<PlainError> {
    if i < |d.closes| then d.closes[i] else None
  }

  /** The close failures of retiring rights `from..`. */
  function Retire(d: Datagram, from: nat): (failures: seq<CleanupError>)
    ensures forall i :: 0 <= i < |failures| ==> failures[i].stage == RejectedRightClose
    decreases |d.rights| - from
  {
    if from >= |d.rights| then []
    else
      var rest := Retire(d, from + 1);
      match CloseOutcome(d, from)
      case None => rest
      case Some(error) => [CleanupError(RejectedRightClose, error)] + rest
  }

  datatype Received =
    | Accepted(raw: string, right: Option<nat>)
    | Refused(error: Error, failures: seq<CleanupError>)

  function WithFailures(primary: Error, failures: seq<CleanupError>): Error {
    if failures == [] then primary else Uncertain(primary, failures)
  }

  /** `_control_receive`: at most one right is accepted, and only from an intact packet. */
  function Receive(d: Datagram): Received {
    var failures := Retire(d, 0);
    if d.truncated then Refused(WithFailures(Native(TruncatedPacket), failures), failures)
    else if d.foreign then
      Refused(WithFailures(Native(ForeignAncillary), failures), failures)
    else if |d.rights| > 1 then
      Refused(WithFailures(Native(MultipleRights), failures), failures)
    else Accepted(d.raw, if |d.rights| == 1 then Some(d.rights[0]) else None)
  }
}
