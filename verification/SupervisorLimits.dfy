/** Concrete runs that mark where the supervisor's claims stop. */
module SupervisorLimits {
  import opened Basics
  import opened Control
  import opened Supervisor
  import opened SupervisorSafety
  import opened SupervisorClaims
  import opened SupervisorReach
  import Frames

  const QUIET_DRAIN := Drain(None, true, [])
  const IDLE_CLOSING := Closing(0, None, None, QUIET_DRAIN, None, None, None, None)

  function Step(clock: int, poll: Poll, pipe: Pipe, packet: Packet, helper: Wait, pid1: Wait): Pass {
    Pass(clock, clock, clock, None, None, QUIET_DRAIN, poll, pipe, packet, helper, pid1,
         QUIET_DRAIN, None)
  }

  function Text(raw: string): Packet {
    Arrived(Datagram(raw, [], [], false, false, true))
  }

  lemma TwoRounds(s: State, c: Config, a: Pass, b: Pass)
    requires Round(s, c, a).Continue?
    ensures Rounds(s, c, [a, b]) == Round(Round(s, c, a).state, c, b).state
  {
    assert [a, b][1..] == [b] && [b][1..] == [];
    assert Rounds(s, c, [a, b]) == Rounds(Round(s, c, a).state, c, [b]);
  }

  /** A configuration without an error, whose deadlines are far away. */
  function Calm(pid1Fd: Option<nat>): Config {
    Config(Some(3), 10, pid1Fd, 10 * NS, 30 * NS, None, false, 0, [])
  }

  lemma CalmStart(pid1Fd: Option<nat>)
    ensures ValidConfig(Calm(pid1Fd)) && Start(Calm(pid1Fd)).err == Errors(None, [], 30 * NS, 25 * NS, 29 * NS, 25 * NS)
  {
  }

  /**
   * A failed poll takes every descriptor as ready, so PID 1 counts as terminal although it was never
   * seen: the run settles with no word on PID 1, whose pidfd is held all along.
   */
  lemma PollFailureSettlesUnseen() returns (c: Config, script: seq<Pass>)
    ensures ValidConfig(c) && c.pid1Fd.Some?
    ensures var s := Final(c, script, IDLE_CLOSING); Judge(s).settled && !Word(c, script, s)
  {
    c := Calm(Some(4));
    CalmStart(Some(4));
    var a := Step(0, PollFailed(System(12)), Chunk([]), Text(""), Ended(CLEAN_EXIT), NoChild);
    var b := Step(1, Ready(false, false, false), PipeBlocked, NoPacket, Pending, Pending);
    script := [a, b];
    var s := BlindRound(Start(c), c, a);
    assert Round(s, c, b) == Leave(Drained(s, QUIET_DRAIN));
    TwoRounds(Start(c), c, a, b);
    WindUpState(Rounds(Start(c), c, script), c, IDLE_CLOSING);
    assert !Ever(Seeing, Start(c), c, script);
  }

  lemma BlindRound(s0: State, c: Config, a: Pass) returns (s4: State)
    requires c == Calm(Some(4)) && s0 == Start(c)
    requires a == Step(0, PollFailed(System(12)), Chunk([]), Text(""), Ended(CLEAN_EXIT), NoChild)
    ensures Round(s0, c, a) == Continue(s4) && Quiet(s4) && 1 < s4.err.settlement
    ensures !s4.proc.noPid1 && s4.proc.adoptedPid1.None? && s4.proc.pid1Report.None?
  {
    CalmStart(Some(4));
    var s1 := ReadPipe(Polled(s0, a), a);
    assert s1.pipe.eof;
    var s2 := MarkPid1(ReadControl(s1, a), s1.rights.pid1Fd, a);
    assert s2.proc.controlEof && s2.proc.pid1Terminal && s2.pipe.eof;
    var s3 := ReapPid1(ReapHelper(s2, c, a), a);
    assert s3.proc.helperReaped && s3.proc.adoptedPid1.None?;
    s4 := MissingReport(s3, a);
  }

  /** With a work error already recorded, the failed close of a refused packet's right goes unreported. */
  lemma RefusedRightCloseUnreported() returns (c: Config, script: seq<Pass>)
    ensures ValidConfig(c)
    ensures var s := Final(c, script, IDLE_CLOSING);
            s.rights.failed == 1 && Reports(s.err.cleanup) == 0 && Carried(s.err.work) == 0
  {
    c := Calm(None);
    CalmStart(None);
    var a := Step(0, PollFailed(System(12)), PipeBlocked, Arrived(TruncatedRight()), Pending, Pending);
    script := [a];
    var s := RefusedRound(Start(c), c, a);
    assert script[1..] == [];
    assert Rounds(Start(c), c, script) == s;
    RightsClosedOnce(c, script, IDLE_CLOSING);
    LastResortKeeps(s, c, IDLE_CLOSING);
    WindUpState(s, c, IDLE_CLOSING);
  }

  /** A truncated packet with one right that does not close. */
  function TruncatedRight(): Datagram {
    Datagram("", [7], [Some(System(9))], true, false, false)
  }

  lemma TruncatedRightRefused()
    ensures Receive(TruncatedRight()).Refused? && |Receive(TruncatedRight()).failures| == 1
  {
    var d := TruncatedRight();
    assert Retire(d, 1) == [];
    assert Retire(d, 0) == [CleanupError(RejectedRightClose, System(9))];
  }

  lemma RefusedRound(s0: State, c: Config, a: Pass) returns (s2: State)
    requires c == Calm(None) && s0 == Start(c)
    requires a == Step(0, PollFailed(System(12)), PipeBlocked, Arrived(TruncatedRight()), Pending, Pending)
    ensures Round(s0, c, a) == Continue(s2)
    ensures s2.rights.failed == 1 && s2.rights.dropped == 1 && s2.rights.pid1Fd.None?
    ensures s2.err == Polled(s0, a).err
  {
    CalmStart(None);
    TruncatedRightRefused();
    var s1 := ReadControl(Polled(s0, a), a);
    assert s1.rights.failed == 1 && s1.rights.dropped == 1 && s1.err == Polled(s0, a).err;
    s2 := MarkPid1(s1, None, a);
    assert Reaping(s2, c, a) == Continue(s2);
    assert Hearing(Polled(s0, a), c, a) == Continue(s2);
  }

  /** The frame around the one-byte payload 1. */
  const TINY_FRAME: Bytes := [0, 0, 0, 2, 83, 1]

  lemma TinyFrame()
    ensures Frames.ParseFrame(TINY_FRAME) == Frames.Payload([1])
  {
    assert Frames.BigEndian(2) == [0, 0, 0, 2];
    assert Frames.BigEndian(2) + [Frames.SUCCESS_KIND] + [1] == TINY_FRAME;
    Frames.SuccessFrameExact(TINY_FRAME, [1]);
  }

  /**
   * The helper's report outranks the status the parent collected: for every status there is a run
   * without any error in which PID 1 was in fact reaped with it.
   */
  lemma ReportOutranksCollectedStatus(collected: Status) returns (c: Config, script: seq<Pass>)
    ensures ValidConfig(c)
    ensures var s, o := Final(c, script, IDLE_CLOSING), Judge(Final(c, script, IDLE_CLOSING));
            && o.workError.None? && o.cleanup == [] && o.result == Some([1])
            && s.proc.adoptedPid1 == Some(collected)
  {
    c := Calm(Some(4));
    CalmStart(Some(4));
    var a := Step(0, Ready(true, true, false), Chunk(TINY_FRAME), Text(ExitReport(CLEAN_EXIT)), Pending, Pending);
    var b := Step(1, Ready(true, true, true), Chunk([]), Text(""), Ended(CLEAN_EXIT), Ended(collected));
    var e := Step(2, Ready(false, false, false), PipeBlocked, NoPacket, Pending, Pending);
    script := [a, b, e];
    var s0 := Start(c);
    var s1 := FirstStep(s0, c, a);
    var s2 := SecondStep(s1, c, b, collected);
    assert Round(s2, c, e) == Leave(Drained(s2, QUIET_DRAIN));
    assert script[1..] == [b, e];
    TwoRounds(s1, c, b, e);
    assert Rounds(s0, c, script) == Drained(s2, QUIET_DRAIN);
    CleanVerdict(Drained(s2, QUIET_DRAIN), c);
  }

  lemma CleanVerdict(r: State, c: Config)
    requires Quiet(r) && r.proc.descendantsEmpty && r.err.work.None? && r.err.cleanup == []
    requires r.proc.helperInfo == Some(CLEAN_EXIT) && r.proc.pid1Report == Some(CLEAN_EXIT)
    requires r.pipe == Intake(TINY_FRAME, TINY_FRAME, false, true)
    ensures var s, o := WindUp(r, c, IDLE_CLOSING), Judge(WindUp(r, c, IDLE_CLOSING));
            o.workError.None? && o.cleanup == [] && o.result == Some([1]) && s.proc == r.proc
  {
    WindUpState(r, c, IDLE_CLOSING);
    assert Residue(r) == [];
    assert CloseFailures(r.rights, c, IDLE_CLOSING) == [];
    TinyFrame();
  }

  lemma FirstStep(s: State, c: Config, a: Pass) returns (t: State)
    requires s == Start(c) && c == Calm(Some(4))
    requires a == Step(0, Ready(true, true, false), Chunk(TINY_FRAME), Text(ExitReport(CLEAN_EXIT)), Pending, Pending)
    ensures Round(s, c, a) == Continue(t)
    ensures t == State(Intake(TINY_FRAME, TINY_FRAME, false, false),
                       s.proc.(pid1Report := Some(CLEAN_EXIT)), s.rights, s.err)
  {
    CalmStart(Some(4));
    var s1 := ReadPipe(s, a);
    assert s1.pipe == Intake(TINY_FRAME, TINY_FRAME, false, false);
    ExitReportUnderstood(CLEAN_EXIT, true, false);
    t := ReadControl(s1, a);
    assert t.proc == s.proc.(pid1Report := Some(CLEAN_EXIT));
    assert Reaping(t, c, a) == Continue(t);
    assert Hearing(s1, c, a) == Continue(t);
  }

  lemma SecondStep(s: State, c: Config, b: Pass, collected: Status) returns (t: State)
    requires !s.pipe.eof && !s.proc.controlEof && !s.proc.helperReaped && s.proc.adoptedPid1.None?
    requires s.proc.pid1Report.Some? && s.rights.pid1Fd.Some? && c.helperFd.Some?
    requires b == Step(1, Ready(true, true, true), Chunk([]), Text(""), Ended(CLEAN_EXIT), Ended(collected))
    requires s.err.settlement > 1 && s.err.force > 1 && c.workDeadline > 1
    ensures Round(s, c, b) == Continue(t)
    ensures t.pipe == s.pipe.(eof := true) && t.rights == s.rights && t.err == s.err
    ensures t.proc.helperReaped && t.proc.controlEof && t.proc.helperInfo == Some(CLEAN_EXIT)
    ensures t.proc.adoptedPid1 == Some(collected) && t.proc.pid1Report == s.proc.pid1Report
  {
    var s1 := ReadPipe(s, b);
    assert s1 == s.(pipe := s.pipe.(eof := true));
    var s2 := MarkPid1(ReadControl(s1, b), s1.rights.pid1Fd, b);
    assert s2 == s1.(proc := s.proc.(controlEof := true, pid1Terminal := true));
    var s3 := ReapHelper(s2, c, b);
    t := ReapPid1(s3, b);
    assert MissingReport(t, b) == t;
    assert Reaping(s2, c, b) == Continue(t);
    assert Hearing(s1, c, b) == Continue(t);
  }
}
