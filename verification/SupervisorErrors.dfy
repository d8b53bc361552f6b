/**
 * Which error a run reports: the first offence of a pass the loop reaches, as a table over what the
 * pass meets, or else what is judged after the loop.
 */
module SupervisorErrors {
  import opened Basics
  import opened Control
  import opened Supervisor
  import opened SupervisorSafety
  import opened SupervisorClaims
  import opened SupervisorReach
  import opened SupervisorPass
  import Frames

  // ---------------------------------------------------------------- deadlines before any error

  /** The time from which a run without error is overdue: up to five seconds before settlement. */
  function ForceTime(c: Config): int {
    Max(c.startClock, c.settlement - Min(5_000_000_000, Max(100_000_000, (c.settlement - c.workDeadline) / 2)))
  }

  /** Until there is an error the deadlines are the ones given. */
  predicate Calm(s: State, c: Config) {
    s.err.work.None? ==> c.initialError.None? && s.err.settlement == c.settlement && s.err.force == ForceTime(c)
  }

  /** Without an error at the end there was none before, and the deadlines are untouched. */
  predicate Unmoved(s: State, t: State) {
    t.err.work.None? ==>
      s.err.work.None? && t.err.settlement == s.err.settlement && t.err.force == s.err.force
  }

  lemma {:induction false} BlockingCalm(s: State, c: Config, errors: seq<PlainError>, at: int)
    requires Calm(s, c)
    ensures Calm(Blocking(s, errors, at), c)
    decreases |errors|
  {
    if errors != [] {
      BlockingCalm(Work(s, errors[0], at), c, errors[1..], at);
    }
  }

  lemma StartCalm(c: Config)
    ensures Calm(Start(c), c)
  {
    var s := State(
      Intake([], [], false, false),
      Processes(false, false, false, c.initialNoPid1, None, None, None, false, []),
      Rights(c.pid1Fd, One(c.pid1Fd), multiset{}, Carried(c.initialError), 0),
      StartErrors(c));
    BlockingCalm(s, c, c.blocking, c.startClock);
  }

  lemma DeadlinesUnmoved(s: State, c: Config, p: Pass)
    ensures Unmoved(s, Deadlines(s, c, p))
  {
  }

  lemma ControlUnmoved(s: State, p: Pass)
    ensures Unmoved(s, ReadControl(s, p))
  {
    if p.packet.Arrived? && Receive(p.packet.datagram).Accepted? {
      var d := p.packet.datagram;
      ActUnmoved(s, d, Receive(d).right, Classify(d.raw, Receive(d).right, d.valid, s.rights.pid1Fd.None?), p.at);
    }
  }

  lemma ActUnmoved(s: State, d: Datagram, right: Option<nat>, action: Action, at: int)
    ensures Unmoved(s, Act(s, d, right, action, at))
  {
  }

  lemma ReapingUnmoved(s: State, c: Config, p: Pass)
    ensures Unmoved(s, Reaping(s, c, p).state)
  {
    var s1 := ReapHelper(s, c, p);
    var s2 := ReapPid1(s1, p);
    assert Unmoved(s, s1) && Unmoved(s1, s2) && Unmoved(s2, MissingReport(s2, p));
  }

  lemma HearingUnmoved(s: State, c: Config, p: Pass)
    ensures Unmoved(s, Hearing(s, c, p).state)
  {
    ControlUnmoved(s, p);
    ReapingUnmoved(MarkPid1(ReadControl(s, p), s.rights.pid1Fd, p), c, p);
  }

  lemma ExchangeUnmoved(s: State, c: Config, p: Pass)
    ensures Unmoved(s, Exchange(s, c, p).state)
  {
    var t := ReadPipe(Polled(s, p), p);
    assert Unmoved(s, t);
    HearingUnmoved(t, c, p);
  }

  lemma RoundUnmoved(s: State, c: Config, p: Pass)
    ensures Unmoved(s, Round(s, c, p).state)
  {
    var t := Settle(s, p);
    DeadlinesUnmoved(t, c, p);
    ExchangeUnmoved(Deadlines(t, c, p), c, p);
  }

  // ---------------------------------------------------------------- the offences of one pass

  /** What the result pipe gives: a failed read, or more than the largest frame. */
  function PipeOffence(s: State, p: Pass): Option<Error> {
    if s.pipe.eof || !ResultReady(p) then None
    else
      match p.pipe
      case PipeBlocked => None
      case PipeFailed(e) => Some(e)
      case Chunk(bytes) =>
        if bytes != [] && |s.pipe.raw| + |bytes| > 4228 then Some(Native(OversizeResult)) else None
  }

  /** What the control channel gives: a failed or refused packet, or the helper's own error. */
  function ControlOffence(s: State, p: Pass): Option<Error> {
    match PacketSeen(s, p)
    case NoPacket => None
    case ReceiveFailed(e) => Some(e)
    case Arrived(d) =>
      if Receive(d).Refused? then Some(Receive(d).error)
      else
        match ActionOf(s, p)
        case Some(Reject(e)) => Some(e)
        case Some(NoPid1(stage, reason)) => Some(HelperFailed(stage, reason))
        case Some(HelperFault(stage, reason)) => Some(HelperFailed(stage, reason))
        case _ => None
  }

  /** What waiting for the helper gives, an exception, or silence about PID 1. */
  function ReapOffence(s: State, c: Config, p: Pass): Option<Error> {
    if HelperWait(s, c, p).WaitFailed? then Some(HelperWait(s, c, p).error)
    else if CutAt(p) < 7 then Some(p.fault.value.1)
    else if Silent(s, c, p) then Some(Native(NoSettlementReport))
    else None
  }

  function HearOffence(s: State, c: Config, p: Pass): Option<Error> {
    if CutAt(p) == 3 then Some(p.fault.value.1)
    else if ControlOffence(s, p).Some? then ControlOffence(s, p)
    else if CutAt(p) == 4 then Some(p.fault.value.1)
    else ReapOffence(s, c, p)
  }

  /** The first thing wrong in a pass, in the order in which the pass looks; `s` is free of error. */
  function Offence(s: State, c: Config, p: Pass): Option<Error> {
    if !Entered(s, p) then None
    else if CutAt(p) == 1 then Some(p.fault.value.1)
    else if p.now >= c.workDeadline then Some(Native(ChildDeadline))
    else if p.now >= ForceTime(c) then Some(Native(SettlementDeadline))
    else if CutAt(p) == 2 then Some(p.fault.value.1)
    else if p.poll.PollFailed? then Some(p.poll.error)
    else if PipeOffence(s, p).Some? then PipeOffence(s, p)
    else HearOffence(s, c, p)
  }

  // ---------------------------------------------------------------- the pass finds its first offence

  lemma DeadlinesOffend(s: State, c: Config, p: Pass)
    requires s.err.work.None? && Calm(s, c)
    ensures Deadlines(s, c, p).err.work
         == if p.now >= c.workDeadline then Some(Native(ChildDeadline))
            else if p.now >= ForceTime(c) then Some(Native(SettlementDeadline)) else None
  {
    var r := Overdue(s.err, c, p);
    assert Signal(s.(err := r), c, p.pid1Kill, p.helperKill, p.now).err.work == r.work;
  }

  lemma PipeOffends(s: State, p: Pass)
    requires s.err.work.None?
    ensures ReadPipe(Polled(s, p), p).err.work
         == if p.poll.PollFailed? then Some(p.poll.error) else PipeOffence(s, p)
  {
  }

  lemma ControlOffends(s: State, h: State, p: Pass)
    requires Entered(s, p) && CutAt(p) > 3 && SameBut(s, h) && h.err.work.None?
    ensures ReadControl(h, p).err.work == ControlOffence(s, p)
  {
  }

  lemma ReapingOffends(s: State, c: Config, m: State, p: Pass)
    requires Entered(s, p) && CutAt(p) > 4 && Agrees(m, Marked(s, p), HeldAfter(s, p)) && m.err.work.None?
    ensures Reaping(m, c, p).state.err.work == ReapOffence(s, c, p)
  {
    var s1 := ReapHelper(m, c, p);
    assert s1.err.work == if HelperWait(s, c, p).WaitFailed? then Some(HelperWait(s, c, p).error) else None;
    var s2 := ReapPid1(s1, p);
    assert s2.err.work == s1.err.work;
    if CutAt(p) == 7 {
      ReapKnown(s, c, m, p);
      assert Unreported(s2.proc) <==> Silent(s, c, p);
    }
  }

  lemma HearingOffends(s: State, c: Config, h: State, p: Pass)
    requires Entered(s, p) && CutAt(p) > 3 && SameBut(s, h) && h.err.work.None?
    requires h.proc.adoptedPid1 == Collected(s, p)
    requires h.proc.descendantsEmpty == if Quiet(s) then p.topDrain.empty else s.proc.descendantsEmpty
    ensures Hearing(h, c, p).state.err.work == HearOffence(s, c, p)
  {
    ControlOffends(s, h, p);
    MarkKnown(s, h, p);
    var m := MarkPid1(ReadControl(h, p), h.rights.pid1Fd, p);
    assert m.err == ReadControl(h, p).err;
    if CutAt(p) > 4 {
      if m.err.work.None? {
        ReapingOffends(s, c, m, p);
      } else {
        ReapingKeeps(m, c, p);
      }
    }
  }

  /** A pass that meets no earlier error leaves exactly its first offence. */
  lemma OffenceExact(s: State, c: Config, p: Pass)
    requires s.err.work.None? && Calm(s, c)
    ensures Round(s, c, p).state.err.work == Offence(s, c, p)
  {
    if Entered(s, p) && CutAt(p) > 1 {
      HeardSame(s, c, p);
      var s1 := Settle(s, p);
      assert s1.err.work == s.err.work && s1.err.settlement == s.err.settlement && s1.err.force == s.err.force;
      DeadlinesOffend(s1, c, p);
      var s2 := Deadlines(s1, c, p);
      assert s2.pipe == s.pipe;
      if s2.err.work.Some? {
        ExchangeKeeps(s2, c, p);
      } else if CutAt(p) > 2 {
        PipeOffends(s2, p);
        LateOffence(s, c, p);
      }
    }
  }

  lemma LateOffence(s: State, c: Config, p: Pass)
    requires Entered(s, p) && CutAt(p) > 2 && s.err.work.None?
    requires var t := Heard(s, c, p);
             && SameBut(s, t) && t.proc.adoptedPid1 == Collected(s, p)
             && t.proc.descendantsEmpty == if Quiet(s) then p.topDrain.empty else s.proc.descendantsEmpty
    ensures var h := Heard(s, c, p);
            Hearing(h, c, p).state.err.work == if h.err.work.Some? then h.err.work else HearOffence(s, c, p)
  {
    var h := Heard(s, c, p);
    if h.err.work.Some? {
      HearingKeeps(h, c, p);
    } else if CutAt(p) > 3 {
      HearingOffends(s, c, h, p);
    }
  }

  // ---------------------------------------------------------------- over whole runs

  /** An error that a pass leaves is the error at the end. */
  lemma ErrorStays(s: State, c: Config, script: seq<Pass>)
    requires script != [] && Round(s, c, script[0]).state.err.work.Some?
    ensures Rounds(s, c, script).err.work == Round(s, c, script[0]).state.err.work
  {
    var next := Round(s, c, script[0]);
    if next.Continue? {
      RoundsKeep(next.state, c, script[1..]);
    }
  }

  /** An error present in a reached state is the error at the end, and was not there without a cause. */
  lemma {:induction false} ReachedErrorStays(s: State, c: Config, script: seq<Pass>, k: nat, t: State)
    requires k <= |script| && Reached(s, c, script, k) == Some(t)
    ensures t.err.work.Some? ==> Rounds(s, c, script).err.work == t.err.work
    ensures s.err.work.Some? ==> t.err.work == s.err.work
    decreases k
  {
    if k == 0 {
      RoundsKeep(s, c, script);
    } else {
      var u := Reached(s, c, script, 1).value;
      RoundKeeps(s, c, script[0]);
      ReachedErrorStays(u, c, script[1..], k - 1, t);
    }
  }

  /** What a pass meets in a state it is reached in without error. */
  function Met(r: Option<State>, c: Config, p: Pass): Option<Error> {
    if r.Some? && r.value.err.work.None? then Offence(r.value, c, p) else None
  }

  function MetAt(s: State, c: Config, script: seq<Pass>, k: nat): Option<Error>
    requires k < |script|
  {
    Met(Reached(s, c, script, k), c, script[k])
  }

  lemma ReachedNext(s: State, c: Config, script: seq<Pass>, t: State, k: nat)
    requires 0 < k < |script| && Round(s, c, script[0]) == Continue(t)
    ensures Reached(s, c, script, k) == Reached(t, c, script[1..], k - 1)
  {
  }

  lemma OffencesShift(s: State, c: Config, script: seq<Pass>, t: State)
    requires script != [] && Round(s, c, script[0]) == Continue(t)
    ensures forall k :: 0 < k < |script| ==> MetAt(s, c, script, k) == MetAt(t, c, script[1..], k - 1)
  {
    forall k | 0 < k < |script| ensures MetAt(s, c, script, k) == MetAt(t, c, script[1..], k - 1) {
      ReachedNext(s, c, script, t, k);
      assert script[k] == script[1..][k - 1];
    }
  }

  /** Past the first error, and past the end of the loop, no pass offends. */
  lemma NoMoreOffences(s: State, c: Config, script: seq<Pass>)
    requires script != [] && (Round(s, c, script[0]).Leave? || Round(s, c, script[0]).state.err.work.Some?)
    ensures forall k :: 0 < k < |script| ==> MetAt(s, c, script, k).None?
  {
    forall k | 0 < k < |script| && Reached(s, c, script, k).Some?
      ensures Reached(s, c, script, k).value.err.work.Some?
    {
      var u := Round(s, c, script[0]).state;
      ReachedErrorStays(u, c, script[1..], k - 1, Reached(s, c, script, k).value);
    }
  }

  /** From a state without error the loop ends with the one offence there is, if there is one. */
  lemma {:induction false} LoopOffence(s: State, c: Config, script: seq<Pass>)
    requires s.err.work.None? && Calm(s, c)
    ensures forall k :: 0 <= k < |script| && MetAt(s, c, script, k).Some? ==>
              Rounds(s, c, script).err.work == MetAt(s, c, script, k)
    ensures (forall k :: 0 <= k < |script| ==> MetAt(s, c, script, k).None?) ==> Rounds(s, c, script).err.work.None?
    decreases |script|
  {
    if script != [] {
      var next := Round(s, c, script[0]);
      OffenceExact(s, c, script[0]);
      RoundUnmoved(s, c, script[0]);
      assert MetAt(s, c, script, 0) == next.state.err.work;
      if next.Leave? || next.state.err.work.Some? {
        NoMoreOffences(s, c, script);
        if next.state.err.work.Some? {
          ErrorStays(s, c, script);
        }
      } else {
        OffencesShift(s, c, script, next.state);
        LoopOffence(next.state, c, script[1..]);
        if forall k :: 0 <= k < |script| ==> MetAt(s, c, script, k).None? {
          forall k | 0 <= k < |script[1..]| ensures MetAt(next.state, c, script[1..], k).None? {
            assert MetAt(s, c, script, k + 1).None?;
          }
        }
      }
    }
  }

  // ---------------------------------------------------------------- what a run reports

  lemma {:induction false} BlockingError(s: State, errors: seq<PlainError>, at: int)
    ensures Blocking(s, errors, at).err.work
         == if s.err.work.Some? then s.err.work else if errors != [] then Some(errors[0]) else None
    decreases |errors|
  {
    if errors != [] {
      BlockingError(Work(s, errors[0], at), errors[1..], at);
    }
  }

  lemma StartError(c: Config)
    ensures Start(c).err.work
         == if c.initialError.Some? then c.initialError else if c.blocking != [] then Some(c.blocking[0]) else None
  {
    var s := State(
      Intake([], [], false, false),
      Processes(false, false, false, c.initialNoPid1, None, None, None, false, []),
      Rights(c.pid1Fd, One(c.pid1Fd), multiset{}, Carried(c.initialError), 0),
      StartErrors(c));
    BlockingError(s, c.blocking, c.startClock);
  }

  /** What the pass meets first in the run, if the loop reaches it without an error. */
  function OffenceIn(c: Config, script: seq<Pass>, k: nat): Option<Error>
    requires k < |script|
  {
    MetAt(Start(c), c, script, k)
  }

  /** The error the loop ends with, in terms of what was met. */
  predicate Explained(c: Config, script: seq<Pass>, e: Option<Error>) {
    && (c.initialError.Some? ==> e == c.initialError)
    && (c.initialError.None? && c.blocking != [] ==> e == Some(c.blocking[0]))
    && (forall k :: 0 <= k < |script| && OffenceIn(c, script, k).Some? ==> e == OffenceIn(c, script, k))
  }

  /** Nothing was handed in, set up or met that is wrong. */
  predicate Blameless(c: Config, script: seq<Pass>) {
    && c.initialError.None? && c.blocking == []
    && forall k :: 0 <= k < |script| ==> OffenceIn(c, script, k).None?
  }

  /** The same from any state of an untroubled start. */
  lemma LoopMet(s: State, c: Config, script: seq<Pass>, e: Option<Error>)
    requires Calm(s, c) && e == Rounds(s, c, script).err.work
    ensures s.err.work.Some? ==> e == s.err.work && forall k :: 0 <= k < |script| ==> MetAt(s, c, script, k).None?
    ensures forall k :: 0 <= k < |script| && MetAt(s, c, script, k).Some? ==> e == MetAt(s, c, script, k)
    ensures e.None? <==> s.err.work.None? && forall k :: 0 <= k < |script| ==> MetAt(s, c, script, k).None?
  {
    if s.err.work.Some? {
      RoundsKeep(s, c, script);
      NoOffences(s, c, script);
    } else {
      LoopOffence(s, c, script);
    }
  }

  lemma LoopExplained(c: Config, script: seq<Pass>, s: State, e: Option<Error>)
    requires s == Start(c) && e == Rounds(s, c, script).err.work
    ensures Explained(c, script, e)
    ensures e.None? <==> Blameless(c, script)
  {
    StartError(c);
    StartCalm(c);
    LoopMet(s, c, script, e);
    assert forall k :: 0 <= k < |script| ==> OffenceIn(c, script, k) == MetAt(s, c, script, k);
  }

  lemma LoopErrorReported(c: Config, script: seq<Pass>, f: Closing)
    requires Rounds(Start(c), c, script).err.work.Some?
    ensures Judge(Final(c, script, f)).workError == Rounds(Start(c), c, script).err.work
  {
    WindUpState(Rounds(Start(c), c, script), c, f);
  }

  /**
   * The reported error of any run: one handed in, else the first failure to set up a descriptor, else
   * what the first offending pass meets. Only a run without any of these is judged after the loop.
   */
  lemma ReportedExactly(c: Config, script: seq<Pass>, f: Closing, e: Option<Error>)
    requires e == Judge(Final(c, script, f)).workError
    ensures Explained(c, script, e)
    ensures Rounds(Start(c), c, script).err.work.None? <==> Blameless(c, script)
  {
    LoopExplained(c, script, Start(c), Rounds(Start(c), c, script).err.work);
    if Rounds(Start(c), c, script).err.work.Some? {
      LoopErrorReported(c, script, f);
    }
  }

  lemma NoOffences(s: State, c: Config, script: seq<Pass>)
    requires s.err.work.Some?
    ensures forall k :: 0 <= k < |script| ==> MetAt(s, c, script, k).None?
  {
    forall k | 0 <= k < |script| && Reached(s, c, script, k).Some?
      ensures Reached(s, c, script, k).value.err.work.Some?
    {
      ReachedErrorStays(s, c, script, k, Reached(s, c, script, k).value);
    }
  }

  /** A pass that gets as far as the deadlines. */
  predicate LooksAtClock(s: State, p: Pass) {
    Entered(s, p) && CutAt(p) > 1
  }

  /** The child deadline is applied in the first pass that sees it, unless there was an error before. */
  lemma ChildDeadlineReported(c: Config, script: seq<Pass>, f: Closing, k: nat, s: State)
    requires k < |script| && Reached(Start(c), c, script, k) == Some(s) && s.err.work.None?
    requires LooksAtClock(s, script[k]) && script[k].now >= c.workDeadline
    ensures Judge(Final(c, script, f)).workError == Some(Native(ChildDeadline))
  {
    ReportedExactly(c, script, f, Judge(Final(c, script, f)).workError);
    assert OffenceIn(c, script, k) == Some(Native(ChildDeadline));
  }

  /** So is the settlement deadline, up to five seconds before settlement, if the child's is later. */
  lemma SettlementDeadlineReported(c: Config, script: seq<Pass>, f: Closing, k: nat, s: State)
    requires k < |script| && Reached(Start(c), c, script, k) == Some(s) && s.err.work.None?
    requires LooksAtClock(s, script[k]) && ForceTime(c) <= script[k].now < c.workDeadline
    ensures Judge(Final(c, script, f)).workError == Some(Native(SettlementDeadline))
  {
    ReportedExactly(c, script, f, Judge(Final(c, script, f)).workError);
    assert OffenceIn(c, script, k) == Some(Native(SettlementDeadline));
  }

  /** No run with a pass that looks at the clock after the child's deadline ends without an error. */
  lemma OverdueNeverSucceeds(c: Config, script: seq<Pass>, f: Closing, k: nat, s: State)
    requires k < |script| && Reached(Start(c), c, script, k) == Some(s)
    requires LooksAtClock(s, script[k]) && script[k].now >= c.workDeadline
    ensures Judge(Final(c, script, f)).workError.Some?
  {
    if s.err.work.None? {
      ChildDeadlineReported(c, script, f, k, s);
    } else {
      ReachedErrorStays(Start(c), c, script, k, s);
      WindUpState(Rounds(Start(c), c, script), c, f);
    }
  }
}
