/** The claims a caller may make from the supervisor's outcome. */
module SupervisorClaims {
  import opened Basics
  import opened Control
  import opened Supervisor
  import opened SupervisorSafety
  import Frames

  // ---------------------------------------------------------------- reaching the end of the loop

  lemma {:induction false} BlockingKeeps(s: State, c: Config, errors: seq<PlainError>, at: int)
    requires Sound(s, c) && Custody(s)
    ensures Sound(Blocking(s, errors, at), c) && Custody(Blocking(s, errors, at))
    ensures s.err.work.Some? ==> Blocking(s, errors, at).err.work == s.err.work
    ensures Blocking(s, errors, at).proc == s.proc && Blocking(s, errors, at).rights == s.rights
    decreases |errors|
  {
    if errors != [] {
      WorkKeeps(s, c, errors[0], at);
      WorkNeutral(s, errors[0], at);
      NeutralCustody(s, Work(s, errors[0], at));
      BlockingKeeps(Work(s, errors[0], at), c, errors[1..], at);
    }
  }

  lemma StartKeeps(c: Config)
    requires ValidConfig(c)
    ensures Sound(Start(c), c) && Custody(Start(c)) && Ordered(Start(c).proc)
    ensures !Start(c).proc.helperReaped && !Start(c).proc.pid1Terminal && Start(c).rights.dropped == 0
    ensures Start(c).rights.got == One(c.pid1Fd)
  {
    var s := State(
      Intake([], [], false, false),
      Processes(false, false, false, c.initialNoPid1, None, None, None, false, []),
      Rights(c.pid1Fd, One(c.pid1Fd), multiset{}, Carried(c.initialError), 0),
      StartErrors(c));
    BlockingKeeps(s, c, c.blocking, c.startClock);
  }

  /** At the loop's end a helper that is gone without any word on PID 1 has produced an error. */
  lemma RoundReports(s: State, c: Config, p: Pass)
    requires Unreported(s.proc) ==> s.err.work.Some?
    ensures Unreported(Round(s, c, p).state.proc) ==> Round(s, c, p).state.err.work.Some?
  {
    if p.clock < s.err.settlement && !(Quiet(s) && Settle(s, p).proc.descendantsEmpty) && !Cut(p, 1) {
      var s2 := Deadlines(Settle(s, p), c, p);
      if !Cut(p, 2) {
        HearingReports(ReadPipe(Polled(s2, p), p), c, p);
      }
    }
  }

  lemma HearingReports(s: State, c: Config, p: Pass)
    ensures Unreported(Hearing(s, c, p).state.proc) ==> Hearing(s, c, p).state.err.work.Some?
  {
    if !Cut(p, 3) && !Cut(p, 4) {
      var s1 := MarkPid1(ReadControl(s, p), s.rights.pid1Fd, p);
      if !Cut(p, 5) && !Cut(p, 6) {
        MissingReportReports(ReapPid1(ReapHelper(s1, c, p), p), p);
      }
    }
  }

  lemma MissingReportReports(s: State, p: Pass)
    ensures Unreported(MissingReport(s, p).proc) ==> MissingReport(s, p).err.work.Some?
  {
  }

  lemma {:induction false} RoundsReport(s: State, c: Config, script: seq<Pass>)
    requires Unreported(s.proc) ==> s.err.work.Some?
    ensures Unreported(Rounds(s, c, script).proc) ==> Rounds(s, c, script).err.work.Some?
    decreases |script|
  {
    if script != [] {
      RoundReports(s, c, script[0]);
      var next := Round(s, c, script[0]);
      if next.Continue? {
        RoundsReport(next.state, c, script[1..]);
      }
    }
  }

  // ---------------------------------------------------------------- winding up

  lemma LastResortKeeps(s: State, c: Config, f: Closing)
    ensures Grows(s, LastResort(s, c, f)) && (Sound(s, c) ==> Sound(LastResort(s, c, f), c))
    ensures Neutral(s, LastResort(s, c, f))
    ensures s.err.work == LastResort(s, c, f).err.work
    ensures Ordered(s.proc) ==> Ordered(LastResort(s, c, f).proc)
    ensures !Unreported(s.proc) ==> !Unreported(LastResort(s, c, f).proc)
  {
    var t := if f.now <= s.err.until then Signal(s, c, f.pid1Kill, f.helperKill, f.now) else s;
    SignalKeeps(s, c, f.pid1Kill, f.helperKill, f.now, 0);
    SignalNeutral(s, c, f.pid1Kill, f.helperKill, f.now);
    if Ordered(s.proc) {
      SignalOrdered(s, c, f.pid1Kill, f.helperKill, f.now);
    }
    DrainKeeps(t, c, f.drain, 0);
    DrainNeutral(t, f.drain);
    NeutralOn(s, t, DrainedTerminal(t, f.drain));
    GrowsOn(s, t, DrainedTerminal(t, f.drain));
  }

  /** The last state of a run, before anything is judged. */
  lemma WindUpState(s: State, c: Config, f: Closing)
    ensures var t, u := WindUp(s, c, f), LastResort(s, c, f);
            t.pipe == u.pipe && t.proc == u.proc && t.err.work == s.err.work
            && t.err.cleanup == u.err.cleanup + Residue(u) + CloseFailures(u.rights, c, f)
  {
    LastResortKeeps(s, c, f);
  }

  /**
   * The success claim, over every run: an outcome without errors carries the payload of the one
   * well-formed success frame that the whole byte stream is, both processes ended by exiting with
   * status zero, and everything is settled.
   */
  lemma SuccessIsProved(c: Config, script: seq<Pass>, f: Closing)
    requires ValidConfig(c)
    requires Judge(Final(c, script, f)).workError.None? && Judge(Final(c, script, f)).cleanup == []
    ensures var s, o := Final(c, script, f), Judge(Final(c, script, f));
            && o.result.Some? && 0 < |o.result.value| <= Frames.MAX_RESULT_BYTES
            && Frames.WriteFrame(Frames.SUCCESS_KIND, o.result.value) == Some(s.pipe.stream)
            && s.proc.helperInfo == Some(CLEAN_EXIT)
            && Terminal(s.proc) == Some(CLEAN_EXIT)
            && o.settled && !s.proc.noPid1
  {
    StartKeeps(c);
    RoundsKeep(Start(c), c, script);
    RoundsReport(Start(c), c, script);
    var r := Rounds(Start(c), c, script);
    var u := LastResort(r, c, f);
    LastResortKeeps(r, c, f);
    WindUpState(r, c, f);
    var s := Final(c, script, f);
    assert s.err.work.None?;
    assert Residue(u) == [];
    assert Terminal(s.proc).Some?;
    if s.pipe.raw != [] {
      Frames.SuccessFrameExact(s.pipe.raw, Judge(s).result.value);
    }
  }

  /** Whatever happens later, the first work error of a run is the one that is reported. */
  lemma FirstErrorReported(c: Config, script: seq<Pass>, f: Closing, k: nat)
    requires k <= |script|
    requires Rounds(Start(c), c, script[..k]).err.work.Some?
    ensures Judge(Final(c, script, f)).workError == Rounds(Start(c), c, script[..k]).err.work
  {
    assert script[..k] + script[k..] == script;
    RoundsContinue(Start(c), c, script[..k], script[k..]);
    WindUpState(Rounds(Start(c), c, script), c, f);
  }

  /** An error present before supervision starts is never replaced. */
  lemma InitialErrorReported(c: Config, script: seq<Pass>, f: Closing)
    requires ValidConfig(c) && c.initialError.Some?
    ensures Judge(Final(c, script, f)).workError == c.initialError
  {
    StartKeeps(c);
    assert Rounds(Start(c), c, script[..0]) == Start(c);
    FirstErrorReported(c, script, f, 0);
  }

  // ---------------------------------------------------------------- rights and signals

  lemma ReportsAmid(a: seq<CleanupError>, b: seq<CleanupError>, pid1: seq<CleanupError>, d: seq<CleanupError>)
    requires forall i :: 0 <= i < |a| ==> a[i].stage !in {RejectedRightClose, Pid1Close}
    requires forall i :: 0 <= i < |b| ==> b[i].stage !in {RejectedRightClose, Pid1Close}
    requires forall i :: 0 <= i < |pid1| ==> pid1[i].stage == Pid1Close
    requires forall i :: 0 <= i < |d| ==> d[i].stage !in {RejectedRightClose, Pid1Close}
    ensures Reports(a + b + pid1 + d) == |pid1|
  {
    ReportsAppend(a + b + pid1, d);
    ReportsAppend(a + b, pid1);
    NoReports(a + b);
    AllReports(pid1);
    NoReports(d);
  }

  lemma CloseReports(r: Rights, c: Config, f: Closing)
    ensures Reports(CloseFailures(r, c, f)) == |Pid1CloseFailures(r, f)|
  {
    ReportsAmid(Failures(ResultClose, f.result), Failures(ControlClose, f.control),
                Pid1CloseFailures(r, f), if c.helperFd.Some? then Failures(HelperClose, f.helper) else []);
  }

  /** Every held right is closed by the closing step, and its failure is listed there. */
  lemma CloseAllCustody(u: State, c: Config, f: Closing)
    requires Custody(u)
    ensures CloseAll(u, c, f).rights.got == CloseAll(u, c, f).rights.shut
    ensures Accounted(CloseAll(u, c, f))
  {
    ReportsAppend(u.err.cleanup, CloseFailures(u.rights, c, f));
    CloseReports(u.rights, c, f);
  }

  /**
   * At the end every descriptor received on the control channel has been closed exactly once, and
   * every failed close is listed, carried by the work error, or dropped.
   */
  lemma RightsClosedOnce(c: Config, script: seq<Pass>, f: Closing)
    requires ValidConfig(c)
    ensures var s := Final(c, script, f);
            && s.rights.got == s.rights.shut
            && s.rights.failed == Reports(s.err.cleanup) + Carried(s.err.work) + s.rights.dropped
  {
    StartKeeps(c);
    RoundsCustody(Start(c), c, script);
    WindUpCustody(Rounds(Start(c), c, script), c, f);
  }

  lemma WindUpCustody(r: State, c: Config, f: Closing)
    requires Custody(r)
    ensures WindUp(r, c, f).rights.got == WindUp(r, c, f).rights.shut && Accounted(WindUp(r, c, f))
  {
    var u := LastResort(r, c, f);
    LastResortKeeps(r, c, f);
    NeutralCustody(r, u);
    var v := u.(err := Listed(u.err, Residue(u)));
    ResidueNeutral(u);
    NeutralCustody(u, v);
    CloseAllCustody(v, c, f);
  }

  lemma ResidueNeutral(u: State)
    ensures Neutral(u, u.(err := Listed(u.err, Residue(u))))
  {
  }

  /** Along every run no signal is sent to the helper after the helper has been reaped. */
  lemma NoSignalAfterReap(c: Config, script: seq<Pass>, f: Closing)
    requires ValidConfig(c)
    ensures Ordered(Final(c, script, f).proc)
  {
    StartKeeps(c);
    RoundsOrdered(Start(c), c, script);
    LastResortKeeps(Rounds(Start(c), c, script), c, f);
    WindUpState(Rounds(Start(c), c, script), c, f);
  }
}
