/** What holds along every supervised run, whatever the environment answers. */
module SupervisorSafety {
  import opened Basics
  import opened Control
  import opened Supervisor

  // ---------------------------------------------------------------- growth and soundness

  /** Facts about the loop's variables that every section keeps. */
  predicate Sound(s: State, c: Config) {
    && (c.initialError.Some? ==> s.err.work == c.initialError)
    && (c.helperFd.None? ==> s.err.work.Some?)
    && (s.pipe.oversize ==> s.err.work.Some?)
    && (!s.pipe.oversize ==> s.pipe.raw == s.pipe.stream)
    && (s.proc.noPid1 ==> s.err.work.Some?)
    && (s.proc.helperReaped && s.proc.helperInfo.None? ==> s.err.work.Some? || s.err.cleanup != [])
  }

  /** What any stretch of the run keeps and only adds to. */
  predicate Grows(s: State, t: State) {
    && (s.err.work.Some? ==> t.err.work == s.err.work)
    && |s.err.cleanup| <= |t.err.cleanup| && s.err.cleanup == t.err.cleanup[..|s.err.cleanup|]
    && |s.pipe.stream| <= |t.pipe.stream| && s.pipe.stream == t.pipe.stream[..|s.pipe.stream|]
    && t.err.settlement <= s.err.settlement
    && (s.proc.helperReaped ==> t.proc.helperReaped)
    && (s.pipe.eof ==> t.pipe.eof) && (s.proc.controlEof ==> t.proc.controlEof)
  }

  /** An error first recorded at `at` leaves at most the reap time until settlement. */
  predicate Capped(s: State, t: State, at: int) {
    t.err.work == s.err.work || t.err.settlement <= at + REAP_SECONDS * NS
  }

  predicate Keeps(s: State, t: State, c: Config, at: int) {
    Grows(s, t) && Capped(s, t, at) && (Sound(s, c) ==> Sound(t, c))
  }

  lemma KeepsOn(s: State, t: State, u: State, c: Config, at: int)
    requires Keeps(s, t, c, at) && Keeps(t, u, c, at)
    ensures Keeps(s, u, c, at)
  {
    assert t.err.cleanup[..|s.err.cleanup|] == u.err.cleanup[..|t.err.cleanup|][..|s.err.cleanup|];
    assert t.pipe.stream[..|s.pipe.stream|] == u.pipe.stream[..|t.pipe.stream|][..|s.pipe.stream|];
  }

  predicate SameOrder(s: State, t: State) {
    t.proc.events == s.proc.events && t.proc.helperReaped == s.proc.helperReaped
  }

  lemma WorkKeeps(s: State, c: Config, e: Error, at: int)
    ensures Keeps(s, Work(s, e, at), c, at)
  {
  }

  lemma DrainKeeps(s: State, c: Config, d: Drain, at: int)
    ensures Keeps(s, Drained(s, d), c, at)
    ensures Keeps(s, DrainedTerminal(s, d), c, at)
  {
  }

  lemma SignalKeeps(s: State, c: Config, pid1Kill: Option<Error>, helperKill: Option<Error>, now: int, at: int)
    ensures Keeps(s, Signal(s, c, pid1Kill, helperKill, now), c, at)
  {
    var t := SignalPid1(s, pid1Kill, now);
    assert Keeps(s, t, c, at);
    KeepsOn(s, t, SignalHelper(t, c, helperKill, now), c, at);
  }

  lemma DeadlinesKeeps(s: State, c: Config, p: Pass)
    ensures Keeps(s, Deadlines(s, c, p), c, p.at)
  {
    var t := s.(err := Overdue(s.err, c, p));
    var u := Signal(t, c, p.pid1Kill, p.helperKill, p.now);
    SignalKeeps(t, c, p.pid1Kill, p.helperKill, p.now, p.at);
    assert Keeps(s, t, c, p.at);
    KeepsOn(s, t, u, c, p.at);
  }

  lemma PipeKeeps(s: State, c: Config, p: Pass)
    ensures Keeps(s, ReadPipe(s, p), c, p.at)
  {
  }

  lemma ActKeeps(s: State, c: Config, d: Datagram, right: Option<nat>, action: Action, at: int)
    ensures Keeps(s, Act(s, d, right, action, at), c, at)
    ensures SameOrder(s, Act(s, d, right, action, at))
  {
  }

  lemma ControlKeeps(s: State, c: Config, p: Pass)
    ensures Keeps(s, ReadControl(s, p), c, p.at)
    ensures SameOrder(s, ReadControl(s, p))
  {
    if p.packet.Arrived? && Receive(p.packet.datagram).Accepted? {
      var d := p.packet.datagram;
      var right := Receive(d).right;
      ActKeeps(s, c, d, right, Classify(Receive(d).raw, right, d.valid, s.rights.pid1Fd.None?), p.at);
    }
  }

  lemma ReapKeeps(s: State, c: Config, p: Pass)
    ensures Keeps(s, ReapHelper(s, c, p), c, p.at)
    ensures Keeps(s, ReapPid1(s, p), c, p.at)
  {
  }

  lemma MissingReportKeeps(s: State, c: Config, p: Pass)
    ensures Keeps(s, MissingReport(s, p), c, p.at)
  {
    var t := Work(s, Native(NoSettlementReport), p.at);
    WorkKeeps(s, c, Native(NoSettlementReport), p.at);
    DrainKeeps(t, c, p.lateDrain, p.at);
    KeepsOn(s, t, DrainedTerminal(t, p.lateDrain), c, p.at);
  }

  lemma ReapingKeeps(s: State, c: Config, p: Pass)
    ensures Keeps(s, Reaping(s, c, p).state, c, p.at)
  {
    var s1 := ReapHelper(s, c, p);
    ReapKeeps(s, c, p);
    var s2 := ReapPid1(s1, p);
    ReapKeeps(s1, c, p);
    KeepsOn(s, s1, s2, c, p.at);
    var s3 := MissingReport(s2, p);
    MissingReportKeeps(s2, c, p);
    KeepsOn(s, s2, s3, c, p.at);
    if p.fault.Some? {
      WorkKeeps(s1, c, p.fault.value.1, p.at);
      WorkKeeps(s2, c, p.fault.value.1, p.at);
    }
  }

  lemma HearingKeeps(s: State, c: Config, p: Pass)
    ensures Keeps(s, Hearing(s, c, p).state, c, p.at)
  {
    var s1 := ReadControl(s, p);
    ControlKeeps(s, c, p);
    var s2 := MarkPid1(s1, s.rights.pid1Fd, p);
    KeepsOn(s, s1, s2, c, p.at);
    ReapingKeeps(s2, c, p);
    KeepsOn(s, s2, Reaping(s2, c, p).state, c, p.at);
    if p.fault.Some? {
      WorkKeeps(s, c, p.fault.value.1, p.at);
      WorkKeeps(s2, c, p.fault.value.1, p.at);
    }
  }

  lemma ExchangeKeeps(s: State, c: Config, p: Pass)
    ensures Keeps(s, Exchange(s, c, p).state, c, p.at)
  {
    var s1 := Polled(s, p);
    if p.poll.PollFailed? {
      WorkKeeps(s, c, p.poll.error, p.at);
    }
    var s2 := ReadPipe(s1, p);
    PipeKeeps(s1, c, p);
    KeepsOn(s, s1, s2, c, p.at);
    HearingKeeps(s2, c, p);
    KeepsOn(s, s2, Hearing(s2, c, p).state, c, p.at);
    if p.fault.Some? {
      WorkKeeps(s, c, p.fault.value.1, p.at);
    }
  }

  lemma RoundKeeps(s: State, c: Config, p: Pass)
    ensures Keeps(s, Round(s, c, p).state, c, p.at)
  {
    var s1 := Settle(s, p);
    DrainKeeps(s, c, p.topDrain, p.at);
    var s2 := Deadlines(s1, c, p);
    DeadlinesKeeps(s1, c, p);
    KeepsOn(s, s1, s2, c, p.at);
    ExchangeKeeps(s2, c, p);
    KeepsOn(s, s2, Exchange(s2, c, p).state, c, p.at);
    if p.fault.Some? {
      WorkKeeps(s1, c, p.fault.value.1, p.at);
    }
  }

  lemma GrowsOn(s: State, t: State, u: State)
    requires Grows(s, t) && Grows(t, u)
    ensures Grows(s, u)
  {
    assert t.err.cleanup[..|s.err.cleanup|] == u.err.cleanup[..|t.err.cleanup|][..|s.err.cleanup|];
    assert t.pipe.stream[..|s.pipe.stream|] == u.pipe.stream[..|t.pipe.stream|][..|s.pipe.stream|];
  }

  /**
   * Along every run the first work error is kept, listed cleanup errors stay listed, bytes read stay
   * read, the deadline never moves later, and soundness is preserved.
   */
  lemma {:induction false} RoundsKeep(s: State, c: Config, script: seq<Pass>)
    ensures Grows(s, Rounds(s, c, script)) && (Sound(s, c) ==> Sound(Rounds(s, c, script), c))
    decreases |script|
  {
    if script != [] {
      RoundKeeps(s, c, script[0]);
      var next := Round(s, c, script[0]);
      if next.Continue? {
        RoundsKeep(next.state, c, script[1..]);
        GrowsOn(s, next.state, Rounds(next.state, c, script[1..]));
      }
    }
  }

  /** An error recorded during the run caps the deadline at its own pass's clock plus the reap time. */
  lemma {:induction false} RoundsCap(s: State, c: Config, script: seq<Pass>)
    ensures Rounds(s, c, script).err.work == s.err.work
         || exists i :: 0 <= i < |script| && Rounds(s, c, script).err.settlement <= script[i].at + REAP_SECONDS * NS
    decreases |script|
  {
    if script != [] {
      RoundKeeps(s, c, script[0]);
      var next := Round(s, c, script[0]);
      if next.Continue? {
        RoundsKeep(next.state, c, script[1..]);
        RoundsCap(next.state, c, script[1..]);
        var t := Rounds(s, c, script);
        if t.err.work != next.state.err.work {
          var i :| 0 <= i < |script[1..]| && t.err.settlement <= script[1..][i].at + REAP_SECONDS * NS;
          assert script[i + 1] == script[1..][i];
        } else if t.err.work != s.err.work {
          assert t.err.settlement <= script[0].at + REAP_SECONDS * NS;
        }
      } else if next.state.err.work != s.err.work {
        assert next.state.err.settlement <= script[0].at + REAP_SECONDS * NS;
      }
    }
  }

  /** A longer script only continues the run of a shorter one. */
  lemma {:induction false} RoundsContinue(s: State, c: Config, a: seq<Pass>, b: seq<Pass>)
    ensures Grows(Rounds(s, c, a), Rounds(s, c, a + b))
    decreases |a|
  {
    if a == [] {
      assert a + b == b;
      RoundsKeep(s, c, b);
    } else {
      assert (a + b)[0] == a[0] && (a + b)[1..] == a[1..] + b;
      var next := Round(s, c, a[0]);
      if next.Continue? {
        RoundsContinue(next.state, c, a[1..], b);
      }
    }
  }

  // ---------------------------------------------------------------- signals and the reap

  /** No signal is sent to the helper once a reap has released its process identity. */
  predicate Ordered(k: Processes) {
    && (k.helperReaped <==> HelperGone in k.events)
    && forall i, j :: 0 <= i < j < |k.events| && k.events[i] == HelperGone ==> !k.events[j].HelperSignalled?
  }

  lemma SignalOrdered(s: State, c: Config, pid1Kill: Option<Error>, helperKill: Option<Error>, now: int)
    requires Ordered(s.proc)
    ensures Ordered(Signal(s, c, pid1Kill, helperKill, now).proc)
  {
    assert Ordered(SignalPid1(s, pid1Kill, now).proc);
  }

  lemma ReapingOrdered(s: State, c: Config, p: Pass)
    requires Ordered(s.proc)
    ensures Ordered(Reaping(s, c, p).state.proc)
  {
    assert Ordered(ReapHelper(s, c, p).proc);
  }

  lemma HearingOrdered(s: State, c: Config, p: Pass)
    requires Ordered(s.proc)
    ensures Ordered(Hearing(s, c, p).state.proc)
  {
    ControlKeeps(s, c, p);
    ReapingOrdered(MarkPid1(ReadControl(s, p), s.rights.pid1Fd, p), c, p);
  }

  lemma RoundOrdered(s: State, c: Config, p: Pass)
    requires Ordered(s.proc)
    ensures Ordered(Round(s, c, p).state.proc)
  {
    var s1 := Settle(s, p);
    SignalOrdered(s1.(err := Overdue(s1.err, c, p)), c, p.pid1Kill, p.helperKill, p.now);
    var s2 := Deadlines(s1, c, p);
    assert ReadPipe(Polled(s2, p), p).proc == s2.proc;
    HearingOrdered(ReadPipe(Polled(s2, p), p), c, p);
  }

  lemma {:induction false} RoundsOrdered(s: State, c: Config, script: seq<Pass>)
    requires Ordered(s.proc)
    ensures Ordered(Rounds(s, c, script).proc)
    decreases |script|
  {
    if script != [] {
      RoundOrdered(s, c, script[0]);
      var next := Round(s, c, script[0]);
      if next.Continue? {
        RoundsOrdered(next.state, c, script[1..]);
      }
    }
  }

  // ---------------------------------------------------------------- descriptor rights

  function Reports(cleanup: seq<CleanupError>): nat {
    if cleanup == [] then 0
    else Reports(cleanup[..|cleanup| - 1])
         + (if cleanup[|cleanup| - 1].stage in {RejectedRightClose, Pid1Close} then 1 else 0)
  }

  /** Each received descriptor is held as the PID 1 pidfd or has been closed, exactly once. */
  predicate Owned(r: Rights) {
    r.got == r.shut + One(r.pid1Fd)
  }

  /** Every failed close is listed, carried by the work error, or counted as dropped. */
  predicate Accounted(s: State) {
    s.rights.failed == Reports(s.err.cleanup) + Carried(s.err.work) + s.rights.dropped
  }

  predicate Custody(s: State) {
    Owned(s.rights) && Accounted(s)
  }

  lemma {:induction false} ReportsAppend(a: seq<CleanupError>, b: seq<CleanupError>)
    ensures Reports(a + b) == Reports(a) + Reports(b)
  {
    if b == [] {
      assert a + b == a;
    } else {
      var init := b[..|b| - 1];
      assert (a + b)[..|a + b| - 1] == a + init;
      ReportsAppend(a, init);
    }
  }

  lemma {:induction false} NoReports(b: seq<CleanupError>)
    requires forall i :: 0 <= i < |b| ==> b[i].stage !in {RejectedRightClose, Pid1Close}
    ensures Reports(b) == 0
  {
    if b != [] {
      NoReports(b[..|b| - 1]);
    }
  }

  lemma {:induction false} AllReports(b: seq<CleanupError>)
    requires forall i :: 0 <= i < |b| ==> b[i].stage in {RejectedRightClose, Pid1Close}
    ensures Reports(b) == |b|
  {
    if b != [] {
      AllReports(b[..|b| - 1]);
    }
  }

  /** Sections that neither receive nor close rights, and list no right's close failure. */
  predicate Neutral(s: State, t: State) {
    && t.rights == s.rights
    && |s.err.cleanup| <= |t.err.cleanup| && s.err.cleanup == t.err.cleanup[..|s.err.cleanup|]
    && (forall i :: |s.err.cleanup| <= i < |t.err.cleanup| ==>
          t.err.cleanup[i].stage !in {RejectedRightClose, Pid1Close})
    && (t.err.work == s.err.work || (s.err.work.None? && Carried(t.err.work) == 0))
  }

  lemma NeutralOn(s: State, t: State, u: State)
    requires Neutral(s, t) && Neutral(t, u)
    ensures Neutral(s, u)
  {
    assert t.err.cleanup[..|s.err.cleanup|] == u.err.cleanup[..|t.err.cleanup|][..|s.err.cleanup|];
    forall i | |s.err.cleanup| <= i < |t.err.cleanup|
      ensures u.err.cleanup[i].stage !in {RejectedRightClose, Pid1Close}
    {
      assert u.err.cleanup[i] == u.err.cleanup[..|t.err.cleanup|][i];
    }
  }

  lemma NeutralCustody(s: State, t: State)
    requires Neutral(s, t) && Custody(s)
    ensures Custody(t)
  {
    var added := t.err.cleanup[|s.err.cleanup|..];
    assert t.err.cleanup == s.err.cleanup + added;
    ReportsAppend(s.err.cleanup, added);
    NoReports(added);
  }

  lemma WorkNeutral(s: State, e: PlainError, at: int)
    ensures Neutral(s, Work(s, e, at))
  {
  }

  lemma DrainNeutral(s: State, d: Drain)
    ensures Neutral(s, Drained(s, d)) && Neutral(s, DrainedTerminal(s, d))
  {
  }

  lemma SignalNeutral(s: State, c: Config, pid1Kill: Option<Error>, helperKill: Option<Error>, now: int)
    ensures Neutral(s, Signal(s, c, pid1Kill, helperKill, now))
  {
    var t := SignalPid1(s, pid1Kill, now);
    assert Neutral(s, t);
    NeutralOn(s, t, SignalHelper(t, c, helperKill, now));
  }

  lemma DeadlinesNeutral(s: State, c: Config, p: Pass)
    ensures Neutral(s, Deadlines(s, c, p))
  {
    var t := s.(err := Overdue(s.err, c, p));
    SignalNeutral(t, c, p.pid1Kill, p.helperKill, p.now);
    NeutralOn(s, t, Signal(t, c, p.pid1Kill, p.helperKill, p.now));
  }

  lemma PipeNeutral(s: State, p: Pass)
    ensures Neutral(s, ReadPipe(Polled(s, p), p))
  {
  }

  lemma ReapNeutral(s: State, c: Config, p: Pass)
    ensures Neutral(s, ReapHelper(s, c, p)) && Neutral(s, ReapPid1(s, p))
  {
  }

  lemma MissingReportNeutral(s: State, p: Pass)
    ensures Neutral(s, MissingReport(s, p))
  {
    var t := Work(s, Native(NoSettlementReport), p.at);
    WorkNeutral(s, Native(NoSettlementReport), p.at);
    DrainNeutral(t, p.lateDrain);
    NeutralOn(s, t, DrainedTerminal(t, p.lateDrain));
  }

  lemma ReapingNeutral(s: State, c: Config, p: Pass)
    ensures Neutral(s, Reaping(s, c, p).state)
  {
    var s1 := ReapHelper(s, c, p);
    ReapNeutral(s, c, p);
    var s2 := ReapPid1(s1, p);
    ReapNeutral(s1, c, p);
    NeutralOn(s, s1, s2);
    MissingReportNeutral(s2, p);
    NeutralOn(s, s2, MissingReport(s2, p));
    if p.fault.Some? {
      WorkNeutral(s1, p.fault.value.1, p.at);
      NeutralOn(s, s1, Work(s1, p.fault.value.1, p.at));
      WorkNeutral(s2, p.fault.value.1, p.at);
      NeutralOn(s, s2, Work(s2, p.fault.value.1, p.at));
    }
  }

  lemma DisownCustody(s: State, d: Datagram, right: Option<nat>, e: PlainError, at: int)
    requires Custody(s)
    ensures Custody(Disown(s, d, right, e, at))
  {
    var failures := DisownFailures(d, right);
    ReportsAppend(s.err.cleanup, failures);
    AllReports(failures);
  }

  lemma ActCustody(s: State, d: Datagram, right: Option<nat>, action: Action, at: int)
    requires Custody(s)
    requires action.GotPid1? ==> right == Some(action.fd) && s.rights.pid1Fd.None?
    requires !action.GotPid1? && !action.Reject? ==> right.None?
    ensures Custody(Act(s, d, right, action, at))
  {
    if action.Reject? {
      DisownCustody(s, d, right, action.error, at);
    }
  }

  lemma RefuseCustody(s: State, d: Datagram, at: int)
    requires Custody(s) && Receive(d).Refused?
    ensures Custody(Refuse(s, d, Receive(d).error, Receive(d).failures, at))
  {
  }

  lemma ControlCustody(s: State, p: Pass)
    requires Custody(s)
    ensures Custody(ReadControl(s, p))
  {
    match p.packet
    case NoPacket =>
    case ReceiveFailed(e) =>
      WorkNeutral(s, e, p.at);
      NeutralCustody(s, Work(s, e, p.at));
    case Arrived(d) =>
      if Receive(d).Accepted? {
        var right := Receive(d).right;
        ActCustody(s, d, right, Classify(Receive(d).raw, right, d.valid, s.rights.pid1Fd.None?), p.at);
      } else {
        RefuseCustody(s, d, p.at);
      }
  }

  lemma FaultCustody(s: State, p: Pass)
    requires Custody(s)
    ensures p.fault.Some? ==> Custody(Escape(s, p).state)
  {
    if p.fault.Some? {
      WorkNeutral(s, p.fault.value.1, p.at);
      NeutralCustody(s, Work(s, p.fault.value.1, p.at));
    }
  }

  lemma HearingCustody(s: State, c: Config, p: Pass)
    requires Custody(s)
    ensures Custody(Hearing(s, c, p).state)
  {
    ControlCustody(s, p);
    var t := ReadControl(s, p);
    var u := MarkPid1(t, s.rights.pid1Fd, p);
    assert u.rights == t.rights && u.err == t.err;
    ReapingNeutral(u, c, p);
    NeutralCustody(u, Reaping(u, c, p).state);
    FaultCustody(s, p);
    FaultCustody(u, p);
  }

  lemma RoundCustody(s: State, c: Config, p: Pass)
    requires Custody(s)
    ensures Custody(Round(s, c, p).state)
  {
    var s1 := Settle(s, p);
    DrainNeutral(s, p.topDrain);
    NeutralCustody(s, s1);
    FaultCustody(s1, p);
    var s2 := Deadlines(s1, c, p);
    DeadlinesNeutral(s1, c, p);
    NeutralCustody(s1, s2);
    ExchangeCustody(s2, c, p);
  }

  lemma ExchangeCustody(s: State, c: Config, p: Pass)
    requires Custody(s)
    ensures Custody(Exchange(s, c, p).state)
  {
    FaultCustody(s, p);
    var t := ReadPipe(Polled(s, p), p);
    PipeNeutral(s, p);
    NeutralCustody(s, t);
    HearingCustody(t, c, p);
  }

  /** Along every run each received right stays owned and every failed close accounted for. */
  lemma {:induction false} RoundsCustody(s: State, c: Config, script: seq<Pass>)
    requires Custody(s)
    ensures Custody(Rounds(s, c, script))
    decreases |script|
  {
    if script != [] {
      RoundCustody(s, c, script[0]);
      var next := Round(s, c, script[0]);
      if next.Continue? {
        RoundsCustody(next.state, c, script[1..]);
      }
    }
  }
}
