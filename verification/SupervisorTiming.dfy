/** When the supervisor sends signals: only after an error, a tenth of a second apart, and not too late to reap. */
module SupervisorTiming {
  import opened Basics
  import opened Control
  import opened Supervisor

  predicate Signalled(e: Event) {
    e.Pid1Signalled? || e.HelperSignalled?
  }

  predicate SameKind(a: Event, b: Event) {
    (a.Pid1Signalled? && b.Pid1Signalled?) || (a.HelperSignalled? && b.HelperSignalled?)
  }

  /** A signal sent within the window, with the next one not due for a tenth of a second. */
  predicate Timely(e: Event, r: Errors) {
    Signalled(e) ==> r.work.Some? && r.force <= e.at <= r.until && e.at + TENTH <= r.next
  }

  predicate Spaced(events: seq<Event>) {
    forall i, j :: 0 <= i < j < |events| && SameKind(events[i], events[j]) ==> events[i].at + TENTH <= events[j].at
  }

  predicate Timed(s: State) {
    && (forall i :: 0 <= i < |s.proc.events| ==> Timely(s.proc.events[i], s.err))
    && Spaced(s.proc.events)
  }

  /** Signals end a tenth of a second before settlement, or at the force time when the window is shorter. */
  predicate Reserved(r: Errors) {
    r.until == r.force || r.until <= r.settlement - TENTH
  }

  /** A stretch of the run that sends no signal and, once there is an error, leaves the window alone. */
  predicate Still(s: State, t: State) {
    && |s.proc.events| <= |t.proc.events| && s.proc.events == t.proc.events[..|s.proc.events|]
    && (forall i :: |s.proc.events| <= i < |t.proc.events| ==> !Signalled(t.proc.events[i]))
    && (s.err.work.Some? ==>
          t.err.work.Some? && t.err.force == s.err.force && t.err.until == s.err.until && t.err.next == s.err.next)
    && (Reserved(s.err) ==> Reserved(t.err))
  }

  lemma StillOn(s: State, t: State, u: State)
    requires Still(s, t) && Still(t, u)
    ensures Still(s, u)
  {
    assert t.proc.events[..|s.proc.events|] == u.proc.events[..|t.proc.events|][..|s.proc.events|];
    forall i | |s.proc.events| <= i < |u.proc.events| ensures !Signalled(u.proc.events[i]) {
      if i < |t.proc.events| {
        assert u.proc.events[i] == u.proc.events[..|t.proc.events|][i];
      }
    }
  }

  lemma StillTimed(s: State, t: State)
    requires Timed(s) && Still(s, t)
    ensures Timed(t)
  {
    var n := |s.proc.events|;
    forall i | 0 <= i < |t.proc.events| ensures Timely(t.proc.events[i], t.err) {
      if i < n {
        assert t.proc.events[i] == s.proc.events[i] && Timely(s.proc.events[i], s.err);
      }
    }
    forall i, j | 0 <= i < j < |t.proc.events| && SameKind(t.proc.events[i], t.proc.events[j])
      ensures t.proc.events[i].at + TENTH <= t.proc.events[j].at
    {
      assert j < n;
      assert t.proc.events[i] == s.proc.events[i] && t.proc.events[j] == s.proc.events[j];
    }
  }

  // ---------------------------------------------------------------- the section that signals

  lemma SentWhenDue(events: seq<Event>, e: Event, r: Errors)
    requires Spaced(events) && (forall i :: 0 <= i < |events| ==> Timely(events[i], r)) && Signalled(e)
    requires r.next <= e.at
    ensures Spaced(events + [e])
  {
    var more := events + [e];
    forall i, j | 0 <= i < j < |more| && SameKind(more[i], more[j]) ensures more[i].at + TENTH <= more[j].at {
      assert Timely(events[i], r);
    }
  }

  lemma SpacedByKind(events: seq<Event>, a: Event, b: Event)
    requires Spaced(events + [a]) && Spaced(events + [b]) && !SameKind(a, b)
    ensures Spaced(events + [a] + [b])
  {
    var more, one, two := events + [a] + [b], events + [a], events + [b];
    forall i, j | 0 <= i < j < |more| && SameKind(more[i], more[j]) ensures more[i].at + TENTH <= more[j].at {
      if j < |one| {
        assert more[i] == one[i] && more[j] == one[j];
      } else if i < |events| {
        assert more[i] == two[i] && more[j] == two[|events|];
      }
    }
  }

  /** What `Signal` appends: at most one signal to PID 1, then at most one to the helper, at one time. */
  lemma SignalAppends(s: State, c: Config, pid1Kill: Option<Error>, helperKill: Option<Error>, now: int)
    ensures var e, t := s.proc.events, Signal(s, c, pid1Kill, helperKill, now).proc.events;
            || t == e || t == e + [Pid1Signalled(now)] || t == e + [HelperSignalled(now)]
            || t == e + [Pid1Signalled(now)] + [HelperSignalled(now)]
  {
  }

  lemma DeadlinesTimed(s: State, c: Config, p: Pass)
    requires Timed(s) && Reserved(s.err)
    ensures Timed(Deadlines(s, c, p)) && Reserved(Deadlines(s, c, p).err)
  {
    var s1 := s.(err := Overdue(s.err, c, p));
    StillTimed(s, s1);
    if SignalDue(s1.err, p.now) {
      SignalTimed(s1, c, p);
    }
  }

  lemma SignalTimed(s: State, c: Config, p: Pass)
    requires Timed(s) && Reserved(s.err) && SignalDue(s.err, p.now) && s.err.work.Some?
    ensures var t := Signal(s, c, p.pid1Kill, p.helperKill, p.now);
            Timed(t.(err := t.err.(next := p.now + TENTH)))
  {
    var e := s.proc.events;
    var a, b := Pid1Signalled(p.now), HelperSignalled(p.now);
    SentWhenDue(e, a, s.err);
    SentWhenDue(e, b, s.err);
    SpacedByKind(e, a, b);
    SignalAppends(s, c, p.pid1Kill, p.helperKill, p.now);
    var t := Signal(s, c, p.pid1Kill, p.helperKill, p.now);
    var r := t.err.(next := p.now + TENTH);
    forall i | 0 <= i < |t.proc.events| ensures Timely(t.proc.events[i], r) {
      if i < |e| {
        assert t.proc.events[i] == e[i] && Timely(e[i], s.err);
      }
    }
  }

  // ---------------------------------------------------------------- whole runs

  lemma WorkStill(s: State, e: Error, at: int)
    ensures Still(s, Work(s, e, at))
  {
  }

  lemma ActStill(s: State, d: Datagram, right: Option<nat>, action: Action, at: int)
    ensures Still(s, Act(s, d, right, action, at))
  {
  }

  lemma ControlStill(s: State, p: Pass)
    ensures Still(s, ReadControl(s, p))
  {
    if p.packet.Arrived? && Receive(p.packet.datagram).Accepted? {
      var d := p.packet.datagram;
      var right := Receive(d).right;
      ActStill(s, d, right, Classify(Receive(d).raw, right, d.valid, s.rights.pid1Fd.None?), p.at);
    }
  }

  lemma MissingStill(s: State, p: Pass)
    ensures Still(s, MissingReport(s, p))
  {
    var t := Work(s, Native(NoSettlementReport), p.at);
    WorkStill(s, Native(NoSettlementReport), p.at);
    StillOn(s, t, DrainedTerminal(t, p.lateDrain));
  }

  lemma ReapStill(s: State, c: Config, p: Pass)
    ensures Still(s, ReapHelper(s, c, p)) && Still(s, ReapPid1(s, p))
  {
  }

  lemma EscapeStill(s: State, t: State, p: Pass)
    requires Still(s, t)
    ensures p.fault.Some? ==> Still(s, Escape(t, p).state)
  {
    if p.fault.Some? {
      WorkStill(t, p.fault.value.1, p.at);
      StillOn(s, t, Work(t, p.fault.value.1, p.at));
    }
  }

  lemma ReapingStill(s: State, c: Config, p: Pass)
    ensures Still(s, Reaping(s, c, p).state)
  {
    var s1 := ReapHelper(s, c, p);
    ReapStill(s, c, p);
    EscapeStill(s, s1, p);
    var s2 := ReapPid1(s1, p);
    ReapStill(s1, c, p);
    StillOn(s, s1, s2);
    EscapeStill(s, s2, p);
    MissingStill(s2, p);
    StillOn(s, s2, MissingReport(s2, p));
  }

  lemma HearingStill(s: State, c: Config, p: Pass)
    ensures Still(s, Hearing(s, c, p).state)
  {
    EscapeStill(s, s, p);
    ControlStill(s, p);
    var t := ReadControl(s, p);
    var u := MarkPid1(t, s.rights.pid1Fd, p);
    StillOn(s, t, u);
    EscapeStill(s, u, p);
    ReapingStill(u, c, p);
    StillOn(s, u, Reaping(u, c, p).state);
  }

  lemma PipeStill(s: State, p: Pass)
    ensures Still(s, ReadPipe(s, p))
  {
  }

  lemma ExchangeStill(s: State, c: Config, p: Pass)
    ensures Still(s, Exchange(s, c, p).state)
  {
    EscapeStill(s, s, p);
    var t := Polled(s, p);
    if p.poll.PollFailed? {
      WorkStill(s, p.poll.error, p.at);
    }
    var u := ReadPipe(t, p);
    PipeStill(t, p);
    StillOn(s, t, u);
    HearingStill(u, c, p);
    StillOn(s, u, Hearing(u, c, p).state);
  }

  lemma RoundTimed(s: State, c: Config, p: Pass)
    requires Timed(s) && Reserved(s.err)
    ensures Timed(Round(s, c, p).state) && Reserved(Round(s, c, p).state.err)
  {
    var s1 := Settle(s, p);
    assert Still(s, s1);
    StillTimed(s, s1);
    EscapeStill(s1, s1, p);
    if p.fault.Some? {
      StillTimed(s1, Escape(s1, p).state);
    }
    DeadlinesTimed(s1, c, p);
    var s2 := Deadlines(s1, c, p);
    ExchangeStill(s2, c, p);
    StillTimed(s2, Exchange(s2, c, p).state);
  }

  /**
   * Along every run each signal of the loop falls after the first work error and within the window,
   * two signals to one process are at least a tenth of a second apart, and the window leaves time to reap.
   */
  lemma {:induction false} RoundsTimed(s: State, c: Config, script: seq<Pass>)
    requires Timed(s) && Reserved(s.err)
    ensures Timed(Rounds(s, c, script)) && Reserved(Rounds(s, c, script).err)
    decreases |script|
  {
    if script != [] {
      RoundTimed(s, c, script[0]);
      var next := Round(s, c, script[0]);
      if next.Continue? {
        RoundsTimed(next.state, c, script[1..]);
      }
    }
  }

  lemma {:induction false} BlockingReserved(s: State, errors: seq<PlainError>, at: int)
    requires Reserved(s.err) && s.proc.events == []
    ensures Reserved(Blocking(s, errors, at).err) && Blocking(s, errors, at).proc.events == []
    decreases |errors|
  {
    if errors != [] {
      BlockingReserved(Work(s, errors[0], at), errors[1..], at);
    }
  }

  lemma StartTimed(c: Config)
    ensures Timed(Start(c)) && Reserved(Start(c).err)
  {
    var s := State(
      Intake([], [], false, false),
      Processes(false, false, false, c.initialNoPid1, None, None, None, false, []),
      Rights(c.pid1Fd, One(c.pid1Fd), multiset{}, Carried(c.initialError), 0),
      StartErrors(c));
    BlockingReserved(s, c.blocking, c.startClock);
  }

  /** Both together for a whole supervision, up to the end of its loop. */
  lemma SignalsTimed(c: Config, script: seq<Pass>)
    ensures Timed(Rounds(Start(c), c, script)) && Reserved(Rounds(Start(c), c, script).err)
  {
    StartTimed(c);
    RoundsTimed(Start(c), c, script);
  }
}
