/**
 * What a whole run rests on, pass by pass: which passes the loop reaches, and what each of them did in
 * the state it was reached in.
 */
module SupervisorReach {
  import opened Basics
  import opened Control
  import opened Supervisor
  import opened SupervisorSafety
  import opened SupervisorClaims

  // ---------------------------------------------------------------- reached passes

  /** The state before pass `k`, if the loop gets there. */
  function Reached(s: State, c: Config, script: seq<Pass>, k: nat): Option<State>
    requires k <= |script|
    decreases k
  {
    if k == 0 then Some(s)
    else
      match Round(s, c, script[0])
      case Leave(_) => None
      case Continue(t) => Reached(t, c, script[1..], k - 1)
  }

  /** The pass gets as far as the control channel. */
  predicate Hears(s: State, p: Pass) {
    && p.clock < s.err.settlement && !(Quiet(s) && Settle(s, p).proc.descendantsEmpty)
    && !Cut(p, 1) && !Cut(p, 2) && !Cut(p, 3)
  }

  /** The state in which the pass looks at the control channel. */
  function Heard(s: State, c: Config, p: Pass): State {
    ReadPipe(Polled(Deadlines(Settle(s, p), c, p), p), p)
  }

  /** A refused packet arrives after a first work error, and closing one of its rights fails. */
  predicate Discards(s: State, p: Pass) {
    && s.err.work.Some? && !s.proc.controlEof && (p.poll.PollFailed? || p.poll.control)
    && p.packet.Arrived? && Receive(p.packet.datagram).Refused?
    && Receive(p.packet.datagram).failures != []
  }

  /** The pidfd of PID 1 was polled and found readable. */
  predicate Sees(s: State, p: Pass) {
    s.rights.pid1Fd.Some? && p.poll.Ready? && p.poll.pid1
  }

  /** The poll failed, so PID 1 counts as readable, unless its pidfd arrived in this very pass. */
  predicate Blinds(s: State, p: Pass) {
    p.poll.PollFailed? && ReadControl(s, p).rights.pid1Fd == s.rights.pid1Fd
  }

  datatype Mark = Discarding | Seeing | Blind

  /** What a pass did in the state it was reached in. */
  predicate Marks(m: Mark, s: State, c: Config, p: Pass) {
    && Hears(s, p)
    && match m
       case Discarding => Discards(Heard(s, c, p), p)
       case Seeing => Sees(Heard(s, c, p), p)
       case Blind => Blinds(Heard(s, c, p), p)
  }

  predicate MarksAt(m: Mark, s: State, c: Config, script: seq<Pass>, k: nat)
    requires k < |script|
  {
    Reached(s, c, script, k).Some? && Marks(m, Reached(s, c, script, k).value, c, script[k])
  }

  /** Some pass the loop reaches did it. */
  predicate Ever(m: Mark, s: State, c: Config, script: seq<Pass>) {
    exists k :: 0 <= k < |script| && MarksAt(m, s, c, script, k)
  }

  lemma EverStep(m: Mark, s: State, c: Config, script: seq<Pass>)
    requires script != []
    ensures Ever(m, s, c, script) <==>
              Marks(m, s, c, script[0])
              || (Round(s, c, script[0]).Continue? && Ever(m, Round(s, c, script[0]).state, c, script[1..]))
  {
    var next := Round(s, c, script[0]);
    if Ever(m, s, c, script) {
      var k :| 0 <= k < |script| && MarksAt(m, s, c, script, k);
      if k > 0 {
        assert MarksAt(m, next.state, c, script[1..], k - 1);
      }
    }
    if Marks(m, s, c, script[0]) {
      assert MarksAt(m, s, c, script, 0);
    }
    if next.Continue? && Ever(m, next.state, c, script[1..]) {
      var k :| 0 <= k < |script[1..]| && MarksAt(m, next.state, c, script[1..], k);
      assert MarksAt(m, s, c, script, k + 1);
    }
  }

  // ---------------------------------------------------------------- close failures that go unreported

  lemma ControlDrops(s: State, p: Pass)
    ensures ReadControl(s, p).rights.dropped >= s.rights.dropped
    ensures ReadControl(s, p).rights.dropped > s.rights.dropped <==> Discards(s, p)
  {
  }

  lemma HeardNeutral(s: State, c: Config, p: Pass)
    ensures Settle(s, p).rights == s.rights && Deadlines(Settle(s, p), c, p).rights == s.rights
    ensures Heard(s, c, p).rights == s.rights
  {
    var s1 := Settle(s, p);
    DeadlinesNeutral(s1, c, p);
    PipeNeutral(Deadlines(s1, c, p), p);
  }

  lemma HearingDrops(s: State, c: Config, p: Pass)
    requires !Cut(p, 3)
    ensures Hearing(s, c, p).state.rights == ReadControl(s, p).rights
  {
    var t := MarkPid1(ReadControl(s, p), s.rights.pid1Fd, p);
    ReapingNeutral(t, c, p);
  }

  lemma RoundDrops(s: State, c: Config, p: Pass)
    ensures Round(s, c, p).state.rights.dropped >= s.rights.dropped
    ensures Round(s, c, p).state.rights.dropped > s.rights.dropped <==> Marks(Discarding, s, c, p)
  {
    HeardNeutral(s, c, p);
    if Hears(s, p) {
      HearingDrops(Heard(s, c, p), c, p);
      ControlDrops(Heard(s, c, p), p);
    }
  }

  lemma {:induction false} RoundsDrop(s: State, c: Config, script: seq<Pass>)
    ensures Rounds(s, c, script).rights.dropped >= s.rights.dropped
    ensures Rounds(s, c, script).rights.dropped > s.rights.dropped <==> Ever(Discarding, s, c, script)
    decreases |script|
  {
    if script != [] {
      RoundDrops(s, c, script[0]);
      EverStep(Discarding, s, c, script);
      var next := Round(s, c, script[0]);
      if next.Continue? {
        RoundsDrop(next.state, c, script[1..]);
      }
    }
  }

  /**
   * Over whole runs: a failed close of a received right is lost exactly when some pass the loop
   * reaches refuses a packet after a first work error and fails to close one of its rights.
   */
  lemma DroppedExactly(c: Config, script: seq<Pass>, f: Closing)
    requires ValidConfig(c)
    ensures Final(c, script, f).rights.dropped == 0 <==> !Ever(Discarding, Start(c), c, script)
  {
    StartKeeps(c);
    RoundsDrop(Start(c), c, script);
    WindUpDrops(Rounds(Start(c), c, script), c, f);
  }

  lemma WindUpDrops(s: State, c: Config, f: Closing)
    ensures WindUp(s, c, f).rights.dropped == s.rights.dropped
  {
    LastResortKeeps(s, c, f);
  }

  /**
   * Every right received on the control channel is closed exactly once, and every failed close is
   * listed or carried by the work error exactly when no reached pass loses one.
   */
  lemma RightsReported(c: Config, script: seq<Pass>, f: Closing)
    requires ValidConfig(c)
    ensures var s := Final(c, script, f);
            && s.rights.got == s.rights.shut
            && (s.rights.failed == Reports(s.err.cleanup) + Carried(s.err.work) <==>
                  !Ever(Discarding, Start(c), c, script))
  {
    RightsClosedOnce(c, script, f);
    DroppedExactly(c, script, f);
  }

  lemma ActGot(s: State, d: Datagram, right: Option<nat>, action: Action, at: int)
    ensures s.rights.got <= Act(s, d, right, action, at).rights.got
  {
    match action
    case Reject(e) => assert Disown(s, d, right, e, at).rights.got == s.rights.got + One(right);
    case GotPid1(fd) => assert Act(s, d, right, action, at).rights.got == s.rights.got + multiset{fd};
    case Eof =>
    case Pid1Exit(_) =>
    case NoPid1(_, _) =>
    case HelperFault(_, _) =>
  }

  lemma ControlGot(s: State, p: Pass)
    ensures s.rights.got <= ReadControl(s, p).rights.got
  {
    if p.packet.Arrived? {
      var d := p.packet.datagram;
      match Receive(d)
      case Refused(e, failures) =>
        assert Refuse(s, d, e, failures, p.at).rights.got == s.rights.got + multiset(d.rights);
      case Accepted(raw, right) =>
        ActGot(s, d, right, Classify(raw, right, d.valid, s.rights.pid1Fd.None?), p.at);
    }
  }

  lemma RoundGot(s: State, c: Config, p: Pass)
    ensures s.rights.got <= Round(s, c, p).state.rights.got
  {
    HeardNeutral(s, c, p);
    if Hears(s, p) {
      HearingDrops(Heard(s, c, p), c, p);
      ControlGot(Heard(s, c, p), p);
    }
  }

  lemma {:induction false} RoundsGot(s: State, c: Config, script: seq<Pass>)
    ensures s.rights.got <= Rounds(s, c, script).rights.got
    decreases |script|
  {
    if script != [] {
      RoundGot(s, c, script[0]);
      var next := Round(s, c, script[0]);
      if next.Continue? {
        RoundsGot(next.state, c, script[1..]);
      }
    }
  }

  /** The pidfd handed to supervision is among the rights it accounts for. */
  lemma HandedOn(c: Config, script: seq<Pass>, f: Closing)
    requires ValidConfig(c)
    ensures One(c.pid1Fd) <= Final(c, script, f).rights.got
  {
    StartKeeps(c);
    RoundsGot(Start(c), c, script);
    WindUpGot(Rounds(Start(c), c, script), c, f);
  }

  lemma WindUpGot(s: State, c: Config, f: Closing)
    ensures WindUp(s, c, f).rights.got == s.rights.got
  {
    LastResortKeeps(s, c, f);
  }

  // ---------------------------------------------------------------- what settlement rests on

  lemma ActSees(s: State, d: Datagram, right: Option<nat>, action: Action, at: int)
    requires action.GotPid1? ==> s.rights.pid1Fd.None?
    ensures Act(s, d, right, action, at).proc.adoptedPid1 == s.proc.adoptedPid1
    ensures Act(s, d, right, action, at).proc.pid1Terminal == s.proc.pid1Terminal
    ensures s.rights.pid1Fd.Some? ==> Act(s, d, right, action, at).rights.pid1Fd == s.rights.pid1Fd
  {
  }

  lemma ControlSees(s: State, p: Pass)
    ensures ReadControl(s, p).proc.adoptedPid1 == s.proc.adoptedPid1
    ensures ReadControl(s, p).proc.pid1Terminal == s.proc.pid1Terminal
    ensures s.rights.pid1Fd.Some? ==> ReadControl(s, p).rights.pid1Fd == s.rights.pid1Fd
  {
    if p.packet.Arrived? {
      var d := p.packet.datagram;
      var received := Receive(d);
      if received.Accepted? {
        ActSees(s, d, received.right, Classify(received.raw, received.right, d.valid, s.rights.pid1Fd.None?), p.at);
      }
    }
  }

  /** PID 1 counts as terminal after the mark exactly if it did before, or was seen, or the poll was blind. */
  lemma MarkSees(s: State, p: Pass)
    ensures var t := MarkPid1(ReadControl(s, p), s.rights.pid1Fd, p);
            && t.proc.adoptedPid1 == s.proc.adoptedPid1
            && (t.proc.pid1Terminal <==> s.proc.pid1Terminal || Sees(s, p) || Blinds(s, p))
  {
    ControlSees(s, p);
  }

  /** Word of PID 1's end other than by its pidfd only grows. */
  predicate Later(s: State, t: State) {
    && (s.proc.adoptedPid1.Some? ==> t.proc.adoptedPid1.Some?)
    && (s.proc.pid1Terminal ==> t.proc.pid1Terminal)
    && (t.proc.pid1Terminal ==> s.proc.pid1Terminal || t.proc.adoptedPid1.Some?)
  }

  lemma MissingSees(s: State, p: Pass)
    ensures Later(s, MissingReport(s, p))
  {
  }

  lemma ReapingSees(s: State, c: Config, p: Pass)
    ensures Later(s, Reaping(s, c, p).state)
  {
    MissingSees(ReapPid1(ReapHelper(s, c, p), p), p);
  }

  lemma HeardSees(s: State, c: Config, p: Pass)
    ensures Later(s, Settle(s, p)) && Later(s, Deadlines(Settle(s, p), c, p)) && Later(s, Heard(s, c, p))
  {
  }

  lemma RoundSees(s: State, c: Config, p: Pass)
    ensures var t := Round(s, c, p).state;
            && (s.proc.adoptedPid1.Some? ==> t.proc.adoptedPid1.Some?)
            && (s.proc.pid1Terminal || Marks(Seeing, s, c, p) || Marks(Blind, s, c, p) ==> t.proc.pid1Terminal)
            && (t.proc.pid1Terminal ==>
                  s.proc.pid1Terminal || t.proc.adoptedPid1.Some? || Marks(Seeing, s, c, p) || Marks(Blind, s, c, p))
  {
    HeardSees(s, c, p);
    if Hears(s, p) {
      var h := Heard(s, c, p);
      MarkSees(h, p);
      ReapingSees(MarkPid1(ReadControl(h, p), h.rights.pid1Fd, p), c, p);
    }
  }

  lemma {:induction false} RoundsSee(s: State, c: Config, script: seq<Pass>)
    ensures var t := Rounds(s, c, script);
            && (s.proc.adoptedPid1.Some? ==> t.proc.adoptedPid1.Some?)
            && (s.proc.pid1Terminal || Ever(Seeing, s, c, script) || Ever(Blind, s, c, script) ==> t.proc.pid1Terminal)
            && (t.proc.pid1Terminal ==>
                  || s.proc.pid1Terminal
                  || t.proc.adoptedPid1.Some?
                  || Ever(Seeing, s, c, script)
                  || Ever(Blind, s, c, script))
    decreases |script|
  {
    if script != [] {
      RoundSees(s, c, script[0]);
      EverStep(Seeing, s, c, script);
      EverStep(Blind, s, c, script);
      var next := Round(s, c, script[0]);
      if next.Continue? {
        RoundsSee(next.state, c, script[1..]);
      }
    }
  }

  /** Helper reaped, both channels at their end, no adopted descendant left. */
  predicate Wound(s: State) {
    s.proc.helperReaped && s.pipe.eof && s.proc.controlEof && s.proc.descendantsEmpty
  }

  /** Word on PID 1: it never existed, its status was collected or reported, or its pidfd was seen readable. */
  predicate Word(c: Config, script: seq<Pass>, s: State) {
    s.proc.noPid1 || s.proc.adoptedPid1.Some? || s.proc.pid1Report.Some? || Ever(Seeing, Start(c), c, script)
  }

  /** A report alone is not enough while the pidfd is held. */
  predicate Conclusive(c: Config, script: seq<Pass>, s: State) {
    || s.proc.noPid1 || s.proc.adoptedPid1.Some? || (s.proc.pid1Report.Some? && s.rights.pid1Fd.None?)
    || Ever(Seeing, Start(c), c, script)
  }

  /**
   * A run is settled exactly when it is wound up and there is conclusive word on PID 1 or some reached
   * pass polled blind. So it is settled without any word on PID 1 exactly when it is wound up, there
   * is none, and a reached poll failed.
   */
  lemma SettledExactly(c: Config, script: seq<Pass>, f: Closing)
    requires ValidConfig(c)
    ensures var s := Final(c, script, f);
            && (Judge(s).settled <==> Wound(s) && (Conclusive(c, script, s) || Ever(Blind, Start(c), c, script)))
            && (Judge(s).settled && !Word(c, script, s) <==>
                  Wound(s) && !Word(c, script, s) && Ever(Blind, Start(c), c, script))
  {
    StartKeeps(c);
    RoundsSee(Start(c), c, script);
    var r := Rounds(Start(c), c, script);
    WindUpState(r, c, f);
    LastResortSees(r, c, f);
  }

  lemma LastResortSees(s: State, c: Config, f: Closing)
    ensures Later(s, LastResort(s, c, f))
  {
  }

  // ---------------------------------------------------------------- whose word on PID 1 is judged

  /**
   * In a successful run PID 1 has the status (exited, 0) by the helper's report; without a report, by
   * the status collected. So a successful run collected another status only under a report.
   */
  lemma SuccessByReport(c: Config, script: seq<Pass>, f: Closing)
    requires ValidConfig(c)
    requires Judge(Final(c, script, f)).workError.None? && Judge(Final(c, script, f)).cleanup == []
    ensures var k := Final(c, script, f).proc;
            && (k.pid1Report.None? ==> k.adoptedPid1 == Some(CLEAN_EXIT))
            && (k.pid1Report.Some? ==> k.pid1Report == Some(CLEAN_EXIT))
  {
    SuccessIsProved(c, script, f);
  }
}
