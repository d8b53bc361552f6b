/** What one pass of the supervisor's loop sends and lists: signals, the helper's end, cleanup errors. */
module SupervisorLog {
  import opened Basics
  import opened Control
  import opened Supervisor
  import opened SupervisorReach
  import opened SupervisorPass

  // ---------------------------------------------------------------- signals

  /** The deadlines find the first error in this pass. */
  predicate NewlyOverdue(s: State, c: Config, p: Pass) {
    s.err.work.None? && (p.now >= c.workDeadline || p.now >= s.err.force)
  }

  /** The force time, the next and last signal times, with the error of this pass counted in. */
  function ForceNow(s: State, c: Config, p: Pass): int {
    if NewlyOverdue(s, c, p) then Min(s.err.force, p.at) else s.err.force
  }

  function NextNow(s: State, c: Config, p: Pass): int {
    if NewlyOverdue(s, c, p) then Min(s.err.next, ForceNow(s, c, p)) else s.err.next
  }

  function UntilNow(s: State, c: Config, p: Pass): int {
    if NewlyOverdue(s, c, p) then
      var settlement, force := Min(s.err.settlement, p.at + 15_000_000_000), ForceNow(s, c, p);
      Max(force, settlement - Min(1_000_000_000, Max(100_000_000, Max(0, settlement - force) / 5)))
    else s.err.until
  }

  predicate SignalsNow(s: State, c: Config, p: Pass) {
    && Entered(s, p) && CutAt(p) > 1
    && ForceNow(s, c, p) <= p.now && NextNow(s, c, p) <= p.now <= UntilNow(s, c, p)
  }

  /** PID 1 is held and not known to be at its end. */
  predicate Pid1Alive(s: State, p: Pass) {
    !s.proc.pid1Terminal && Collected(s, p).None? && !s.proc.noPid1 && s.rights.pid1Fd.Some?
  }

  predicate HelperAlive(s: State, c: Config) {
    !s.proc.helperReaped && (c.helperFd.Some? || c.helperPid > 0)
  }

  /** A pass that signals kills whatever is still alive, PID 1 first. */
  function Sent(s: State, c: Config, p: Pass): seq<Event> {
    (if SignalsNow(s, c, p) && Pid1Alive(s, p) then [Pid1Signalled(p.now)] else [])
    + (if SignalsNow(s, c, p) && HelperAlive(s, c) then [HelperSignalled(p.now)] else [])
  }

  function Gone(s: State, c: Config, p: Pass): seq<Event> {
    if HelperWait(s, c, p).Ended? || HelperWait(s, c, p).NoChild? then [HelperGone] else []
  }

  // ---------------------------------------------------------------- cleanup errors

  function DrainListed(s: State, p: Pass): seq<CleanupError> {
    if p.clock < s.err.settlement && Quiet(s) then p.topDrain.errors else []
  }

  function SignalListed(s: State, c: Config, p: Pass): seq<CleanupError> {
    (if SignalsNow(s, c, p) && Pid1Alive(s, p) && p.pid1Kill.Some? then [CleanupError(Pid1Signal, p.pid1Kill.value)]
     else [])
    + (if SignalsNow(s, c, p) && HelperAlive(s, c) && p.helperKill.Some?
       then [CleanupError(HelperSignal, p.helperKill.value)] else [])
  }

  /** A packet that does not validate brought a right that cannot be closed. */
  function PacketListed(s: State, p: Pass): seq<CleanupError> {
    match PacketSeen(s, p)
    case Arrived(d) =>
      if ActionOf(s, p).Some? && ActionOf(s, p).value.Reject? && |d.rights| == 1 && |d.closes| > 0 && d.closes[0].Some?
      then [CleanupError(RejectedRightClose, d.closes[0].value)] else []
    case _ => []
  }

  function NoChildListed(s: State, c: Config, p: Pass): seq<CleanupError> {
    if HelperWait(s, c, p).NoChild? && c.helperFd.Some? then [CleanupError(HelperReap, Native(NoChildToReap))] else []
  }

  function Pid1Listed(s: State, c: Config, p: Pass): seq<CleanupError> {
    if Pid1Wait(s, c, p).WaitFailed? then [CleanupError(AdoptedPid1Reap, Pid1Wait(s, c, p).error)] else []
  }

  function LateListed(s: State, c: Config, p: Pass): seq<CleanupError> {
    if LateDrain(s, c, p) then p.lateDrain.errors else []
  }

  function ReapListed(s: State, c: Config, p: Pass): seq<CleanupError> {
    NoChildListed(s, c, p) + Pid1Listed(s, c, p) + LateListed(s, c, p)
  }

  /** Every cleanup error of a pass, in order. */
  function Listing(s: State, c: Config, p: Pass): seq<CleanupError> {
    DrainListed(s, p) + SignalListed(s, c, p) + PacketListed(s, p) + ReapListed(s, c, p)
  }

  // ---------------------------------------------------------------- the sections, one by one

  lemma OverdueNow(s: State, c: Config, p: Pass)
    ensures var r := Overdue(s.err, c, p);
            && r.force == ForceNow(s, c, p) && r.next == NextNow(s, c, p) && r.until == UntilNow(s, c, p)
            && r.cleanup == s.err.cleanup
  {
  }

  lemma DeadlinesLog(s: State, c: Config, p: Pass)
    requires Entered(s, p)
    ensures var t := Settle(s, p);
            && t.proc.events == s.proc.events && t.err.cleanup == s.err.cleanup + DrainListed(s, p)
            && t.err.(cleanup := s.err.cleanup) == s.err
    ensures CutAt(p) > 1 ==>
              var t := Deadlines(Settle(s, p), c, p);
              && t.proc.events == s.proc.events + Sent(s, c, p)
              && t.err.cleanup == s.err.cleanup + DrainListed(s, p) + SignalListed(s, c, p)
  {
    var s1 := Settle(s, p);
    OverdueNow(s1, c, p);
    HeardSame(s, c, p);
    if CutAt(p) > 1 {
      assert SignalDue(Overdue(s1.err, c, p), p.now) <==> SignalsNow(s, c, p);
      SignalLog(s, s1.(err := Overdue(s1.err, c, p)), c, p);
    }
  }

  lemma SignalLog(s: State, t: State, c: Config, p: Pass)
    requires SameBut(s, t) && t.proc.adoptedPid1 == Collected(s, p)
    ensures var u := Signal(t, c, p.pid1Kill, p.helperKill, p.now);
            && u.proc.events == t.proc.events + (if Pid1Alive(s, p) then [Pid1Signalled(p.now)] else [])
                                + (if HelperAlive(s, c) then [HelperSignalled(p.now)] else [])
            && u.err.cleanup == t.err.cleanup
                                + (if Pid1Alive(s, p) then Failures(Pid1Signal, p.pid1Kill) else [])
                                + (if HelperAlive(s, c) then Failures(HelperSignal, p.helperKill) else [])
  {
  }

  /** Between two states these events and cleanup errors were added, in order. */
  predicate Adds(s: State, t: State, events: seq<Event>, cleanup: seq<CleanupError>) {
    t.proc.events == s.proc.events + events && t.err.cleanup == s.err.cleanup + cleanup
  }

  lemma AddsOn(s: State, t: State, u: State, e: seq<Event>, f: seq<Event>, a: seq<CleanupError>, b: seq<CleanupError>)
    requires Adds(s, t, e, a) && Adds(t, u, f, b)
    ensures Adds(s, u, e + f, a + b)
  {
  }

  lemma AddsNothing(s: State, t: State)
    requires t.proc.events == s.proc.events && t.err.cleanup == s.err.cleanup
    ensures Adds(s, t, [], [])
  {
  }

  lemma PipeLog(s: State, p: Pass)
    ensures Adds(s, ReadPipe(Polled(s, p), p), [], [])
  {
    AddsNothing(s, ReadPipe(Polled(s, p), p));
  }

  lemma ActLog(s: State, d: Datagram, right: Option<nat>, a: Action, at: int)
    ensures Adds(s, Act(s, d, right, a, at), [], if a.Reject? then DisownFailures(d, right) else [])
  {
    if !a.Reject? {
      AddsNothing(s, Act(s, d, right, a, at));
    }
  }

  lemma PacketLog(s: State, p: Pass, d: Datagram)
    requires PacketSeen(s, p) == Arrived(d) && Receive(d).Accepted?
    ensures PacketListed(s, p)
         == if ActionOf(s, p).value.Reject? then DisownFailures(d, Receive(d).right) else []
  {
  }

  lemma ControlLog(s: State, h: State, p: Pass)
    requires Entered(s, p) && CutAt(p) > 3 && SameBut(s, h)
    ensures Adds(h, ReadControl(h, p), [], PacketListed(s, p))
  {
    if PacketSeen(s, p).Arrived? && Receive(p.packet.datagram).Accepted? {
      var d := p.packet.datagram;
      var right := Receive(d).right;
      ActLog(h, d, right, Classify(d.raw, right, d.valid, h.rights.pid1Fd.None?), p.at);
      PacketLog(s, p, d);
    } else {
      AddsNothing(h, ReadControl(h, p));
    }
  }

  lemma HelperLog(s: State, c: Config, m: State, p: Pass)
    requires Entered(s, p) && CutAt(p) > 4 && Agrees(m, Marked(s, p), HeldAfter(s, p))
    ensures Adds(m, ReapHelper(m, c, p), Gone(s, c, p), NoChildListed(s, c, p))
  {
  }

  lemma Pid1Log(s: State, c: Config, m: State, p: Pass)
    requires Entered(s, p) && CutAt(p) > 5 && Agrees(m, Marked(s, p), HeldAfter(s, p))
    ensures Adds(ReapHelper(m, c, p), ReapPid1(ReapHelper(m, c, p), p), [], Pid1Listed(s, c, p))
  {
    HelperKnown(m, c, p);
  }

  lemma MissingLog(s: State, c: Config, u: State, p: Pass)
    requires Entered(s, p) && CutAt(p) == 7 && Agrees(u, Reaped(s, c, p), HeldAfter(s, p))
    ensures Adds(u, MissingReport(u, p), [], LateListed(s, c, p))
  {
    assert Unreported(u.proc) <==> Silent(s, c, p);
    assert u.rights.pid1Fd.None? <==> s.rights.pid1Fd.None? && !Hands(s, p);
  }

  lemma ReapingLog(s: State, c: Config, m: State, p: Pass)
    requires Entered(s, p) && CutAt(p) > 4 && Agrees(m, Marked(s, p), HeldAfter(s, p))
    ensures Adds(m, Reaping(m, c, p).state, Gone(s, c, p), ReapListed(s, c, p))
  {
    var t := ReapHelper(m, c, p);
    HelperLog(s, c, m, p);
    if CutAt(p) > 5 {
      var u := ReapPid1(t, p);
      Pid1Log(s, c, m, p);
      AddsOn(m, t, u, Gone(s, c, p), [], NoChildListed(s, c, p), Pid1Listed(s, c, p));
      if CutAt(p) == 7 {
        ReapKnown(s, c, m, p);
        MissingLog(s, c, u, p);
        AddsOn(m, u, MissingReport(u, p), Gone(s, c, p) + [], [],
               NoChildListed(s, c, p) + Pid1Listed(s, c, p), LateListed(s, c, p));
      }
    }
    assert Gone(s, c, p) + [] == Gone(s, c, p);
    ReapListedShort(s, c, p);
  }

  lemma ReapListedShort(s: State, c: Config, p: Pass)
    ensures CutAt(p) == 5 ==> ReapListed(s, c, p) == NoChildListed(s, c, p)
    ensures CutAt(p) == 6 ==> ReapListed(s, c, p) == NoChildListed(s, c, p) + Pid1Listed(s, c, p)
  {
  }

  lemma HearingLog(s: State, c: Config, h: State, p: Pass)
    requires Entered(s, p) && CutAt(p) > 3 && SameBut(s, h) && h.proc.adoptedPid1 == Collected(s, p)
    requires h.proc.descendantsEmpty == if Quiet(s) then p.topDrain.empty else s.proc.descendantsEmpty
    ensures Adds(h, Hearing(h, c, p).state, Gone(s, c, p), PacketListed(s, p) + ReapListed(s, c, p))
  {
    ControlLog(s, h, p);
    MarkKnown(s, h, p);
    var m := MarkPid1(ReadControl(h, p), h.rights.pid1Fd, p);
    assert Adds(h, m, [], PacketListed(s, p));
    if CutAt(p) > 4 {
      ReapingLog(s, c, m, p);
      AddsOn(h, m, Reaping(m, c, p).state, [], Gone(s, c, p), PacketListed(s, p), ReapListed(s, c, p));
      assert [] + Gone(s, c, p) == Gone(s, c, p);
    } else {
      assert PacketListed(s, p) + ReapListed(s, c, p) == PacketListed(s, p);
    }
  }

  lemma HeardLog(s: State, c: Config, p: Pass)
    requires Entered(s, p) && CutAt(p) > 2
    ensures Adds(s, Heard(s, c, p), Sent(s, c, p), DrainListed(s, p) + SignalListed(s, c, p))
  {
    DeadlinesLog(s, c, p);
    var t := Deadlines(Settle(s, p), c, p);
    PipeLog(t, p);
    assert s.err.cleanup + (DrainListed(s, p) + SignalListed(s, c, p))
        == s.err.cleanup + DrainListed(s, p) + SignalListed(s, c, p);
  }

  lemma ListingSum(a: seq<CleanupError>, b: seq<CleanupError>, d: seq<CleanupError>, e: seq<CleanupError>)
    ensures a + b + (d + e) == a + b + d + e
  {
  }

  lemma LateLog(s: State, c: Config, h: State, p: Pass)
    requires Entered(s, p) && CutAt(p) > 3 && SameBut(s, h) && h.proc.adoptedPid1 == Collected(s, p)
    requires h.proc.descendantsEmpty == if Quiet(s) then p.topDrain.empty else s.proc.descendantsEmpty
    requires Adds(s, h, Sent(s, c, p), DrainListed(s, p) + SignalListed(s, c, p))
    ensures Adds(s, Hearing(h, c, p).state, Sent(s, c, p) + Gone(s, c, p), Listing(s, c, p))
  {
    HearingLog(s, c, h, p);
    AddsOn(s, h, Hearing(h, c, p).state, Sent(s, c, p), Gone(s, c, p),
           DrainListed(s, p) + SignalListed(s, c, p), PacketListed(s, p) + ReapListed(s, c, p));
    ListingSum(DrainListed(s, p), SignalListed(s, c, p), PacketListed(s, p), ReapListed(s, c, p));
  }

  /**
   * One pass, cut short anywhere: the signals it sends, whether the helper is found gone, and every
   * cleanup error it lists, in order.
   */
  lemma PassLogged(s: State, c: Config, p: Pass)
    ensures Adds(s, Round(s, c, p).state, Sent(s, c, p) + Gone(s, c, p), Listing(s, c, p))
  {
    if Entered(s, p) && CutAt(p) > 3 {
      HeardLog(s, c, p);
      HeardSame(s, c, p);
      RoundHears(s, c, p);
      LateLog(s, c, Heard(s, c, p), p);
    } else {
      EarlyLog(s, c, p);
    }
  }

  lemma EarlyLog(s: State, c: Config, p: Pass)
    requires !(Entered(s, p) && CutAt(p) > 3)
    ensures Adds(s, Round(s, c, p).state, Sent(s, c, p) + Gone(s, c, p), Listing(s, c, p))
  {
    assert Gone(s, c, p) == [] && PacketListed(s, p) == [] && ReapListed(s, c, p) == [];
    EarlySums(Sent(s, c, p), DrainListed(s, p), SignalListed(s, c, p));
    if Entered(s, p) {
      CutLog(s, c, p);
    } else {
      assert Sent(s, c, p) == [] && SignalListed(s, c, p) == [];
    }
  }

  lemma EarlySums(e: seq<Event>, a: seq<CleanupError>, b: seq<CleanupError>)
    ensures e + [] == e && a + b + [] + [] == a + b && a + [] == a
  {
  }

  lemma CutLog(s: State, c: Config, p: Pass)
    requires Entered(s, p) && CutAt(p) <= 3
    ensures Adds(s, Round(s, c, p).state, Sent(s, c, p), DrainListed(s, p) + SignalListed(s, c, p))
  {
    if CutAt(p) == 1 {
      DeadlinesLog(s, c, p);
      assert Sent(s, c, p) == [] && SignalListed(s, c, p) == [];
      assert DrainListed(s, p) + [] == DrainListed(s, p);
    } else if CutAt(p) == 2 {
      DeadlinesLog(s, c, p);
      assert s.err.cleanup + (DrainListed(s, p) + SignalListed(s, c, p))
          == s.err.cleanup + DrainListed(s, p) + SignalListed(s, c, p);
    } else {
      HeardLog(s, c, p);
    }
  }

  // ---------------------------------------------------------------- the clocks after a pass

  datatype Clocks = Clocks(settlement: int, force: int, until: int, next: int)

  function ClocksOf(r: Errors): Clocks {
    Clocks(r.settlement, r.force, r.until, r.next)
  }

  /**
   * What a first error at `at` makes of the deadlines: settlement at most fifteen seconds later, the
   * killing at once, and the last signal early enough to leave time for reaping.
   */
  function Hastened(k: Clocks, at: int): Clocks {
    var settlement, force := Min(k.settlement, at + 15_000_000_000), Min(k.force, at);
    Clocks(settlement, force,
           Max(force, settlement - Min(1_000_000_000, Max(100_000_000, Max(0, settlement - force) / 5))),
           Min(k.next, force))
  }

  /** The deadlines between two points: untouched, unless the first error came up in between, at `at`. */
  predicate Clocked(r: Errors, q: Errors, at: int) {
    && (r.work.Some? ==> q.work == r.work)
    && ClocksOf(q) == if r.work.Some? || q.work.None? then ClocksOf(r) else Hastened(ClocksOf(r), at)
  }

  lemma NoteClocked(r: Errors, e: Error, at: int)
    ensures Clocked(r, Note(r, e, at), at)
  {
  }

  lemma SameClocked(r: Errors, q: Errors, at: int)
    requires q == r.(cleanup := q.cleanup)
    ensures Clocked(r, q, at)
  {
  }

  lemma ClockedOn(r: Errors, q: Errors, u: Errors, at: int)
    requires Clocked(r, q, at) && Clocked(q, u, at)
    ensures Clocked(r, u, at)
  {
  }

  /** Errors after at most one more, with cleanup errors listed besides. */
  predicate Offered(r: Errors, q: Errors, e: Option<Error>, at: int) {
    q == (if e.Some? then Note(r, e.value, at) else r).(cleanup := q.cleanup)
  }

  lemma OfferedClocked(r: Errors, q: Errors, e: Option<Error>, at: int)
    requires Offered(r, q, e, at)
    ensures Clocked(r, q, at)
  {
    if e.Some? {
      NoteClocked(r, e.value, at);
    } else {
      SameClocked(r, q, at);
    }
  }

  lemma PipeClocked(s: State, p: Pass)
    ensures Clocked(s.err, ReadPipe(Polled(s, p), p).err, p.at)
  {
    var t := Polled(s, p);
    OfferedClocked(s.err, t.err, if p.poll.PollFailed? then Some(p.poll.error) else None, p.at);
    var u := ReadPipe(t, p);
    var e := if t.pipe.eof || !ResultReady(p) then None
             else match p.pipe
                  case PipeBlocked => None
                  case PipeFailed(e) => Some(e)
                  case Chunk(b) => if b != [] && Oversize(t.pipe, b) then Some(Native(OversizeResult)) else None;
    OfferedClocked(t.err, u.err, e, p.at);
    ClockedOn(s.err, t.err, u.err, p.at);
  }

  lemma ActClocked(s: State, d: Datagram, right: Option<nat>, action: Action, at: int)
    ensures Clocked(s.err, Act(s, d, right, action, at).err, at)
  {
    var q := Act(s, d, right, action, at).err;
    match action
    case Reject(e) => OfferedClocked(s.err, q, Some(e), at);
    case NoPid1(stage, reason) => OfferedClocked(s.err, q, Some(HelperFailed(stage, reason)), at);
    case HelperFault(stage, reason) => OfferedClocked(s.err, q, Some(HelperFailed(stage, reason)), at);
    case GotPid1(_) => SameClocked(s.err, q, at);
    case Eof => SameClocked(s.err, q, at);
    case Pid1Exit(_) => SameClocked(s.err, q, at);
  }

  lemma ControlClocked(s: State, p: Pass)
    ensures Clocked(s.err, ReadControl(s, p).err, p.at)
  {
    var q := ReadControl(s, p).err;
    if s.proc.controlEof || !ControlReady(p) || p.packet.NoPacket? {
      SameClocked(s.err, q, p.at);
    } else if p.packet.ReceiveFailed? {
      OfferedClocked(s.err, q, Some(p.packet.error), p.at);
    } else {
      var d := p.packet.datagram;
      match Receive(d)
      case Refused(e, _) => OfferedClocked(s.err, q, Some(e), p.at);
      case Accepted(raw, right) =>
        ActClocked(s, d, right, Classify(raw, right, d.valid, s.rights.pid1Fd.None?), p.at);
    }
  }

  lemma ReapingClocked(s: State, c: Config, p: Pass)
    ensures Clocked(s.err, Reaping(s, c, p).state.err, p.at)
  {
    var t := ReapHelper(s, c, p);
    var waits := !s.proc.helperReaped && (c.helperFd.Some? || c.helperPid > 0);
    OfferedClocked(s.err, t.err, if waits && p.helperWait.WaitFailed? then Some(p.helperWait.error) else None, p.at);
    var u := ReapPid1(t, p);
    SameClocked(t.err, u.err, p.at);
    ClockedOn(s.err, t.err, u.err, p.at);
    var v := MissingReport(u, p);
    OfferedClocked(u.err, v.err, if Unreported(u.proc) then Some(Native(NoSettlementReport)) else None, p.at);
    ClockedOn(s.err, u.err, v.err, p.at);
    EscapeClocked(s, t, p);
    EscapeClocked(s, u, p);
  }

  /** An escaping exception is one more error. */
  lemma EscapeClocked(s: State, t: State, p: Pass)
    requires Clocked(s.err, t.err, p.at)
    ensures p.fault.Some? ==> Clocked(s.err, Escape(t, p).state.err, p.at)
  {
    if p.fault.Some? {
      NoteClocked(t.err, p.fault.value.1, p.at);
      ClockedOn(s.err, t.err, Note(t.err, p.fault.value.1, p.at), p.at);
    }
  }

  lemma HearingClocked(s: State, c: Config, p: Pass)
    ensures Clocked(s.err, Hearing(s, c, p).state.err, p.at)
  {
    var m := MarkPid1(ReadControl(s, p), s.rights.pid1Fd, p);
    assert m.err == ReadControl(s, p).err;
    ControlClocked(s, p);
    ReapingClocked(m, c, p);
    ClockedOn(s.err, m.err, Reaping(m, c, p).state.err, p.at);
    SameClocked(s.err, s.err, p.at);
    EscapeClocked(s, s, p);
    EscapeClocked(s, m, p);
  }

  lemma ExchangeClocked(s: State, c: Config, p: Pass)
    ensures Clocked(s.err, Exchange(s, c, p).state.err, p.at)
  {
    var t := ReadPipe(Polled(s, p), p);
    PipeClocked(s, p);
    HearingClocked(t, c, p);
    ClockedOn(s.err, t.err, Hearing(t, c, p).state.err, p.at);
    SameClocked(s.err, s.err, p.at);
    EscapeClocked(s, s, p);
  }

  lemma OverdueClocked(s: State, c: Config, p: Pass)
    ensures Clocked(s.err, Overdue(s.err, c, p), p.at)
  {
    var r := s.err;
    NoteClocked(r, Native(ChildDeadline), p.at);
    SameClocked(r, r, p.at);
    var q := if p.now >= c.workDeadline then Note(r, Native(ChildDeadline), p.at) else r;
    NoteClocked(q, Native(SettlementDeadline), p.at);
    ClockedOn(r, q, Note(q, Native(SettlementDeadline), p.at), p.at);
  }

  /** The deadlines of a pass, after which a signal, if one is sent, puts off the next by a tenth of a second. */
  lemma DeadlinesClocked(s: State, c: Config, p: Pass)
    requires Entered(s, p) && CutAt(p) > 1
    ensures var r, t := Overdue(Settle(s, p).err, c, p), Deadlines(Settle(s, p), c, p).err;
            && Clocked(s.err, r, p.at)
            && t.(cleanup := r.cleanup) == (if SignalsNow(s, c, p) then r.(next := p.now + 100_000_000) else r)
            && (SignalsNow(s, c, p) ==> r.work.Some?)
  {
    var s1 := Settle(s, p);
    OverdueNow(s1, c, p);
    OverdueClocked(s1, c, p);
    SameClocked(s.err, s1.err, p.at);
    ClockedOn(s.err, s1.err, Overdue(s1.err, c, p), p.at);
    assert SignalDue(Overdue(s1.err, c, p), p.now) <==> SignalsNow(s, c, p);
  }

  /** The clocks of a pass that signals, with the next signal where it was before. */
  function Unsignalled(s: State, c: Config, p: Pass): Errors {
    var q := Round(s, c, p).state.err;
    if SignalsNow(s, c, p) then q.(next := NextNow(s, c, p)) else q
  }

  /**
   * After a pass the deadlines are as they were, or as the first error hastened them, and a pass that
   * signals leaves an error and puts the next signal off by a tenth of a second.
   */
  lemma PassClocked(s: State, c: Config, p: Pass)
    ensures Clocked(s.err, Unsignalled(s, c, p), p.at)
    ensures SignalsNow(s, c, p) ==>
              Round(s, c, p).state.err.work.Some? && Round(s, c, p).state.err.next == p.now + 100_000_000
  {
    if Entered(s, p) && CutAt(p) > 1 {
      DeadlinesClocked(s, c, p);
      ExchangeClocked(Deadlines(Settle(s, p), c, p), c, p);
      SignalledClocked(s, c, p);
    } else {
      SettledClocked(s, c, p);
    }
  }

  lemma SettledClocked(s: State, c: Config, p: Pass)
    requires !(Entered(s, p) && CutAt(p) > 1)
    ensures Clocked(s.err, Round(s, c, p).state.err, p.at)
  {
    SameClocked(s.err, s.err, p.at);
    SameClocked(s.err, Settle(s, p).err, p.at);
    EscapeClocked(s, Settle(s, p), p);
  }

  lemma SignalledClocked(s: State, c: Config, p: Pass)
    requires Entered(s, p) && CutAt(p) > 1
    requires var r, t := Overdue(Settle(s, p).err, c, p), Deadlines(Settle(s, p), c, p).err;
             && Clocked(s.err, r, p.at)
             && t.(cleanup := r.cleanup) == (if SignalsNow(s, c, p) then r.(next := p.now + 100_000_000) else r)
             && (SignalsNow(s, c, p) ==> r.work.Some?)
    requires var t := Deadlines(Settle(s, p), c, p); Clocked(t.err, Exchange(t, c, p).state.err, p.at)
    ensures Clocked(s.err, Unsignalled(s, c, p), p.at)
    ensures SignalsNow(s, c, p) ==>
              Round(s, c, p).state.err.work.Some? && Round(s, c, p).state.err.next == p.now + 100_000_000
  {
    OverdueNow(Settle(s, p), c, p);
    var t := Deadlines(Settle(s, p), c, p);
    assert Round(s, c, p) == Exchange(t, c, p);
  }

  /** The clocks a run starts with; an error handed in counts from the start. */
  lemma StartClocked(c: Config)
    requires c.blocking == []
    ensures var reserve := Min(5_000_000_000, Max(100_000_000, (c.settlement - c.workDeadline) / 2));
            var settlement :=
              if c.initialError.Some? then Min(c.settlement, c.startClock + 15_000_000_000) else c.settlement;
            var force := if c.initialError.Some? then c.startClock else Max(c.startClock, c.settlement - reserve);
            var tail := Min(1_000_000_000, Max(100_000_000, Max(0, settlement - force) / 5));
            ClocksOf(Start(c).err) == Clocks(settlement, force, Max(force, settlement - tail), force)
  {
  }
}
