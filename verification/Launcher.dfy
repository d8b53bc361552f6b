/** The launch gate, the child run around the supervisor, and the outer run's cleanup gate. */
module Launcher {
  import opened Basics
  import opened Control
  import opened Supervisor
  import opened SupervisorSafety
  import opened SupervisorClaims
  import opened SupervisorReach
  import Frames

  const HELPER_READY := "HELPER-READY"

  /** How the launch block ended: no process, a process without a pidfd, or a held process. */
  datatype Launch =
    | NotLaunched(error: Error)
    | HelperUnheld(pid: int, failure: PlainError)
    | HelperHeld(pid: int, fd: nat)

  datatype GateWait = GateFailed(error: PlainError) | GateArrived(datagram: Datagram)

  /** One pass of the PID 1 gate: an early failure, or the ready token, a packet, and the helper's exit. */
  datatype GateRound = GateRound(early: Option<PlainError>, ready: bool, packet: Option<Datagram>, helperExited: bool)

  datatype Gate = Gate(ready: GateWait, helperValid: bool, goFailure: Option<PlainError>,
                       rounds: seq<GateRound>, release: Option<PlainError>)

  datatype GateState = GateState(goSent: bool, pid1Ready: bool, known: bool, pid1Fd: Option<nat>,
                                 error: Option<Error>, closeErrors: seq<CleanupError>, uncertain: bool,
                                 got: multiset<nat>, shut: multiset<nat>, failed: nat)

  function Closed(error: Option<Error>): GateState {
    GateState(false, false, false, None, error, [], false, multiset{}, multiset{}, 0)
  }

  /** A packet refused at the gate: all its rights are closed and the failures travel in the error. */
  function GateRefuse(s: GateState, rights: multiset<nat>, primary: Error, failures: seq<CleanupError>): GateState {
    s.(error := Some(WithFailures(primary, failures)), got := s.got + rights, shut := s.shut + rights,
       failed := s.failed + |failures|)
  }

  /** The error a packet was refused with, apart from what closing its rights added. */
  function Primary(e: Error): Error {
    if e.Uncertain? then e.work else e
  }

  /** What a packet leaves that should be READY: exactly that text, and no descriptor. */
  function HearReady(d: Datagram, received: Received, fine: bool, why: Reason): GateState {
    match received
    case Refused(e, failures) => GateRefuse(Closed(None), multiset(d.rights), Primary(e), failures)
    case Accepted(_, right) =>
      if fine && right.None? then Closed(None)
      else GateRefuse(Closed(None), One(right), Native(why), DisownFailures(d, right))
  }

  function AwaitReady(g: Gate): GateState {
    match g.ready
    case GateFailed(e) => Closed(Some(e))
    case GateArrived(d) =>
      HearReady(d, Receive(d), d.raw == HELPER_READY, if d.raw == "" then GateEof else MalformedReady)
  }

  function GateClassify(packet: string, right: Option<nat>, valid: bool, available: bool): Action {
    if NO_PID1 + ":" <= packet then Classify(packet, right, valid, available)
    else if PID1_FD <= packet then Classify(packet, right, valid, available)
    else Reject(Native(MalformedPid1Report))
  }

  function GateAct(s: GateState, d: Datagram, right: Option<nat>, action: Action): GateState {
    match action
    case GotPid1(fd) => s.(pid1Fd := Some(fd), got := s.got + multiset{fd})
    case NoPid1(stage, reason) => s.(known := true, error := Some(HelperFailed(stage, reason)))
    case Reject(e) =>
      var failures := DisownFailures(d, right);
      s.(error := Some(e), closeErrors := s.closeErrors + failures, uncertain := s.uncertain || failures != [],
         got := s.got + One(right), shut := s.shut + One(right), failed := s.failed + |failures|)
    case Eof => s
    case Pid1Exit(_) => s
    case HelperFault(_, _) => s
  }

  function GateHear(s: GateState, d: Datagram): GateState {
    match Receive(d)
    case Refused(e, failures) => GateRefuse(s, multiset(d.rights), Primary(e), failures)
    case Accepted(raw, right) => GateAct(s, d, right, GateClassify(raw, right, d.valid, s.pid1Fd.None?))
  }

  function GatePass(s: GateState, r: GateRound): GateState {
    if r.early.Some? then s.(error := r.early)
    else
      var s1 := s.(pid1Ready := s.pid1Ready || r.ready);
      var s2 := if r.packet.Some? then GateHear(s1, r.packet.value) else s1;
      if s2.error.None? && r.helperExited && s2.pid1Fd.None? then s2.(error := Some(Native(HelperExitedEarly)))
      else s2
  }

  predicate GateOpen(s: GateState) {
    s.pid1Ready && s.pid1Fd.Some?
  }

  /** The gate loop; running out of passes is the gate's deadline. */
  function GateRounds(s: GateState, rounds: seq<GateRound>): GateState
    decreases |rounds|
  {
    if s.error.Some? || GateOpen(s) then s
    else if rounds == [] then s.(error := Some(Native(GateTimeout)))
    else GateRounds(GatePass(s, rounds[0]), rounds[1..])
  }

  function SendGo(s: GateState, g: Gate): GateState {
    if s.error.Some? then s
    else if !g.helperValid then s.(error := Some(Native(HelperInvalid)))
    else if g.goFailure.Some? then s.(error := g.goFailure)
    else s.(goSent := true)
  }

  function Release(s: GateState, g: Gate): GateState {
    if s.error.None? && g.release.Some? then s.(error := g.release) else s
  }

  function PassGate(g: Gate): GateState {
    var s := SendGo(AwaitReady(g), g);
    if s.error.Some? then s else Release(GateRounds(s, g.rounds), g)
  }

  /** Every right stays owned, and every failed close is listed or carried by the error. */
  predicate GateSound(s: GateState) {
    && s.got == s.shut + One(s.pid1Fd)
    && (s.known ==> s.error.Some?)
    && (s.closeErrors != [] ==> s.uncertain) && (s.uncertain ==> s.error.Some?)
    && s.failed == |s.closeErrors| + Carried(s.error)
    && forall i :: 0 <= i < |s.closeErrors| ==> s.closeErrors[i].stage == RejectedRightClose
  }

  lemma {:induction false} GateRoundsSound(s: GateState, rounds: seq<GateRound>)
    requires GateSound(s) && s.goSent
    ensures GateSound(GateRounds(s, rounds)) && GateRounds(s, rounds).goSent
    ensures GateRounds(s, rounds).error.None? ==> GateRounds(s, rounds).pid1Fd.Some?
    decreases |rounds|
  {
    if s.error.None? && !GateOpen(s) && rounds != [] {
      GatePassSound(s, rounds[0]);
      GateRoundsSound(GatePass(s, rounds[0]), rounds[1..]);
    }
  }

  lemma GatePassSound(s: GateState, r: GateRound)
    requires GateSound(s) && s.error.None?
    ensures GateSound(GatePass(s, r)) && GatePass(s, r).goSent == s.goSent
  {
    if r.early.None? && r.packet.Some? {
      GateHearSound(s.(pid1Ready := s.pid1Ready || r.ready), r.packet.value);
    }
  }

  lemma GateActSound(s: GateState, d: Datagram, right: Option<nat>, action: Action)
    requires GateSound(s) && s.error.None?
    requires action.GotPid1? ==> right == Some(action.fd) && s.pid1Fd.None?
    ensures GateSound(GateAct(s, d, right, action)) && GateAct(s, d, right, action).goSent == s.goSent
  {
    match action
    case Reject(e) => GateRejectSound(s, d, right, e);
    case NoPid1(stage, reason) => FailedSound(s, HelperFailed(stage, reason));
    case GotPid1(_) =>
    case Eof =>
    case Pid1Exit(_) =>
    case HelperFault(_, _) =>
  }

  lemma GateRejectSound(s: GateState, d: Datagram, right: Option<nat>, e: PlainError)
    requires GateSound(s) && s.error.None?
    ensures GateSound(GateAct(s, d, right, Reject(e)))
  {
    var failures, more := DisownFailures(d, right), s.closeErrors + DisownFailures(d, right);
    assert forall i :: 0 <= i < |failures| ==> failures[i].stage == RejectedRightClose;
    assert forall i :: 0 <= i < |more| ==> more[i].stage == RejectedRightClose;
  }

  lemma GateHearSound(s: GateState, d: Datagram)
    requires GateSound(s) && s.error.None?
    ensures GateSound(GateHear(s, d)) && GateHear(s, d).goSent == s.goSent
  {
    if Receive(d).Accepted? {
      var right := Receive(d).right;
      GateActSound(s, d, right, GateClassify(Receive(d).raw, right, d.valid, s.pid1Fd.None?));
    }
  }

  lemma RefuseSound(rights: multiset<nat>, primary: PlainError, failures: seq<CleanupError>)
    ensures GateSound(GateRefuse(Closed(None), rights, primary, failures))
  {
  }

  lemma HearReadySound(d: Datagram, fine: bool, why: Reason)
    ensures GateSound(HearReady(d, Receive(d), fine, why)) && !HearReady(d, Receive(d), fine, why).goSent
  {
    match Receive(d)
    case Refused(e, failures) => RefuseSound(multiset(d.rights), Primary(e), failures);
    case Accepted(_, right) => RefuseSound(One(right), Native(why), DisownFailures(d, right));
  }

  lemma AwaitReadySound(g: Gate)
    ensures GateSound(AwaitReady(g))
  {
    if g.ready.GateArrived? {
      var d := g.ready.datagram;
      HearReadySound(d, d.raw == HELPER_READY, if d.raw == "" then GateEof else MalformedReady);
    }
  }

  lemma ReleaseSound(s: GateState, g: Gate)
    requires GateSound(s)
    ensures GateSound(Release(s, g)) && Release(s, g).goSent == s.goSent && Release(s, g).pid1Fd == s.pid1Fd
    ensures Release(s, g).error.None? ==> s.error.None?
  {
  }

  lemma SendGoSound(s: GateState, g: Gate)
    requires GateSound(s)
    ensures GateSound(SendGo(s, g)) && (SendGo(s, g).error.None? ==> SendGo(s, g).goSent)
  {
    if s.error.None? {
      if !g.helperValid {
        FailedSound(s, Native(HelperInvalid));
      } else if g.goFailure.Some? {
        FailedSound(s, g.goFailure.value);
      }
    }
  }

  /** An error of the gate's own carries no failed close. */
  lemma FailedSound(s: GateState, e: PlainError)
    requires GateSound(s) && s.error.None?
    ensures GateSound(s.(error := Some(e)))
  {
  }

  lemma PassGateSound(g: Gate)
    ensures GateSound(PassGate(g))
    ensures PassGate(g).error.None? ==> PassGate(g).goSent && PassGate(g).pid1Fd.Some?
  {
    AwaitReadySound(g);
    var s := SendGo(AwaitReady(g), g);
    SendGoSound(AwaitReady(g), g);
    if s.error.None? {
      GateRoundsSound(s, g.rounds);
      ReleaseSound(GateRounds(s, g.rounds), g);
    }
  }

  // ---------------------------------------------------------------- the child run

  /** Everything the environment answers during one child run. */
  datatype ChildScript = ChildScript(
    launch: Launch, parentCloses: seq<Option<PlainError>>, gate: Gate,
    workDeadline: int, settlement: int, startClock: int, blocking: seq<PlainError>,
    passes: seq<Pass>, closing: Closing,
    leftovers: seq<Option<PlainError>>, subreaper: Option<PlainError>)

  function ParentFailures(outcomes: seq<Option<PlainError>>, index: nat): seq<CleanupError>
    decreases |outcomes|
  {
    if outcomes == [] then []
    else Failures(ParentClose(index), outcomes[0]) + ParentFailures(outcomes[1..], index + 1)
  }

  function LeftoverFailures(outcomes: seq<Option<PlainError>>, index: nat): seq<CleanupError>
    decreases |outcomes|
  {
    if outcomes == [] then []
    else Failures(LaunchClose(index), outcomes[0]) + LeftoverFailures(outcomes[1..], index + 1)
  }

  function LaunchError(x: ChildScript): Option<Error> {
    if x.launch.HelperUnheld? then Some(x.launch.failure)
    else if ParentFailures(x.parentCloses, 0) != [] then Some(Native(PreGateClosure))
    else None
  }

  function ChildGate(x: ChildScript): GateState {
    if LaunchError(x).Some? then Closed(LaunchError(x)) else PassGate(x.gate)
  }

  function ChildConfig(x: ChildScript): Config
    requires !x.launch.NotLaunched?
  {
    var g := ChildGate(x);
    Config(if x.launch.HelperHeld? then Some(x.launch.fd) else None, x.launch.pid, g.pid1Fd,
           x.workDeadline, x.settlement, g.error, g.known || !g.goSent, x.startClock, x.blocking)
  }

  /** The run's tail: leftover descriptors and the subreaper flag; any failure there unsettles. */
  function Tail(x: ChildScript): seq<CleanupError> {
    LeftoverFailures(x.leftovers, 0) + Failures(SubreaperRestore, x.subreaper)
  }

  function RunChild(x: ChildScript): Outcome {
    match x.launch
    case NotLaunched(e) => Outcome(None, Some(e), Tail(x), !e.Uncertain? && Tail(x) == [])
    case HelperUnheld(_, _) => Supervised(x)
    case HelperHeld(_, _) => Supervised(x)
  }

  function Supervised(x: ChildScript): Outcome
    requires !x.launch.NotLaunched?
  {
    var g := ChildGate(x);
    var parent := ParentFailures(x.parentCloses, 0);
    var o := Judge(Final(ChildConfig(x), x.passes, x.closing));
    Outcome(o.result, o.workError, parent + g.closeErrors + o.cleanup + Tail(x),
            o.settled && Tail(x) == [] && parent == [] && !g.uncertain)
  }

  /** The supervisor's one call site meets its condition: a lost pidfd or an unsent GO has an error. */
  lemma CallSiteValid(x: ChildScript)
    requires !x.launch.NotLaunched?
    ensures ValidConfig(ChildConfig(x))
    ensures GateSound(ChildGate(x))
  {
    PassGateSound(x.gate);
  }

  // ---------------------------------------------------------------- rights over a whole child run

  lemma {:induction false} ParentReports(outcomes: seq<Option<PlainError>>, index: nat)
    ensures Reports(ParentFailures(outcomes, index)) == 0
    decreases |outcomes|
  {
    if outcomes != [] {
      ParentReports(outcomes[1..], index + 1);
      ReportsAppend(Failures(ParentClose(index), outcomes[0]), ParentFailures(outcomes[1..], index + 1));
      NoReports(Failures(ParentClose(index), outcomes[0]));
    }
  }

  lemma {:induction false} LeftoverReports(outcomes: seq<Option<PlainError>>, index: nat)
    ensures Reports(LeftoverFailures(outcomes, index)) == 0
    decreases |outcomes|
  {
    if outcomes != [] {
      LeftoverReports(outcomes[1..], index + 1);
      ReportsAppend(Failures(LaunchClose(index), outcomes[0]), LeftoverFailures(outcomes[1..], index + 1));
      NoReports(Failures(LaunchClose(index), outcomes[0]));
    }
  }

  lemma TailReports(x: ChildScript)
    ensures Reports(Tail(x)) == 0
  {
    LeftoverReports(x.leftovers, 0);
    ReportsAppend(LeftoverFailures(x.leftovers, 0), Failures(SubreaperRestore, x.subreaper));
    NoReports(Failures(SubreaperRestore, x.subreaper));
  }

  lemma WholeReports(a: seq<CleanupError>, b: seq<CleanupError>, o: seq<CleanupError>, t: seq<CleanupError>)
    requires Reports(a) == 0 && Reports(t) == 0 && forall i :: 0 <= i < |b| ==> b[i].stage == RejectedRightClose
    ensures Reports(a + b + o + t) == |b| + Reports(o)
  {
    ReportsAppend(a + b + o, t);
    ReportsAppend(a + b, o);
    ReportsAppend(a, b);
    AllReports(b);
  }

  /** The rights received by the gate and by supervision together; the pidfd handed on counts once. */
  function Got(g: GateState, s: State): multiset<nat> {
    g.got + (s.rights.got - One(g.pid1Fd))
  }

  /** Failed closes of both; supervision starts with those its initial error carries already counted. */
  function FailedCloses(g: GateState, s: State): int {
    g.failed + s.rights.failed - Carried(g.error)
  }

  lemma HandOver(g: GateState, s: State)
    requires GateSound(g) && s.rights.got == s.rights.shut && One(g.pid1Fd) <= s.rights.got
    ensures Got(g, s) == g.shut + s.rights.shut
    ensures FailedCloses(g, s) == |g.closeErrors| + s.rights.failed
  {
  }

  lemma WholeCleanup(x: ChildScript)
    requires !x.launch.NotLaunched?
    ensures Reports(RunChild(x).cleanup)
         == |ChildGate(x).closeErrors| + Reports(Final(ChildConfig(x), x.passes, x.closing).err.cleanup)
  {
    CallSiteValid(x);
    ParentReports(x.parentCloses, 0);
    TailReports(x);
    WholeReports(ParentFailures(x.parentCloses, 0), ChildGate(x).closeErrors,
                 Final(ChildConfig(x), x.passes, x.closing).err.cleanup, Tail(x));
  }

  /**
   * Over a whole child run every right received, at the gate or under supervision, is closed exactly
   * once; every failed close is in the reported cleanup or carried by the work error exactly when no
   * reached pass loses one.
   */
  lemma RunRightsClosedOnce(x: ChildScript, g: GateState, c: Config, s: State)
    requires !x.launch.NotLaunched? && g == ChildGate(x) && c == ChildConfig(x) && s == Final(c, x.passes, x.closing)
    ensures Got(g, s) == g.shut + s.rights.shut
    ensures FailedCloses(g, s) == Reports(RunChild(x).cleanup) + Carried(s.err.work)
       <==> !Ever(Discarding, Start(c), c, x.passes)
  {
    CallSiteValid(x);
    RightsReported(c, x.passes, x.closing);
    HandedOn(c, x.passes, x.closing);
    HandOver(g, s);
    WholeCleanup(x);
  }

  /** `_run_candidate_child` as the sequence of loops it is. */
  method RunCandidate(x: ChildScript) returns (outcome: Outcome)
    ensures outcome == RunChild(x)
  {
    if x.launch.NotLaunched? {
      return Outcome(None, Some(x.launch.error), Tail(x), !x.launch.error.Uncertain? && Tail(x) == []);
    }
    var g := Closed(LaunchError(x));
    if g.error.None? {
      g := SendGo(AwaitReady(x.gate), x.gate);
      if g.error.None? {
        ghost var start := g;
        var i := 0;
        while g.error.None? && !GateOpen(g) && i < |x.gate.rounds|
          invariant 0 <= i <= |x.gate.rounds|
          invariant GateRounds(start, x.gate.rounds) == GateRounds(g, x.gate.rounds[i..])
        {
          assert x.gate.rounds[i..][1..] == x.gate.rounds[i + 1..];
          g := GatePass(g, x.gate.rounds[i]);
          i := i + 1;
        }
        if g.error.None? && !GateOpen(g) {
          assert x.gate.rounds[i..] == [];
          g := g.(error := Some(Native(GateTimeout)));
        }
        g := Release(g, x.gate);
      }
    }
    assert g == ChildGate(x);
    var supervised := Supervise(ChildConfig(x), x.passes, x.closing);
    var parent := ParentFailures(x.parentCloses, 0);
    outcome := Outcome(supervised.result, supervised.workError,
                       parent + g.closeErrors + supervised.cleanup + Tail(x),
                       supervised.settled && Tail(x) == [] && parent == [] && !g.uncertain);
  }

  // ---------------------------------------------------------------- the outer run

  /** The terminal aggregate: the first work error, and every cleanup error in order. */
  class Tally {
    var workError: Option<Error>
    var cleanup: seq<CleanupError>

    constructor ()
      ensures workError.None? && cleanup == []
    {
      workError, cleanup := None, [];
    }

    method Work(error: Error)
      modifies this
      ensures workError == if old(workError).Some? then old(workError) else Some(error)
      ensures cleanup == old(cleanup)
    {
      if workError.None? {
        workError := Some(error);
      }
    }

    method Cleanup(stage: Stage, error: Error)
      modifies this
      ensures workError == old(workError)
      ensures cleanup == old(cleanup) + [CleanupError(stage, error)]
    {
      cleanup := cleanup + [CleanupError(stage, error)];
    }

    method CleanupAll(errors: seq<CleanupError>)
      modifies this
      ensures workError == old(workError)
      ensures cleanup == old(cleanup) + errors
    {
      var i := 0;
      while i < |errors|
        invariant 0 <= i <= |errors|
        invariant workError == old(workError)
        invariant cleanup == old(cleanup) + errors[..i]
      {
        Cleanup(errors[i].stage, errors[i].error);
        i := i + 1;
      }
      assert errors[..i] == errors;
    }
  }

  /**
   * What the outer run meets: an exception before the child starts, what was held by then, the child
   * run (or an exception escaping it), and the cleanup steps' outcomes.
   */
  datatype RunScript = RunScript(
    preparation: Option<Error>, retained: bool, cache: bool,
    child: ChildScript, escape: Option<Error>,
    retainedFailure: Option<PlainError>, cacheFailure: Option<PlainError>, residue: Option<PlainError>)

  datatype Report = Report(touchedRetained: bool, touchedCache: bool, result: Option<Bytes>,
                           workError: Option<Error>, cleanup: seq<CleanupError>)

  /** The child was started, came back, and a helper had been forked. */
  predicate HelperRan(x: RunScript) {
    x.preparation.None? && !x.child.launch.NotLaunched?
  }

  /** The end of supervision for a run that had a helper. */
  function LastState(x: RunScript): State
    requires HelperRan(x)
  {
    Final(ChildConfig(x.child), x.child.passes, x.child.closing)
  }

  /**
   * The helper is proved absent: nothing escaped, no close failed of a descriptor the parent holds or
   * that is left over at the end, the gate is certain, the run wound up, and conclusive word on PID 1,
   * for which only a failed poll may stand. Closes that fail inside supervision are reported only.
   */
  predicate ProvedAbsent(x: RunScript)
    requires HelperRan(x)
  {
    var s, c := LastState(x), ChildConfig(x.child);
    && x.escape.None?
    && ParentFailures(x.child.parentCloses, 0) == [] && !ChildGate(x.child).uncertain && Tail(x.child) == []
    && Wound(s)
    && (Conclusive(c, x.child.passes, s) || Ever(Blind, Start(c), c, x.child.passes))
  }

  /** When the retained root and the cache may be touched. */
  predicate MayTouch(x: RunScript) {
    if x.preparation.Some? then true
    else if x.child.launch.NotLaunched? then x.escape.None? && !x.child.launch.error.Uncertain? && Tail(x.child) == []
    else ProvedAbsent(x)
  }

  /** The success claim for a run that had a helper. */
  predicate ProvedSuccess(x: RunScript, payload: Bytes)
    requires HelperRan(x)
  {
    var s := LastState(x);
    && Frames.WriteFrame(Frames.SUCCESS_KIND, payload) == Some(s.pipe.stream)
    && s.proc.helperInfo == Some(CLEAN_EXIT) && Terminal(s.proc) == Some(CLEAN_EXIT)
  }

  lemma ChildSettled(x: RunScript)
    requires HelperRan(x)
    ensures ProvedAbsent(x) <==> x.escape.None? && Supervised(x.child).settled
  {
    CallSiteValid(x.child);
    SettledExactly(ChildConfig(x.child), x.child.passes, x.child.closing);
  }

  lemma ChildSucceeded(x: RunScript)
    requires HelperRan(x)
    requires Supervised(x.child).workError.None? && Supervised(x.child).cleanup == []
    ensures var o := Supervised(x.child); o.settled && o.result.Some? && ProvedSuccess(x, o.result.value)
  {
    CallSiteValid(x.child);
    var c := ChildConfig(x.child);
    SuccessIsProved(c, x.child.passes, x.child.closing);
    if c.initialError.Some? {
      InitialErrorReported(c, x.child.passes, x.child.closing);
    }
    CleanGate(x.child);
  }

  /** A gate that ended without error never lost track of a right. */
  lemma CleanGate(x: ChildScript)
    requires ChildGate(x).error.None?
    ensures !ChildGate(x).uncertain
  {
    PassGateSound(x.gate);
  }

  /** The errors of a cleanup step that runs only if something is held. */
  function IfHeld(held: bool, stage: Stage, failure: Option<PlainError>): seq<CleanupError> {
    if held then Failures(stage, failure) else []
  }

  /** What the outer run lists after the child: its two cleanups or their suppression, and the residue. */
  function OuterFailures(x: RunScript): seq<CleanupError> {
    (if MayTouch(x)
     then IfHeld(x.retained, RetainedCleanup, x.retainedFailure) + IfHeld(x.cache, CacheCleanup, x.cacheFailure)
     else [CleanupError(Suppressed, Native(ChildAbsenceUnproved))])
    + Failures(ResidueCheck, x.residue)
  }

  /** The child came back, without preparation error and without an escaping exception. */
  predicate ChildReturned(x: RunScript) {
    x.preparation.None? && x.escape.None?
  }

  /** No cleanup step that runs fails, and nothing remains. */
  predicate CleanEnd(x: RunScript) {
    && (x.retained ==> x.retainedFailure.None?) && (x.cache ==> x.cacheFailure.None?) && x.residue.None?
  }

  /** Everything a run with this payload needs, told from what the child reports. */
  predicate Succeeds(x: RunScript, payload: Bytes) {
    && HelperRan(x) && x.escape.None? && CleanEnd(x)
    && RunChild(x.child).workError.None? && RunChild(x.child).cleanup == []
    && RunChild(x.child).result == Some(payload)
  }

  lemma SuccessMayTouch(x: RunScript, payload: Bytes)
    requires Succeeds(x, payload)
    ensures MayTouch(x) && ProvedAbsent(x) && ProvedSuccess(x, payload) && OuterFailures(x) == []
  {
    ChildSettled(x);
    ChildSucceeded(x);
  }

  /** A run that lists nothing and has no error had a helper, and its child reports a result. */
  lemma CleanSucceeds(x: RunScript)
    requires ChildReturned(x) && RunChild(x.child).workError.None? && RunChild(x.child).cleanup == []
    requires OuterFailures(x) == []
    ensures RunChild(x.child).result.Some? && Succeeds(x, RunChild(x.child).result.value)
  {
    ChildSucceeded(x);
    ChildSettled(x);
    assert |OuterFailures(x)| == 0;
  }

  /**
   * `run` from the held cache on. The retained root and the cache, if held, are touched exactly when
   * no helper ran or its absence is proved. The first error is the preparation's, else an escaping
   * exception, else the child's; the cleanup errors are the child's, then those of the outer steps. A
   * payload is returned exactly when the child reports it without any error and every outer step is clean.
   */
  method Run(x: RunScript) returns (report: Report)
    ensures report.touchedRetained <==> x.retained && MayTouch(x)
    ensures report.touchedCache <==> x.cache && MayTouch(x)
    ensures x.preparation.None? && x.escape.Some? ==> report.workError == x.escape
    ensures ChildReturned(x) ==> report.workError == RunChild(x.child).workError
    ensures report.cleanup == (if ChildReturned(x) then RunChild(x.child).cleanup else []) + OuterFailures(x)
    ensures forall payload :: report.result == Some(payload) <==> Succeeds(x, payload)
    ensures report.result.Some? ==>
              && HelperRan(x) && ProvedAbsent(x) && ProvedSuccess(x, report.result.value)
              && report.cleanup == [] && report.workError.None?
              && report.touchedRetained == x.retained && report.touchedCache == x.cache
    ensures x.preparation.Some? ==> report.workError == x.preparation
  {
    var tally := new Tally();
    var settled, result := true, None;
    if x.preparation.Some? {
      tally.Work(x.preparation.value);
    } else {
      settled, result := RunAndRecord(x, tally);
    }
    OuterSteps(x, settled, tally);
    if tally.cleanup != [] || tally.workError.Some? {
      result := None;
    }
    RunDecided(x, result, tally.workError, tally.cleanup);
    report := Report(settled && x.retained, settled && x.cache, result, tally.workError, tally.cleanup);
  }

  /** The steps of `run` after the child. */
  method OuterSteps(x: RunScript, settled: bool, tally: Tally)
    requires settled <==> MayTouch(x)
    modifies tally
    ensures tally.workError == old(tally.workError) && tally.cleanup == old(tally.cleanup) + OuterFailures(x)
  {
    if settled {
      if x.retained && x.retainedFailure.Some? {
        tally.Cleanup(RetainedCleanup, x.retainedFailure.value);
      }
      if x.cache && x.cacheFailure.Some? {
        tally.Cleanup(CacheCleanup, x.cacheFailure.value);
      }
    } else {
      tally.Cleanup(Suppressed, Native(ChildAbsenceUnproved));
    }
    if x.residue.Some? {
      tally.Cleanup(ResidueCheck, x.residue.value);
    }
  }

  /** What is returned when errors clear the result is decided by the script. */
  lemma RunDecided(x: RunScript, result: Option<Bytes>, workError: Option<Error>, cleanup: seq<CleanupError>)
    requires cleanup == (if ChildReturned(x) then RunChild(x.child).cleanup else []) + OuterFailures(x)
    requires workError == if x.preparation.Some? then x.preparation else if x.escape.Some? then x.escape
                          else RunChild(x.child).workError
    requires result == if cleanup != [] || workError.Some? || !ChildReturned(x) then None else RunChild(x.child).result
    ensures forall payload :: result == Some(payload) <==> Succeeds(x, payload)
    ensures result.Some? ==> HelperRan(x) && ProvedAbsent(x) && ProvedSuccess(x, result.value) && MayTouch(x)
  {
    if result.Some? {
      CleanSucceeds(x);
      SuccessMayTouch(x, result.value);
    }
    forall payload | Succeeds(x, payload) ensures result == Some(payload) {
      SuccessMayTouch(x, payload);
    }
  }

  /** The child run and what it adds to the aggregate; an escaping exception leaves it unsettled. */
  method RunAndRecord(x: RunScript, tally: Tally) returns (settled: bool, result: Option<Bytes>)
    requires x.preparation.None? && tally.workError.None? && tally.cleanup == []
    modifies tally
    ensures settled <==> MayTouch(x)
    ensures x.escape.Some? ==> tally.workError == x.escape && tally.cleanup == [] && result.None?
    ensures x.escape.None? ==>
              && tally.workError == RunChild(x.child).workError && tally.cleanup == RunChild(x.child).cleanup
              && result == RunChild(x.child).result
  {
    if x.escape.Some? {
      tally.Work(x.escape.value);
      return false, None;
    }
    var outcome := RunCandidate(x.child);
    if HelperRan(x) {
      ChildSettled(x);
    }
    if outcome.workError.Some? {
      tally.Work(outcome.workError.value);
    }
    tally.CleanupAll(outcome.cleanup);
    return outcome.settled, outcome.result;
  }
}
