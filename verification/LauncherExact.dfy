/** What the gate and the child run around it answer, branch by branch, and what the outer run lists. */
module LauncherExact {
  import opened Basics
  import opened Control
  import opened Supervisor
  import opened SupervisorClaims
  import opened Launcher

  // ---------------------------------------------------------------- the gate

  /** A packet that is not READY, with the failure to close its right, if any. */
  function ReadyAnswer(d: Datagram): Option<Error> {
    match Receive(d)
    case Refused(e, _) => Some(e)
    case Accepted(raw, right) =>
      if raw == "HELPER-READY" && right.None? then None
      else
        var why := if raw == "" then Native(GateEof) else Native(MalformedReady);
        if right.Some? && |d.closes| > 0 && d.closes[0].Some?
        then Some(Uncertain(why, [CleanupError(RejectedRightClose, d.closes[0].value)])) else Some(why)
  }

  /** What a packet at the gate leads to: only one that hands over PID 1's pidfd, once, lets the gate go on. */
  function PacketAnswer(d: Datagram, held: bool): Option<Error> {
    match Receive(d)
    case Refused(e, _) => Some(e)
    case Accepted(raw, right) =>
      if PID1_FD <= raw || NO_PID1 + ":" <= raw then
        match Classify(raw, right, d.valid, !held)
        case GotPid1(_) => None
        case NoPid1(stage, reason) => Some(HelperFailed(stage, reason))
        case Reject(e) => Some(e)
        case _ => None
      else Some(Native(MalformedPid1Report))
  }

  /** The gate's rounds, told by two facts: the token was seen, the pidfd is held. */
  function RoundsAnswer(ready: bool, held: bool, rounds: seq<GateRound>): Option<Error>
    decreases |rounds|
  {
    if ready && held then None
    else if rounds == [] then Some(Native(GateTimeout))
    else
      var r := rounds[0];
      if r.early.Some? then r.early
      else if r.packet.Some? && PacketAnswer(r.packet.value, held).Some? then PacketAnswer(r.packet.value, held)
      else if r.helperExited && !held && r.packet.None? then Some(Native(HelperExitedEarly))
      else RoundsAnswer(ready || r.ready, held || r.packet.Some?, rounds[1..])
  }

  /** The error of the gate, in the order of its steps. */
  function GateAnswer(g: Gate): Option<Error> {
    if g.ready.GateFailed? then Some(g.ready.error)
    else if ReadyAnswer(g.ready.datagram).Some? then ReadyAnswer(g.ready.datagram)
    else if !g.helperValid then Some(Native(HelperInvalid))
    else if g.goFailure.Some? then g.goFailure
    else if RoundsAnswer(false, false, g.rounds).Some? then RoundsAnswer(false, false, g.rounds)
    else g.release
  }

  lemma RefusedWhole(d: Datagram)
    ensures Receive(d).Refused? ==> WithFailures(Primary(Receive(d).error), Receive(d).failures) == Receive(d).error
  {
  }

  lemma ReadyAnswered(g: Gate)
    ensures AwaitReady(g).error
         == if g.ready.GateFailed? then Some(g.ready.error) else ReadyAnswer(g.ready.datagram)
    ensures AwaitReady(g).error.None? ==> AwaitReady(g) == Closed(None)
  {
    if g.ready.GateArrived? {
      RefusedWhole(g.ready.datagram);
    }
  }

  /** The classifier at the gate gives no other action than the three the gate knows. */
  lemma GateActions(raw: string, right: Option<nat>, valid: bool, available: bool)
    ensures var a := GateClassify(raw, right, valid, available); a.GotPid1? || a.NoPid1? || a.Reject?
    ensures GateClassify(raw, right, valid, available).GotPid1? ==> available
  {
    if NO_PID1 + ":" <= raw {
      assert raw[0] == 'H' && PID1_FD[0] == 'P' && PID1_EXIT[0] == 'P';
    }
  }

  lemma HearAnswered(s: GateState, d: Datagram)
    requires s.error.None?
    ensures GateHear(s, d).error == PacketAnswer(d, s.pid1Fd.Some?)
    ensures GateHear(s, d).error.None? ==> s.pid1Fd.None? && GateHear(s, d).pid1Fd.Some?
    ensures GateHear(s, d).pid1Ready == s.pid1Ready
  {
    RefusedWhole(d);
    if Receive(d).Accepted? {
      GateActions(d.raw, Receive(d).right, d.valid, s.pid1Fd.None?);
    }
  }

  lemma {:induction false} RoundsAnswered(s: GateState, rounds: seq<GateRound>)
    requires s.error.None?
    ensures GateRounds(s, rounds).error == RoundsAnswer(s.pid1Ready, s.pid1Fd.Some?, rounds)
    decreases |rounds|
  {
    if !GateOpen(s) && rounds != [] {
      var r := rounds[0];
      var s1 := s.(pid1Ready := s.pid1Ready || r.ready);
      if r.early.None? && r.packet.Some? {
        HearAnswered(s1, r.packet.value);
      }
      var t := GatePass(s, r);
      if t.error.None? {
        RoundsAnswered(t, rounds[1..]);
      }
    }
  }

  /** The gate ends with exactly the error of its first failing step. */
  lemma GateAnswered(g: Gate)
    ensures PassGate(g).error == GateAnswer(g)
  {
    ReadyAnswered(g);
    var s := SendGo(AwaitReady(g), g);
    if s.error.None? {
      RoundsAnswered(s, g.rounds);
    }
  }

  // ---------------------------------------------------------------- the child run

  /** The error of a child run before supervision, if any. */
  function EarlyAnswer(x: ChildScript): Option<Error> {
    match x.launch
    case NotLaunched(e) => Some(e)
    case HelperUnheld(_, e) => Some(e)
    case HelperHeld(_, _) =>
      if exists i :: 0 <= i < |x.parentCloses| && x.parentCloses[i].Some? then Some(Native(PreGateClosure))
      else GateAnswer(x.gate)
  }

  /** The stage of the close at a place, among the parent's or the leftovers. */
  function CloseStage(parent: bool, place: nat): Stage {
    if parent then ParentClose(place) else LaunchClose(place)
  }

  function PlaceOf(e: CleanupError): nat {
    if e.stage.ParentClose? || e.stage.LaunchClose? then e.stage.index else 0
  }

  predicate Failed(e: CleanupError, outcomes: seq<Option<PlainError>>, from: nat, parent: bool) {
    exists k :: 0 <= k < |outcomes| && outcomes[k] == Some(e.error) && e.stage == CloseStage(parent, from + k)
  }

  /** The close failures of a list of outcomes: one for each that failed, in order, named by its place. */
  ghost predicate FailuresOf(list: seq<CleanupError>, outcomes: seq<Option<PlainError>>, from: nat, parent: bool) {
    && (forall e :: e in list <==> Failed(e, outcomes, from, parent))
    && (forall i, j :: 0 <= i < j < |list| ==> PlaceOf(list[i]) < PlaceOf(list[j]))
  }

  lemma FailedStep(e: CleanupError, outcomes: seq<Option<PlainError>>, from: nat, parent: bool)
    requires outcomes != []
    ensures Failed(e, outcomes, from, parent) <==>
              e in Failures(CloseStage(parent, from), outcomes[0]) || Failed(e, outcomes[1..], from + 1, parent)
  {
    if Failed(e, outcomes, from, parent) {
      var k :| 0 <= k < |outcomes| && outcomes[k] == Some(e.error) && e.stage == CloseStage(parent, from + k);
      if k > 0 {
        assert outcomes[1..][k - 1] == Some(e.error) && e.stage == CloseStage(parent, from + 1 + (k - 1));
      }
    }
    if Failed(e, outcomes[1..], from + 1, parent) {
      var k :| 0 <= k < |outcomes[1..]| && outcomes[1..][k] == Some(e.error)
               && e.stage == CloseStage(parent, from + 1 + k);
      assert outcomes[k + 1] == Some(e.error) && e.stage == CloseStage(parent, from + (k + 1));
    }
    if e in Failures(CloseStage(parent, from), outcomes[0]) {
      assert outcomes[0] == Some(e.error) && e.stage == CloseStage(parent, from + 0);
    }
  }

  lemma FailuresMore(list: seq<CleanupError>, outcomes: seq<Option<PlainError>>, from: nat, parent: bool)
    requires outcomes != [] && FailuresOf(list, outcomes[1..], from + 1, parent)
    ensures FailuresOf(Failures(CloseStage(parent, from), outcomes[0]) + list, outcomes, from, parent)
  {
    var first := Failures(CloseStage(parent, from), outcomes[0]);
    var all := first + list;
    forall e ensures e in all <==> Failed(e, outcomes, from, parent) {
      FailedStep(e, outcomes, from, parent);
    }
    forall i, j | 0 <= i < j < |all| ensures PlaceOf(all[i]) < PlaceOf(all[j]) {
      assert all[j] == list[j - |first|] && all[j] in list;
      assert Failed(all[j], outcomes[1..], from + 1, parent);
    }
  }

  lemma {:induction false} ParentListed(outcomes: seq<Option<PlainError>>, from: nat)
    ensures FailuresOf(ParentFailures(outcomes, from), outcomes, from, true)
    decreases |outcomes|
  {
    if outcomes != [] {
      ParentListed(outcomes[1..], from + 1);
      FailuresMore(ParentFailures(outcomes[1..], from + 1), outcomes, from, true);
    }
  }

  lemma {:induction false} LeftoverListed(outcomes: seq<Option<PlainError>>, from: nat)
    ensures FailuresOf(LeftoverFailures(outcomes, from), outcomes, from, false)
    decreases |outcomes|
  {
    if outcomes != [] {
      LeftoverListed(outcomes[1..], from + 1);
      FailuresMore(LeftoverFailures(outcomes[1..], from + 1), outcomes, from, false);
    }
  }

  lemma ParentFailed(x: ChildScript)
    ensures ParentFailures(x.parentCloses, 0) != [] <==>
              exists i :: 0 <= i < |x.parentCloses| && x.parentCloses[i].Some?
  {
    ParentListed(x.parentCloses, 0);
    var list := ParentFailures(x.parentCloses, 0);
    if list != [] {
      assert list[0] in list;
    }
    if i :| 0 <= i < |x.parentCloses| && x.parentCloses[i].Some? {
      assert Failed(CleanupError(CloseStage(true, 0 + i), x.parentCloses[i].value), x.parentCloses, 0, true);
    }
  }

  /** A run that had a helper was supervised from the error the launch or the gate ended with. */
  lemma ChildStart(x: ChildScript)
    requires !x.launch.NotLaunched?
    ensures ChildGate(x).error == EarlyAnswer(x) && ChildConfig(x).initialError == EarlyAnswer(x)
    ensures ChildConfig(x).workDeadline == x.workDeadline && ChildConfig(x).settlement == x.settlement
    ensures ChildConfig(x).startClock == x.startClock && ChildConfig(x).blocking == x.blocking
    ensures ChildConfig(x).helperFd == if x.launch.HelperHeld? then Some(x.launch.fd) else None
  {
    ParentFailed(x);
    GateAnswered(x.gate);
  }

  /**
   * The error of a child run: that of the launch, of the parent's closes, or of the gate, whichever
   * comes first; only without any of them what supervision reports.
   */
  lemma ChildErrorExactly(x: ChildScript)
    ensures EarlyAnswer(x).Some? ==> RunChild(x).workError == EarlyAnswer(x)
    ensures EarlyAnswer(x).None? ==>
              RunChild(x).workError == Judge(Final(ChildConfig(x), x.passes, x.closing)).workError
  {
    if !x.launch.NotLaunched? {
      ChildStart(x);
      CallSiteValid(x);
      if EarlyAnswer(x).Some? {
        InitialErrorReported(ChildConfig(x), x.passes, x.closing);
      }
    }
  }

  /** What a child run lists: its parts in order, each an exact list of what failed. */
  lemma ChildListed(x: ChildScript)
    ensures var tail := LeftoverFailures(x.leftovers, 0) + Failures(SubreaperRestore, x.subreaper);
            && FailuresOf(LeftoverFailures(x.leftovers, 0), x.leftovers, 0, false)
            && FailuresOf(ParentFailures(x.parentCloses, 0), x.parentCloses, 0, true)
            && RunChild(x).cleanup
               == if x.launch.NotLaunched? then tail
                  else ParentFailures(x.parentCloses, 0) + ChildGate(x).closeErrors
                       + Judge(Final(ChildConfig(x), x.passes, x.closing)).cleanup + tail
  {
    ParentListed(x.parentCloses, 0);
    LeftoverListed(x.leftovers, 0);
  }

  // ---------------------------------------------------------------- the outer run

  /** Which errors the outer run adds: a failed cleanup of what is held, or its suppression, or residue. */
  lemma OuterMeans(x: RunScript, e: CleanupError)
    ensures e in OuterFailures(x) <==>
              || (MayTouch(x) && x.retained && e.stage == RetainedCleanup && x.retainedFailure == Some(e.error))
              || (MayTouch(x) && x.cache && e.stage == CacheCleanup && x.cacheFailure == Some(e.error))
              || (!MayTouch(x) && e == CleanupError(Suppressed, Native(ChildAbsenceUnproved)))
              || (e.stage == ResidueCheck && x.residue == Some(e.error))
  {
  }
}
