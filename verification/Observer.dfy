/** The observer itself, as the program that fills the record in place. */
module Observer {
  import opened Basics
  import opened Timing
  import opened PhaseA
  import opened Evidence
  import opened ObserverRows

  /** Rows a build leaves. */
  function WorkRow(b: Build, tracked: bool): Row {
    match WorkStatus(b, tracked)
    case Poisoned => POISONED_ROW
    case NotReached => EMPTY_ROW
    case _ => Row(WorkStatus(b, tracked), WorkCategory(b.end), b.workMs, Some(b.work))
  }

  function CleanupRow(b: Build, tracked: bool): Row {
    match CleanupStatus(b, tracked)
    case Poisoned => POISONED_ROW
    case NotReached => EMPTY_ROW
    case Blocked => BLOCKED_ROW
    case Success => Row(Success, Succeeded, b.cleanupMs, Some(b.cleanup))
    case Failure => Row(Failure, Failed, b.cleanupMs, Some(b.cleanup))
  }

  function TimedRow(t: Timed): Row {
    match t
    case Passed(ms, counters) => Row(Success, Succeeded, ms, Some(counters))
    case Missed(ms, counters) => Row(Failure, Failed, ms, Some(counters))
    case Spoiled(_) => POISONED_ROW
  }

  function TimedExit(t: Timed): Exit {
    match t
    case Passed(_, _) => Completed
    case Missed(_, _) => Stopped
    case Spoiled(e) => e
  }

  /** A row that was never reached becomes blocked. */
  function BlockRow(r: Row): Row {
    if r.status == NotReached then BLOCKED_ROW else r
  }

  const AFTER_FIRST: seq<nat> := [SECOND, SECOND + 1, EQUALITY, PIN, POST, SETTLEMENT]
  const AFTER_SECOND: seq<nat> := [EQUALITY, PIN, POST, SETTLEMENT]

  predicate Later(i: nat) {
    i == EQUALITY || i == PIN || i == POST || i == SETTLEMENT
  }

  /** A whole run as the system answers it, step by step. */
  datatype Steps = Steps(
    host: Option<Interruption>, fixedInput: Option<Interruption>, bootstrap: Option<Interruption>,
    tokens: Option<Interruption>, first: BuildSteps, second: BuildSteps,
    equality: TimedSteps, pin: TimedSteps, post: TimedSteps, settlement: TimedSteps,
    assets: Option<Interruption>, cacheMs: nat, runtimeMs: nat)

  /** What the run amounts to. */
  function Summary(y: Steps): Script {
    Script(y.host, y.fixedInput, y.bootstrap, y.tokens, BuildOf(y.first), BuildOf(y.second),
           TimedOf(y.equality), TimedOf(y.pin), TimedOf(y.post), TimedOf(y.settlement),
           y.assets, y.cacheMs, y.runtimeMs)
  }

  lemma SummaryValid(y: Steps)
    ensures ValidScript(Summary(y))
  {
    BuildOfInRange(y.first);
    BuildOfInRange(y.second);
  }

  /** The rows of a build are those its readings tell. */
  lemma RowsTold(b: BuildSteps, tracked: bool)
    ensures BuildLeaves(b, tracked, WorkRow(BuildOf(b), tracked), CleanupRow(BuildOf(b), tracked))
    ensures BuildExit(BuildOf(b), tracked) == Completed <==> Completes(b, tracked)
    ensures (if b.ticket then SetupAfter(BuildOf(b).marks, OperationEstablishment) else OperationEstablishment)
         == SetupLeft(b, OperationEstablishment)
  {
    if b.ticket {
      FaultExact(b);
      if BuildWitnessed(b) {
        StatusesTold(b.cleanups);
        if Recorded(b, tracked) {
          RecordedTold(b, tracked);
        }
      }
    }
  }

  /** The build, as far as its rows go, is what the readings say. */
  predicate Accounts(b: BuildSteps, built: Build)
    requires BuildWitnessed(b)
  {
    && !built.startFault && built.fault.None? && built.marks == b.marks && built.end == b.end
    && built.cleanups == Statuses(b.cleanups) && |built.work| == COUNTERS && |built.cleanup| == COUNTERS
    && built.workMs == (Max(0, b.finish.value - b.start.value) - SumOf(b.cleanups, Spans())) / NS_PER_MS
    && built.cleanupMs == SumOf(b.cleanups, Times()) / NS_PER_MS
    && (forall i :: 0 <= i < COUNTERS ==> built.work[i] + built.cleanup[i] == b.read.value[i])
    && (forall i :: 0 <= i < COUNTERS ==> built.cleanup[i] == SumOf(b.cleanups, Counter(i)))
  }

  lemma BuildAccounts(b: BuildSteps)
    requires b.ticket && BuildWitnessed(b)
    ensures Accounts(b, BuildOf(b))
  {
    FaultExact(b);
    EvidenceConserved(b);
  }

  lemma WorkTold(b: BuildSteps, built: Build, tracked: bool)
    requires Recorded(b, tracked) && Accounts(b, built)
    ensures WorkRecorded(b, WorkRow(built, tracked))
  {
    var row := WorkRow(built, tracked);
    assert row == Row(if b.end == Built then Success else Failure, WorkCategory(b.end), built.workMs, Some(built.work));
    assert OutcomeTold(b.end, row.outcome);
  }

  lemma CleanupTold(b: BuildSteps, built: Build, tracked: bool)
    requires Recorded(b, tracked) && Accounts(b, built)
    ensures CleanupRecorded(b, CleanupRow(built, tracked))
  {
    StatusesTold(b.cleanups);
    assert |built.cleanups| == |b.cleanups|;
  }

  lemma RecordedTold(b: BuildSteps, tracked: bool)
    requires Recorded(b, tracked)
    ensures WorkRecorded(b, WorkRow(BuildOf(b), tracked)) && CleanupRecorded(b, CleanupRow(BuildOf(b), tracked))
  {
    BuildAccounts(b);
    WorkTold(b, BuildOf(b), tracked);
    CleanupTold(b, BuildOf(b), tracked);
  }

  lemma StatusesTold(ks: seq<CleanupSteps>)
    ensures false in Statuses(ks) <==> exists i :: 0 <= i < |ks| && ks[i].fails
    ensures Statuses(ks) == [true] <==> |ks| == 1 && !ks[0].fails
  {
    if false in Statuses(ks) {
      var i :| 0 <= i < |ks| && Statuses(ks)[i] == false;
      assert ks[i].fails;
    }
    if i :| 0 <= i < |ks| && ks[i].fails {
      assert Statuses(ks)[i] == false;
    }
    if |ks| == 1 {
      assert Statuses(ks) == [!ks[0].fails];
    }
  }

  class Record {
    var rows: seq<Row>
    var setup: Setup
    var cache: StageRow
    var runtime: StageRow
    var rootfs: bool
    var assets: nat

    constructor ()
      ensures rows == seq(9, i => EMPTY_ROW) && setup == SetupNotReached && !rootfs && assets == 0
      ensures cache == StageRow(StageNotReached, 0) && runtime == StageRow(StageNotReached, 0)
    {
      rows := seq(9, i => EMPTY_ROW);
      setup := SetupNotReached;
      cache, runtime := StageRow(StageNotReached, 0), StageRow(StageNotReached, 0);
      rootfs, assets := false, 0;
    }

    method SetPhase(i: nat, row: Row)
      requires i < |rows| && rows[i].status == NotReached
      modifies this`rows
      ensures rows == old(rows)[i := row]
    {
      rows := rows[i := row];
    }

    /** `_block_phases`: every named row that was never reached becomes blocked, no other changes. */
    method BlockPhases(names: seq<nat>)
      requires forall k :: 0 <= k < |names| ==> names[k] < |rows|
      modifies this`rows
      ensures |rows| == |old(rows)|
      ensures forall i :: 0 <= i < |rows| ==>
                rows[i] == if i in names then BlockRow(old(rows)[i]) else old(rows)[i]
    {
      var k := 0;
      while k < |names|
        invariant 0 <= k <= |names| && |rows| == |old(rows)|
        invariant forall i :: 0 <= i < |rows| ==>
                    rows[i] == if i in names[..k] then BlockRow(old(rows)[i]) else old(rows)[i]
      {
        if rows[names[k]].status == NotReached {
          SetPhase(names[k], BLOCKED_ROW);
        }
        assert names[..k + 1] == names[..k] + [names[k]];
        k := k + 1;
      }
      assert names[..k] == names;
    }

    /** The build's setup marks, applied as they happen. */
    method Track(marks: seq<Mark>)
      modifies this`setup
      ensures setup == SetupAfter(marks, old(setup))
    {
      var k := 0;
      while k < |marks|
        invariant 0 <= k <= |marks|
        invariant setup == SetupAfter(marks[..k], old(setup))
      {
        setup := if marks[k] == Began then MaterializerDispatch else Complete;
        assert marks[..k + 1][|marks[..k + 1]| - 1] == marks[k];
        k := k + 1;
      }
      assert marks[..k] == marks;
    }

    /** `_poison_phase`: the row's evidence is given up. */
    method Poison(i: nat)
      requires i < |rows|
      modifies this`rows
      ensures rows == old(rows)[i := POISONED_ROW]
    {
      rows := rows[i := POISONED_ROW];
    }

    /** `timed_cleanup` for each outermost cleanup; a fault poisons both rows of the build at once. */
    method Cleanups(at: nat, ks: seq<CleanupSteps>) returns (v: Charge)
      requires |rows| == 9 && at + 1 < 9
      modifies this`rows
      ensures v == ChargedAll(ks)
      ensures rows == if v.fault.Some? then old(rows)[at := POISONED_ROW][at + 1 := POISONED_ROW] else old(rows)
    {
      v := Charge(0, 0, ZERO, None);
      var i := 0;
      while i < |ks|
        invariant 0 <= i <= |ks| && |rows| == 9
        invariant v == ChargedAll(ks[..i])
        invariant rows == if v.fault.Some? then old(rows)[at := POISONED_ROW][at + 1 := POISONED_ROW] else old(rows)
      {
        assert ks[..i + 1][..i] == ks[..i];
        var cost := CostOf(ks[i]);
        var sum := if cost.Got? then Plus(v.counters, cost.value.counters) else Raised(cost.exit);
        if sum.Got? {
          v := Charge(v.elapsed + cost.value.elapsed, v.span + cost.value.span, sum.value, v.fault);
        } else {
          v := v.(fault := First(v.fault, sum.exit));
          Poison(at);
          Poison(at + 1);
        }
        i := i + 1;
      }
      assert ks[..i] == ks;
    }

    /** The build between its two clocks and counters: the work's share, or the fault that poisoned both rows. */
    method Measure(at: nat, b: BuildSteps) returns (work: Reading<Rest>, v: Charge)
      requires |rows| == 9 && at + 1 < 9 && b.start.Got?
      modifies this`rows
      ensures v == ChargedAll(b.cleanups) && work == WorkOf(b)
      ensures rows == if work.Raised? then old(rows)[at := POISONED_ROW][at + 1 := POISONED_ROW] else old(rows)
    {
      v := Cleanups(at, b.cleanups);
      var fault := v.fault;
      var total := Elapsed(b.start.value, b.finish);
      if total.Raised? {
        fault := First(fault, total.exit);
      }
      var read := CounterRead(b.read);
      work := Raised(Stopped);
      if read.Got? && fault.None? {
        work := RestOf(total.value, read.value, v);
      }
      if fault.Some? {
        work := Raised(fault.value);
      }
      if work.Raised? {
        Poison(at);
        Poison(at + 1);
      }
    }

    /** `_candidate_build`; only the first build tracks the setup marks. */
    method CandidateBuild(at: nat, b: BuildSteps, tracked: bool) returns (exit: Exit)
      requires |rows| == 9 && at + 1 < 9
      requires rows[at] == EMPTY_ROW && rows[at + 1] == EMPTY_ROW
      requires tracked ==> setup == OperationEstablishment
      modifies this`rows, this`setup
      ensures rows == old(rows)[at := WorkRow(BuildOf(b), tracked)][at + 1 := CleanupRow(BuildOf(b), tracked)]
      ensures setup == if tracked && b.ticket then SetupAfter(BuildOf(b).marks, old(setup)) else old(setup)
      ensures exit == BuildExit(BuildOf(b), tracked)
      ensures BuildLeaves(b, tracked, rows[at], rows[at + 1])
      ensures forall i :: 0 <= i < 9 && i != at && i != at + 1 ==> rows[i] == old(rows)[i]
      ensures setup == if tracked then SetupLeft(b, old(setup)) else old(setup)
      ensures exit == Completed <==> Completes(b, tracked)
    {
      RowsTold(b, tracked);
      if !b.ticket {
        Poison(at);
        return Stopped;
      }
      if b.start.Raised? {
        Poison(at);
        Poison(at + 1);
        return b.start.exit;
      }
      if tracked {
        Track(b.marks);
      }
      var work, v := Measure(at, b);
      if work.Raised? {
        return work.exit;
      }
      exit := Enter(at, Build(false, b.marks, None, b.end, Statuses(b.cleanups), work.value.ns / NS_PER_MS,
                              work.value.counters, v.elapsed / NS_PER_MS, v.counters), tracked);
    }

    /** The rows of a build whose evidence held. */
    method Enter(at: nat, b: Build, tracked: bool) returns (exit: Exit)
      requires |rows| == 9 && at + 1 < 9 && !b.startFault && b.fault.None?
      requires rows[at] == EMPTY_ROW && rows[at + 1] == EMPTY_ROW
      requires tracked ==> setup == SetupAfter(b.marks, OperationEstablishment)
      modifies this`rows
      ensures rows == old(rows)[at := WorkRow(b, tracked)][at + 1 := CleanupRow(b, tracked)]
      ensures exit == BuildExit(b, tracked)
    {
      if b.end == Attempt(WorkUnknown) || (tracked && setup != Complete) {
        return Stopped;
      }
      SetPhase(at, Row(if b.end.Built? then Success else Failure, WorkCategory(b.end), b.workMs, Some(b.work)));
      if b.cleanups == [] {
        SetPhase(at + 1, BLOCKED_ROW);
      } else if false in b.cleanups {
        SetPhase(at + 1, Row(Failure, Failed, b.cleanupMs, Some(b.cleanup)));
      } else {
        SetPhase(at + 1, Row(Success, Succeeded, b.cleanupMs, Some(b.cleanup)));
      }
      return if b.end.Built? && b.cleanups == [true] then Completed else Stopped;
    }

    /**
     * `_timed_rootfs_phase`. The row is poisoned exactly when a reading around the check failed; else it
     * holds the check's result, its time and its counters, and the call completes exactly on success.
     */
    method TimedPhase(at: nat, t: TimedSteps) returns (exit: Exit)
      requires |rows| == 9 && at < 9 && rows[at].status == NotReached
      modifies this`rows
      ensures rows == old(rows)[at := TimedRow(TimedOf(t))] && exit == TimedExit(TimedOf(t))
      ensures rows[at].status == Poisoned <==> !Witnessed(t)
      ensures Witnessed(t) ==>
                && rows[at].status == (if t.error.Some? then Failure else Success)
                && rows[at].ms == Max(0, t.end.value - t.start.value) / NS_PER_MS
                && rows[at].counters == Some(t.read.value)
      ensures exit == Completed <==> Witnessed(t) && t.error.None?
    {
      if !t.ticket {
        Poison(at);
        return Stopped;
      }
      var fault: Option<Interruption> := None;
      var elapsed: Reading<nat> := Raised(Stopped);
      if t.start.Raised? {
        fault := Some(t.start.exit);
      } else {
        elapsed := Elapsed(t.start.value, t.end);
        if elapsed.Raised? {
          fault := Some(elapsed.exit);
        }
      }
      var counters := CounterRead(t.read);
      if counters.Raised? && fault.None? {
        fault := Some(counters.exit);
      }
      if fault.Some? {
        Poison(at);
        return fault.value;
      }
      var failed := t.error.Some?;
      SetPhase(at, Row(if failed then Failure else Success, if failed then Failed else Succeeded,
                       elapsed.value / NS_PER_MS, Some(counters.value)));
      return if failed then Stopped else Completed;
    }

    /** The four timed checks, in order, stopping at the first that does not pass. */
    method Checks(y: Steps) returns (exit: Exit)
      requires |rows| == 9
      requires forall i :: 0 <= i < 9 && Later(i) ==> rows[i] == EMPTY_ROW
      modifies this`rows
      ensures |rows| == 9 && exit == ChecksExit(Summary(y))
      ensures forall i :: 0 <= i < 9 ==> rows[i] == if Later(i) then CheckRow(Summary(y), i) else old(rows)[i]
    {
      exit := TimedPhase(EQUALITY, y.equality);
      if exit == Completed {
        exit := TimedPhase(PIN, y.pin);
      }
      if exit == Completed {
        exit := TimedPhase(POST, y.post);
      }
      if exit == Completed {
        exit := TimedPhase(SETTLEMENT, y.settlement);
      }
      if exit != Completed {
        BlockPhases(AFTER_SECOND);
      }
    }

    /** `_rootfs_candidates` from the token step on. */
    method Candidates(y: Steps) returns (exit: Exit)
      requires rows == seq(9, i => EMPTY_ROW) && setup == OperationEstablishment
      modifies this`rows, this`setup
      ensures rows == CandidateRows(Summary(y)) && setup == CandidateSetup(Summary(y))
      ensures exit == CandidatesExit(Summary(y))
    {
      ghost var x := Summary(y);
      exit := CandidateBuild(FIRST, y.first, true);
      ghost var built := rows;
      if exit == Completed {
        exit := SecondHalf(y, x);
      } else {
        if setup == Complete {
          BlockPhases(AFTER_FIRST);
        }
        FirstStops(x, built, rows);
      }
    }

    /** The second build and the checks, once the first build is done. */
    method SecondHalf(y: Steps, ghost x: Script) returns (exit: Exit)
      requires x == Summary(y) && BuildExit(x.first, true) == Completed
      requires rows == OneBuilt(x.first)
      modifies this`rows, this`setup
      ensures rows == CandidateRows(x) && setup == old(setup) && exit == CandidatesExit(x)
    {
      exit := CandidateBuild(SECOND, y.second, false);
      ghost var built := rows;
      if exit == Completed {
        exit := Checks(y);
        AllChecked(x, built, rows);
      } else {
        BlockPhases(AFTER_SECOND);
        SecondStops(x, built, rows);
      }
    }

    /** The guarded body of `_observe`. */
    method Body(y: Steps) returns (exit: Exit)
      requires rows == seq(9, i => EMPTY_ROW) && setup == SetupNotReached && !rootfs && assets == 0
      requires cache == StageRow(StageNotReached, 0) && runtime == StageRow(StageNotReached, 0)
      modifies this
      ensures rows == FinalRows(Summary(y)) && setup == FinalSetup(Summary(y)) && exit == BodyExit(Summary(y))
      ensures rootfs == AssetsReached(Summary(y)) && assets == FinalAssets(Summary(y))
      ensures cache == BodyCache(Summary(y)) && runtime == BodyRuntime(Summary(y))
    {
      if y.host.Some? {
        return y.host.value;
      }
      cache, setup := StageRow(Attempting, 0), FixedInput;
      if y.fixedInput.Some? {
        return y.fixedInput.value;
      }
      setup := RootfsBootstrap;
      if y.cacheMs > MAX_PHASE_MS {
        cache := Lost;
        return Stopped;
      }
      cache := StageRow(StageSuccess, y.cacheMs);
      if y.bootstrap.Some? {
        return y.bootstrap.value;
      }
      setup := OperationEstablishment;
      if y.tokens.Some? {
        return y.tokens.value;
      }
      exit := Candidates(y);
      if exit != Completed {
        return;
      }
      rootfs, runtime := true, StageRow(Attempting, 0);
      if y.assets.Some? {
        return y.assets.value;
      }
      assets := 2;
      if y.runtimeMs > MAX_PHASE_MS {
        runtime := Lost;
        return Stopped;
      }
      runtime := StageRow(StageSuccess, y.runtimeMs);
    }

    /** `_observe`: the body and its two exception handlers. */
    method Observe(y: Steps) returns (exit: Exit)
      requires rows == seq(9, i => EMPTY_ROW) && setup == SetupNotReached && !rootfs && assets == 0
      requires cache == StageRow(StageNotReached, 0) && runtime == StageRow(StageNotReached, 0)
      modifies this
      ensures rows == FinalRows(Summary(y)) && setup == FinalSetup(Summary(y))
      ensures rootfs == AssetsReached(Summary(y)) && assets == FinalAssets(Summary(y))
      ensures cache == FinalCache(Summary(y)) && runtime == FinalRuntime(Summary(y))
      ensures exit == if BodyExit(Summary(y)) == Completed then Completed else Stopped
    {
      exit := Body(y);
      if exit == Stopped {
        var timely := true;
        if cache.StageRow? && cache.status == Attempting {
          timely := y.cacheMs <= MAX_PHASE_MS;
          if timely {
            cache := StageRow(StageFailure, y.cacheMs);
          }
        } else if cache.StageRow? && cache.status == StageNotReached {
          cache := StageRow(StageBlocked, 0);
        }
        if timely && runtime.StageRow? && runtime.status == Attempting {
          if y.runtimeMs <= MAX_PHASE_MS {
            runtime := StageRow(StageFailure, y.runtimeMs);
          }
        } else if timely && runtime.StageRow? && runtime.status == StageNotReached {
          runtime := StageRow(StageBlocked, 0);
        }
      } else if exit == Crashed {
        if cache.StageRow? && cache.status == StageSuccess && Prephase(setup)
           && runtime.StageRow? && runtime.status == StageNotReached {
          runtime := StageRow(StageBlocked, 0);
        }
        exit := Stopped;
      }
    }
  }

  // ---------------------------------------------------------------- the final record, by cases

  function ChecksExit(x: Script): Exit {
    if TimedExit(x.equality) != Completed then TimedExit(x.equality)
    else if TimedExit(x.pin) != Completed then TimedExit(x.pin)
    else if TimedExit(x.post) != Completed then TimedExit(x.post)
    else TimedExit(x.settlement)
  }

  function CheckRow(x: Script, i: nat): Row
    requires Later(i)
  {
    if i == EQUALITY then TimedRow(x.equality)
    else if TimedExit(x.equality) != Completed then BLOCKED_ROW
    else if i == PIN then TimedRow(x.pin)
    else if TimedExit(x.pin) != Completed then BLOCKED_ROW
    else if i == POST then TimedRow(x.post)
    else if TimedExit(x.post) != Completed then BLOCKED_ROW
    else TimedRow(x.settlement)
  }

  function CandidateSetup(x: Script): Setup {
    if x.first.startFault then OperationEstablishment else SetupAfter(x.first.marks, OperationEstablishment)
  }

  function CandidatesExit(x: Script): Exit {
    if BuildExit(x.first, true) != Completed then BuildExit(x.first, true)
    else if BuildExit(x.second, false) != Completed then BuildExit(x.second, false)
    else ChecksExit(x)
  }

  function CandidateRow(x: Script, i: nat): Row
    requires i < 9
  {
    if i == FIRST then WorkRow(x.first, true)
    else if i == FIRST + 1 then CleanupRow(x.first, true)
    else if i == RECOVERY then EMPTY_ROW
    else if BuildExit(x.first, true) != Completed then
      if CandidateSetup(x) == Complete then BLOCKED_ROW else EMPTY_ROW
    else if i == SECOND then WorkRow(x.second, false)
    else if i == SECOND + 1 then CleanupRow(x.second, false)
    else if BuildExit(x.second, false) != Completed then BLOCKED_ROW
    else CheckRow(x, i)
  }

  function CandidateRows(x: Script): (rows: seq<Row>)
    ensures |rows| == 9 && forall i :: 0 <= i < 9 ==> rows[i] == CandidateRow(x, i)
  {
    seq(9, i requires 0 <= i < 9 => CandidateRow(x, i))
  }

  /** The rows once both rows of the first build are set. */
  function OneBuilt(first: Build): (rows: seq<Row>)
    ensures |rows| == 9
  {
    seq(9, i => EMPTY_ROW)[FIRST := WorkRow(first, true)][FIRST + 1 := CleanupRow(first, true)]
  }

  function TwoBuilt(first: Build, second: Build): (rows: seq<Row>)
    ensures |rows| == 9
  {
    OneBuilt(first)[SECOND := WorkRow(second, false)][SECOND + 1 := CleanupRow(second, false)]
  }

  ghost predicate BlockedFrom(was: seq<Row>, rows: seq<Row>, names: seq<nat>) {
    |rows| == |was| && forall i :: 0 <= i < |rows| ==> rows[i] == if i in names then BlockRow(was[i]) else was[i]
  }

  lemma FirstStops(x: Script, was: seq<Row>, rows: seq<Row>)
    requires BuildExit(x.first, true) != Completed && was == OneBuilt(x.first)
    requires if CandidateSetup(x) == Complete then BlockedFrom(was, rows, AFTER_FIRST) else rows == was
    ensures rows == CandidateRows(x)
  {
    forall i | 0 <= i < 9 ensures rows[i] == CandidateRow(x, i) {
    }
  }

  lemma SecondStops(x: Script, was: seq<Row>, rows: seq<Row>)
    requires BuildExit(x.first, true) == Completed && BuildExit(x.second, false) != Completed
    requires was == TwoBuilt(x.first, x.second) && BlockedFrom(was, rows, AFTER_SECOND)
    ensures rows == CandidateRows(x)
  {
    forall i | 0 <= i < 9 ensures rows[i] == CandidateRow(x, i) {
    }
  }

  lemma AllChecked(x: Script, was: seq<Row>, rows: seq<Row>)
    requires BuildExit(x.first, true) == Completed && BuildExit(x.second, false) == Completed
    requires was == TwoBuilt(x.first, x.second)
    requires |rows| == 9 && forall i :: 0 <= i < 9 ==> rows[i] == if Later(i) then CheckRow(x, i) else was[i]
    ensures rows == CandidateRows(x)
  {
    forall i | 0 <= i < 9 ensures rows[i] == CandidateRow(x, i) {
    }
  }

  /** The run gets as far as its first build. */
  predicate BuildsReached(x: Script) {
    x.host.None? && x.fixedInput.None? && x.cacheMs <= MAX_PHASE_MS && x.bootstrap.None? && x.tokens.None?
  }

  predicate AssetsReached(x: Script) {
    BuildsReached(x) && CandidatesExit(x) == Completed
  }

  function FinalRows(x: Script): (rows: seq<Row>)
    ensures |rows| == 9
  {
    if BuildsReached(x) then CandidateRows(x) else seq(9, i => EMPTY_ROW)
  }

  function FinalSetup(x: Script): Setup {
    if x.host.Some? then SetupNotReached
    else if x.fixedInput.Some? then FixedInput
    else if x.cacheMs > MAX_PHASE_MS || x.bootstrap.Some? then RootfsBootstrap
    else if x.tokens.Some? then OperationEstablishment
    else CandidateSetup(x)
  }

  function BodyExit(x: Script): Exit {
    if x.host.Some? then x.host.value
    else if x.fixedInput.Some? then x.fixedInput.value
    else if x.cacheMs > MAX_PHASE_MS then Stopped
    else if x.bootstrap.Some? then x.bootstrap.value
    else if x.tokens.Some? then x.tokens.value
    else if CandidatesExit(x) != Completed then CandidatesExit(x)
    else if x.assets.Some? then x.assets.value
    else if x.runtimeMs > MAX_PHASE_MS then Stopped
    else Completed
  }

  function FinalAssets(x: Script): nat {
    if AssetsReached(x) && x.assets.None? then 2 else 0
  }

  function BodyCache(x: Script): StageRow {
    if x.host.Some? then StageRow(StageNotReached, 0)
    else if x.fixedInput.Some? then StageRow(Attempting, 0)
    else if x.cacheMs > MAX_PHASE_MS then Lost
    else StageRow(StageSuccess, x.cacheMs)
  }

  function BodyRuntime(x: Script): StageRow {
    if !AssetsReached(x) then StageRow(StageNotReached, 0)
    else if x.assets.Some? then StageRow(Attempting, 0)
    else if x.runtimeMs > MAX_PHASE_MS then Lost
    else StageRow(StageSuccess, x.runtimeMs)
  }

  function FinalCache(x: Script): StageRow {
    if BodyExit(x) != Stopped then BodyCache(x)
    else if x.host.Some? then StageRow(StageBlocked, 0)
    else if x.fixedInput.Some? && x.cacheMs <= MAX_PHASE_MS then StageRow(StageFailure, x.cacheMs)
    else BodyCache(x)
  }

  function FinalRuntime(x: Script): StageRow {
    match BodyExit(x)
    case Completed => BodyRuntime(x)
    case Stopped =>
      if x.host.None? && x.fixedInput.Some? && x.cacheMs > MAX_PHASE_MS then BodyRuntime(x)
      else if !AssetsReached(x) then StageRow(StageBlocked, 0)
      else if x.assets.Some? && x.runtimeMs <= MAX_PHASE_MS then StageRow(StageFailure, x.runtimeMs)
      else BodyRuntime(x)
    case Crashed =>
      if x.host.None? && x.fixedInput.None? && !AssetsReached(x) && Prephase(FinalSetup(x))
      then StageRow(StageBlocked, 0) else BodyRuntime(x)
  }
}
