/** Every observer run against the separately written validator. */
module ObserverClaims {
  import opened Basics
  import opened Timing
  import opened PhaseA
  import opened Observer

  // ---------------------------------------------------------------- the enumerated patterns

  predicate AllFrom(v: seq<Status>, i: nat, s: Status) {
    forall k :: i <= k < |v| ==> v[k] == s
  }

  predicate CleanupStop(s: Status) {
    s == Blocked || s == Failure
  }

  /** After the builds: successes, then nothing more, or one failure with the rest blocked. */
  predicate CheckTail(v: seq<Status>, i: nat)
    requires |v| == 8 && i <= 8
    decreases 8 - i
  {
    i == 8 || AllFrom(v, i, NotReached) || (v[i] == Failure && AllFrom(v, i + 1, Blocked))
    || (v[i] == Success && CheckTail(v, i + 1))
  }

  /** One build at `i`: it stopped the run, or succeeded and the rest follows. */
  predicate OrderlyStop(v: seq<Status>)
    requires |v| == 8
  {
    || AllFrom(v, 0, NotReached)
    || (v[0] == Failure && (v[1] == Success || CleanupStop(v[1])) && AllFrom(v, 2, Blocked))
    || (v[0] == Success && CleanupStop(v[1]) && AllFrom(v, 2, Blocked))
    || (v[0] == Success && v[1] == Success && AllFrom(v, 2, NotReached))
    || (v[0] == Success && v[1] == Success && v[2] == Failure && (v[3] == Success || CleanupStop(v[3]))
        && AllFrom(v, 4, Blocked))
    || (v[0] == Success && v[1] == Success && v[2] == Success && CleanupStop(v[3]) && AllFrom(v, 4, Blocked))
    || (v[0] == Success && v[1] == Success && v[2] == Success && v[3] == Success && CheckTail(v, 4))
  }

  lemma OrderlyIsAllowed(v: seq<Status>)
    requires |v| == 8 && OrderlyStop(v)
    ensures v in AllowedStatuses()
  {
    if AllFrom(v, 0, NotReached) {
      assert v == Repeat(NotReached, 8);
    } else if v[0] == Failure {
      assert v == [Failure, v[1]] + Repeat(Blocked, 6);
    } else if CleanupStop(v[1]) {
      assert v == [Success, v[1]] + Repeat(Blocked, 6);
    } else if AllFrom(v, 2, NotReached) {
      assert v == Repeat(Success, 2) + Repeat(NotReached, 6);
    } else if v[2] == Failure {
      assert v == [Success, Success, Failure, v[3]] + Repeat(Blocked, 4);
    } else if CleanupStop(v[3]) {
      assert v == [Success, Success, Success, v[3]] + Repeat(Blocked, 4);
    } else {
      CheckTailIsAllowed(v, 4);
    }
  }

  lemma {:induction false} CheckTailIsAllowed(v: seq<Status>, i: nat)
    requires |v| == 8 && 4 <= i <= 8 && CheckTail(v, i)
    requires forall k :: 0 <= k < i ==> v[k] == Success
    ensures v in AllowedStatuses()
    decreases 8 - i
  {
    if i == 8 {
      assert v == Repeat(Success, 8);
    } else if AllFrom(v, i, NotReached) {
      assert v == Repeat(Success, i) + Repeat(NotReached, 8 - i);
    } else if v[i] == Failure {
      assert v == Repeat(Success, i) + [Failure] + Repeat(Blocked, 7 - i);
    } else {
      CheckTailIsAllowed(v, i + 1);
    }
  }

  lemma TailOfSuccesses(v: seq<Status>, n: nat)
    requires |v| == 8 && 4 <= n <= 8
    requires forall k :: 0 <= k < n ==> v[k] == Success
    requires AllFrom(v, n, NotReached) || (n < 8 && v[n] == Failure && AllFrom(v, n + 1, Blocked))
    ensures CheckTail(v, 4)
  {
    var i := n;
    while i > 4
      invariant 4 <= i <= n && CheckTail(v, i)
    {
      i := i - 1;
    }
  }

  lemma UnstoppedIsOrderly(v: seq<Status>)
    requires |v| == 8 && v in Unstopped()
    ensures OrderlyStop(v)
  {
    if n :| n in {4, 5, 6, 7} && v == Repeat(Success, n) + Repeat(NotReached, 8 - n) {
      TailOfSuccesses(v, n);
    } else if v == Repeat(Success, 8) {
      TailOfSuccesses(v, 8);
    }
  }

  lemma FirstStoppedIsOrderly(v: seq<Status>)
    requires |v| == 8 && v in FirstStopped()
    ensures OrderlyStop(v)
  {
  }

  lemma SecondStoppedIsOrderly(v: seq<Status>)
    requires |v| == 8 && v in SecondStopped()
    ensures OrderlyStop(v)
  {
  }

  lemma CheckStoppedIsOrderly(v: seq<Status>)
    requires |v| == 8 && v in CheckStopped()
    ensures OrderlyStop(v)
  {
    var n :| n in {4, 5, 6, 7} && v == Repeat(Success, n) + [Failure] + Repeat(Blocked, 7 - n);
    TailOfSuccesses(v, n);
  }

  lemma AllowedIsOrderly(v: seq<Status>)
    requires |v| == 8 && v in AllowedStatuses()
    ensures OrderlyStop(v)
  {
    if v in Unstopped() {
      UnstoppedIsOrderly(v);
    } else if v in FirstStopped() {
      FirstStoppedIsOrderly(v);
    } else if v in SecondStopped() {
      SecondStoppedIsOrderly(v);
    } else {
      CheckStoppedIsOrderly(v);
    }
  }

  // ---------------------------------------------------------------- when the record is orderly

  /**
   * What a build must avoid for its rows to fit a pattern: a clock or counter fault, an unknown work
   * outcome, and success after two or more outermost cleanups that all succeeded.
   */
  predicate BuildOrderly(b: Build, tracked: bool) {
    && !b.startFault && b.fault.None?
    && (Unmaterialized(b, tracked)
        || (b.end != Attempt(WorkUnknown) && !(b.end.Built? && |b.cleanups| >= 2 && false !in b.cleanups)))
  }

  predicate ChecksOrderly(x: Script) {
    && !x.equality.Spoiled?
    && (x.equality.Passed? ==> !x.pin.Spoiled? && (x.pin.Passed? ==>
          !x.post.Spoiled? && (x.post.Passed? ==> !x.settlement.Spoiled?)))
  }

  predicate PhasesOrderly(x: Script) {
    BuildsReached(x) ==>
      && BuildOrderly(x.first, true)
      && (BuildExit(x.first, true) == Completed ==>
            && BuildOrderly(x.second, false)
            && (BuildExit(x.second, false) == Completed ==> ChecksOrderly(x)))
  }

  /** Stages must not be left attempting by a foreign exception, nor take longer than the report allows. */
  predicate StagesOrderly(x: Script) {
    x.host.None? ==>
      && x.cacheMs <= MAX_STAGE_MS && x.fixedInput != Some(Crashed)
      && (x.fixedInput.None? && AssetsReached(x) ==> x.runtimeMs <= MAX_STAGE_MS && x.assets != Some(Crashed))
  }

  lemma CleanupCases(cleanups: seq<bool>)
    ensures cleanups == [true] <==> |cleanups| == 1 && false !in cleanups
  {
    if |cleanups| == 1 {
      if cleanups[0] {
        assert cleanups == [true];
      } else {
        assert cleanups == [false];
      }
    }
  }

  lemma FirstBuildVector(x: Script)
    requires ValidScript(x) && BuildsReached(x) && BuildExit(x.first, true) != Completed
    ensures OrderlyStop(Observed(FinalRows(x))) <==> BuildOrderly(x.first, true)
  {
    var v := Observed(FinalRows(x));
    assert v[0] == WorkStatus(x.first, true) && v[1] == CleanupStatus(x.first, true);
    CleanupCases(x.first.cleanups);
    if CandidateSetup(x) == Complete {
      assert AllFrom(v, 2, Blocked) && v[2] == Blocked;
    } else {
      assert AllFrom(v, 2, NotReached) && v[2] == NotReached;
    }
  }

  lemma SecondBuildVector(x: Script)
    requires ValidScript(x) && BuildsReached(x) && BuildExit(x.first, true) == Completed
    requires BuildExit(x.second, false) != Completed
    ensures OrderlyStop(Observed(FinalRows(x))) <==> BuildOrderly(x.second, false)
  {
    var v := Observed(FinalRows(x));
    CleanupCases(x.first.cleanups);
    assert v[0] == Success && v[1] == Success;
    assert v[2] == WorkStatus(x.second, false) && v[3] == CleanupStatus(x.second, false);
    assert AllFrom(v, 4, Blocked) && v[4] == Blocked;
    CleanupCases(x.second.cleanups);
  }

  lemma ChecksVector(x: Script)
    requires ValidScript(x) && BuildsReached(x) && BuildExit(x.first, true) == Completed
    requires BuildExit(x.second, false) == Completed
    ensures OrderlyStop(Observed(FinalRows(x))) <==> ChecksOrderly(x)
  {
    var v := Observed(FinalRows(x));
    CleanupCases(x.first.cleanups);
    CleanupCases(x.second.cleanups);
    assert v[..4] == [Success, Success, Success, Success];
    assert v[4] == TimedRow(x.equality).status;
    assert v[5] == CheckRow(x, PIN).status && v[6] == CheckRow(x, POST).status;
    assert v[7] == CheckRow(x, SETTLEMENT).status;
    assert CheckTail(v, 4) <==> ChecksOrderly(x);
  }

  /** The final status vector is one of the enumerated patterns exactly on the orderly runs. */
  lemma VectorAllowed(x: Script)
    requires ValidScript(x)
    ensures Observed(FinalRows(x)) in AllowedStatuses() <==> PhasesOrderly(x)
    ensures FinalRows(x)[SETTLEMENT].status == Success <==> AssetsReached(x)
  {
    var v := Observed(FinalRows(x));
    if v in AllowedStatuses() {
      AllowedIsOrderly(v);
    }
    if OrderlyStop(v) {
      OrderlyIsAllowed(v);
    }
    if BuildsReached(x) {
      assert FinalRows(x)[SETTLEMENT] == CandidateRow(x, SETTLEMENT);
      if BuildExit(x.first, true) != Completed {
        FirstBuildVector(x);
      } else if BuildExit(x.second, false) != Completed {
        SecondBuildVector(x);
      } else {
        ChecksVector(x);
      }
    } else {
      assert AllFrom(v, 0, NotReached);
    }
  }

  lemma RowsValid(x: Script)
    requires ValidScript(x) && PhasesOrderly(x)
    ensures forall i :: 0 <= i < 9 ==> RowValid(FinalRows(x)[i])
  {
    if BuildsReached(x) {
      forall i | 0 <= i < 9
        ensures RowValid(FinalRows(x)[i])
      {
        assert FinalRows(x)[i] == CandidateRow(x, i);
      }
    }
  }

  /** The validator accepts the record's phases exactly on the orderly runs. */
  lemma PhaseGraphExact(x: Script)
    requires ValidScript(x)
    ensures PhaseGraphValid(FinalRows(x), AssetsReached(x)) <==> PhasesOrderly(x)
  {
    VectorAllowed(x);
    if PhasesOrderly(x) {
      RowsValid(x);
      assert FinalRows(x)[RECOVERY] == EMPTY_ROW;
      if AssetsReached(x) {
        CleanupCases(x.first.cleanups);
        CleanupCases(x.second.cleanups);
        assert Observed(FinalRows(x)) == Repeat(Success, 8);
      }
    }
  }

  lemma StagesExact(x: Script)
    requires ValidScript(x)
    ensures StageRowValid(FinalCache(x)) && StageRowValid(FinalRuntime(x)) <==> StagesOrderly(x)
  {
  }

  /**
   * An orderly run that stopped inside its builds or checks shows a blocked or failed row, unless it never
   * materialised.
   */
  lemma StopShows(x: Script)
    requires ValidScript(x) && PhasesOrderly(x) && BuildsReached(x) && CandidatesExit(x) != Completed
    ensures Prephase(FinalSetup(x))
         || exists i :: 0 <= i < 9 && (FinalRows(x)[i].status == Failure || FinalRows(x)[i].status == Blocked)
  {
    if BuildExit(x.first, true) != Completed {
      if CandidateSetup(x) == Complete {
        assert FinalRows(x)[SECOND] == CandidateRow(x, SECOND) && FinalRows(x)[SECOND].status == Blocked;
      }
    } else if BuildExit(x.second, false) != Completed {
      assert FinalRows(x)[EQUALITY] == CandidateRow(x, EQUALITY) && FinalRows(x)[EQUALITY].status == Blocked;
    } else {
      assert FinalRows(x)[EQUALITY] == CheckRow(x, EQUALITY) && FinalRows(x)[PIN] == CheckRow(x, PIN);
      assert FinalRows(x)[POST] == CheckRow(x, POST) && FinalRows(x)[SETTLEMENT] == CheckRow(x, SETTLEMENT);
    }
  }

  /** The setup and the runtime stage fit the rows of an orderly run. */
  lemma BoundariesFit(x: Script)
    requires ValidScript(x) && PhasesOrderly(x) && StagesOrderly(x)
    ensures |FinalRows(x)| == 9 && FinalCache(x).StageRow? && FinalRuntime(x).StageRow?
    ensures SetupBoundary(FinalSetup(x), FinalCache(x).status, FinalRows(x)[FIRST].status)
    ensures FinalRuntime(x).status in AllowedRuntime(FinalRows(x), FinalCache(x).status, FinalSetup(x))
  {
    StagesExact(x);
    VectorAllowed(x);
    assert BuildsReached(x) ==> FinalRows(x)[FIRST] == WorkRow(x.first, true);
    if BuildsReached(x) && CandidatesExit(x) != Completed {
      StopShows(x);
    }
  }

  // ---------------------------------------------------------------- with the recovery attempt

  /** A row `_render` may find at the place of the recovery attempt. */
  predicate RecoveryFits(r: Row) {
    RowValid(r) && r.status != Blocked
  }

  /** The recovery row does not matter to the phase graph. */
  lemma RecoveryApart(rows: seq<Row>, rootfs: bool, r: Row)
    requires |rows| == 9 && RecoveryFits(rows[RECOVERY]) && RecoveryFits(r)
    ensures Observed(rows[RECOVERY := r]) == Observed(rows)
    ensures PhaseGraphValid(rows[RECOVERY := r], rootfs) <==> PhaseGraphValid(rows, rootfs)
  {
    var merged := rows[RECOVERY := r];
    assert Observed(merged) == Observed(rows);
    assert forall i :: 0 <= i < 9 && i != RECOVERY ==> merged[i] == rows[i];
    if PhaseGraphValid(rows, rootfs) {
      assert forall i :: 0 <= i < 9 ==> RowValid(merged[i]);
    }
    if PhaseGraphValid(merged, rootfs) {
      forall i | 0 <= i < 9 ensures RowValid(rows[i]) {
        assert RowValid(merged[i]);
      }
    }
  }

  /** Some phase failed or was blocked. */
  predicate Hindered(rows: seq<Row>) {
    exists i :: 0 <= i < |rows| && (rows[i].status == Failure || rows[i].status == Blocked)
  }

  lemma HinderedMerged(rows: seq<Row>, r: Row)
    requires |rows| == 9 && rows[RECOVERY] == EMPTY_ROW && r.status != Blocked
    ensures Hindered(rows[RECOVERY := r]) <==> Hindered(rows) || r.status == Failure
  {
    var merged := rows[RECOVERY := r];
    if Hindered(rows) {
      var i :| 0 <= i < |rows| && (rows[i].status == Failure || rows[i].status == Blocked);
      assert merged[i] == rows[i];
    }
    if r.status == Failure {
      assert merged[RECOVERY].status == Failure;
    }
  }

  /** The runtime stage fits the rows with a failed recovery too, except after a foreign exception at the very start. */
  lemma RuntimeFits(x: Script, r: Row)
    requires ValidScript(x) && PhasesOrderly(x) && StagesOrderly(x) && RecoveryFits(r)
    ensures |FinalRows(x)| == 9 && FinalCache(x).StageRow? && FinalRuntime(x).StageRow?
    ensures FinalRuntime(x).status in AllowedRuntime(FinalRows(x)[RECOVERY := r], FinalCache(x).status, FinalSetup(x))
       <==> (r.status == Failure ==> x.host != Some(Crashed))
  {
    BoundariesFit(x);
    NoRecovery(x);
    var rows := FinalRows(x);
    HinderedMerged(rows, r);
    VectorAllowed(x);
    assert rows[RECOVERY := r][SETTLEMENT] == rows[SETTLEMENT];
    if x.host == Some(Crashed) {
      assert !Hindered(rows);
    }
  }

  lemma NoRecovery(x: Script)
    ensures FinalRows(x)[RECOVERY] == EMPTY_ROW
  {
    if BuildsReached(x) {
      assert FinalRows(x)[RECOVERY] == CandidateRow(x, RECOVERY);
    }
  }

  /**
   * Agreement of the two programs: for every run and every recovery row merged into its record, the
   * validator accepts the record exactly when the run kept clear of the listed faults, and the
   * recovery did not fail after a foreign exception before the first stage.
   */
  lemma ReportAgreement(x: Script, r: Row)
    requires ValidScript(x) && RecoveryFits(r)
    ensures ReportAccepts(FinalRows(x)[RECOVERY := r], AssetsReached(x), FinalSetup(x), FinalCache(x), FinalRuntime(x),
                          FinalAssets(x))
       <==> PhasesOrderly(x) && StagesOrderly(x) && (r.status == Failure ==> x.host != Some(Crashed))
  {
    NoRecovery(x);
    RecoveryApart(FinalRows(x), AssetsReached(x), r);
    PhaseGraphExact(x);
    StagesExact(x);
    if PhasesOrderly(x) && StagesOrderly(x) {
      BoundariesFit(x);
      RuntimeFits(x, r);
      assert FinalRows(x)[RECOVERY := r][FIRST] == FinalRows(x)[FIRST];
    }
  }

  /** The input that breaks agreement at the recovery: an orderly run, accepted until a failed recovery is merged. */
  lemma FailedRecoveryRefused(x: Script, r: Row)
    requires ValidScript(x) && x.host == Some(Crashed) && RecoveryFits(r) && r.status == Failure
    ensures PhasesOrderly(x) && StagesOrderly(x)
    ensures ReportAccepts(FinalRows(x), AssetsReached(x), FinalSetup(x), FinalCache(x), FinalRuntime(x), FinalAssets(x))
    ensures !ReportAccepts(FinalRows(x)[RECOVERY := r], AssetsReached(x), FinalSetup(x), FinalCache(x), FinalRuntime(x),
                           FinalAssets(x))
  {
    ReportAgreement(x, r);
    NoRecovery(x);
    ReportAgreement(x, EMPTY_ROW);
    assert FinalRows(x)[RECOVERY := EMPTY_ROW] == FinalRows(x);
  }

  // ---------------------------------------------------------------- the rendered report

  /** A recovery attempt that is merged as a failure. */
  predicate FailedAttempt(attempt: Option<Recovery>) {
    attempt.Some? && RowValid(RecoveryRow(attempt.value)) && attempt.value.outcome != RecoverySuccess
  }

  function MergedRow(attempt: Option<Recovery>): (r: Row)
    ensures RecoveryFits(r) && (r.status == Failure <==> FailedAttempt(attempt))
  {
    if attempt.Some? && RowValid(RecoveryRow(attempt.value)) then RecoveryRow(attempt.value) else EMPTY_ROW
  }

  lemma MergedIs(rows: seq<Row>, rootfs: bool, attempt: Option<Recovery>)
    requires PhaseGraphValid(rows, rootfs) && rows[RECOVERY] == EMPTY_ROW
    ensures Merged(rows, rootfs, attempt) == rows[RECOVERY := MergedRow(attempt)]
  {
    RecoveryApart(rows, rootfs, MergedRow(attempt));
    assert rows[RECOVERY := EMPTY_ROW] == rows;
    if attempt.Some? && !RowValid(RecoveryRow(attempt.value)) {
      assert !RowValid(rows[RECOVERY := RecoveryRow(attempt.value)][RECOVERY]);
    }
  }

  /** The empty record, as rendered in place of one that does not validate. */
  lemma EmptyGraph()
    ensures PhaseGraphValid(seq(9, i => EMPTY_ROW), false)
  {
    var rows := seq(9, i => EMPTY_ROW);
    assert Observed(rows) == Repeat(NotReached, 8);
  }

  lemma EmptyFits(x: Script, r: Row)
    requires ValidScript(x) && !PhasesOrderly(x) && StagesOrderly(x) && RecoveryFits(r)
    ensures ReportAccepts(seq(9, i => EMPTY_ROW)[RECOVERY := r], false, FinalSetup(x), FinalCache(x), FinalRuntime(x),
                          FinalAssets(x))
       <==> CandidateSetup(x) != Complete
  {
    var empty := seq(9, i => EMPTY_ROW);
    EmptyGraph();
    RecoveryApart(empty, false, r);
    StagesExact(x);
    assert empty[RECOVERY := r][FIRST] == EMPTY_ROW && empty[RECOVERY := r][SETTLEMENT] == EMPTY_ROW;
    assert BuildsReached(x);
  }

  /**
   * What `_render` makes of every run: its own validator accepts exactly the orderly runs, under the
   * same condition on the recovery, and besides them those disorderly runs that never got as far as
   * materialising, whose phases it replaces by empty ones.
   */
  lemma RenderAgreement(x: Script, attempt: Option<Recovery>)
    requires ValidScript(x)
    ensures RenderAccepts(FinalRows(x), AssetsReached(x), FinalSetup(x), FinalCache(x), FinalRuntime(x), FinalAssets(x),
                          attempt)
       <==> StagesOrderly(x)
            && if PhasesOrderly(x) then FailedAttempt(attempt) ==> x.host != Some(Crashed)
               else CandidateSetup(x) != Complete
  {
    PhaseGraphExact(x);
    StagesExact(x);
    NoRecovery(x);
    if PhasesOrderly(x) {
      MergedIs(FinalRows(x), AssetsReached(x), attempt);
      ReportAgreement(x, MergedRow(attempt));
    } else {
      EmptyGraph();
      MergedIs(seq(9, i => EMPTY_ROW), false, attempt);
      if StagesOrderly(x) {
        EmptyFits(x, MergedRow(attempt));
      }
    }
  }
}
