/** The whole record of an observer run, row by row, told from the readings of the run. */
module ObserverExact {
  import opened Basics
  import opened Timing
  import opened PhaseA
  import opened Evidence
  import opened ObserverRows
  import opened Observer

  // ---------------------------------------------------------------- the phase rows

  /** The run gets as far as its first build. */
  predicate GetsToBuilds(y: Steps) {
    y.host.None? && y.fixedInput.None? && y.cacheMs <= 5_400_000 && y.bootstrap.None? && y.tokens.None?
  }

  /** The checks in the order in which they are made, with their rows. */
  function CheckAt(y: Steps, n: nat): TimedSteps
    requires n < 4
  {
    if n == 0 then y.equality else if n == 1 then y.pin else if n == 2 then y.post else y.settlement
  }

  /** A check leaves its own row if all checks before it passed, and is blocked otherwise. */
  predicate ChecksLeave(y: Steps, rows: seq<Row>)
    requires |rows| == 9
  {
    forall n :: 0 <= n < 4 ==>
      if forall m :: 0 <= m < n ==> Passes(CheckAt(y, m)) then TimedLeaves(CheckAt(y, n), rows[5 + n])
      else rows[5 + n] == BLOCKED_ROW
  }

  /**
   * The rows of a run: of both builds, then of the checks. What a stopped build keeps from being
   * reached is blocked, or left untouched if the first build never materialised.
   */
  ghost predicate RowsLeft(y: Steps, rows: seq<Row>) {
    && |rows| == 9
    && rows[4] == EMPTY_ROW
    && if !GetsToBuilds(y) then forall i :: 0 <= i < 9 ==> rows[i] == EMPTY_ROW
       else
         && BuildLeaves(y.first, true, rows[0], rows[1])
         && if !Completes(y.first, true) then
              forall i :: 2 <= i < 9 && i != 4 ==>
                rows[i] == if SetupLeft(y.first, OperationEstablishment) == Complete then BLOCKED_ROW else EMPTY_ROW
            else
              && BuildLeaves(y.second, false, rows[2], rows[3])
              && if !Completes(y.second, false) then forall i :: 5 <= i < 9 ==> rows[i] == BLOCKED_ROW
                 else ChecksLeave(y, rows)
  }

  lemma CheckTold(t: TimedSteps)
    ensures TimedLeaves(t, TimedRow(TimedOf(t))) && (TimedExit(TimedOf(t)) == Completed <==> Passes(t))
  {
  }

  /** The summary of a run tells of its builds and checks what the readings tell. */
  ghost predicate Told(x: Script, y: Steps) {
    && x.host == y.host && x.fixedInput == y.fixedInput && x.bootstrap == y.bootstrap && x.tokens == y.tokens
    && x.assets == y.assets && x.cacheMs == y.cacheMs && x.runtimeMs == y.runtimeMs
    && BuildLeaves(y.first, true, WorkRow(x.first, true), CleanupRow(x.first, true))
    && BuildLeaves(y.second, false, WorkRow(x.second, false), CleanupRow(x.second, false))
    && (BuildExit(x.first, true) == Completed <==> Completes(y.first, true))
    && (BuildExit(x.second, false) == Completed <==> Completes(y.second, false))
    && CandidateSetup(x) == SetupLeft(y.first, OperationEstablishment)
    && (forall n :: 0 <= n < 4 ==> CheckedBy(x, y, n))
  }

  function TimedAt(x: Script, n: nat): Timed
    requires n < 4
  {
    if n == 0 then x.equality else if n == 1 then x.pin else if n == 2 then x.post else x.settlement
  }

  predicate CheckedBy(x: Script, y: Steps, n: nat)
    requires n < 4
  {
    && TimedLeaves(CheckAt(y, n), TimedRow(TimedAt(x, n)))
    && (TimedExit(TimedAt(x, n)) == Completed <==> Passes(CheckAt(y, n)))
  }

  lemma SummaryTold(y: Steps)
    ensures Told(Summary(y), y)
  {
    RowsTold(y.first, true);
    RowsTold(y.second, false);
    forall n | 0 <= n < 4 ensures CheckedBy(Summary(y), y, n) {
      CheckTold(CheckAt(y, n));
    }
  }

  lemma ChecksTold(x: Script, y: Steps)
    requires Told(x, y)
    ensures forall n :: 0 <= n < 4 ==>
              if forall m :: 0 <= m < n ==> Passes(CheckAt(y, m)) then TimedLeaves(CheckAt(y, n), CheckRow(x, 5 + n))
              else CheckRow(x, 5 + n) == BLOCKED_ROW
    ensures ChecksExit(x) == Completed <==> forall m :: 0 <= m < 4 ==> Passes(CheckAt(y, m))
  {
    assert CheckedBy(x, y, 0) && CheckedBy(x, y, 1) && CheckedBy(x, y, 2) && CheckedBy(x, y, 3);
  }

  lemma RowsFrom(x: Script, y: Steps)
    requires Told(x, y)
    ensures RowsLeft(y, FinalRows(x))
  {
    ChecksTold(x, y);
    var rows := FinalRows(x);
    if GetsToBuilds(y) {
      assert rows == CandidateRows(x);
      assert rows[0] == WorkRow(x.first, true) && rows[1] == CleanupRow(x.first, true);
    }
  }

  /** Every row of the final record is what the readings of its own phase tell. */
  lemma RowsExactly(y: Steps)
    ensures RowsLeft(y, FinalRows(Summary(y)))
  {
    SummaryTold(y);
    RowsFrom(Summary(y), y);
  }

  // ---------------------------------------------------------------- the rest of the record

  /** Both builds and all checks end well. */
  predicate GetsToAssets(y: Steps) {
    && GetsToBuilds(y) && Completes(y.first, true) && Completes(y.second, false)
    && forall m :: 0 <= m < 4 ==> Passes(CheckAt(y, m))
  }

  /** How far the setup of the first build was seen to get. */
  predicate SetupTold(y: Steps, setup: Setup) {
    && (y.host.Some? ==> setup == SetupNotReached)
    && (y.host.None? && y.fixedInput.Some? ==> setup == FixedInput)
    && (y.host.None? && y.fixedInput.None? && (y.cacheMs > 5_400_000 || y.bootstrap.Some?) ==> setup == RootfsBootstrap)
    && (y.host.None? && y.fixedInput.None? && y.cacheMs <= 5_400_000 && y.bootstrap.None? && y.tokens.Some? ==>
          setup == OperationEstablishment)
    && (GetsToBuilds(y) ==> setup == SetupLeft(y.first, OperationEstablishment))
  }

  /** The cache stage: its time once it is done, a failure only if the observer's own error stopped it. */
  predicate CacheTold(y: Steps, cache: StageRow) {
    && (y.host == Some(Stopped) ==> cache == StageRow(StageBlocked, 0))
    && (y.host == Some(Crashed) ==> cache == StageRow(StageNotReached, 0))
    && (y.host.None? && y.fixedInput.Some? ==>
          cache == if y.fixedInput == Some(Stopped) && y.cacheMs <= 5_400_000 then StageRow(StageFailure, y.cacheMs)
                   else StageRow(Attempting, 0))
    && (y.host.None? && y.fixedInput.None? ==>
          cache == if y.cacheMs <= 5_400_000 then StageRow(StageSuccess, y.cacheMs) else Lost)
  }

  /** The runtime stage, once it is reached. */
  predicate RuntimeTold(y: Steps, runtime: StageRow) {
    GetsToAssets(y) ==>
      && (y.assets.None? ==>
            runtime == if y.runtimeMs <= 5_400_000 then StageRow(StageSuccess, y.runtimeMs) else Lost)
      && (y.assets.Some? ==>
            runtime == if y.assets == Some(Stopped) && y.runtimeMs <= 5_400_000
                       then StageRow(StageFailure, y.runtimeMs) else StageRow(Attempting, 0))
  }

  lemma StagesFrom(x: Script, y: Steps)
    requires Told(x, y)
    ensures AssetsReached(x) <==> GetsToAssets(y)
    ensures SetupTold(y, FinalSetup(x)) && CacheTold(y, FinalCache(x)) && RuntimeTold(y, FinalRuntime(x))
    ensures !GetsToAssets(y) ==> FinalRuntime(x) in {StageRow(StageNotReached, 0), StageRow(StageBlocked, 0)}
    ensures FinalAssets(x) == if GetsToAssets(y) && y.assets.None? then 2 else 0
    ensures BodyExit(x) == Completed <==> GetsToAssets(y) && y.assets.None? && y.runtimeMs <= 5_400_000
  {
    ChecksTold(x, y);
  }

  /** The stages, the setup and the assets of the final record. */
  lemma StagesExactly(y: Steps)
    ensures AssetsReached(Summary(y)) <==> GetsToAssets(y)
    ensures SetupTold(y, FinalSetup(Summary(y)))
    ensures CacheTold(y, FinalCache(Summary(y))) && RuntimeTold(y, FinalRuntime(Summary(y)))
    ensures !GetsToAssets(y) ==>
              FinalRuntime(Summary(y)) in {StageRow(StageNotReached, 0), StageRow(StageBlocked, 0)}
    ensures FinalAssets(Summary(y)) == if GetsToAssets(y) && y.assets.None? then 2 else 0
    ensures BodyExit(Summary(y)) == Completed <==> GetsToAssets(y) && y.assets.None? && y.runtimeMs <= 5_400_000
  {
    SummaryTold(y);
    StagesFrom(Summary(y), y);
  }
}
