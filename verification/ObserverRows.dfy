/** What the observer's record must hold, told from the readings: a row for each phase of a run. */
module ObserverRows {
  import opened Basics
  import opened Timing
  import opened PhaseA
  import opened Evidence

  const POISONED_ROW := Row(Poisoned, CounterFault, 0, None)
  const BLOCKED_ROW := Row(Blocked, PrerequisiteFailed, 0, None)

  // ---------------------------------------------------------------- a build

  /** The last setup mark is the materialisation. */
  predicate Materialises(b: BuildSteps) {
    b.marks != [] && b.marks[|b.marks| - 1] == Materialized
  }

  /** The evidence held, the outcome is a known one, and a tracked build got as far as materialising. */
  predicate Recorded(b: BuildSteps, tracked: bool) {
    b.ticket && BuildWitnessed(b) && b.end != Attempt(WorkUnknown) && (tracked ==> Materialises(b))
  }

  /** The outcome column of a build's work. */
  predicate OutcomeTold(end: BuildEnd, o: Outcome) {
    && (o == Succeeded <==> end == Built)
    && (o == Cancelled <==> end == Attempt(WorkCancelled))
    && (o == Deadline <==> end == Attempt(WorkDeadline))
    && (o == NotStarted <==> end == Attempt(WorkNotStarted))
    && (o == Postwork <==> end == Attempt(WorkSuccess))
    && (o == Failed <==> end == Attempt(WorkFailed) || end == Broken)
  }

  /** The work's row: the whole time less the spans of the cleanups, the counters less theirs. */
  ghost predicate WorkRecorded(b: BuildSteps, row: Row)
    requires BuildWitnessed(b)
  {
    && row.status == (if b.end == Built then Success else Failure) && OutcomeTold(b.end, row.outcome)
    && row.ms == (Max(0, b.finish.value - b.start.value) - SumOf(b.cleanups, Spans())) / 1_000_000
    && row.counters.Some? && |row.counters.value| == 6
    && forall i :: 0 <= i < 6 ==> row.counters.value[i] == b.read.value[i] - SumOf(b.cleanups, Counter(i))
  }

  /** The cleanup's row: the time and the counters of the cleanups themselves. */
  ghost predicate CleanupRecorded(b: BuildSteps, row: Row) {
    if b.cleanups == [] then row == BLOCKED_ROW
    else
      var failed := exists i :: 0 <= i < |b.cleanups| && b.cleanups[i].fails;
      && row.status == (if failed then Failure else Success) && row.outcome == (if failed then Failed else Succeeded)
      && row.ms == SumOf(b.cleanups, Times()) / 1_000_000
      && row.counters.Some? && |row.counters.value| == 6
      && forall i :: 0 <= i < 6 ==> row.counters.value[i] == SumOf(b.cleanups, Counter(i))
  }

  /** Both rows of a build, whatever became of its evidence. */
  ghost predicate BuildLeaves(b: BuildSteps, tracked: bool, work: Row, cleanup: Row) {
    if !b.ticket then work == POISONED_ROW && cleanup == EMPTY_ROW
    else if !BuildWitnessed(b) then work == POISONED_ROW && cleanup == POISONED_ROW
    else if !Recorded(b, tracked) then work == EMPTY_ROW && cleanup == EMPTY_ROW
    else WorkRecorded(b, work) && CleanupRecorded(b, cleanup)
  }

  /** A build that ends well: recorded, with a candidate, and one cleanup that succeeded. */
  predicate Completes(b: BuildSteps, tracked: bool) {
    Recorded(b, tracked) && b.end == Built && |b.cleanups| == 1 && !b.cleanups[0].fails
  }

  /** The setup a tracked build leaves behind. */
  function SetupLeft(b: BuildSteps, was: Setup): Setup {
    if !b.ticket || b.start.Raised? || b.marks == [] then was
    else if Materialises(b) then Complete else MaterializerDispatch
  }

  // ---------------------------------------------------------------- a timed check

  predicate Passes(t: TimedSteps) {
    Witnessed(t) && t.error.None?
  }

  predicate TimedLeaves(t: TimedSteps, row: Row) {
    if !Witnessed(t) then row == POISONED_ROW
    else
      && row.status == (if t.error.Some? then Failure else Success)
      && row.outcome == (if t.error.Some? then Failed else Succeeded)
      && row.ms == Max(0, t.end.value - t.start.value) / 1_000_000 && row.counters == Some(t.read.value)
  }

  // ---------------------------------------------------------------- what one cleanup costs

  /** A cleanup is charged exactly if every reading came, within bounds, and it took no longer than its span. */
  lemma CostExactly(k: CleanupSteps)
    ensures CostOf(k).Got? <==>
              && k.ticket && k.spanStart.Got? && k.start.Got? && k.end.Got? && k.spanEnd.Got? && k.read.Got?
              && ValidCounters(k.read.value)
              && k.end.value - k.start.value <= 5_400_000_000_000
              && k.spanEnd.value - k.spanStart.value <= 5_400_000_000_000
              && Max(0, k.end.value - k.start.value) <= Max(0, k.spanEnd.value - k.spanStart.value)
    ensures CostOf(k).Got? ==>
              && CostOf(k).value.elapsed == Max(0, k.end.value - k.start.value)
              && CostOf(k).value.span == Max(0, k.spanEnd.value - k.spanStart.value)
              && CostOf(k).value.counters == k.read.value
  {
  }
}
