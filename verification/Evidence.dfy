/**
 * What the observer measures around a build and around a timed check: two clocks, nested spans and
 * counters, any of which may raise. Evidence is kept only if every reading came and all of it adds up.
 */
module Evidence {
  import opened Basics
  import opened Timing
  import opened PhaseA

  // ---------------------------------------------------------------- environment

  /** One timed check: whether its counters started, the clock, the check's own exception, the clock, the counters. */
  datatype TimedSteps = TimedSteps(ticket: bool, start: Reading<int>, error: Option<Interruption>, end: Reading<int>,
                                   read: Reading<Counters>)

  /** One outermost cleanup: the clock around it, its own counters and clock, and whether it raised. */
  datatype CleanupSteps = CleanupSteps(spanStart: Reading<int>, ticket: bool, start: Reading<int>, fails: bool,
                                       end: Reading<int>, read: Reading<Counters>, spanEnd: Reading<int>)

  /** One build: its counters, the clock, what happens inside, the clock and the counters at its end. */
  datatype BuildSteps = BuildSteps(ticket: bool, start: Reading<int>, marks: seq<Mark>, cleanups: seq<CleanupSteps>,
                                   end: BuildEnd, finish: Reading<int>, read: Reading<Counters>)

  // ---------------------------------------------------------------- a timed check

  /** What a timed check amounts to; the first reading that raised is the exception seen outside. */
  function TimedOf(t: TimedSteps): Timed {
    if !t.ticket then Spoiled(Stopped)
    else if t.start.Raised? then Spoiled(t.start.exit)
    else if Elapsed(t.start.value, t.end).Raised? then Spoiled(Elapsed(t.start.value, t.end).exit)
    else if CounterRead(t.read).Raised? then Spoiled(CounterRead(t.read).exit)
    else
      var ms, counters := Elapsed(t.start.value, t.end).value / NS_PER_MS, CounterRead(t.read).value;
      if t.error.Some? then Missed(ms, counters) else Passed(ms, counters)
  }

  /** Every reading around the check came, and its time is within bounds. */
  predicate Witnessed(t: TimedSteps) {
    && t.ticket && t.start.Got? && t.end.Got? && t.end.value - t.start.value <= MAX_PHASE_NS
    && t.read.Got? && ValidCounters(t.read.value)
  }

  // ---------------------------------------------------------------- cleanups

  datatype Cost = Cost(elapsed: nat, span: nat, counters: Counters)

  /** The time of the cleanup itself, or what kept it from being measured. */
  function CallbackTime(k: CleanupSteps): Reading<nat> {
    if !k.ticket then Raised(Stopped)
    else if k.start.Raised? then Raised(k.start.exit)
    else Elapsed(k.start.value, k.end)
  }

  /** What one cleanup is charged; the first fault counts. */
  function CostOf(k: CleanupSteps): Reading<Cost> {
    if k.spanStart.Raised? then Raised(k.spanStart.exit)
    else Measured(CallbackTime(k), CounterRead(k.read), Elapsed(k.spanStart.value, k.spanEnd))
  }

  function Measured(elapsed: Reading<nat>, counters: Reading<Counters>, span: Reading<nat>): Reading<Cost> {
    if elapsed.Raised? then Raised(elapsed.exit)
    else if counters.Raised? then Raised(counters.exit)
    else if span.Raised? then Raised(span.exit)
    else if elapsed.value <= span.value then Got(Cost(elapsed.value, span.value, counters.value))
    else Raised(Stopped)
  }

  /** The running sums over cleanups, and the first fault. */
  datatype Charge = Charge(elapsed: nat, span: nat, counters: Counters, fault: Option<Interruption>)

  function First(fault: Option<Interruption>, e: Interruption): Option<Interruption> {
    if fault.Some? then fault else Some(e)
  }

  function Charged(v: Charge, k: CleanupSteps): (w: Charge)
    requires ValidCounters(v.counters)
    ensures ValidCounters(w.counters)
  {
    if CostOf(k).Raised? then v.(fault := First(v.fault, CostOf(k).exit)) else Added(v, CostOf(k).value)
  }

  function Added(v: Charge, c: Cost): (w: Charge)
    requires ValidCounters(v.counters) && ValidCounters(c.counters)
    ensures ValidCounters(w.counters)
  {
    if Plus(v.counters, c.counters).Raised? then v.(fault := First(v.fault, Plus(v.counters, c.counters).exit))
    else Charge(v.elapsed + c.elapsed, v.span + c.span, Plus(v.counters, c.counters).value, v.fault)
  }

  function ChargedAll(ks: seq<CleanupSteps>): (v: Charge)
    ensures ValidCounters(v.counters)
  {
    if ks == [] then Charge(0, 0, ZERO, None) else Charged(ChargedAll(ks[..|ks| - 1]), ks[|ks| - 1])
  }

  function Statuses(ks: seq<CleanupSteps>): seq<bool> {
    seq(|ks|, i requires 0 <= i < |ks| => !ks[i].fails)
  }

  // ---------------------------------------------------------------- a build

  /** What is left for the work itself: the time and the counters not charged to cleanups. */
  datatype Rest = Rest(ns: nat, counters: Counters)

  function RestOf(total: nat, read: Counters, v: Charge): Reading<Rest>
    requires ValidCounters(read) && ValidCounters(v.counters)
  {
    match Minus(read, v.counters)
    case Raised(e) => Raised(e)
    case Got(c) => if v.span <= total then Got(Rest(total - v.span, c)) else Raised(Stopped)
  }

  /** The work's share, or the first fault of the whole build. */
  function WorkOf(b: BuildSteps): Reading<Rest>
    requires b.start.Got?
  {
    var v := ChargedAll(b.cleanups);
    if v.fault.Some? then Raised(v.fault.value)
    else
      match Elapsed(b.start.value, b.finish)
      case Raised(e) => Raised(e)
      case Got(total) =>
        match CounterRead(b.read)
        case Raised(e) => Raised(e)
        case Got(read) => RestOf(total, read, v)
  }

  const NO_BUILD := Build(false, [], None, Broken, [], 0, ZERO, 0, ZERO)

  /** What a build amounts to. */
  function BuildOf(b: BuildSteps): Build {
    if !b.ticket then NO_BUILD.(startFault := true)
    else if b.start.Raised? then NO_BUILD.(fault := Some(b.start.exit))
    else
      match WorkOf(b)
      case Raised(e) => NO_BUILD.(marks := b.marks, fault := Some(e))
      case Got(rest) =>
        var v := ChargedAll(b.cleanups);
        Build(false, b.marks, None, b.end, Statuses(b.cleanups), rest.ns / NS_PER_MS, rest.counters,
              v.elapsed / NS_PER_MS, v.counters)
  }

  // ---------------------------------------------------------------- plain sums

  /** Sums over cleanups that were all measured. */
  function SumOf(ks: seq<CleanupSteps>, f: Cost -> int): int {
    if ks == [] then 0
    else SumOf(ks[..|ks| - 1], f) + (if CostOf(ks[|ks| - 1]).Got? then f(CostOf(ks[|ks| - 1]).value) else 0)
  }

  predicate AllMeasured(ks: seq<CleanupSteps>) {
    forall i :: 0 <= i < |ks| ==> CostOf(ks[i]).Got?
  }

  function Spans(): Cost -> int {
    (c: Cost) => c.span
  }

  function Times(): Cost -> int {
    (c: Cost) => c.elapsed
  }

  function Counter(i: nat): Cost -> int {
    (c: Cost) => if i < |c.counters| then c.counters[i] else 0
  }

  lemma CostValid(k: CleanupSteps)
    requires CostOf(k).Got?
    ensures ValidCounters(CostOf(k).value.counters) && CostOf(k).value.elapsed <= CostOf(k).value.span
  {
  }

  /** The counters of the cleanups, each added up over all of them, stay within bounds. */
  predicate SumsFit(ks: seq<CleanupSteps>) {
    forall i :: 0 <= i < COUNTERS ==> SumOf(ks, Counter(i)) <= MAX_COUNTER
  }

  lemma SumsFitBefore(ks: seq<CleanupSteps>)
    requires ks != [] && SumsFit(ks)
    ensures SumsFit(ks[..|ks| - 1])
  {
    forall i | 0 <= i < COUNTERS ensures SumOf(ks[..|ks| - 1], Counter(i)) <= MAX_COUNTER {
      assert SumOf(ks, Counter(i)) <= MAX_COUNTER;
      if CostOf(ks[|ks| - 1]).Got? {
        CostValid(ks[|ks| - 1]);
      }
    }
  }

  /** The running sums are the plain sums, as long as nothing failed. */
  predicate Sums(v: Charge, ks: seq<CleanupSteps>)
    requires |v.counters| == COUNTERS
  {
    && v.elapsed == SumOf(ks, Times()) && v.span == SumOf(ks, Spans()) && v.elapsed <= v.span
    && forall i :: 0 <= i < COUNTERS ==> v.counters[i] == SumOf(ks, Counter(i))
  }

  /** Charging fails exactly when some cleanup was not measured or the plain sums do not fit. */
  lemma {:induction false} ChargeExact(ks: seq<CleanupSteps>)
    ensures ChargedAll(ks).fault.None? <==> AllMeasured(ks) && SumsFit(ks)
    ensures ChargedAll(ks).fault.None? ==> Sums(ChargedAll(ks), ks)
  {
    if ks == [] {
      assert SumsFit(ks);
    } else {
      var before, k := ks[..|ks| - 1], ks[|ks| - 1];
      ChargeExact(before);
      if AllMeasured(ks) && SumsFit(ks) {
        SumsFitBefore(ks);
      }
      if ChargedAll(before).fault.None? && CostOf(k).Got? {
        ChargeStep(before, k);
        assert ks == before + [k];
        assert AllMeasured(ks);
      }
    }
  }

  lemma ChargeStep(before: seq<CleanupSteps>, k: CleanupSteps)
    requires ChargedAll(before).fault.None? && Sums(ChargedAll(before), before) && CostOf(k).Got?
    ensures Charged(ChargedAll(before), k).fault.None? <==> SumsFit(before + [k])
    ensures Charged(ChargedAll(before), k).fault.None? ==> Sums(Charged(ChargedAll(before), k), before + [k])
  {
    var v, c, ks := ChargedAll(before), CostOf(k).value, before + [k];
    CostValid(k);
    assert ks[..|ks| - 1] == before && ks[|ks| - 1] == k;
    forall i | 0 <= i < COUNTERS ensures SumOf(ks, Counter(i)) == v.counters[i] + c.counters[i] {
      assert SumOf(before, Counter(i)) == v.counters[i];
    }
    if SumsFit(ks) {
      forall i | 0 <= i < COUNTERS ensures 0 <= v.counters[i] + c.counters[i] <= MAX_COUNTER {
        assert SumOf(ks, Counter(i)) <= MAX_COUNTER;
      }
    }
    if Plus(v.counters, c.counters).Got? {
      forall i | 0 <= i < COUNTERS ensures SumOf(ks, Counter(i)) <= MAX_COUNTER {
        assert Plus(v.counters, c.counters).value[i] == v.counters[i] + c.counters[i];
      }
    }
  }

  // ---------------------------------------------------------------- what the evidence says

  /** The plain sums of the cleanups lie within what was read for the whole build. */
  predicate WithinTotals(b: BuildSteps)
    requires b.start.Got? && b.finish.Got? && b.read.Got? && |b.read.value| == COUNTERS
  {
    && (forall i :: 0 <= i < COUNTERS ==> SumOf(b.cleanups, Counter(i)) <= b.read.value[i])
    && SumOf(b.cleanups, Spans()) <= Max(0, b.finish.value - b.start.value)
  }

  predicate BuildWitnessed(b: BuildSteps) {
    && b.start.Got? && b.finish.Got? && b.finish.value - b.start.value <= MAX_PHASE_NS
    && b.read.Got? && ValidCounters(b.read.value) && AllMeasured(b.cleanups) && WithinTotals(b)
  }

  /**
   * A build's evidence is spoiled exactly when a reading failed or the cleanups claim more than was
   * read for the whole: the bounds checked while adding up never decide.
   */
  lemma FaultExact(b: BuildSteps)
    requires b.ticket
    ensures BuildOf(b).fault.None? <==> BuildWitnessed(b)
  {
    ChargeExact(b.cleanups);
    if b.start.Got? {
      var v := ChargedAll(b.cleanups);
      if BuildWitnessed(b) {
        forall i | 0 <= i < COUNTERS ensures SumOf(b.cleanups, Counter(i)) <= MAX_COUNTER {
          assert b.read.value[i] <= MAX_COUNTER;
        }
        forall i | 0 <= i < COUNTERS ensures 0 <= b.read.value[i] - v.counters[i] <= MAX_COUNTER {
          assert v.counters[i] == SumOf(b.cleanups, Counter(i)) && v.counters[i] >= 0;
        }
      }
      if WorkOf(b).Got? {
        forall i | 0 <= i < COUNTERS ensures SumOf(b.cleanups, Counter(i)) <= b.read.value[i] {
          assert v.counters[i] == SumOf(b.cleanups, Counter(i));
          assert 0 <= WorkOf(b).value.counters[i] == b.read.value[i] - v.counters[i];
        }
      }
    }
  }

  /** Conservation: work and cleanups together account for every counter and for the whole time. */
  lemma EvidenceConserved(b: BuildSteps)
    requires b.ticket && BuildOf(b).fault.None?
    ensures forall i :: 0 <= i < COUNTERS ==> BuildOf(b).work[i] + BuildOf(b).cleanup[i] == b.read.value[i]
    ensures forall i :: 0 <= i < COUNTERS ==> BuildOf(b).cleanup[i] == SumOf(b.cleanups, Counter(i))
    ensures BuildOf(b).workMs == (Max(0, b.finish.value - b.start.value) - SumOf(b.cleanups, Spans())) / NS_PER_MS
    ensures BuildOf(b).cleanupMs == SumOf(b.cleanups, Times()) / NS_PER_MS
    ensures BuildOf(b).workMs + BuildOf(b).cleanupMs <= MAX_PHASE_MS
  {
    FaultExact(b);
    ChargeExact(b.cleanups);
    var v := ChargedAll(b.cleanups);
    forall i | 0 <= i < COUNTERS ensures BuildOf(b).work[i] + BuildOf(b).cleanup[i] == b.read.value[i]
                                      && BuildOf(b).cleanup[i] == SumOf(b.cleanups, Counter(i))
    {
      assert v.counters[i] == SumOf(b.cleanups, Counter(i));
    }
  }

  lemma BuildOfInRange(b: BuildSteps)
    ensures BuildInRange(BuildOf(b))
  {
    if b.ticket && BuildOf(b).fault.None? {
      EvidenceConserved(b);
    }
  }
}
