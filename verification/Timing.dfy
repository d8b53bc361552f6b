/** Clock readings and structural counters as the observer takes them: each may raise. */
module Timing {
  import opened Basics

  /** How a step ends: normally, with the observer's own error, or with any other exception. */
  datatype Exit = Completed | Stopped | Crashed

  type Interruption = e: Exit | e != Completed witness Stopped

  datatype Reading<+T> = Got(value: T) | Raised(exit: Interruption)

  const NS_PER_MS := 1_000_000
  const MAX_PHASE_MS := 5_400_000
  const MAX_PHASE_NS := MAX_PHASE_MS * NS_PER_MS
  const COUNTERS: nat := 6
  const MAX_COUNTER := 1_000_000_000

  /** One value per structural counter. */
  type Counters = seq<int>

  predicate ValidCounters(c: Counters) {
    |c| == COUNTERS && forall i :: 0 <= i < COUNTERS ==> 0 <= c[i] <= MAX_COUNTER
  }

  const ZERO: Counters := [0, 0, 0, 0, 0, 0]

  /** `_elapsed_ns`: a clock that goes back counts as no time, and too long a time is an error. */
  function Elapsed(started: int, now: Reading<int>): Reading<nat> {
    match now
    case Raised(e) => Raised(e)
    case Got(t) => if t - started <= MAX_PHASE_NS then Got(Max(0, t - started)) else Raised(Stopped)
  }

  /** `_counter_read`: whatever goes wrong is the observer's own error. */
  function CounterRead(r: Reading<Counters>): Reading<Counters> {
    if r.Got? && ValidCounters(r.value) then r else Raised(Stopped)
  }

  function Fitting(c: Counters): Reading<Counters> {
    if ValidCounters(c) then Got(c) else Raised(Stopped)
  }

  function Plus(a: Counters, b: Counters): Reading<Counters>
    requires ValidCounters(a) && ValidCounters(b)
  {
    Fitting(seq(COUNTERS, i requires 0 <= i < COUNTERS => a[i] + b[i]))
  }

  function Minus(a: Counters, b: Counters): Reading<Counters>
    requires ValidCounters(a) && ValidCounters(b)
  {
    Fitting(seq(COUNTERS, i requires 0 <= i < COUNTERS => a[i] - b[i]))
  }
}
