/**
 * Census convergence: repeated passes over changing process generations, accepted by a bounded
 * coverage counter per generation. One algorithm serves the settlement scan (three passes) and the
 * writable-alias proof (two passes); it is stated once, for any required number of passes.
 */
module Census {
  import opened Basics

  /** A process generation: its name under /proc and its start time. */
  datatype Generation = Generation(name: string, start: nat)

  datatype Verdict = Clean | Unstable | Reject

  /**
   * One pass: the census before and after, whether each was complete, and the verdict of inspecting
   * each generation of the first census.
   */
  datatype Pass = Pass(before: set<Generation>, complete: bool, verdicts: map<Generation, Verdict>,
                                after: set<Generation>, finalComplete: bool)

  datatype Reason = Inventory | Inspection | Coverage

  datatype Result =
    | Accepted(index: nat)
    | Refused(index: nat, culprit: Generation)
    | NotConverged(reasons: set<Reason>)

  function VerdictOf(p: Pass, g: Generation): Verdict {
    if g in p.verdicts then p.verdicts[g] else Unstable
  }

  function Inspected(p: Pass): set<Generation> {
    set g | g in p.before && VerdictOf(p, g) == Clean
  }

  predicate Full(p: Pass) {
    p.complete && p.finalComplete
  }

  predicate Refuses(p: Pass) {
    exists g :: g in p.before && VerdictOf(p, g) == Reject
  }

  function ReasonOf(p: Pass): Reason {
    if !Full(p) then Inventory
    else if p.after - Inspected(p) != {} || p.before - Inspected(p) != {} then Inspection
    else Coverage
  }

  // ---------------------------------------------------------------- the specification

  /** Pass `p` covers generation `g`: complete, listing `g`, and inspecting it clean. */
  predicate Covers(p: Pass, g: Generation) {
    Full(p) && g in p.after && g in Inspected(p)
  }

  predicate CoversNone(p: Pass) {
    Full(p) && p.after == {}
  }

  /**
   * The last `k` passes up to `i` all were complete and either all listed nothing, or each covered
   * every generation of the last census, of which there is at least one.
   */
  predicate Stable(passes: seq<Pass>, i: nat, k: nat)
    requires i < |passes|
  {
    && k <= i + 1
    && (if passes[i].after == {} then forall j :: i + 1 - k <= j <= i ==> CoversNone(passes[j])
        else forall j, g :: i + 1 - k <= j <= i && g in passes[i].after ==> Covers(passes[j], g))
  }

  // ---------------------------------------------------------------- streaks

  /** How many passes in a row, ending just before `n`, covered `g`. */
  function Streak(passes: seq<Pass>, g: Generation, n: nat): (r: nat)
    requires n <= |passes|
    ensures r <= n
  {
    if n == 0 || !Covers(passes[n - 1], g) then 0 else 1 + Streak(passes, g, n - 1)
  }

  function EmptyStreak(passes: seq<Pass>, n: nat): (r: nat)
    requires n <= |passes|
    ensures r <= n
  {
    if n == 0 || !CoversNone(passes[n - 1]) then 0 else 1 + EmptyStreak(passes, n - 1)
  }

  lemma {:induction false} StreakMeans(passes: seq<Pass>, g: Generation, n: nat, k: nat)
    requires n <= |passes|
    ensures Streak(passes, g, n) >= k <==> k <= n && forall j :: n - k <= j < n ==> Covers(passes[j], g)
  {
    if k > 0 && n > 0 {
      StreakMeans(passes, g, n - 1, k - 1);
      if k <= n && (forall j :: n - k <= j < n ==> Covers(passes[j], g)) {
        assert Covers(passes[n - 1], g);
        assert forall j :: n - 1 - (k - 1) <= j < n - 1 ==> Covers(passes[j], g);
      }
    }
  }

  lemma {:induction false} EmptyStreakMeans(passes: seq<Pass>, n: nat, k: nat)
    requires n <= |passes|
    ensures EmptyStreak(passes, n) >= k <==> k <= n && forall j :: n - k <= j < n ==> CoversNone(passes[j])
  {
    if k > 0 && n > 0 {
      EmptyStreakMeans(passes, n - 1, k - 1);
      if k <= n && (forall j :: n - k <= j < n ==> CoversNone(passes[j])) {
        assert CoversNone(passes[n - 1]);
        assert forall j :: n - 1 - (k - 1) <= j < n - 1 ==> CoversNone(passes[j]);
      }
    }
  }

  // ---------------------------------------------------------------- the counters

  /** One pass's update of the coverage dictionary. */
  function NextCoverage(coverage: map<Generation, nat>, p: Pass, k: nat): map<Generation, nat> {
    map g | g in p.after ::
      if g in Inspected(p) then Min(k, (if g in coverage then coverage[g] else 0) + 1) else 0
  }

  /** The dictionary holds each listed generation's streak, cut off at `k`. */
  ghost predicate Counts(coverage: map<Generation, nat>, empty: nat, passes: seq<Pass>, n: nat, k: nat)
    requires n <= |passes|
  {
    && (forall g :: g in coverage ==> coverage[g] == Min(k, Streak(passes, g, n)))
    && (forall g :: g !in coverage ==> Streak(passes, g, n) == 0)
    && empty == EmptyStreak(passes, n)
  }

  lemma CountsStep(coverage: map<Generation, nat>, empty: nat, passes: seq<Pass>, n: nat, k: nat)
    requires n < |passes| && k >= 1 && Counts(coverage, empty, passes, n, k)
    ensures Full(passes[n]) ==>
              Counts(NextCoverage(coverage, passes[n], k), if passes[n].after == {} then empty + 1 else 0,
                     passes, n + 1, k)
    ensures !Full(passes[n]) ==> Counts(map[], 0, passes, n + 1, k)
  {
    var p := passes[n];
    if Full(p) {
      var next := NextCoverage(coverage, p, k);
      forall g | g in next
        ensures next[g] == Min(k, Streak(passes, g, n + 1))
      {
        if g in Inspected(p) {
          assert Streak(passes, g, n + 1) == 1 + Streak(passes, g, n);
        }
      }
    }
  }

  /** The acceptance test on the counters is the specification over the whole history. */
  lemma CountersDecide(coverage: map<Generation, nat>, empty: nat, passes: seq<Pass>, i: nat, k: nat)
    requires i < |passes| && k >= 1 && Full(passes[i]) && Counts(coverage, empty, passes, i + 1, k)
    requires coverage.Keys == passes[i].after
    ensures (passes[i].after != {} && (forall g :: g in coverage ==> coverage[g] >= k))
         || (passes[i].after == {} && empty >= k)
       <==> Stable(passes, i, k)
  {
    if passes[i].after == {} {
      EmptyStreakMeans(passes, i + 1, k);
    } else {
      forall g | g in passes[i].after
        ensures coverage[g] >= k <==> k <= i + 1 && forall j :: i + 1 - k <= j <= i ==> Covers(passes[j], g)
      {
        StreakMeans(passes, g, i + 1, k);
      }
      if Stable(passes, i, k) {
        forall g | g in coverage
          ensures coverage[g] >= k
        {
          assert forall j :: i + 1 - k <= j <= i ==> Covers(passes[j], g);
        }
      }
      var some :| some in passes[i].after;
      assert coverage[some] >= k ==> k <= i + 1;
    }
  }

  /** Acceptance rests on the last `k` passes: all complete, each listing and clearing the whole final census. */
  lemma StableIsFull(passes: seq<Pass>, i: nat, k: nat)
    requires i < |passes| && k >= 1 && Stable(passes, i, k)
    ensures k <= i + 1 && forall j :: i + 1 - k <= j <= i ==> Full(passes[j])
    ensures forall j :: i + 1 - k <= j <= i ==>
              passes[i].after <= passes[j].after && passes[i].after <= Inspected(passes[j])
    ensures passes[i].after == {} ==> forall j :: i + 1 - k <= j <= i ==> passes[j].after == {}
  {
    forall j | i + 1 - k <= j <= i
      ensures Full(passes[j]) && passes[i].after <= passes[j].after && passes[i].after <= Inspected(passes[j])
      ensures passes[i].after == {} ==> passes[j].after == {}
    {
      if passes[i].after != {} {
        var some :| some in passes[i].after;
        assert Covers(passes[j], some);
        forall g | g in passes[i].after ensures g in passes[j].after && g in Inspected(passes[j]) {
          assert Covers(passes[j], g);
        }
      } else {
        assert CoversNone(passes[j]);
      }
    }
  }

  function Reasons(passes: seq<Pass>, n: nat): set<Reason>
    requires n <= |passes|
  {
    if n == 0 then {} else Reasons(passes, n - 1) + {ReasonOf(passes[n - 1])}
  }

  // ---------------------------------------------------------------- the program

  /** The inspection loop of one pass: the clean generations, or the first refused one. */
  method Inspect(p: Pass) returns (inspected: set<Generation>, culprit: Option<Generation>)
    ensures culprit.None? ==> inspected == Inspected(p) && !Refuses(p)
    ensures culprit.Some? ==> culprit.value in p.before && VerdictOf(p, culprit.value) == Reject
  {
    inspected, culprit := {}, None;
    var todo := p.before;
    while todo != {}
      invariant todo <= p.before
      invariant inspected == set g | g in p.before - todo && VerdictOf(p, g) == Clean
      invariant forall g :: g in p.before - todo ==> VerdictOf(p, g) != Reject
      decreases todo
    {
      var g :| g in todo;
      match VerdictOf(p, g) {
        case Reject => return inspected, Some(g);
        case Clean => inspected := inspected + {g};
        case Unstable =>
      }
      todo := todo - {g};
    }
  }

  /** One pass's update of both counters and the acceptance test. */
  method Advance(coverage: map<Generation, nat>, empty: nat, passes: seq<Pass>, i: nat, k: nat,
                 inspected: set<Generation>)
    returns (coverage': map<Generation, nat>, empty': nat, accept: bool)
    requires i < |passes| && k >= 1 && Counts(coverage, empty, passes, i, k)
    requires inspected == Inspected(passes[i])
    ensures Counts(coverage', empty', passes, i + 1, k)
    ensures accept <==> Stable(passes, i, k)
  {
    var p := passes[i];
    CountsStep(coverage, empty, passes, i, k);
    if p.complete && p.finalComplete {
      coverage' := map g | g in p.after ::
        if g in inspected then Min(k, (if g in coverage then coverage[g] else 0) + 1) else 0;
      empty' := if p.after == {} then empty + 1 else 0;
      assert coverage' == NextCoverage(coverage, p, k);
      CountersDecide(coverage', empty', passes, i, k);
      accept := (p.after != {} && (forall g :: g in coverage' ==> coverage'[g] >= k))
             || (p.after == {} && empty' >= k);
    } else {
      coverage', empty', accept := map[], 0, false;
      if Stable(passes, i, k) {
        StableIsFull(passes, i, k);
      }
    }
  }

  /**
   * The scan. It accepts at exactly the first pass where the specification over the whole history
   * holds, unless an inspection refused a generation by then; otherwise it names what kept it from
   * converging.
   */
  method Scan(passes: seq<Pass>, k: nat) returns (result: Result)
    requires k >= 1
    ensures result.Accepted? ==>
              && result.index < |passes| && Stable(passes, result.index, k)
              && (forall j :: 0 <= j < result.index ==> !Stable(passes, j, k))
              && (forall j :: 0 <= j <= result.index ==> !Refuses(passes[j]))
    ensures result.Refused? ==>
              && result.index < |passes| && result.culprit in passes[result.index].before
              && VerdictOf(passes[result.index], result.culprit) == Reject
              && (forall j :: 0 <= j < result.index ==> !Stable(passes, j, k) && !Refuses(passes[j]))
    ensures result.NotConverged? ==>
              && (forall j :: 0 <= j < |passes| ==> !Stable(passes, j, k) && !Refuses(passes[j]))
              && result.reasons == Reasons(passes, |passes|)
  {
    var empty := 0;
    var coverage: map<Generation, nat> := map[];
    var reasons: set<Reason> := {};
    var i := 0;
    while i < |passes|
      invariant 0 <= i <= |passes|
      invariant Counts(coverage, empty, passes, i, k)
      invariant forall j :: 0 <= j < i ==> !Stable(passes, j, k) && !Refuses(passes[j])
      invariant reasons == Reasons(passes, i)
    {
      var inspected, culprit := Inspect(passes[i]);
      if culprit.Some? {
        return Refused(i, culprit.value);
      }
      reasons := reasons + {ReasonOf(passes[i])};
      var accept;
      coverage, empty, accept := Advance(coverage, empty, passes, i, k, inspected);
      if accept {
        return Accepted(i);
      }
      i := i + 1;
    }
    return NotConverged(reasons);
  }
}
