/**
 * The aggregation of seven qualification cycles: identities collected in processing order, with set
 * sizes compared at the end, against a plain statement about the seven cycles.
 */
module Aggregate {

  const CYCLES: nat := 7
  const MEASUREMENTS := 21

  /** The identities that must not be reused from cycle to cycle. */
  datatype Column = Boot | Operation | Rootfs | ClientKey | HostKey

  datatype Identities = Identities(boot: string, operation: string, rootfs: string, clientKey: string, hostKey: string)

  datatype Lineage = Lineage(runtime: string, mapping: string, process: string)

  /** The full route, or the readiness route with the process observed after SSH. */
  datatype Route = Full | Readiness(process: string)

  /** What aggregation takes from a validated receipt and status. */
  datatype Cycle = Cycle(identities: Identities, lineage: Lineage, route: Route, batch: string, measurements: nat,
                         bindings: string, artifact: string)

  function At(c: Cycle, k: Column): string {
    match k
    case Boot => c.identities.boot
    case Operation => c.identities.operation
    case Rootfs => c.identities.rootfs
    case ClientKey => c.identities.clientKey
    case HostKey => c.identities.hostKey
  }

  /** A runtime observation, scoped by the boot it was made under. */
  type Fact = (string, string)

  function Pre(c: Cycle): Fact {
    (c.identities.boot, c.lineage.process)
  }

  function Post(c: Cycle): Fact
    requires c.route.Readiness?
  {
    (c.identities.boot, c.route.process)
  }

  // ---------------------------------------------------------------- the plain statement

  ghost predicate Distinct(cycles: seq<Cycle>, k: Column) {
    forall i, j :: 0 <= i < j < |cycles| ==> At(cycles[i], k) != At(cycles[j], k)
  }

  ghost predicate Apart(cycles: seq<Cycle>, k: Column, l: Column) {
    forall i, j :: 0 <= i < |cycles| && 0 <= j < |cycles| ==> At(cycles[i], k) != At(cycles[j], l)
  }

  function Total(cycles: seq<Cycle>): nat {
    if cycles == [] then 0 else Total(cycles[..|cycles| - 1]) + cycles[|cycles| - 1].measurements
  }

  function ReadinessCount(cycles: seq<Cycle>): nat {
    if cycles == [] then 0
    else ReadinessCount(cycles[..|cycles| - 1]) + if cycles[|cycles| - 1].route.Readiness? then 1 else 0
  }

  ghost predicate Uniform(cycles: seq<Cycle>) {
    forall i :: 0 <= i < |cycles| ==> cycles[i].bindings == cycles[0].bindings && cycles[i].batch == cycles[0].batch
  }

  /** No cycle shows after SSH the process it showed before. */
  ghost predicate Moved(cycles: seq<Cycle>) {
    forall i :: 0 <= i < |cycles| && cycles[i].route.Readiness? ==> cycles[i].route.process != cycles[i].lineage.process
  }

  /** Seven fresh cycles of one batch: what acceptance amounts to. */
  ghost predicate Fresh(cycles: seq<Cycle>, names: seq<string>) {
    && |cycles| == CYCLES == |names| && Uniform(cycles)
    && (forall i :: 0 <= i < CYCLES ==> cycles[i].artifact == names[i])
    && (forall k :: Distinct(cycles, k)) && Apart(cycles, Operation, Rootfs) && Apart(cycles, ClientKey, HostKey)
    && Moved(cycles) && ReadinessCount(cycles) == CYCLES - 1 && Total(cycles) == MEASUREMENTS
  }

  // ---------------------------------------------------------------- sets of a column

  ghost function ValuesOf(cycles: seq<Cycle>, k: Column): set<string> {
    set i | 0 <= i < |cycles| :: At(cycles[i], k)
  }

  lemma ValuesSnoc(cycles: seq<Cycle>, n: nat, k: Column)
    requires n < |cycles|
    ensures ValuesOf(cycles[..n + 1], k) == ValuesOf(cycles[..n], k) + {At(cycles[n], k)}
  {
  }

  lemma DistinctSnoc(cycles: seq<Cycle>, n: nat, k: Column)
    requires n < |cycles|
    ensures Distinct(cycles[..n + 1], k) <==> Distinct(cycles[..n], k) && At(cycles[n], k) !in ValuesOf(cycles[..n], k)
  {
  }

  lemma {:induction false} DistinctSize(cycles: seq<Cycle>, n: nat, k: Column)
    requires n <= |cycles| && Distinct(cycles[..n], k)
    ensures |ValuesOf(cycles[..n], k)| == n
  {
    if n > 0 {
      DistinctSnoc(cycles, n - 1, k);
      ValuesSnoc(cycles, n - 1, k);
      DistinctSize(cycles, n - 1, k);
    }
  }

  lemma ApartSets(cycles: seq<Cycle>, k: Column, l: Column)
    ensures ValuesOf(cycles, k) * ValuesOf(cycles, l) == {} <==> Apart(cycles, k, l)
  {
    var a, b := ValuesOf(cycles, k), ValuesOf(cycles, l);
    if a * b == {} {
      forall i, j | 0 <= i < |cycles| && 0 <= j < |cycles| ensures At(cycles[i], k) != At(cycles[j], l) {
        assert At(cycles[i], k) in a && At(cycles[j], l) in b;
        assert At(cycles[i], k) !in a * b;
      }
    }
  }

  /** Two columns of one length share no value exactly when their union has both lengths. */
  lemma UnionSize(cycles: seq<Cycle>, k: Column, l: Column)
    requires Distinct(cycles, k) && Distinct(cycles, l)
    ensures |ValuesOf(cycles, k) + ValuesOf(cycles, l)| == 2 * |cycles| <==> Apart(cycles, k, l)
  {
    var n := |cycles|;
    assert cycles[..n] == cycles;
    DistinctSize(cycles, n, k);
    DistinctSize(cycles, n, l);
    var a, b := ValuesOf(cycles, k), ValuesOf(cycles, l);
    assert |a + b| == |a| + |b| - |a * b|;
    ApartSets(cycles, k, l);
  }

  // ---------------------------------------------------------------- facts scoped by boot

  ghost function PreFacts(cycles: seq<Cycle>): set<Fact> {
    set i | 0 <= i < |cycles| :: Pre(cycles[i])
  }

  ghost function PostFacts(cycles: seq<Cycle>): set<Fact> {
    set i | 0 <= i < |cycles| && cycles[i].route.Readiness? :: Post(cycles[i])
  }

  lemma PreSnoc(cycles: seq<Cycle>, n: nat)
    requires n < |cycles|
    ensures PreFacts(cycles[..n + 1]) == PreFacts(cycles[..n]) + {Pre(cycles[n])}
  {
  }

  lemma PostSnoc(cycles: seq<Cycle>, n: nat)
    requires n < |cycles|
    ensures PostFacts(cycles[..n + 1])
         == PostFacts(cycles[..n]) + if cycles[n].route.Readiness? then {Post(cycles[n])} else {}
  {
  }

  /** A new boot brings new facts. */
  lemma NewBoot(cycles: seq<Cycle>, n: nat, x: string)
    requires n < |cycles| && At(cycles[n], Boot) !in ValuesOf(cycles[..n], Boot)
    ensures (cycles[n].identities.boot, x) !in PreFacts(cycles[..n])
    ensures (cycles[n].identities.boot, x) !in PostFacts(cycles[..n])
  {
  }

  lemma MovedSnoc(cycles: seq<Cycle>, n: nat)
    requires n < |cycles|
    ensures Moved(cycles[..n + 1]) <==>
              Moved(cycles[..n]) && (cycles[n].route.Readiness? ==> Post(cycles[n]) != Pre(cycles[n]))
  {
  }

  lemma DisjointIsEmpty(a: set<Fact>, b: set<Fact>)
    ensures a !! b <==> a * b == {}
  {
    if a * b == {} {
      forall x | x in a ensures x !in b {
        assert x !in a * b;
      }
    }
  }

  lemma NewFacts(pre: set<Fact>, post: set<Fact>, p: Fact, last: set<Fact>)
    requires p !in pre && p !in post && last !! pre && last !! post
    ensures |pre + {p}| == |pre| + 1 && |post + last| == |post| + |last|
    ensures (pre + {p}) !! (post + last) <==> pre !! post && p !in last
  {
  }

  lemma NewFactSizes(cycles: seq<Cycle>, n: nat)
    requires n < |cycles| && Distinct(cycles[..n + 1], Boot)
    ensures |PreFacts(cycles[..n + 1])| == |PreFacts(cycles[..n])| + 1
    ensures |PostFacts(cycles[..n + 1])| == |PostFacts(cycles[..n])| + if cycles[n].route.Readiness? then 1 else 0
    ensures PreFacts(cycles[..n + 1]) !! PostFacts(cycles[..n + 1])
       <==> (PreFacts(cycles[..n]) !! PostFacts(cycles[..n])
             && (cycles[n].route.Readiness? ==> Post(cycles[n]) != Pre(cycles[n])))
  {
    var c := cycles[n];
    DistinctSnoc(cycles, n, Boot);
    PreSnoc(cycles, n);
    PostSnoc(cycles, n);
    NewBoot(cycles, n, c.lineage.process);
    if c.route.Readiness? {
      NewBoot(cycles, n, c.route.process);
      NewFacts(PreFacts(cycles[..n]), PostFacts(cycles[..n]), Pre(c), {Post(c)});
    } else {
      NewFacts(PreFacts(cycles[..n]), PostFacts(cycles[..n]), Pre(c), {});
    }
  }

  /** With distinct boots, the facts of the first cycles are as many as the cycles, and none is shared. */
  lemma {:induction false} FactSizes(cycles: seq<Cycle>, n: nat)
    requires n <= |cycles| && Distinct(cycles[..n], Boot)
    ensures |PreFacts(cycles[..n])| == n && |PostFacts(cycles[..n])| == ReadinessCount(cycles[..n])
    ensures PreFacts(cycles[..n]) !! PostFacts(cycles[..n]) <==> Moved(cycles[..n])
  {
    if n > 0 {
      DistinctSnoc(cycles, n - 1, Boot);
      FactSizes(cycles, n - 1);
      NewFactSizes(cycles, n - 1);
      MovedSnoc(cycles, n - 1);
      assert cycles[..n][..n - 1] == cycles[..n - 1];
    }
  }

  /** The thirteen observations before and after SSH are distinct exactly when no cycle repeats its own. */
  lemma ThirteenFacts(cycles: seq<Cycle>)
    requires |cycles| == CYCLES && Distinct(cycles, Boot) && ReadinessCount(cycles) == CYCLES - 1
    ensures |PreFacts(cycles)| == 7 && |PostFacts(cycles)| == 6
    ensures |PreFacts(cycles) + PostFacts(cycles)| == 13 <==> Moved(cycles)
  {
    assert cycles[..CYCLES] == cycles;
    FactSizes(cycles, CYCLES);
    var pre, post := PreFacts(cycles), PostFacts(cycles);
    DisjointIsEmpty(pre, post);
    assert |pre + post| == |pre| + |post| - |pre * post|;
  }

  // ---------------------------------------------------------------- the loop

  const COLUMNS := [Boot, Operation, Rootfs, ClientKey, HostKey]

  lemma AllColumns(k: Column)
    ensures exists n :: 0 <= n < |COLUMNS| && COLUMNS[n] == k
  {
    assert COLUMNS[0] == Boot && COLUMNS[1] == Operation && COLUMNS[2] == Rootfs && COLUMNS[3] == ClientKey;
    assert COLUMNS[4] == HostKey;
  }

  type Seen = map<Column, set<string>>

  ghost predicate Collected(seen: Seen, cycles: seq<Cycle>) {
    forall k :: k in seen && seen[k] == ValuesOf(cycles, k)
  }

  ghost predicate AllDistinct(cycles: seq<Cycle>) {
    forall k :: Distinct(cycles, k)
  }

  /** The loop over the five identity sets. */
  method AddIdentities(seen: Seen, c: Cycle) returns (ok: bool, more: Seen)
    requires forall k :: k in seen
    ensures ok <==> forall k :: At(c, k) !in seen[k]
    ensures ok ==> forall k :: k in more && more[k] == seen[k] + {At(c, k)}
  {
    more := seen;
    var n := 0;
    while n < |COLUMNS|
      invariant 0 <= n <= |COLUMNS|
      invariant forall k :: k in more
      invariant forall m :: 0 <= m < n ==>
                  At(c, COLUMNS[m]) !in seen[COLUMNS[m]] && more[COLUMNS[m]] == seen[COLUMNS[m]] + {At(c, COLUMNS[m])}
      invariant forall m :: n <= m < |COLUMNS| ==> more[COLUMNS[m]] == seen[COLUMNS[m]]
    {
      var k := COLUMNS[n];
      if At(c, k) in more[k] {
        return false, more;
      }
      more := more[k := more[k] + {At(c, k)}];
      n := n + 1;
    }
    ok := true;
    forall k ensures At(c, k) !in seen[k] && more[k] == seen[k] + {At(c, k)} {
      AllColumns(k);
    }
  }

  lemma CollectedSnoc(seen: Seen, more: Seen, cycles: seq<Cycle>, n: nat)
    requires n < |cycles| && Collected(seen, cycles[..n])
    requires forall k :: k in more && more[k] == seen[k] + {At(cycles[n], k)}
    ensures Collected(more, cycles[..n + 1])
  {
    forall k ensures k in more && more[k] == ValuesOf(cycles[..n + 1], k) {
      assert k in seen && seen[k] == ValuesOf(cycles[..n], k);
      ValuesSnoc(cycles, n, k);
    }
  }

  lemma AllDistinctSnoc(seen: Seen, cycles: seq<Cycle>, n: nat)
    requires n < |cycles| && Collected(seen, cycles[..n]) && AllDistinct(cycles[..n])
    ensures AllDistinct(cycles[..n + 1]) <==> forall k :: At(cycles[n], k) !in seen[k]
  {
    var b := cycles[..n + 1];
    if AllDistinct(b) {
      forall k ensures At(cycles[n], k) !in seen[k] {
        assert Distinct(b, k);
        DistinctSnoc(cycles, n, k);
      }
    }
    if forall k :: At(cycles[n], k) !in seen[k] {
      forall k ensures Distinct(b, k) {
        assert Distinct(cycles[..n], k) && At(cycles[n], k) !in seen[k];
        DistinctSnoc(cycles, n, k);
      }
    }
  }

  lemma DistinctPrefix(cycles: seq<Cycle>, n: nat, k: Column)
    requires n <= |cycles| && Distinct(cycles, k)
    ensures Distinct(cycles[..n], k)
  {
  }

  lemma MovedPrefix(cycles: seq<Cycle>, n: nat)
    requires n <= |cycles| && Moved(cycles)
    ensures Moved(cycles[..n])
  {
  }

  /** Facts scoped by boots already seen, one per cycle. */
  ghost predicate Scoped(facts: set<Fact>, boots: set<string>, n: nat) {
    |facts| == n && forall f :: f in facts ==> f.0 in boots
  }

  ghost predicate Batches(batches: set<string>, cycles: seq<Cycle>) {
    forall b :: b in batches <==> exists i :: 0 <= i < |cycles| && cycles[i].batch == b
  }

  lemma BatchesSnoc(batches: set<string>, cycles: seq<Cycle>, n: nat)
    requires n < |cycles| && Batches(batches, cycles[..n])
    ensures Batches(batches + {cycles[n].batch}, cycles[..n + 1])
  {
  }

  lemma OneBatch(batches: set<string>, cycles: seq<Cycle>)
    requires cycles != [] && Batches(batches, cycles)
    ensures |batches| == 1 <==> forall i :: 0 <= i < |cycles| ==> cycles[i].batch == cycles[0].batch
  {
    var b := cycles[0].batch;
    assert b in batches;
    assert |batches| == 1 + |batches - {b}|;
    if |batches| == 1 {
      assert batches - {b} == {};
      forall i | 0 <= i < |cycles| ensures cycles[i].batch == b {
        assert cycles[i].batch in batches;
        assert cycles[i].batch !in batches - {b};
      }
    }
    if forall i :: 0 <= i < |cycles| ==> cycles[i].batch == b {
      assert batches == {b};
    }
  }

  /** The sets of runtime observations. */
  datatype Observed = Observed(runtimes: set<Fact>, mappings: set<Fact>, pre: set<Fact>, post: set<Fact>)

  ghost predicate Watched(o: Observed, cycles: seq<Cycle>) {
    && Scoped(o.runtimes, ValuesOf(cycles, Boot), |cycles|) && Scoped(o.mappings, ValuesOf(cycles, Boot), |cycles|)
    && o.pre == PreFacts(cycles) && o.post == PostFacts(cycles)
  }

  lemma ScopedSnoc(facts: set<Fact>, cycles: seq<Cycle>, n: nat, x: string)
    requires n < |cycles| && Scoped(facts, ValuesOf(cycles[..n], Boot), n) && Distinct(cycles[..n + 1], Boot)
    ensures (At(cycles[n], Boot), x) !in facts
    ensures Scoped(facts + {(At(cycles[n], Boot), x)}, ValuesOf(cycles[..n + 1], Boot), n + 1)
  {
  }

  function Noted(o: Observed, c: Cycle): Observed {
    var boot := At(c, Boot);
    Observed(o.runtimes + {(boot, c.lineage.runtime)}, o.mappings + {(boot, c.lineage.mapping)}, o.pre + {Pre(c)},
             if c.route.Readiness? then o.post + {Post(c)} else o.post)
  }

  lemma NotedWatched(o: Observed, cycles: seq<Cycle>, n: nat)
    requires n < |cycles| && Watched(o, cycles[..n]) && Distinct(cycles[..n + 1], Boot)
    ensures Watched(Noted(o, cycles[n]), cycles[..n + 1])
  {
    ScopedSnoc(o.runtimes, cycles, n, cycles[n].lineage.runtime);
    ScopedSnoc(o.mappings, cycles, n, cycles[n].lineage.mapping);
    PreSnoc(cycles, n);
    PostSnoc(cycles, n);
  }

  /** The checks on one cycle's observations. */
  predicate Unseen(o: Observed, c: Cycle) {
    var boot := At(c, Boot);
    && (boot, c.lineage.runtime) !in o.runtimes && (boot, c.lineage.mapping) !in o.mappings && Pre(c) !in o.pre
    && (c.route.Readiness? ==> Post(c) !in o.post && Post(c) !in o.pre + {Pre(c)})
  }

  /** With a boot not seen before only one of them can fail: that a cycle repeats its own observation. */
  lemma UnseenExact(o: Observed, cycles: seq<Cycle>, n: nat)
    requires n < |cycles| && Watched(o, cycles[..n]) && Moved(cycles[..n]) && Distinct(cycles[..n + 1], Boot)
    ensures Unseen(o, cycles[n]) <==> Moved(cycles[..n + 1])
  {
  }

  method Observe(o: Observed, c: Cycle) returns (ok: bool, more: Observed)
    ensures ok <==> Unseen(o, c)
    ensures ok ==> more == Noted(o, c)
  {
    var boot := c.identities.boot;
    var runtime, mapping, process := (boot, c.lineage.runtime), (boot, c.lineage.mapping), (boot, c.lineage.process);
    if runtime in o.runtimes || mapping in o.mappings || process in o.pre {
      return false, o;
    }
    more := o.(runtimes := o.runtimes + {runtime}, mappings := o.mappings + {mapping}, pre := o.pre + {process});
    if c.route.Readiness? {
      var post := (boot, c.route.process);
      if post in more.post || post in more.pre {
        return false, more;
      }
      more := more.(post := more.post + {post});
    }
    ok := true;
  }

  /** One turn of the loop, as far as identities and observations go. */
  method Take(cycles: seq<Cycle>, n: nat, seen: Seen, o: Observed) returns (ok: bool, more: Seen, noted: Observed)
    requires n < |cycles| && Collected(seen, cycles[..n]) && AllDistinct(cycles[..n]) && Watched(o, cycles[..n])
    requires Moved(cycles[..n])
    ensures ok <==> AllDistinct(cycles[..n + 1]) && Moved(cycles[..n + 1])
    ensures ok ==> Collected(more, cycles[..n + 1]) && Watched(noted, cycles[..n + 1])
  {
    var c := cycles[n];
    more := seen;
    AllDistinctSnoc(seen, cycles, n);
    if AllDistinct(cycles[..n + 1]) {
      assert Distinct(cycles[..n + 1], Boot);
      UnseenExact(o, cycles, n);
      NotedWatched(o, cycles, n);
    }
    ok, noted := Observe(o, c);
    if !ok {
      return;
    }
    ok, more := AddIdentities(seen, c);
    if ok {
      CollectedSnoc(seen, more, cycles, n);
    }
  }

  ghost predicate Matches(cycles: seq<Cycle>, names: seq<string>, n: nat)
    requires n <= |cycles| && n <= |names|
  {
    forall i :: 0 <= i < n ==> cycles[i].bindings == cycles[0].bindings && cycles[i].artifact == names[i]
  }

  /**
   * `aggregate` over validated cycles and custody names: it accepts exactly seven fresh cycles,
   * although most checks look only at the cycles before.
   */
  method AggregateCycles(cycles: seq<Cycle>, names: seq<string>) returns (ok: bool)
    requires |cycles| == CYCLES == |names|
    ensures ok <==> Fresh(cycles, names)
  {
    var run := START;
    Beginning(cycles, names);
    var i := 0;
    while i < CYCLES
      invariant 0 <= i <= CYCLES && Carried(run, cycles, names, i)
    {
      FreshPrefix(cycles, names, i + 1);
      ok, run := Turn(run, cycles, names, i);
      if !ok {
        return false;
      }
      i := i + 1;
    }
    ok := Conclude(run, cycles, names);
  }

  /** The loop's variables. */
  datatype Progress = Progress(seen: Seen, observed: Observed, batches: set<string>, total: nat)

  ghost predicate Carried(run: Progress, cycles: seq<Cycle>, names: seq<string>, n: nat)
    requires n <= |cycles| && n <= |names|
  {
    && Collected(run.seen, cycles[..n]) && AllDistinct(cycles[..n]) && Watched(run.observed, cycles[..n])
    && Moved(cycles[..n])
    && Batches(run.batches, cycles[..n]) && run.total == Total(cycles[..n]) && Matches(cycles, names, n)
  }

  /** One turn of the loop. */
  method Turn(run: Progress, cycles: seq<Cycle>, names: seq<string>, n: nat) returns (ok: bool, next: Progress)
    requires n < |cycles| && n < |names| && Carried(run, cycles, names, n)
    ensures ok <==> Matches(cycles, names, n + 1) && AllDistinct(cycles[..n + 1]) && Moved(cycles[..n + 1])
    ensures ok ==> Carried(next, cycles, names, n + 1)
  {
    var c := cycles[n];
    next := run;
    if c.bindings != cycles[0].bindings || c.artifact != names[n] {
      return false, next;
    }
    var more, noted;
    ok, more, noted := Take(cycles, n, run.seen, run.observed);
    if ok {
      BatchesSnoc(run.batches, cycles, n);
      assert cycles[..n + 1][..n] == cycles[..n];
      next := Progress(more, noted, run.batches + {c.batch}, run.total + c.measurements);
    }
  }

  const NONE_SEEN: Seen := map[Boot := {}, Operation := {}, Rootfs := {}, ClientKey := {}, HostKey := {}]

  const START := Progress(NONE_SEEN, Observed({}, {}, {}, {}), {}, 0)

  lemma Beginning(cycles: seq<Cycle>, names: seq<string>)
    ensures Carried(START, cycles, names, 0)
  {
    assert cycles[..0] == [];
    forall k ensures k in NONE_SEEN && NONE_SEEN[k] == {} {
      match k
      case Boot =>
      case Operation =>
      case Rootfs =>
      case ClientKey =>
      case HostKey =>
    }
    assert PreFacts([]) == {} && PostFacts([]) == {};
    forall k ensures ValuesOf([], k) == {} {}
  }

  /** What remains to be compared once every cycle has passed its own checks. */
  lemma FreshAtEnd(cycles: seq<Cycle>, names: seq<string>)
    requires |cycles| == CYCLES == |names| && AllDistinct(cycles) && Moved(cycles) && Matches(cycles, names, CYCLES)
    ensures Fresh(cycles, names)
       <==> && (forall i :: 0 <= i < CYCLES ==> cycles[i].batch == cycles[0].batch)
            && Apart(cycles, Operation, Rootfs) && Apart(cycles, ClientKey, HostKey)
            && ReadinessCount(cycles) == CYCLES - 1 && Total(cycles) == MEASUREMENTS
  {
  }

  lemma FactsAtEnd(cycles: seq<Cycle>, pre: set<Fact>, post: set<Fact>)
    requires |cycles| == CYCLES && Distinct(cycles, Boot) && Moved(cycles) && pre == PreFacts(cycles)
    requires post == PostFacts(cycles)
    ensures |pre| == 7 && |post| == ReadinessCount(cycles) && |pre + post| == 7 + |post|
  {
    assert cycles[..CYCLES] == cycles;
    FactSizes(cycles, CYCLES);
    DisjointIsEmpty(pre, post);
    assert |pre + post| == |pre| + |post| - |pre * post|;
  }

  /** The comparison of sizes at the end. */
  method Conclude(run: Progress, cycles: seq<Cycle>, names: seq<string>) returns (ok: bool)
    requires |cycles| == CYCLES == |names| && Carried(run, cycles, names, CYCLES)
    ensures ok <==> Fresh(cycles, names)
  {
    assert cycles[..CYCLES] == cycles;
    assert Distinct(cycles, Boot) && Distinct(cycles, Operation) && Distinct(cycles, Rootfs);
    assert Distinct(cycles, ClientKey) && Distinct(cycles, HostKey);
    var seen, o := run.seen, run.observed;
    FreshAtEnd(cycles, names);
    FactsAtEnd(cycles, o.pre, o.post);
    UnionSize(cycles, Operation, Rootfs);
    UnionSize(cycles, ClientKey, HostKey);
    OneBatch(run.batches, cycles);
    var once := |o.runtimes| == |o.mappings| == |o.pre| == 7 && |o.post| == 6 && |o.pre + o.post| == 13;
    var crossed := |seen[Operation] + seen[Rootfs]| == 14 && |seen[ClientKey] + seen[HostKey]| == 14;
    ok := |run.batches| == 1 && run.total == MEASUREMENTS && once && crossed;
  }

  lemma FreshPrefix(cycles: seq<Cycle>, names: seq<string>, n: nat)
    requires |cycles| == CYCLES == |names| && n <= CYCLES
    ensures Fresh(cycles, names) ==> AllDistinct(cycles[..n]) && Moved(cycles[..n]) && Matches(cycles, names, n)
  {
    if Fresh(cycles, names) {
      forall k ensures Distinct(cycles[..n], k) {
        DistinctPrefix(cycles, n, k);
      }
      MovedPrefix(cycles, n);
    }
  }
}
