/** Whole runs over all assets, what the journal reader makes of them, and the later cleanup. */
module AssetsCleanup {
  import opened Basics
  import opened Assets

  // ---------------------------------------------------------------- the journal of a run

  lemma {:induction false} FoldAppend(fixed: Fixed, s: Scan, a: seq<Record>, b: seq<Record>)
    ensures Fold(fixed, s, a + b) == match Fold(fixed, s, a) case None => None case Some(t) => Fold(fixed, t, b)
    decreases |a|
  {
    if a == [] {
      assert a + b == b;
    } else {
      assert (a + b)[0] == a[0] && (a + b)[1..] == a[1..] + b;
      if Advance(fixed, s, a[0]).Some? {
        FoldAppend(fixed, Advance(fixed, s, a[0]).value, a[1..], b);
      }
    }
  }

  predicate Fresh(s: Scan, c: string) {
    c !in s.initial && c !in s.final && c !in s.sealed
  }

  /** Where the journal reader stands after the first `k` records of a download. */
  function Grown(s: Scan, c: string, held: Generation, k: nat): Scan {
    Scan(if k >= 2 then s.initial + {c} else s.initial,
         if k >= 3 then s.final[c := held] else s.final,
         if k >= 4 then s.sealed + {c} else s.sealed)
  }

  lemma ScriptStep(fixed: Fixed, s: Scan, c: string, held: Generation, k: nat)
    requires c in fixed && Fresh(s, c) && k < 4
    ensures Advance(fixed, Grown(s, c, held, k), Script(c, held)[k])
         == if k == 2 && !(held.policy == FrozenPolicy(fixed[c]) && Counted(held)) then None
            else Some(Grown(s, c, held, k + 1))
  {
  }

  /**
   * The journal reader accepts a download cut off anywhere, if and only if a frozen generation it
   * recorded has the policy, which the writer checks, and positive counts, which it leaves to the kernel.
   */
  lemma {:induction false} ScriptAccepted(fixed: Fixed, s: Scan, c: string, held: Generation, k: nat)
    requires c in fixed && Fresh(s, c) && k <= 4
    ensures Fold(fixed, s, Script(c, held)[..k])
         == if k >= 3 && !(held.policy == FrozenPolicy(fixed[c]) && Counted(held)) then None
            else Some(Grown(s, c, held, k))
  {
    if k == 0 {
      assert Script(c, held)[..0] == [];
    } else {
      ScriptAccepted(fixed, s, c, held, k - 1);
      ScriptStep(fixed, s, c, held, k - 1);
      var script := Script(c, held);
      assert script[..k] == script[..k - 1] + [script[k - 1]];
      FoldSnoc(fixed, s, script[..k - 1], script[k - 1]);
    }
  }

  // ---------------------------------------------------------------- all assets

  datatype Asset = Asset(component: string, size: nat)

  ghost predicate DistinctAssets(assets: seq<Asset>) {
    forall i, j :: 0 <= i < j < |assets| ==> assets[i].component != assets[j].component
  }

  /** What one component's outcome says about the directory. */
  ghost predicate Honest(c: string, outcome: Outcome, names: set<Name>, unlinked: set<Name>) {
    && (outcome == Success ==> Partial(c) !in names && Final(c) !in names)
    && (outcome == Preserved ==> Partial(c) !in unlinked)
  }

  ghost predicate Told(a: Asset, immediate: map<string, Outcome>, names: set<Name>, unlinked: set<Name>) {
    a.component in immediate && Honest(a.component, immediate[a.component], names, unlinked)
  }

  ghost predicate AllHonest(assets: seq<Asset>, immediate: map<string, Outcome>, names: set<Name>,
                            unlinked: set<Name>)
  {
    forall i :: 0 <= i < |assets| ==> Told(assets[i], immediate, names, unlinked)
  }

  ghost predicate Traceless(c: string, immediate: map<string, Outcome>, names: set<Name>, unlinked: set<Name>,
                            s: Scan)
  {
    && c in immediate && immediate[c] == NotRequired
    && Partial(c) !in names && Final(c) !in names && Partial(c) !in unlinked && Fresh(s, c)
  }

  /** The assets not reached yet have left no trace. */
  ghost predicate Untouched(assets: seq<Asset>, from: nat, immediate: map<string, Outcome>, names: set<Name>,
                            unlinked: set<Name>, s: Scan)
    requires from <= |assets|
  {
    forall i :: from <= i < |assets| ==> Traceless(assets[i].component, immediate, names, unlinked, s)
  }

  ghost predicate KnownAssets(fixed: Fixed, assets: seq<Asset>) {
    forall i :: 0 <= i < |assets| ==> assets[i].component in fixed && fixed[assets[i].component] == assets[i].size
  }

  /** Finishing one asset keeps the others as they were. */
  lemma HonestKept(assets: seq<Asset>, i: nat, before: map<string, Outcome>, after: map<string, Outcome>,
                   names: set<Name>, later: set<Name>, unlinked: set<Name>, more: set<Name>)
    requires DistinctAssets(assets) && i < |assets| && AllHonest(assets[..i], before, names, unlinked)
    requires var c := assets[i].component;
             && OnlyAt(c, before, after) && c in after && Honest(c, after[c], later, more)
             && later - {Partial(c), Final(c)} == names - {Partial(c), Final(c)}
             && unlinked <= more <= unlinked + {Partial(c)}
    ensures AllHonest(assets[..i + 1], after, later, more)
  {
    var c := assets[i].component;
    var done := assets[..i + 1];
    forall j | 0 <= j < |done| ensures Told(done[j], after, later, more) {
      if j < i {
        assert assets[..i][j] == assets[j];
        assert Told(assets[j], before, names, unlinked);
        Elsewhere(c, assets[j].component, names, later);
      }
    }
  }

  lemma Elsewhere(c: string, d: string, names: set<Name>, later: set<Name>)
    requires c != d && later - {Partial(c), Final(c)} == names - {Partial(c), Final(c)}
    ensures (Partial(d) in later <==> Partial(d) in names) && (Final(d) in later <==> Final(d) in names)
  {
    assert Partial(d) in later <==> Partial(d) in later - {Partial(c), Final(c)};
    assert Final(d) in later <==> Final(d) in later - {Partial(c), Final(c)};
  }

  lemma UntouchedKept(assets: seq<Asset>, i: nat, before: map<string, Outcome>, after: map<string, Outcome>,
                      names: set<Name>, later: set<Name>, unlinked: set<Name>, more: set<Name>, s: Scan,
                      held: Generation, k: nat)
    requires DistinctAssets(assets) && i < |assets| && Untouched(assets, i, before, names, unlinked, s)
    requires var c := assets[i].component;
             && OnlyAt(c, before, after)
             && later - {Partial(c), Final(c)} == names - {Partial(c), Final(c)}
             && unlinked <= more <= unlinked + {Partial(c)}
    ensures Untouched(assets, i + 1, after, later, more, Grown(s, assets[i].component, held, k))
  {
    var c := assets[i].component;
    forall j | i + 1 <= j < |assets|
      ensures Traceless(assets[j].component, after, later, more, Grown(s, c, held, k))
    {
      assert Traceless(assets[j].component, before, names, unlinked, s);
      Elsewhere(c, assets[j].component, names, later);
    }
  }

  /** The publisher's lasting state. */
  datatype Snapshot = Snapshot(journal: seq<Record>, readable: bool, names: set<Name>, unlinked: set<Name>,
                               immediate: map<string, Outcome>)

  ghost function Seen(p: Publisher): Snapshot
    reads p
  {
    Snapshot(p.journal, p.readable, p.names, p.unlinked, p.immediate)
  }

  /** What one download leaves to the others, and what its own outcome says. */
  ghost predicate Turned(a: Asset, sys: System, was: Snapshot, now: Snapshot, ok: bool, k: nat) {
    && k == (if was.readable then Appended(sys, a.size) else 0)
    && now.journal == was.journal + Script(a.component, sys.held)[..k]
    && (now.readable <==> was.readable && !SpoilsJournal(sys, a.size))
    && (ok <==> was.readable && Completes(sys, a.size))
    && (ok ==> Final(a.component) in now.names && Partial(a.component) !in now.names)
    && Told(a, now.immediate, now.names, now.unlinked) && OnlyAt(a.component, was.immediate, now.immediate)
    && now.names - {Partial(a.component), Final(a.component)} == was.names - {Partial(a.component), Final(a.component)}
    && was.unlinked <= now.unlinked <= was.unlinked + {Partial(a.component)}
  }

  method DownloadOne(publisher: Publisher, a: Asset, sys: System, ghost s: Scan) returns (ok: bool, ghost k: nat)
    requires Truthful(sys) && Traceless(a.component, publisher.immediate, publisher.names, publisher.unlinked, s)
    modifies publisher
    ensures Turned(a, sys, old(Seen(publisher)), Seen(publisher), ok, k)
  {
    ok, k := publisher.Download(a.component, a.size, sys);
  }

  // ---------------------------------------------------------------- when the journal is accepted

  /** What later readers make of the journal: nothing unless it can be read and its records fit. */
  function Reading(fixed: Fixed, readable: bool, records: seq<Record>): Option<Scan> {
    if readable then AssetRecords(fixed, records) else None
  }

  /** The download leaves a journal that is accepted if it was before. */
  ghost predicate Accountable(a: Asset, sys: System) {
    !SpoilsJournal(sys, a.size) && (Records(sys, a.size, FrozenEntry) ==> Counted(sys.held))
  }

  ghost predicate AllAccountable(assets: seq<Asset>, systems: seq<System>, n: nat)
    requires |systems| == |assets| && n <= |assets|
  {
    forall i :: 0 <= i < n ==> Accountable(assets[i], systems[i])
  }

  /** Every earlier download completed, so that this one is started. */
  ghost predicate Reached(assets: seq<Asset>, systems: seq<System>, i: nat)
    requires |systems| == |assets| && i <= |assets|
  {
    forall j :: 0 <= j < i ==> Completes(systems[j], assets[j].size)
  }

  /** No download that is reached spoils the journal or records a generation without positive counts. */
  ghost predicate ReachedAccountable(assets: seq<Asset>, systems: seq<System>)
    requires |systems| == |assets|
  {
    forall i :: 0 <= i < |assets| && Reached(assets, systems, i) ==> Accountable(assets[i], systems[i])
  }

  lemma SpoiledFails(sys: System, size: nat)
    requires SpoilsJournal(sys, size)
    ensures !Completes(sys, size)
  {
    SpoilsAre(sys, size);
  }

  lemma AppendedMeans(sys: System, size: nat)
    ensures Appended(sys, size) >= 3 <==> Records(sys, size, FrozenEntry)
    ensures Records(sys, size, FrozenEntry) ==> sys.held.policy == FrozenPolicy(size)
  {
  }

  /** One more download decides the journal as it says. */
  lemma AcceptedStep(fixed: Fixed, journal: seq<Record>, s: Scan, a: Asset, sys: System, before: Option<Scan>)
    requires a.component in fixed && fixed[a.component] == a.size && Fresh(s, a.component)
    requires before == AssetRecords(fixed, journal) && (before.Some? ==> before.value == s)
    ensures AssetRecords(fixed, journal + Script(a.component, sys.held)[..Appended(sys, a.size)])
         == if before.Some? && (Records(sys, a.size, FrozenEntry) ==> Counted(sys.held))
            then Some(Grown(s, a.component, sys.held, Appended(sys, a.size))) else None
  {
    var k := Appended(sys, a.size);
    AppendedMeans(sys, a.size);
    ScriptAccepted(fixed, s, a.component, sys.held, k);
    FoldAppend(fixed, NOTHING, journal, Script(a.component, sys.held)[..k]);
  }

  /** Where the loop stops, the downloads it has made are those it reaches. */
  lemma StoppedAt(assets: seq<Asset>, systems: seq<System>, n: nat)
    requires |systems| == |assets| && n <= |assets|
    requires n == |assets| || (n > 0 && !Completes(systems[n - 1], assets[n - 1].size))
    requires n > 0 ==> Reached(assets, systems, n - 1)
    ensures ReachedAccountable(assets, systems) <==> AllAccountable(assets, systems, n)
  {
    forall i | 0 <= i < |assets| ensures Reached(assets, systems, i) <==> i < n {
      if i >= n {
        assert n - 1 < i && !Completes(systems[n - 1], assets[n - 1].size);
      }
    }
    if ReachedAccountable(assets, systems) {
      forall i | 0 <= i < n ensures Accountable(assets[i], systems[i]) {
        assert Reached(assets, systems, i);
      }
    }
  }

  /**
   * The list comprehension over the runtime assets: it stops at the first download that raises.
   * Whatever fails, every outcome is honest. The journal is accepted afterwards exactly when it could
   * be read before, no reached append leaves a part of a line or a journal too long, and every
   * generation recorded has positive counts.
   */
  method DownloadAll(publisher: Publisher, fixed: Fixed, assets: seq<Asset>, systems: seq<System>, ghost start: Scan)
    returns (ok: bool)
    requires |systems| == |assets| && DistinctAssets(assets) && KnownAssets(fixed, assets)
    requires forall i :: 0 <= i < |systems| ==> Truthful(systems[i])
    requires AssetRecords(fixed, publisher.journal) == Some(start)
    requires Untouched(assets, 0, publisher.immediate, publisher.names, publisher.unlinked, start)
    modifies publisher
    ensures AllHonest(assets, publisher.immediate, publisher.names, publisher.unlinked)
    ensures Reading(fixed, publisher.readable, publisher.journal).Some? <==>
              old(publisher.readable) && ReachedAccountable(assets, systems)
    ensures ok ==> Published(assets, |assets|, publisher.names)
    ensures ok <==> assets == [] || (old(publisher.readable) && Reached(assets, systems, |assets|))
  {
    ghost var scan, legible := start, publisher.readable;
    ok := true;
    var i := 0;
    assert Progress(fixed, assets, systems, legible, 0, true, Seen(publisher), scan);
    while i < |assets| && ok
      invariant 0 <= i <= |assets|
      invariant Progress(fixed, assets, systems, legible, i, ok, Seen(publisher), scan)
      decreases |assets| - i
    {
      ghost var was := Seen(publisher);
      assert Traceless(assets[i].component, was.immediate, was.names, was.unlinked, scan);
      ghost var k: nat;
      ok, k := DownloadOne(publisher, assets[i], systems[i], scan);
      ProgressStep(fixed, assets, systems, legible, i, was, Seen(publisher), scan, ok, k);
      scan := Grown(scan, assets[i].component, systems[i].held, k);
      i := i + 1;
    }
    ProgressEnds(fixed, assets, systems, legible, i, ok, Seen(publisher), scan);
  }

  /** Where the loop stands after some downloads, all but the last of which completed. */
  ghost predicate Progress(fixed: Fixed, assets: seq<Asset>, systems: seq<System>, legible: bool, n: nat, ok: bool,
                           now: Snapshot, s: Scan)
    requires |systems| == |assets| && n <= |assets|
  {
    && AllHonest(assets[..n], now.immediate, now.names, now.unlinked)
    && Untouched(assets, n, now.immediate, now.names, now.unlinked, s)
    && (ok ==> Published(assets, n, now.names) && Reached(assets, systems, n) && now.readable == legible)
    && (ok && n > 0 ==> legible)
    && (!ok ==> n > 0 && Reached(assets, systems, n - 1) && !(legible && Completes(systems[n - 1], assets[n - 1].size)))
    && (now.readable ==> legible)
    && (legible ==> Decided(fixed, now.readable, now.journal, assets, systems, n, s))
  }

  lemma ProgressStep(fixed: Fixed, assets: seq<Asset>, systems: seq<System>, legible: bool, n: nat,
                     was: Snapshot, now: Snapshot, s: Scan, ok: bool, k: nat)
    requires |systems| == |assets| && n < |assets| && DistinctAssets(assets) && KnownAssets(fixed, assets)
    requires Progress(fixed, assets, systems, legible, n, true, was, s)
    requires Turned(assets[n], systems[n], was, now, ok, k)
    ensures Progress(fixed, assets, systems, legible, n + 1, ok, now, Grown(s, assets[n].component, systems[n].held, k))
  {
    assert Traceless(assets[n].component, was.immediate, was.names, was.unlinked, s);
    HonestKept(assets, n, was.immediate, now.immediate, was.names, now.names, was.unlinked, now.unlinked);
    UntouchedKept(assets, n, was.immediate, now.immediate, was.names, now.names, was.unlinked, now.unlinked, s,
                  systems[n].held, k);
    PublishedKept(assets, n, was.names, now.names);
    if legible {
      DecidedStep(fixed, was.journal, now.readable, assets, systems, n, s);
    }
    if SpoilsJournal(systems[n], assets[n].size) {
      SpoiledFails(systems[n], assets[n].size);
    }
  }

  lemma ProgressEnds(fixed: Fixed, assets: seq<Asset>, systems: seq<System>, legible: bool, n: nat, ok: bool,
                     now: Snapshot, s: Scan)
    requires |systems| == |assets| && n <= |assets| && Progress(fixed, assets, systems, legible, n, ok, now, s)
    requires !ok || n == |assets|
    ensures AllHonest(assets, now.immediate, now.names, now.unlinked) && (ok ==> Published(assets, |assets|, now.names))
    ensures Reading(fixed, now.readable, now.journal).Some? <==> legible && ReachedAccountable(assets, systems)
    ensures ok <==> assets == [] || (legible && Reached(assets, systems, |assets|))
  {
    UntouchedHonest(assets, n, now.immediate, now.names, now.unlinked, s);
    if legible {
      StoppedAt(assets, systems, n);
    }
  }

  /** What the journal amounts to after some downloads, the last of which may have spoiled it. */
  ghost predicate Decided(fixed: Fixed, readable: bool, journal: seq<Record>, assets: seq<Asset>, systems: seq<System>,
                          n: nat, s: Scan)
    requires |systems| == |assets| && n <= |assets|
  {
    && (Reading(fixed, readable, journal).Some? <==> AllAccountable(assets, systems, n))
    && (AssetRecords(fixed, journal).Some? ==> AssetRecords(fixed, journal).value == s)
  }

  lemma DecidedStep(fixed: Fixed, journal: seq<Record>, readable: bool, assets: seq<Asset>, systems: seq<System>,
                    n: nat, s: Scan)
    requires |systems| == |assets| && n < |assets| && KnownAssets(fixed, assets) && Fresh(s, assets[n].component)
    requires Decided(fixed, true, journal, assets, systems, n, s)
    requires readable == !SpoilsJournal(systems[n], assets[n].size)
    ensures var k := Appended(systems[n], assets[n].size);
            Decided(fixed, readable, journal + Script(assets[n].component, systems[n].held)[..k], assets, systems,
                    n + 1, Grown(s, assets[n].component, systems[n].held, k))
  {
    AcceptedStep(fixed, journal, s, assets[n], systems[n], AssetRecords(fixed, journal));
    assert AllAccountable(assets, systems, n + 1) <==>
             AllAccountable(assets, systems, n) && Accountable(assets[n], systems[n]);
  }

  ghost predicate Published(assets: seq<Asset>, n: nat, names: set<Name>)
    requires n <= |assets|
  {
    forall i :: 0 <= i < n ==> Final(assets[i].component) in names && Partial(assets[i].component) !in names
  }

  lemma PublishedKept(assets: seq<Asset>, i: nat, names: set<Name>, later: set<Name>)
    requires DistinctAssets(assets) && i < |assets|
    requires var c := assets[i].component; later - {Partial(c), Final(c)} == names - {Partial(c), Final(c)}
    ensures Published(assets, i, names) ==> Published(assets, i, later)
  {
    forall j | 0 <= j < i
      ensures (Partial(assets[j].component) in later <==> Partial(assets[j].component) in names)
           && (Final(assets[j].component) in later <==> Final(assets[j].component) in names)
    {
      Elsewhere(assets[i].component, assets[j].component, names, later);
    }
  }

  lemma UntouchedHonest(assets: seq<Asset>, n: nat, immediate: map<string, Outcome>, names: set<Name>,
                        unlinked: set<Name>, s: Scan)
    requires n <= |assets| && AllHonest(assets[..n], immediate, names, unlinked)
    requires Untouched(assets, n, immediate, names, unlinked, s)
    ensures AllHonest(assets, immediate, names, unlinked)
  {
  }

  // ---------------------------------------------------------------- later cleanup

  /** The names cleanup may remove: sealed final names, and frozen partial names not sealed. */
  function Owned(s: Scan): set<Name> {
    (set c | c in s.sealed :: Final(c)) + (set c | c in s.final && c !in s.sealed :: Partial(c))
  }

  /** The directory holds nothing but owned names, and every frozen asset is accounted for. */
  predicate Admitted(s: Scan, present: set<Name>, immediate: map<string, Outcome>) {
    present <= Owned(s) && forall c :: c in s.final ==>
      c in s.sealed || Partial(c) in present || (c in immediate && immediate[c] == Success)
  }

  datatype Event = Verified(name: Name) | Unlinked(name: Name)

  /** What the system answers about each name: as recorded, still as recorded, and the unlink's fault. */
  datatype Checks = Checks(asRecorded: Name -> bool, stillAsRecorded: Name -> bool, unlink: Name -> Fault)

  function Verifications(events: seq<Event>): set<Name> {
    set e | e in events && e.Verified? :: e.name
  }

  function Removals(events: seq<Event>): set<Name> {
    set e | e in events && e.Unlinked? :: e.name
  }

  /** No unlink comes before the verification of every name that was present. */
  ghost predicate VerifiedFirst(events: seq<Event>, present: set<Name>) {
    forall i :: 0 <= i < |events| && events[i].Unlinked? ==>
      present <= Verifications(events[..i]) && events[i].name in present
  }

  /**
   * The body of `_cleanup_assets` once the directory is open. It unlinks nothing before every present
   * name is verified as owned, and refuses a directory it does not admit without touching it.
   */
  method CleanupDirectory(s: Scan, present: set<Name>, immediate: map<string, Outcome>, checks: Checks)
    returns (ok: bool, events: seq<Event>, remaining: set<Name>)
    ensures VerifiedFirst(events, present) && remaining == present - Removals(events)
    ensures Removals(events) != {} ==>
              Admitted(s, present, immediate) && forall n :: n in present ==> checks.asRecorded(n)
    ensures !Admitted(s, present, immediate) ==> !ok && events == []
    ensures ok <==> Admitted(s, present, immediate) && forall n :: n in present ==>
              checks.asRecorded(n) && checks.stillAsRecorded(n) && checks.unlink(n).Fine?
    ensures ok ==> remaining == {} && Removals(events) == present
  {
    events, remaining := [], present;
    if !Admitted(s, present, immediate) {
      return false, events, remaining;
    }
    ok, events := VerifyAll(present, checks);
    if !ok {
      return;
    }
    ok, events := UnlinkAll(present, checks, events);
    remaining := present - Removals(events);
  }

  /** The asset directory: absent, or there with its names, and what is found of its own identity before and after. */
  datatype Directory =
    | NoDirectory
    | Found(present: set<Name>, recorded: bool, asRecorded: bool, close: Fault, stillAsRecorded: bool, rmdir: Fault)

  /** Every name could be verified, verified again and unlinked. */
  predicate AllRemovable(present: set<Name>, checks: Checks) {
    forall n :: n in present ==> checks.asRecorded(n) && checks.stillAsRecorded(n) && checks.unlink(n).Fine?
  }

  /** Every frozen asset is sealed or was withdrawn. */
  predicate NoneMissing(s: Scan, immediate: map<string, Outcome>) {
    forall c :: c in s.final ==> c in s.sealed || (c in immediate && immediate[c] == Success)
  }

  /** The directory is the recorded one, and the journal that was read admits what is in it. */
  predicate Admissible(read: Option<Scan>, d: Directory, immediate: map<string, Outcome>)
    requires d.Found?
  {
    read.Some? && d.recorded && d.asRecorded && Admitted(read.value, d.present, immediate)
  }

  predicate Removable(read: Option<Scan>, d: Directory, immediate: map<string, Outcome>, checks: Checks)
    requires d.Found?
  {
    Admissible(read, d, immediate) && AllRemovable(d.present, checks) && d.close.Fine? && d.stillAsRecorded
  }

  /**
   * `_cleanup_assets` on what was read of the journal, which may be nothing. It succeeds exactly when
   * the journal is accepted and the directory is absent with nothing missing, or is the recorded one,
   * is emptied and removed. It is removed only when empty, and without an accepted journal, or in a
   * directory other than the recorded one, nothing is touched.
   */
  method CleanupAssets(read: Option<Scan>, d: Directory, immediate: map<string, Outcome>, checks: Checks)
    returns (ok: bool, events: seq<Event>, gone: bool)
    ensures d.NoDirectory? ==> gone && events == [] && (ok <==> read.Some? && NoneMissing(read.value, immediate))
    ensures d.Found? ==> (gone <==> Removable(read, d, immediate, checks) && !d.rmdir.Before?)
    ensures d.Found? ==> (ok <==> Removable(read, d, immediate, checks) && d.rmdir.Fine?)
    ensures d.Found? && gone ==> Removals(events) == d.present
    ensures d.Found? && !Admissible(read, d, immediate) ==> events == []
    ensures d.Found? ==> VerifiedFirst(events, d.present)
  {
    events := [];
    if read.None? {
      return false, events, d.NoDirectory?;
    }
    if d.NoDirectory? {
      return NoneMissing(read.value, immediate), events, true;
    }
    if !d.recorded || !d.asRecorded {
      return false, events, false;
    }
    var remaining;
    ok, events, remaining := CleanupDirectory(read.value, d.present, immediate, checks);
    if !ok || !d.close.Fine? || !d.stillAsRecorded {
      return false, events, false;
    }
    return d.rmdir.Fine?, events, !d.rmdir.Before?;
  }

  /** The first loop. */
  method VerifyAll(present: set<Name>, checks: Checks) returns (ok: bool, events: seq<Event>)
    ensures Removals(events) == {} && (ok ==> Verifications(events) == present)
    ensures forall i :: 0 <= i < |events| ==> events[i].Verified?
    ensures ok <==> forall n :: n in present ==> checks.asRecorded(n)
  {
    events := [];
    var rest := present;
    while rest != {}
      invariant rest <= present && Verifications(events) == present - rest
      invariant forall i :: 0 <= i < |events| ==> events[i].Verified?
      invariant forall n :: n in present && n !in rest ==> checks.asRecorded(n)
    {
      var n :| n in rest;
      if !checks.asRecorded(n) {
        return false, events;
      }
      VerifiedMore(events, n);
      events := events + [Verified(n)];
      rest := rest - {n};
    }
    ok := true;
  }

  lemma VerifiedMore(events: seq<Event>, n: Name)
    ensures Verifications(events + [Verified(n)]) == Verifications(events) + {n}
    ensures Removals(events + [Verified(n)]) == Removals(events)
  {
  }

  lemma RemovedMore(events: seq<Event>, n: Name)
    ensures Removals(events + [Unlinked(n)]) == Removals(events) + {n}
    ensures Verifications(events + [Unlinked(n)]) == Verifications(events)
  {
  }

  lemma UnlinkedLast(events: seq<Event>, present: set<Name>, n: Name)
    requires VerifiedFirst(events, present) && present <= Verifications(events) && n in present
    ensures VerifiedFirst(events + [Unlinked(n)], present)
  {
    var more := events + [Unlinked(n)];
    forall i | 0 <= i < |more| && more[i].Unlinked?
      ensures present <= Verifications(more[..i]) && more[i].name in present
    {
      assert more[..i] == events[..i];
      if i == |events| {
        assert events[..i] == events;
      }
    }
  }

  /** The second loop: each name is checked again, then unlinked. */
  method UnlinkAll(present: set<Name>, checks: Checks, verified: seq<Event>) returns (ok: bool, events: seq<Event>)
    requires Verifications(verified) == present && Removals(verified) == {} && VerifiedFirst(verified, present)
    ensures VerifiedFirst(events, present) && Removals(events) <= present
    ensures ok <==> forall n :: n in present ==> checks.stillAsRecorded(n) && checks.unlink(n).Fine?
    ensures ok ==> Removals(events) == present
  {
    events := verified;
    var rest := present;
    while rest != {}
      invariant rest <= present && Removals(events) == present - rest && Verifications(events) == present
      invariant VerifiedFirst(events, present)
      invariant forall n :: n in present && n !in rest ==> checks.stillAsRecorded(n) && checks.unlink(n).Fine?
    {
      var n :| n in rest;
      if !checks.stillAsRecorded(n) || checks.unlink(n).Before? {
        return false, events;
      }
      UnlinkedLast(events, present, n);
      RemovedMore(events, n);
      events := events + [Unlinked(n)];
      if checks.unlink(n).After? {
        return false, events;
      }
      rest := rest - {n};
    }
    ok := true;
  }

  /** A linked asset that was preserved stands under two names of which one is not owned: cleanup refuses it. */
  lemma LinkedIsRefused(s: Scan, present: set<Name>, immediate: map<string, Outcome>, c: string)
    requires Final(c) in present && c !in s.sealed
    ensures !Admitted(s, present, immediate)
  {
    assert Final(c) !in Owned(s);
  }

  /** What a run leaves of a finished or successfully withdrawn asset is admitted. */
  lemma SettledIsAdmitted(s: Scan, present: set<Name>, immediate: map<string, Outcome>)
    requires forall n :: n in present ==> exists c :: c in s.sealed && n == Final(c)
    requires forall c :: c in s.final && c !in s.sealed ==> c in immediate && immediate[c] == Success
    ensures Admitted(s, present, immediate)
  {
    forall n | n in present ensures n in Owned(s) {
      var c :| c in s.sealed && n == Final(c);
    }
  }
}
