/**
 * `_object_plan` as a whole: the graph check, the visit, and the plan made of it. Once the graph check
 * has passed, a plan comes out exactly for the sources described here.
 */
module SourcePlanning {
  import opened Basics
  import opened GitTree
  import opened ObjectWalk
  import opened SourcePlan
  import opened SourceFits
  import opened SourceVisit
  import opened SourceLayout

  // ---------------------------------------------------------------- which sources have a plan

  /** Some file is listed below the path. */
  ghost predicate HoldsFile(listed: Listing, q: Parts) {
    exists p :: p in listed && listed[p].mode != TREE && Extends(q, p)
  }

  ghost predicate NoEmptyTree(listed: Listing) {
    forall q :: q in listed && listed[q].mode == TREE ==> HoldsFile(listed, q)
  }

  /** What lookup finds fits, no tree is without a file, and with the sentinel there are not too many entries. */
  ghost predicate Plannable(git: Git, text: Text, root: string, want: Listing) {
    Suitable(git, text, root, want) && NoEmptyTree(want) && |want| + 1 <= MAX_ENTRIES
  }

  ghost predicate HasPlan(git: Git, text: Text, root: string) {
    exists want :: Plannable(git, text, root, want)
  }

  lemma NoEmptyPath(text: Text)
    ensures !ValidPath(text, PathOf([]))
  {
  }

  /** A source that fits has one listing. */
  lemma OneListing(git: Git, text: Text, root: string, want: Listing, listed: Listing)
    requires Suitable(git, text, root, want) && Complete(git, text, root, [], listed) && Rooted(git, text, root, listed)
    ensures want == listed
  {
    forall q ensures q in want <==> q in listed {
      if q == [] {
        if q in want {
          assert RowFits(git, text, q, want[q]);
          NoEmptyPath(text);
        }
      } else {
        ListedAt(git, text, root, want, q);
        ListedAt(git, text, root, listed, q);
      }
    }
    forall q | q in want ensures want[q] == listed[q] {
      ListedAt(git, text, root, want, q);
      ListedAt(git, text, root, listed, q);
    }
  }

  // ---------------------------------------------------------------- counting entries

  ghost function Trees(listed: Listing): set<Parts> {
    set q | q in listed && listed[q].mode == TREE
  }

  ghost function Files(listed: Listing): set<Parts> {
    set q | q in listed && listed[q].mode != TREE
  }

  lemma {:induction false} DistinctCount(at: seq<Parts>, files: set<Parts>)
    requires forall q :: q in files <==> q in at
    requires forall i, j :: 0 <= i < j < |at| ==> at[i] != at[j]
    ensures |files| == |at|
  {
    if at == [] {
      assert files == {};
    } else {
      var last := at[|at| - 1];
      var rest := at[..|at| - 1];
      assert last !in rest;
      forall q ensures q in files - {last} <==> q in rest {
        assert at == rest + [last];
      }
      DistinctCount(rest, files - {last});
    }
  }

  lemma {:induction false} PathCount(trees: set<Parts>, directories: set<string>)
    requires forall q :: q in trees ==> Clean(q) && PathOf(q) in directories
    requires forall d :: d in directories ==> exists q :: q in trees && PathOf(q) == d
    ensures |trees| == |directories|
  {
    if trees == {} {
      assert directories == {};
    } else {
      var q :| q in trees;
      forall p | p in trees - {q} ensures PathOf(p) in directories - {PathOf(q)} {
        if PathOf(p) == PathOf(q) {
          PathInjective(p, q);
        }
      }
      PathCount(trees - {q}, directories - {PathOf(q)});
    }
  }

  lemma EntriesCounted(git: Git, text: Text, blobs: seq<File>, at: seq<Parts>, directories: set<string>,
                       listed: Listing)
    requires Filed(git, text, blobs, at, directories, listed)
    ensures |blobs| + |directories| == |listed|
  {
    forall q ensures q in Files(listed) <==> q in at {
      if q in Files(listed) {
        var i := HeldAt(at, q);
      }
    }
    DistinctCount(at, Files(listed));
    PathCount(Trees(listed), directories);
    assert Trees(listed) + Files(listed) == listed.Keys;
  }

  // ---------------------------------------------------------------- trees without files

  lemma PassesAbove(p: Parts, q: Parts)
    requires p != [] && q != [] && Clean(p) && Clean(q) && Passes(PathOf(p), PathOf(q))
    ensures Extends(q, p)
  {
    CleanSplit(p);
    var n :| 1 <= n < |p| && Ancestor(PathOf(p), n) == PathOf(q);
    var above := p[..n];
    assert above != [] && Clean(above) && PathOf(above) == PathOf(q);
    PathInjective(above, q);
  }

  lemma AbovePasses(p: Parts, q: Parts)
    requires p != [] && q != [] && Clean(p) && Extends(q, p)
    ensures Passes(PathOf(p), PathOf(q))
  {
    CleanSplit(p);
    assert p[..|q|] == q;
    assert Ancestor(PathOf(p), |q|) == PathOf(q);
  }

  lemma PassedHolds(git: Git, blobs: seq<File>, at: seq<Parts>, listed: Listing, q: Parts)
    requires FilesOf(git, blobs, at, listed) && (forall p :: p in listed ==> p != [] && Clean(p)) && q in listed
    requires PassedBy(blobs, PathOf(q))
    ensures HoldsFile(listed, q)
  {
    var i :| 0 <= i < |blobs| && Passes(blobs[i].path, PathOf(q));
    assert at[i] in listed && IsFile(git, blobs[i], at[i], listed[at[i]]);
    PassesAbove(at[i], q);
  }

  lemma HoldsPassed(git: Git, blobs: seq<File>, at: seq<Parts>, listed: Listing, q: Parts)
    requires FilesOf(git, blobs, at, listed) && (forall p :: p in listed ==> p != [] && Clean(p)) && q in listed
    requires HoldsFile(listed, q)
    ensures PassedBy(blobs, PathOf(q))
  {
    var p :| p in listed && listed[p].mode != TREE && Extends(q, p);
    var i := HeldAt(at, p);
    assert IsFile(git, blobs[i], p, listed[p]);
    AbovePasses(p, q);
  }

  /** Every directory is passed by a file exactly when no tree is without one. */
  lemma AllPassed(git: Git, text: Text, blobs: seq<File>, at: seq<Parts>, directories: set<string>, listed: Listing)
    requires Filed(git, text, blobs, at, directories, listed)
    ensures NoEmptyTree(listed) <==> forall d :: d in directories ==> PassedBy(blobs, d)
  {
    if NoEmptyTree(listed) {
      forall d | d in directories ensures PassedBy(blobs, d) {
        var q :| q in listed && listed[q].mode == TREE && PathOf(q) == d;
        HoldsPassed(git, blobs, at, listed, q);
      }
    }
    if forall d :: d in directories ==> PassedBy(blobs, d) {
      forall q | q in listed && listed[q].mode == TREE ensures HoldsFile(listed, q) {
        PassedHolds(git, blobs, at, listed, q);
      }
    }
  }

  // ---------------------------------------------------------------- the plan

  lemma VisitedSuitable(git: Git, text: Text, root: string, listed: Listing)
    requires Rows(git, text, root).Some? && Complete(git, text, root, [], listed) && ValidListing(text, listed)
    requires ReadBelow(git, text, [], listed) && FilesFit(git, listed)
    requires 2 + Sum(listed, Units()) <= MAX_REACHABLE_OBJECTS
    requires |SENTINEL| + Sum(listed, Octets(git)) <= MAX_TOTAL_BYTES
    ensures Suitable(git, text, root, listed)
  {
    forall q | q in listed ensures RowFits(git, text, q, listed[q]) {
      assert Extends([], q);
      assert TreeRead(git, text, q, listed[q]);
    }
  }

  /** What the end of `_object_plan` asks of a completed visit is what a plan needs. */
  lemma VisitDecides(git: Git, text: Text, root: string, blobs: seq<File>, at: seq<Parts>, directories: set<string>,
                     listed: Listing)
    requires Filed(git, text, blobs, at, directories, listed)
    requires Suitable(git, text, root, listed) && Rooted(git, text, root, listed)
    ensures HasPlan(git, text, root)
       <==> (forall d :: d in directories ==> PassedBy(blobs, d)) && |blobs| + 1 + |directories| <= MAX_ENTRIES
  {
    EntriesCounted(git, text, blobs, at, directories, listed);
    AllPassed(git, text, blobs, at, directories, listed);
    if HasPlan(git, text, root) {
      var want :| Plannable(git, text, root, want);
      OneListing(git, text, root, want, listed);
    }
    if NoEmptyTree(listed) && |listed| + 1 <= MAX_ENTRIES {
      assert Plannable(git, text, root, listed);
    }
  }

  lemma RootAhead(finished: seq<string>, root: string)
    requires root in finished
    ensures Ahead(finished, root, {})
  {
    var k :| 0 <= k < |finished| && finished[k] == root;
    assert NoneIn({}, finished[..k + 1]);
  }

  /** The visit from the root. */
  method VisitRoot(planner: Planner, root: string, ghost trees: set<string>, ghost finished: seq<string>)
    returns (ok: bool)
    requires planner.Valid() && planner.listed == map[] && planner.objectCount == 1
    requires Stocked(planner.reader.git, planner.reader.cache, trees, finished) && root in finished
    modifies planner, planner.reader
    ensures ok ==> planner.Valid() && Suitable(planner.reader.git, planner.text, root, planner.listed)
    ensures ok ==> Rooted(planner.reader.git, planner.text, root, planner.listed)
    ensures HasPlan(planner.reader.git, planner.text, root) ==> ok && planner.reader.cache == old(planner.reader.cache)
  {
    ghost var git, text := planner.reader.git, planner.text;
    ghost var want := map[];
    if HasPlan(git, text, root) {
      want :| Plannable(git, text, root, want);
    }
    RootAhead(finished, root);
    ok := planner.Visit(root, "", [], {}, Hope(root, want, trees, finished));
    if ok {
      VisitedSuitable(git, text, root, planner.listed);
    }
  }

  /** The visit from the root and the plan made of it, after the graph check. */
  method PlanTree(planner: Planner, root: string, ghost trees: set<string>, ghost finished: seq<string>)
    returns (plan: Option<Plan>)
    requires planner.Valid() && planner.listed == map[] && planner.objectCount == 1
    requires Stocked(planner.reader.git, planner.reader.cache, trees, finished) && root in finished
    modifies planner, planner.reader
    ensures plan.Some? ==> GoodPlan(planner.reader.git, planner.text, root, plan.value)
    ensures plan.Some? ==> planner.reader.cache == old(planner.reader.cache)
    ensures plan.Some? <==> HasPlan(planner.reader.git, planner.text, root)
  {
    var ok := VisitRoot(planner, root, trees, finished);
    if !ok {
      return None;
    }
    VisitDecides(planner.reader.git, planner.text, root, planner.blobs, planner.at, planner.directories,
                 planner.listed);
    plan := Settle(planner, root);
  }

  method Settle(planner: Planner, root: string) returns (plan: Option<Plan>)
    requires planner.Valid() && Complete(planner.reader.git, planner.text, root, [], planner.listed)
    ensures plan.Some? ==> GoodPlan(planner.reader.git, planner.text, root, plan.value)
    ensures plan.Some? <==> (forall d :: d in planner.directories ==> PassedBy(planner.blobs, d))
                            && |planner.blobs| + 1 + |planner.directories| <= MAX_ENTRIES
  {
    ghost var git, text := planner.reader.git, planner.text;
    ListedFaithful(git, text, root, planner.blobs, planner.at, planner.directories, planner.listed);
    FilesDiffer(git, text, planner.blobs, planner.at, planner.directories, planner.listed);
    forall d | PassedBy(planner.blobs, d) ensures d in planner.directories {
      DerivedWithin(git, text, root, planner.blobs, planner.at, planner.directories, planner.listed, d);
    }
    plan := Arrange(planner.blobs, planner.directories, git, text, root);
  }

  /**
   * `_object_plan` from the commit's root tree. The cache the graph check leaves holds the whole graph,
   * verified, and an accepted plan is made of it alone. A checked source has a plan exactly if what
   * lookup finds in it fits and no tree is without a file.
   */
  method ObjectPlan(reader: Reader, text: Text, root: string, ghost world: World)
    returns (checked: bool, plan: Option<Plan>, ghost seen: map<Key, string>)
    requires reader.Valid()
    modifies reader
    ensures checked ==> WholeGraph(reader.git, seen, root)
    ensures Welcome(reader.git, old(reader.cache), world, root, {}) && |world.keys| < MAX_REACHABLE_OBJECTS ==> checked
    ensures plan.Some? ==> GoodPlan(reader.git, text, root, plan.value) && reader.cache == seen
    ensures plan.Some? <==> checked && HasPlan(reader.git, text, root)
  {
    plan := None;
    var walk := new Walk(reader);
    checked := walk.Verify(root, world);
    seen := reader.cache;
    if !checked {
      return;
    }
    var planner := new Planner(reader, text);
    plan := PlanTree(planner, root, walk.trees, walk.finished);
  }
}
