/**
 * The plan made of a visit: the sentinel is added, files and directories are sorted, the directories
 * are compared with the prefixes of the file paths, and the tree is created parent by parent.
 */
module SourceLayout {
  import opened Basics
  import opened Order
  import opened Separated
  import opened GitTree
  import opened ObjectWalk
  import opened SourcePlan
  import opened SourceFits

  datatype Plan = Plan(directories: seq<string>, files: seq<File>)

  // ---------------------------------------------------------------- directories of paths

  /** The directories a path passes through, by number of components. */
  function Ancestor(path: string, n: nat): string
    requires 1 <= n <= |Split(path, '/')|
  {
    Join(Split(path, '/')[..n], '/')
  }

  predicate Passes(path: string, d: string) {
    exists n :: 1 <= n < |Split(path, '/')| && Ancestor(path, n) == d
  }

  predicate PassedBy(files: seq<File>, d: string) {
    exists i :: 0 <= i < |files| && Passes(files[i].path, d)
  }

  /** `_directories`, before sorting. */
  method Directories(files: seq<File>) returns (values: set<string>)
    ensures forall d :: d in values <==> PassedBy(files, d)
  {
    values := {};
    var i := 0;
    while i < |files|
      invariant 0 <= i <= |files|
      invariant forall d :: d in values <==> PassedBy(files[..i], d)
    {
      var parts := Split(files[i].path, '/');
      var n := 1;
      ghost var before := values;
      while n < |parts|
        invariant 1 <= n <= |parts|
        invariant forall d :: d in values <==> d in before || exists m :: 1 <= m < n && Ancestor(files[i].path, m) == d
      {
        values := values + {Join(parts[..n], '/')};
        assert Ancestor(files[i].path, n) == Join(parts[..n], '/');
        n := n + 1;
      }
      PassedByOne(files, i);
      i := i + 1;
    }
    assert files[..|files|] == files;
  }

  lemma PassedByOne(files: seq<File>, i: nat)
    requires i < |files|
    ensures forall d :: PassedBy(files[..i + 1], d) <==> PassedBy(files[..i], d) || Passes(files[i].path, d)
  {
    forall d
      ensures PassedBy(files[..i + 1], d) <==> PassedBy(files[..i], d) || Passes(files[i].path, d)
    {
      if PassedBy(files[..i], d) {
        var k :| 0 <= k < i && Passes(files[..i][k].path, d);
        assert files[..i + 1][k] == files[..i][k];
      }
      if Passes(files[i].path, d) {
        assert files[..i + 1][i] == files[i];
      }
    }
  }

  // ---------------------------------------------------------------- lookup passes through trees

  /** Whatever a path leads to, its strict prefixes lead to trees. */
  lemma {:induction false} LookupPrefix(git: Git, text: Text, id: string, q: Parts, n: nat)
    requires 1 <= n < |q| && Lookup(git, text, id, q).Some?
    ensures Lookup(git, text, id, q[..n]).Some? && Lookup(git, text, id, q[..n]).value.mode == TREE
    decreases |q|
  {
    var row := Named(Rows(git, text, id).value, q[0]).value;
    assert q[..n][0] == q[0];
    if n > 1 {
      LookupPrefix(git, text, row.id, q[1..], n - 1);
      assert q[..n][1..] == q[1..][..n - 1];
    }
  }

  lemma CleanSplit(q: Parts)
    requires q != [] && Clean(q)
    ensures Split(PathOf(q), '/') == q
  {
    SplitJoin(q, '/');
  }

  /** Every directory a file passes through was listed as a tree. */
  lemma DerivedWithin(git: Git, text: Text, root: string, blobs: seq<File>, at: seq<Parts>, directories: set<string>,
                      listed: Listing, d: string)
    requires Filed(git, text, blobs, at, directories, listed) && Complete(git, text, root, [], listed)
    requires PassedBy(blobs, d)
    ensures d in directories
  {
    var i :| 0 <= i < |blobs| && Passes(blobs[i].path, d);
    var q := at[i];
    CleanSplit(q);
    var n :| 1 <= n < |q| && Ancestor(blobs[i].path, n) == d;
    ListedAt(git, text, root, listed, q);
    LookupPrefix(git, text, root, q, n);
    ListedAt(git, text, root, listed, q[..n]);
    assert PathOf(q[..n]) == d;
  }

  // ---------------------------------------------------------------- sorting

  function Depth(d: string): nat {
    |Split(d, '/')|
  }

  /** By number of slashes, then by bytes. */
  predicate Shallower(a: string, b: string) {
    Depth(a) < Depth(b) || (Depth(a) == Depth(b) && Less(a, b))
  }

  predicate ShallowFirst(ds: seq<string>) {
    forall i, j :: 0 <= i < j < |ds| ==> Shallower(ds[i], ds[j])
  }

  /** `sorted` over a set of directories. */
  method SortDirectories(values: set<string>) returns (ds: seq<string>)
    ensures ShallowFirst(ds) && |ds| == |values| && forall d :: d in ds <==> d in values
  {
    ds := [];
    var rest := values;
    while rest != {}
      invariant ShallowFirst(ds) && rest <= values && |ds| + |rest| == |values|
      invariant forall d :: d in ds <==> d in values && d !in rest
    {
      var d :| d in rest;
      var k := 0;
      while k < |ds| && Shallower(ds[k], d)
        invariant 0 <= k <= |ds|
        invariant forall i :: 0 <= i < k ==> Shallower(ds[i], d)
      {
        k := k + 1;
      }
      Inserted(ds, d, k);
      ds := ds[..k] + [d] + ds[k..];
      rest := rest - {d};
    }
  }

  lemma ShallowerTransitive(a: string, b: string, c: string)
    requires Shallower(a, b) && Shallower(b, c)
    ensures Shallower(a, c)
  {
    if Less(a, b) && Less(b, c) {
      LessTransitive(a, b, c);
    }
  }

  lemma Inserted(ds: seq<string>, d: string, k: nat)
    requires ShallowFirst(ds) && d !in ds && k <= |ds|
    requires forall i :: 0 <= i < k ==> Shallower(ds[i], d)
    requires k < |ds| ==> !Shallower(ds[k], d)
    ensures ShallowFirst(ds[..k] + [d] + ds[k..])
    ensures forall e :: e in ds[..k] + [d] + ds[k..] <==> e in ds || e == d
  {
    var after := ds[..k] + [d] + ds[k..];
    if k < |ds| {
      LessTotal(d, ds[k]);
      forall i | k < i < |ds| ensures Shallower(d, ds[i]) {
        ShallowerTransitive(d, ds[k], ds[i]);
      }
    }
    assert ds == ds[..k] + ds[k..];
  }

  predicate PathsIncrease(files: seq<File>) {
    forall i, j :: 0 <= i < j < |files| ==> Less(files[i].path, files[j].path)
  }

  predicate PathsDiffer(files: seq<File>) {
    forall i, j :: 0 <= i < j < |files| ==> files[i].path != files[j].path
  }

  /** `blobs.sort` by path. */
  method SortFiles(files: seq<File>) returns (sorted: seq<File>)
    requires PathsDiffer(files)
    ensures PathsIncrease(sorted) && |sorted| == |files| && forall f :: f in sorted <==> f in files
  {
    sorted := [];
    var i := 0;
    while i < |files|
      invariant 0 <= i == |sorted| <= |files| && PathsIncrease(sorted)
      invariant forall f :: f in sorted <==> f in files[..i]
    {
      var f := files[i];
      forall g | g in sorted ensures g.path != f.path {
        var j :| 0 <= j < i && files[..i][j] == g;
      }
      var k := 0;
      while k < |sorted| && Less(sorted[k].path, f.path)
        invariant 0 <= k <= |sorted|
        invariant forall j :: 0 <= j < k ==> Less(sorted[j].path, f.path)
      {
        k := k + 1;
      }
      FileInserted(sorted, f, k);
      sorted := sorted[..k] + [f] + sorted[k..];
      assert files[..i + 1] == files[..i] + [f];
      i := i + 1;
    }
    assert files[..|files|] == files;
  }

  lemma FileInserted(files: seq<File>, f: File, k: nat)
    requires PathsIncrease(files) && k <= |files| && forall g :: g in files ==> g.path != f.path
    requires forall i :: 0 <= i < k ==> Less(files[i].path, f.path)
    requires k < |files| ==> !Less(files[k].path, f.path)
    ensures PathsIncrease(files[..k] + [f] + files[k..])
    ensures forall e :: e in files[..k] + [f] + files[k..] <==> e in files || e == f
  {
    if k < |files| {
      LessTotal(f.path, files[k].path);
      assert files[k] in files;
      forall i | k < i < |files| ensures Less(f.path, files[i].path) {
        LessTransitive(f.path, files[k].path, files[i].path);
      }
    }
    assert files == files[..k] + files[k..];
  }

  // ---------------------------------------------------------------- the plan

  const SENTINEL_FILE := File(SENTINEL_NAME, false, "", SENTINEL)

  /** The path leads to something other than a tree. */
  ghost predicate Stored(git: Git, text: Text, root: string, q: Parts) {
    q != [] && Lookup(git, text, root, q).Some? && Lookup(git, text, root, q).value.mode != TREE
  }

  /** A file of the plan other than the sentinel: the path leads to its row, and the content is genuine. */
  ghost predicate FileAt(git: Git, text: Text, root: string, q: Parts, f: File) {
    && Stored(git, text, root, q) && Clean(q) && IsFile(git, f, q, Lookup(git, text, root, q).value)
  }

  ghost predicate TreeAt(git: Git, text: Text, root: string, q: Parts, d: string) {
    && q != [] && Clean(q) && Lookup(git, text, root, q).Some? && Lookup(git, text, root, q).value.mode == TREE
    && d == PathOf(q)
  }

  /** The files are the stored files and the sentinel, each once, and the directories are the stored trees. */
  ghost predicate Faithful(git: Git, text: Text, root: string, files: seq<File>, directories: set<string>) {
    && (forall f :: f in files ==> f == SENTINEL_FILE || exists q :: FileAt(git, text, root, q, f))
    && SENTINEL_FILE in files
    && (forall q :: Stored(git, text, root, q) ==> exists f :: f in files && FileAt(git, text, root, q, f))
    && (forall d :: d in directories <==> exists q :: TreeAt(git, text, root, q, d))
  }

  lemma OtherName(q: Parts, name: string)
    requires q != [] && Clean(q) && '/' !in name && q[0] != name
    ensures PathOf(q) != name
  {
    CleanSplit(q);
    SplitHead(name, [], '/');
    assert [name][0] == name;
  }

  /** No stored path is the sentinel's, or the manifest's. */
  lemma ReservedApart(text: Text, q: Parts)
    requires q != [] && Clean(q) && ValidPath(text, PathOf(q))
    ensures PathOf(q) != SENTINEL_NAME && PathOf(q) != MANIFEST_NAME
  {
    CleanSplit(q);
    assert '/' !in SENTINEL_NAME && '/' !in MANIFEST_NAME;
    OtherName(q, SENTINEL_NAME);
    OtherName(q, MANIFEST_NAME);
  }

  lemma ListedFaithful(git: Git, text: Text, root: string, blobs: seq<File>, at: seq<Parts>, directories: set<string>,
                       listed: Listing)
    requires Filed(git, text, blobs, at, directories, listed) && Complete(git, text, root, [], listed)
    ensures forall f :: f in blobs ==> exists q :: FileAt(git, text, root, q, f)
    ensures forall q :: Stored(git, text, root, q) ==> exists f :: f in blobs && FileAt(git, text, root, q, f)
    ensures forall d :: d in directories <==> exists q :: TreeAt(git, text, root, q, d)
  {
    forall f | f in blobs ensures exists q :: FileAt(git, text, root, q, f) {
      var i :| 0 <= i < |blobs| && blobs[i] == f;
      ListedAt(git, text, root, listed, at[i]);
      assert FileAt(git, text, root, at[i], f);
    }
    forall q | Stored(git, text, root, q)
      ensures exists f :: f in blobs && FileAt(git, text, root, q, f)
    {
      ListedAt(git, text, root, listed, q);
      var i := HeldAt(at, q);
      assert blobs[i] in blobs && FileAt(git, text, root, q, blobs[i]);
    }
    forall d ensures d in directories <==> exists q :: TreeAt(git, text, root, q, d) {
      if d in directories {
        var q :| q in listed && listed[q].mode == TREE && PathOf(q) == d;
        ListedAt(git, text, root, listed, q);
        assert TreeAt(git, text, root, q, d);
      }
      forall q | TreeAt(git, text, root, q, d) ensures d in directories {
        ListedAt(git, text, root, listed, q);
      }
    }
  }

  lemma FilesDiffer(git: Git, text: Text, blobs: seq<File>, at: seq<Parts>, directories: set<string>, listed: Listing)
    requires Filed(git, text, blobs, at, directories, listed)
    ensures PathsDiffer(blobs + [SENTINEL_FILE])
  {
    var files := blobs + [SENTINEL_FILE];
    forall i, j | 0 <= i < j < |files| ensures files[i].path != files[j].path {
      if j < |blobs| {
        assert at[i] != at[j] && at[i] in listed && at[j] in listed;
        if PathOf(at[i]) == PathOf(at[j]) {
          PathInjective(at[i], at[j]);
        }
      } else {
        assert at[i] in listed;
        ReservedApart(text, at[i]);
      }
    }
  }

  /** No file of the plan has a directory's path. */
  lemma FilesAreNoDirectories(git: Git, text: Text, root: string, q: Parts, f: File, p: Parts, d: string)
    requires FileAt(git, text, root, q, f) && TreeAt(git, text, root, p, d)
    ensures f.path != d
  {
    if f.path == d {
      PathInjective(q, p);
    }
  }

  lemma SentinelPassesNothing(d: string)
    ensures !Passes(SENTINEL_NAME, d)
  {
    assert '/' !in SENTINEL_NAME;
    SplitHead(SENTINEL_NAME, [], '/');
  }

  lemma PassedWithSentinel(blobs: seq<File>, d: string)
    ensures PassedBy(blobs + [SENTINEL_FILE], d) <==> PassedBy(blobs, d)
  {
    var files := blobs + [SENTINEL_FILE];
    SentinelPassesNothing(d);
    if PassedBy(blobs, d) {
      var i :| 0 <= i < |blobs| && Passes(blobs[i].path, d);
      assert files[i] == blobs[i];
    }
  }

  lemma PassedSame(a: seq<File>, b: seq<File>, d: string)
    requires forall f :: f in a <==> f in b
    ensures PassedBy(a, d) <==> PassedBy(b, d)
  {
    if PassedBy(a, d) {
      var i :| 0 <= i < |a| && Passes(a[i].path, d);
      assert a[i] in b;
      var j :| 0 <= j < |b| && b[j] == a[i];
    }
    if PassedBy(b, d) {
      var i :| 0 <= i < |b| && Passes(b[i].path, d);
      assert b[i] in a;
      var j :| 0 <= j < |a| && a[j] == b[i];
    }
  }

  /** What an accepted plan promises. */
  ghost predicate GoodPlan(git: Git, text: Text, root: string, plan: Plan) {
    && Faithful(git, text, root, plan.files, set d | d in plan.directories)
    && PathsIncrease(plan.files) && ShallowFirst(plan.directories)
    && (forall d :: d in plan.directories <==> PassedBy(plan.files, d))
    && |plan.files| + |plan.directories| <= MAX_ENTRIES
  }

  /** The end of `_object_plan`: sort, compare, bound. */
  method Arrange(blobs: seq<File>, directories: set<string>, ghost git: Git, ghost text: Text, ghost root: string)
    returns (plan: Option<Plan>)
    requires PathsDiffer(blobs + [SENTINEL_FILE])
    requires forall f :: f in blobs ==> exists q :: FileAt(git, text, root, q, f)
    requires forall q :: Stored(git, text, root, q) ==> exists f :: f in blobs && FileAt(git, text, root, q, f)
    requires forall d :: d in directories <==> exists q :: TreeAt(git, text, root, q, d)
    requires forall d :: PassedBy(blobs, d) ==> d in directories
    ensures plan.Some? ==> GoodPlan(git, text, root, plan.value)
    ensures plan.None? <==>
              (exists d :: d in directories && !PassedBy(blobs, d)) || |blobs| + 1 + |directories| > MAX_ENTRIES
  {
    var all := blobs + [SENTINEL_FILE];
    var files := SortFiles(all);
    var derived := Directories(files);
    forall d ensures d in derived <==> PassedBy(blobs, d) {
      PassedWithSentinel(blobs, d);
      PassedSame(files, all, d);
    }
    if derived != directories || |files| + |directories| > MAX_ENTRIES {
      return None;
    }
    var sorted := SortDirectories(directories);
    plan := Some(Plan(sorted, files));
    ArrangedFaithful(git, text, root, blobs, files, directories, set d | d in sorted);
  }

  lemma ArrangedFaithful(git: Git, text: Text, root: string, blobs: seq<File>, files: seq<File>,
                         directories: set<string>, sorted: set<string>)
    requires forall f :: f in files <==> f in blobs + [SENTINEL_FILE]
    requires forall f :: f in blobs ==> exists q :: FileAt(git, text, root, q, f)
    requires forall q :: Stored(git, text, root, q) ==> exists f :: f in blobs && FileAt(git, text, root, q, f)
    requires forall d :: d in directories <==> exists q :: TreeAt(git, text, root, q, d)
    requires forall d :: d in sorted <==> d in directories
    ensures Faithful(git, text, root, files, sorted)
  {
    assert sorted == directories;
    assert (blobs + [SENTINEL_FILE])[|blobs|] == SENTINEL_FILE;
    forall q | Stored(git, text, root, q)
      ensures exists f :: f in files && FileAt(git, text, root, q, f)
    {
      var f :| f in blobs && FileAt(git, text, root, q, f);
      assert f in files;
    }
  }

  // ---------------------------------------------------------------- creation

  /** What `_open_relative` needs: an identity for every directory down to the one it opens. */
  predicate Opens(path: string, identities: set<string>) {
    path == "" || forall n :: 1 <= n <= |Split(path, '/')| ==> Ancestor(path, n) in identities
  }

  predicate NoEmptyPart(path: string) {
    forall i :: 0 <= i < |Split(path, '/')| ==> Split(path, '/')[i] != ""
  }

  /** The `rpartition` of a path at its last slash. */
  function Parent(path: string): string {
    if Depth(path) == 1 then "" else Ancestor(path, Depth(path) - 1)
  }

  /** `_open_relative`, as far as identities go. */
  method OpenRelative(path: string, identities: map<string, nat>) returns (ok: bool)
    requires path != "" ==> NoEmptyPart(path)
    ensures ok <==> Opens(path, identities.Keys)
  {
    if path == "" {
      return true;
    }
    var parts := Split(path, '/');
    var current := "";
    var i := 0;
    while i < |parts|
      invariant 0 <= i <= |parts| && current == PathOf(parts[..i]) && (i > 0 ==> current != "")
      invariant forall n :: 1 <= n <= i ==> Ancestor(path, n) in identities
    {
      assert parts[..i + 1] == parts[..i] + [parts[i]];
      if i > 0 {
        JoinSnoc(parts[..i], parts[i]);
      }
      current := if current == "" then parts[i] else current + "/" + parts[i];
      assert current == Ancestor(path, i + 1);
      if current !in identities {
        return false;
      }
      i := i + 1;
    }
    ok := true;
  }

  lemma AncestorOf(path: string, m: nat, n: nat)
    requires 1 <= n <= m <= |Split(path, '/')|
    ensures Split(Ancestor(path, m), '/') == Split(path, '/')[..m]
    ensures Ancestor(Ancestor(path, m), n) == Ancestor(path, n)
  {
    var parts := Split(path, '/');
    SplitPrefix(path, '/', m);
    assert parts[..m][..n] == parts[..n];
  }

  lemma ShallowerIsEarlier(ds: seq<string>, j: nat, i: nat)
    requires ShallowFirst(ds) && i < |ds| && j < |ds| && Depth(ds[j]) < Depth(ds[i])
    ensures j < i
  {
  }

  /** In the plan's order every ancestor of a directory stands before it. */
  lemma AncestorsEarlier(files: seq<File>, ds: seq<string>, i: nat, n: nat)
    requires ShallowFirst(ds) && forall d :: d in ds <==> PassedBy(files, d)
    requires i < |ds| && 1 <= n < Depth(ds[i])
    ensures Ancestor(ds[i], n) in ds[..i]
  {
    assert ds[i] in ds;
    var k :| 0 <= k < |files| && Passes(files[k].path, ds[i]);
    var path := files[k].path;
    var m :| 1 <= m < |Split(path, '/')| && Ancestor(path, m) == ds[i];
    AncestorOf(path, m, m);
    AncestorOf(path, m, n);
    var a := Ancestor(path, n);
    AncestorOf(path, n, n);
    assert Passes(path, a);
    assert a in ds;
    var j :| 0 <= j < |ds| && ds[j] == a;
    assert Depth(ds[j]) == n && Depth(ds[i]) == m;
    ShallowerIsEarlier(ds, j, i);
    assert ds[..i][j] == a;
  }

  lemma ParentOpens(files: seq<File>, ds: seq<string>, i: nat, identities: set<string>)
    requires ShallowFirst(ds) && forall d :: d in ds <==> PassedBy(files, d)
    requires i < |ds| && forall d :: d in ds[..i] ==> d in identities
    ensures Opens(Parent(ds[i]), identities)
  {
    var d := ds[i];
    if Parent(d) != "" {
      forall n | 1 <= n <= |Split(Parent(d), '/')| ensures Ancestor(Parent(d), n) in identities {
        AncestorOf(d, Depth(d) - 1, Depth(d) - 1);
        AncestorOf(d, Depth(d) - 1, n);
        AncestorsEarlier(files, ds, i, n);
      }
    }
  }

  lemma FileParentOpens(files: seq<File>, ds: seq<string>, i: nat, identities: set<string>)
    requires (forall d :: d in ds <==> PassedBy(files, d)) && (forall d :: d in ds ==> d in identities)
    requires i < |files|
    ensures Opens(Parent(files[i].path), identities)
  {
    var path := files[i].path;
    if Parent(path) != "" {
      forall n | 1 <= n <= |Split(Parent(path), '/')| ensures Ancestor(Parent(path), n) in identities {
        AncestorOf(path, Depth(path) - 1, Depth(path) - 1);
        AncestorOf(path, Depth(path) - 1, n);
        assert Passes(path, Ancestor(path, n));
      }
    }
  }

  ghost predicate PlainPaths(plan: Plan) {
    forall i :: 0 <= i < |plan.files| ==> NoEmptyPart(plan.files[i].path)
  }

  lemma SingleIsPlain(name: string)
    requires name != "" && '/' !in name
    ensures NoEmptyPart(name)
  {
    SplitHead(name, [], '/');
  }

  lemma FileIsPlain(git: Git, text: Text, root: string, q: Parts, f: File)
    requires FileAt(git, text, root, q, f)
    ensures NoEmptyPart(f.path)
  {
    CleanSplit(q);
  }

  lemma PlanIsPlain(git: Git, text: Text, root: string, plan: Plan)
    requires GoodPlan(git, text, root, plan)
    ensures PlainPaths(plan)
  {
    assert '/' !in SENTINEL_NAME;
    SingleIsPlain(SENTINEL_NAME);
    forall f | f in plan.files ensures NoEmptyPart(f.path) {
      if f != SENTINEL_FILE {
        var q :| FileAt(git, text, root, q, f);
        FileIsPlain(git, text, root, q, f);
      }
    }
  }

  lemma DirectoryIsPlain(files: seq<File>, d: string)
    requires (forall i :: 0 <= i < |files| ==> NoEmptyPart(files[i].path)) && PassedBy(files, d)
    ensures NoEmptyPart(d) && NoEmptyParent(d)
  {
    var k :| 0 <= k < |files| && Passes(files[k].path, d);
    var path := files[k].path;
    var m :| 1 <= m < |Split(path, '/')| && Ancestor(path, m) == d;
    AncestorOf(path, m, m);
    ParentIsPlain(d);
  }

  predicate NoEmptyParent(path: string) {
    Parent(path) != "" ==> NoEmptyPart(Parent(path))
  }

  lemma ParentIsPlain(path: string)
    requires NoEmptyPart(path)
    ensures NoEmptyParent(path)
  {
    if Depth(path) > 1 {
      AncestorOf(path, Depth(path) - 1, 1);
    }
  }

  /** How creation ends: everything made, a parent without an identity, or a refusal by the system. */
  datatype Creation = Made(identities: map<string, nat>) | MissingParent(path: string) | SystemRefused(path: string)

  /**
   * The creation loops of `_materialize_pending`, with the system's answers as parameters. A parent
   * is never missing: only the system can stop the creation.
   */
  method Materialize(plan: Plan, rootIdentity: nat, makes: string -> Option<nat>, writes: string -> bool,
                     ghost git: Git, ghost text: Text, ghost root: string) returns (end: Creation)
    requires GoodPlan(git, text, root, plan)
    ensures !end.MissingParent?
    ensures end.Made? ==> end.identities.Keys == {"."} + set d | d in plan.directories
    ensures end.Made? <==>
              (forall d :: d in plan.directories ==> makes(d).Some?) && (forall f :: f in plan.files ==> writes(f.path))
  {
    PlanIsPlain(git, text, root, plan);
    end := MakeDirectories(plan, rootIdentity, makes);
    if end.Made? {
      end := WriteFiles(plan, end.identities, writes);
    }
  }

  method MakeDirectories(plan: Plan, rootIdentity: nat, makes: string -> Option<nat>) returns (end: Creation)
    requires PlainPaths(plan) && ShallowFirst(plan.directories)
    requires forall d :: d in plan.directories <==> PassedBy(plan.files, d)
    ensures !end.MissingParent?
    ensures end.Made? ==> end.identities.Keys == {"."} + set d | d in plan.directories
    ensures end.Made? <==> forall d :: d in plan.directories ==> makes(d).Some?
  {
    var ds := plan.directories;
    var identities: map<string, nat> := map["." := rootIdentity];
    var i := 0;
    while i < |ds|
      invariant 0 <= i <= |ds|
      invariant identities.Keys == {"."} + set d | d in ds[..i]
      invariant forall d :: d in ds[..i] ==> makes(d).Some?
    {
      var d := ds[i];
      assert d in ds;
      DirectoryIsPlain(plan.files, d);
      ParentOpens(plan.files, ds, i, identities.Keys);
      var ok := OpenRelative(Parent(d), identities);
      if !ok {
        return MissingParent(d);
      }
      if makes(d).None? {
        return SystemRefused(d);
      }
      identities := identities[d := makes(d).value];
      assert ds[..i + 1] == ds[..i] + [d];
      i := i + 1;
    }
    assert ds[..|ds|] == ds;
    end := Made(identities);
  }

  method WriteFiles(plan: Plan, identities: map<string, nat>, writes: string -> bool) returns (end: Creation)
    requires PlainPaths(plan) && (forall d :: d in plan.directories <==> PassedBy(plan.files, d))
    requires forall d :: d in plan.directories ==> d in identities
    ensures !end.MissingParent? && (end.Made? ==> end.identities == identities)
    ensures end.Made? <==> forall f :: f in plan.files ==> writes(f.path)
  {
    var i := 0;
    while i < |plan.files|
      invariant 0 <= i <= |plan.files| && forall k :: 0 <= k < i ==> writes(plan.files[k].path)
    {
      var path := plan.files[i].path;
      assert plan.files[i] in plan.files;
      ParentIsPlain(path);
      FileParentOpens(plan.files, plan.directories, i, identities.Keys);
      var ok := OpenRelative(Parent(path), identities);
      if !ok {
        return MissingParent(path);
      }
      if !writes(path) {
        return SystemRefused(path);
      }
      i := i + 1;
    }
    end := Made(identities);
  }
}
