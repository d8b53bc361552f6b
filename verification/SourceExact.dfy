/** Which sources have a plan, and what a plan may hold, in names and numbers. */
module SourceExact {
  import opened Basics
  import opened Separated
  import opened Order
  import opened GitTree
  import opened ObjectWalk
  import opened SourcePlan
  import opened SourceFits
  import opened SourceVisit
  import opened SourceLayout
  import opened SourcePlanning

  // ---------------------------------------------------------------- paths

  /** A path component: short, without control characters, and none of the names kept out of a source. */
  predicate SafePart(part: string) {
    && 1 <= |part| <= 255 && part !in {".", "..", ".git", "node_modules"}
    && forall i :: 0 <= i < |part| ==> 32 <= part[i] as int && part[i] as int != 127
  }

  /** A path below the root: safe components, outside the state directory and beside the two files of the plan. */
  predicate SafePath(text: Text, q: Parts) {
    && 1 <= |q| <= 64 && (forall i :: 0 <= i < |q| ==> SafePart(q[i]))
    && !(["deploy", "aws-feasibility", ".state"] <= q)
    && q[0] != ".cogs-stage2-source-v1" && q[0] != ".cogs-stage2-source-manifest-v1.json"
    && |PathOf(q)| <= 4096 && text(PathOf(q))
  }

  lemma PartExactly(part: string)
    ensures ValidPart(part) <==> SafePart(part)
  {
    if !Controlled(part) {
      forall i | 0 <= i < |part| ensures 32 <= part[i] as int && part[i] as int != 127 {
        assert !(part[i] < ' ' || part[i] as int == 127);
      }
    }
  }

  lemma {:induction false} NoNul(parts: Parts)
    requires |parts| >= 1 && forall i :: 0 <= i < |parts| ==> SafePart(parts[i])
    ensures '\0' !in Join(parts, '/')
  {
    assert '\0' !in parts[0] by {
      assert SafePart(parts[0]);
    }
    if |parts| > 1 {
      NoNul(parts[1..]);
    }
  }

  lemma JoinStarts(parts: Parts)
    requires |parts| >= 1 && parts[0] != ""
    ensures Join(parts, '/') != "" && Join(parts, '/')[0] == parts[0][0]
  {
  }

  /** The checks of a path's bytes, said of its components. */
  lemma PathExactly(text: Text, q: Parts)
    requires q != [] && Clean(q)
    ensures ValidPath(text, PathOf(q)) <==> SafePath(text, q)
  {
    CleanSplit(q);
    forall i | 0 <= i < |q| ensures ValidPart(q[i]) <==> SafePart(q[i]) {
      PartExactly(q[i]);
    }
    if SafePath(text, q) {
      JoinStarts(q);
      assert SafePart(q[0]);
      assert q[0][0] != '/' by {
        assert '/' !in q[0] && q[0][0] in q[0];
      }
      NoNul(q);
    }
  }

  // ---------------------------------------------------------------- trees in bytes

  /** Mode, space, name, NUL, and the twenty bytes of the id. */
  function RowBytes(row: Row): string {
    row.mode + [32 as char] + row.name + [0 as char] + row.id
  }

  function TreeBytes(rows: seq<Row>): string {
    if rows == [] then "" else RowBytes(rows[0]) + TreeBytes(rows[1..])
  }

  lemma {:induction false} BytesExactly(rows: seq<Row>)
    ensures TreeBytes(rows) == Encode(rows)
  {
    if rows != [] {
      BytesExactly(rows[1..]);
    }
  }

  /** Names all differ, and come in order once a tree's name is given a slash. */
  ghost predicate InOrder(rows: seq<Row>) {
    && (forall i, j :: 0 <= i < j < |rows| ==> rows[i].name != rows[j].name)
    && (forall i, j :: 0 <= i < j < |rows| ==>
          ComesBefore(if rows[i].mode == "40000" then rows[i].name + "/" else rows[i].name,
                      if rows[j].mode == "40000" then rows[j].name + "/" else rows[j].name))
  }

  lemma InOrderExactly(rows: seq<Row>)
    ensures Ordered(rows) <==> InOrder(rows)
  {
    forall i, j | 0 <= i < j < |rows|
      ensures Less(OrderKey(rows[i]), OrderKey(rows[j])) <==> ComesBefore(OrderKey(rows[i]), OrderKey(rows[j]))
    {
      OrderExactly(OrderKey(rows[i]), OrderKey(rows[j]));
    }
  }

  /** A row of the source: an ordinary or executable file or a tree, with a safe name. */
  predicate SourceRow(text: Text, row: Row) {
    row.mode in {"100644", "100755", "40000"} && '/' !in row.name && SafePath(text, [row.name]) && |row.id| == 20
  }

  lemma SourceRowExactly(text: Text, row: Row)
    ensures StrictRow(text, row) <==> SourceRow(text, row)
  {
    if row.name == "" {
      assert !SafePart([row.name][0]);
    } else if '/' !in row.name {
      PathExactly(text, [row.name]);
      assert PathOf([row.name]) == row.name;
      PartExactly(row.name);
    }
  }

  /** The strict reader accepts exactly the bytes of such rows, in order, at most 10,000 and 32 MiB of them. */
  lemma TreeExactly(text: Text, raw: string, rows: seq<Row>)
    ensures StrictEntries(text, raw) == Some(rows) <==>
              && raw == TreeBytes(rows) && |raw| <= 33_554_432 && |rows| <= 10_000 && InOrder(rows)
              && forall i :: 0 <= i < |rows| ==> SourceRow(text, rows[i])
  {
    StrictExact(text, raw, rows);
    BytesExactly(rows);
    InOrderExactly(rows);
    forall i | 0 <= i < |rows| ensures StrictRow(text, rows[i]) <==> SourceRow(text, rows[i]) {
      SourceRowExactly(text, rows[i]);
    }
  }

  // ---------------------------------------------------------------- the graph

  /** Objects there and genuine, within 1 MiB for a commit and 32 MiB otherwise, 20,000 and 256 MiB in all. */
  ghost predicate WorldFits(git: Git, world: World) {
    && (forall key :: key in world.keys ==>
          && |key.id| == 20 && git.store(key).Some? && Genuine(git, key, git.store(key).value)
          && Size(git, key) <= if key.kind == Commit then 1_048_576 else 33_554_432)
    && (forall key :: key in world.keys && key.kind == Tree ==> GoodTree(git, world, key.id))
    && |world.keys| <= 20_000 && Weight(git, world.keys) <= 268_435_456
  }

  lemma WorldExactly(git: Git, world: World)
    ensures GoodWorld(git, world) <==> WorldFits(git, world)
  {
  }

  // ---------------------------------------------------------------- what lookup finds

  lemma NamedClean(git: Git, text: Text, id: string, rows: seq<Row>, name: string)
    requires Rows(git, text, id) == Some(rows) && Named(rows, name).Some?
    ensures name != "" && '/' !in name && Named(rows, name).value.mode in {"100644", "100755", "40000"}
  {
    var row := Named(rows, name).value;
    var i :| 0 <= i < |rows| && rows[i] == row;
    StrictRows(git, text, id, rows, i);
  }

  lemma CleanMore(q: Parts)
    requires q != [] && q[0] != "" && '/' !in q[0] && Clean(q[1..])
    ensures Clean(q)
  {
    forall k | 0 < k < |q| ensures q[k] != "" && '/' !in q[k] {
      assert q[k] == q[1..][k - 1];
    }
  }

  lemma {:induction false} LookupClean(git: Git, text: Text, id: string, q: Parts)
    requires q != [] && Lookup(git, text, id, q).Some?
    ensures Clean(q) && Lookup(git, text, id, q).value.mode in {"100644", "100755", "40000"}
    decreases |q|
  {
    var rows := Rows(git, text, id).value;
    NamedClean(git, text, id, rows, q[0]);
    if |q| > 1 {
      LookupClean(git, text, Named(rows, q[0]).value.id, q[1..]);
    }
    CleanMore(q);
  }

  // ---------------------------------------------------------------- sources that have a plan

  /** An entry of a source with a plan: a readable tree of less than full depth, or a file of at most 16 MiB. */
  ghost predicate EntryFits(git: Git, text: Text, q: Parts, row: Row) {
    && SafePath(text, q)
    && if row.mode == "40000" then Rows(git, text, row.id).Some? && |q| <= 63
       else Size(git, Key(Blob, row.id)) <= 16_777_216
  }

  /** The listing is what lookup finds. */
  ghost predicate Found(git: Git, text: Text, root: string, want: Listing) {
    && (forall q :: q != [] ==> (q in want <==> Lookup(git, text, root, q).Some?))
    && (forall q :: q in want ==> q != [] && Lookup(git, text, root, q) == Some(want[q]))
  }

  ghost predicate EntriesFit(git: Git, text: Text, want: Listing) {
    forall q :: q in want ==> EntryFits(git, text, q, want[q])
  }

  /** Entries, reachable objects and bytes, with room for the sentinel, the commit and the root. */
  ghost predicate TotalsFit(git: Git, want: Listing) {
    |want| <= 9_999 && Sum(want, Units()) <= 19_998 && Sum(want, Octets(git)) <= 268_435_434
  }

  /** The entries of a source with a plan, and their totals; every tree holds a file. */
  ghost predicate AllFits(git: Git, text: Text, root: string, want: Listing) {
    && Rows(git, text, root).Some? && Found(git, text, root, want)
    && EntriesFit(git, text, want) && TotalsFit(git, want)
    && (forall q :: q in want && want[q].mode == "40000" ==> HoldsFile(want, q))
  }

  lemma FoundExactly(git: Git, text: Text, root: string, want: Listing)
    requires [] !in want
    ensures Complete(git, text, root, [], want) <==> Found(git, text, root, want)
  {
    if Complete(git, text, root, [], want) {
      forall q | q != []
        ensures q in want <==> Lookup(git, text, root, q).Some?
        ensures q in want ==> Lookup(git, text, root, q) == Some(want[q])
      {
        ListedAt(git, text, root, want, q);
      }
    } else {
      var q :| Extends([], q) && !AgreesAt(git, text, root, want, q, 0);
      assert q != [] && q[0..] == q;
    }
  }

  lemma RowExactly(git: Git, text: Text, root: string, q: Parts)
    requires q != [] && Lookup(git, text, root, q).Some?
    ensures var row := Lookup(git, text, root, q).value;
            RowFits(git, text, q, row) <==> EntryFits(git, text, q, row)
  {
    LookupClean(git, text, root, q);
    PathExactly(text, q);
  }

  ghost predicate RowsFit(git: Git, text: Text, want: Listing) {
    forall q :: q in want ==> RowFits(git, text, q, want[q])
  }

  lemma EntriesExactly(git: Git, text: Text, root: string, want: Listing)
    requires Found(git, text, root, want)
    ensures RowsFit(git, text, want) <==> EntriesFit(git, text, want)
  {
    forall q | q in want ensures RowFits(git, text, q, want[q]) <==> EntryFits(git, text, q, want[q]) {
      RowExactly(git, text, root, q);
    }
  }

  /** The model's own bounds, and the sentinel's bytes. */
  lemma PlannableApart(git: Git, text: Text, root: string, want: Listing)
    ensures Plannable(git, text, root, want) <==>
              && Rows(git, text, root).Some? && Complete(git, text, root, [], want) && RowsFit(git, text, want)
              && TotalsFit(git, want) && NoEmptyTree(want)
  {
    assert |SENTINEL| == 22;
  }

  lemma RootUnlisted(git: Git, text: Text, want: Listing)
    requires RowsFit(git, text, want)
    ensures [] !in want
  {
    NoEmptyPath(text);
  }

  /** A source has a plan exactly when what lookup finds in it fits, entry by entry and in its totals. */
  lemma PlannedExactly(git: Git, text: Text, root: string, want: Listing)
    ensures Plannable(git, text, root, want) <==> AllFits(git, text, root, want)
  {
    PlannableApart(git, text, root, want);
    if RowsFit(git, text, want) {
      RootUnlisted(git, text, want);
    }
    if [] !in want {
      FoundExactly(git, text, root, want);
      if Found(git, text, root, want) {
        EntriesExactly(git, text, root, want);
      }
    }
  }

  // ---------------------------------------------------------------- what a plan holds

  /** A planned file: at a safe path, of a row of mode 100644 or 100755, executable exactly for the latter. */
  ghost predicate SafeFile(git: Git, text: Text, root: string, f: File, q: Parts) {
    && SafePath(text, q) && f.path == PathOf(q)
    && Lookup(git, text, root, q).Some?
    && var row := Lookup(git, text, root, q).value;
    && row.mode == (if f.executable then "100755" else "100644") && row.id == f.id && |f.content| <= 16_777_216
  }

  lemma PlannedFileSafe(git: Git, text: Text, root: string, want: Listing, f: File, q: Parts)
    requires AllFits(git, text, root, want) && FileAt(git, text, root, q, f)
    ensures SafeFile(git, text, root, f, q)
  {
    LookupClean(git, text, root, q);
    assert q in want;
    assert EntryFits(git, text, q, want[q]);
  }

  lemma PlannedDirectorySafe(git: Git, text: Text, root: string, want: Listing, d: string, q: Parts)
    requires AllFits(git, text, root, want) && TreeAt(git, text, root, q, d)
    ensures SafePath(text, q) && d == PathOf(q) && |q| <= 63
  {
    assert q in want && EntryFits(git, text, q, want[q]);
  }

  predicate SafeDirectory(text: Text, d: string, q: Parts) {
    SafePath(text, q) && d == PathOf(q) && |q| <= 63
  }

  ghost predicate SafeFiles(git: Git, text: Text, root: string, files: seq<File>) {
    forall f :: f in files && f != SENTINEL_FILE ==> exists q :: SafeFile(git, text, root, f, q)
  }

  ghost predicate SafeDirectories(text: Text, directories: set<string>) {
    forall d :: d in directories ==> exists q :: SafeDirectory(text, d, q)
  }

  /** Every file of a plan but the sentinel, and every directory, is at a safe path. */
  lemma FaithfulSafe(git: Git, text: Text, root: string, want: Listing, files: seq<File>, directories: set<string>)
    requires AllFits(git, text, root, want) && Faithful(git, text, root, files, directories)
    ensures SafeFiles(git, text, root, files) && SafeDirectories(text, directories)
  {
    forall f | f in files && f != SENTINEL_FILE ensures exists q :: SafeFile(git, text, root, f, q) {
      var q :| FileAt(git, text, root, q, f);
      PlannedFileSafe(git, text, root, want, f, q);
    }
    forall d | d in directories ensures exists q :: SafeDirectory(text, d, q) {
      var q :| TreeAt(git, text, root, q, d);
      PlannedDirectorySafe(git, text, root, want, d, q);
      assert SafeDirectory(text, d, q);
    }
  }

  lemma GoodIsFaithful(git: Git, text: Text, root: string, plan: Plan, directories: set<string>)
    requires GoodPlan(git, text, root, plan) && directories == set d | d in plan.directories
    ensures Faithful(git, text, root, plan.files, directories) && |plan.files| + |plan.directories| <= 10_000
  {
  }

  /** A plan holds the sentinel, files at safe paths and directories at safe paths, at most 10,000 in all. */
  lemma PlanSafe(git: Git, text: Text, root: string, plan: Plan)
    requires GoodPlan(git, text, root, plan) && HasPlan(git, text, root)
    ensures SafeFiles(git, text, root, plan.files) && SafeDirectories(text, set d | d in plan.directories)
    ensures |plan.files| + |plan.directories| <= 10_000
  {
    var directories := set d | d in plan.directories;
    var want :| Plannable(git, text, root, want);
    PlannedExactly(git, text, root, want);
    GoodIsFaithful(git, text, root, plan, directories);
    FaithfulSafe(git, text, root, want, plan.files, directories);
  }
}
