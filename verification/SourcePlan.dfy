/** Path lookup through stored trees, listings of what it finds, and the files and directories of a listing. */
module SourcePlan {
  import opened Basics
  import opened Separated
  import opened GitTree
  import opened ObjectWalk

  const MAX_SOURCE_FILE_BYTES := 16 * 1024 * 1024
  const SENTINEL := "cogs-stage2-source-v1\n"

  type Text = string -> bool

  type Parts = seq<string>

  datatype File = File(path: string, executable: bool, id: string, content: string)

  // ---------------------------------------------------------------- lookup

  /** The rows of a stored tree, as the strict reader sees them. */
  ghost function Rows(git: Git, text: Text, id: string): Option<seq<Row>> {
    match git.store(Key(Tree, id))
    case None => None
    case Some(raw) => StrictEntries(text, raw)
  }

  ghost function Named(rows: seq<Row>, name: string): (row: Option<Row>)
    ensures row.Some? ==> row.value in rows && row.value.name == name
    ensures row.None? ==> forall i :: 0 <= i < |rows| ==> rows[i].name != name
  {
    if rows == [] then None
    else if rows[0].name == name then Some(rows[0])
    else Named(rows[1..], name)
  }

  /** The row a path leads to, one component at a time. */
  ghost function Lookup(git: Git, text: Text, id: string, parts: Parts): Option<Row>
    requires parts != []
    decreases |parts|
  {
    match Rows(git, text, id)
    case None => None
    case Some(rows) =>
      match Named(rows, parts[0])
      case None => None
      case Some(row) =>
        if |parts| == 1 then Some(row)
        else if row.mode == TREE then Lookup(git, text, row.id, parts[1..])
        else None
  }

  lemma {:induction false} NamedAt(rows: seq<Row>, i: nat)
    requires i < |rows| && forall a, b :: 0 <= a < b < |rows| ==> rows[a].name != rows[b].name
    ensures Named(rows, rows[i].name) == Some(rows[i])
  {
    if i > 0 {
      NamedAt(rows[1..], i - 1);
    }
  }

  // ---------------------------------------------------------------- paths by components

  predicate Clean(parts: Parts) {
    forall i :: 0 <= i < |parts| ==> parts[i] != "" && '/' !in parts[i]
  }

  function PathOf(parts: Parts): string {
    if parts == [] then "" else Join(parts, '/')
  }

  lemma {:induction false} JoinSnoc(parts: Parts, name: string)
    requires parts != []
    ensures Join(parts + [name], '/') == Join(parts, '/') + "/" + name
  {
    if |parts| == 1 {
      assert (parts + [name])[1..] == [name];
    } else {
      assert (parts + [name])[1..] == parts[1..] + [name];
      JoinSnoc(parts[1..], name);
    }
  }

  lemma PathNonempty(parts: Parts)
    requires parts != [] && Clean(parts)
    ensures PathOf(parts) != ""
  {
    assert parts[0] != "";
  }

  /** The path the visit builds for an entry. */
  lemma PathStep(prefix: Parts, name: string)
    requires Clean(prefix) && name != ""
    ensures PathOf(prefix + [name]) == if PathOf(prefix) == "" then name else PathOf(prefix) + "/" + name
  {
    if prefix != [] {
      PathNonempty(prefix);
      JoinSnoc(prefix, name);
    }
  }

  lemma PathInjective(a: Parts, b: Parts)
    requires Clean(a) && Clean(b) && PathOf(a) == PathOf(b)
    ensures a == b
  {
    if a != [] {
      PathNonempty(a);
    }
    if b != [] {
      PathNonempty(b);
    }
    if a != [] && b != [] {
      JoinInjective(a, b, '/');
    }
  }

  predicate Extends(prefix: Parts, q: Parts) {
    |prefix| < |q| && q[..|prefix|] == prefix
  }

  // ---------------------------------------------------------------- the listing

  /** Every path and the row it leads to. */
  type Listing = map<Parts, Row>

  ghost predicate AgreesAt(git: Git, text: Text, id: string, listed: Listing, q: Parts, n: nat)
    requires n < |q|
  {
    match Lookup(git, text, id, q[n..])
    case None => q !in listed
    case Some(row) => q in listed && listed[q] == row
  }

  /** Below the prefix the listing is exactly what lookup from the tree finds. */
  ghost predicate Complete(git: Git, text: Text, id: string, prefix: Parts, listed: Listing) {
    forall q :: Extends(prefix, q) ==> AgreesAt(git, text, id, listed, q, |prefix|)
  }

  ghost predicate SameAt(before: Listing, after: Listing, q: Parts) {
    (q in before <==> q in after) && (q in before ==> before[q] == after[q])
  }

  ghost predicate SameOutside(prefix: Parts, before: Listing, after: Listing) {
    forall q :: !Extends(prefix, q) ==> SameAt(before, after, q)
  }

  ghost predicate NothingBelow(prefix: Parts, listed: Listing) {
    forall q :: q in listed ==> !Extends(prefix, q)
  }

  predicate Among(rows: seq<Row>, n: nat, name: string)
    requires n <= |rows|
  {
    exists k :: 0 <= k < n && rows[k].name == name
  }

  predicate Distinct(rows: seq<Row>) {
    forall a, b :: 0 <= a < b < |rows| ==> rows[a].name != rows[b].name
  }

  ghost predicate UpToAt(git: Git, text: Text, id: string, prefix: Parts, rows: seq<Row>, n: nat, listed: Listing,
                         q: Parts)
    requires n <= |rows| && |prefix| < |q|
  {
    if Among(rows, n, q[|prefix|]) then AgreesAt(git, text, id, listed, q, |prefix|) else q !in listed
  }

  /** As `Complete`, for the first rows of the tree; the other names are not listed yet. */
  ghost predicate CompleteUpTo(git: Git, text: Text, id: string, prefix: Parts, rows: seq<Row>, n: nat, listed: Listing)
    requires n <= |rows|
  {
    forall q :: Extends(prefix, q) ==> UpToAt(git, text, id, prefix, rows, n, listed, q)
  }

  lemma CompleteAtStart(git: Git, text: Text, id: string, prefix: Parts, rows: seq<Row>, listed: Listing)
    requires NothingBelow(prefix, listed)
    ensures CompleteUpTo(git, text, id, prefix, rows, 0, listed)
  {
  }

  lemma CompleteAtEnd(git: Git, text: Text, id: string, prefix: Parts, rows: seq<Row>, listed: Listing)
    requires Rows(git, text, id) == Some(rows) && CompleteUpTo(git, text, id, prefix, rows, |rows|, listed)
    ensures Complete(git, text, id, prefix, listed)
  {
    forall q | Extends(prefix, q) ensures AgreesAt(git, text, id, listed, q, |prefix|) {
      assert UpToAt(git, text, id, prefix, rows, |rows|, listed, q);
      assert q[|prefix|..][0] == q[|prefix|];
      if Named(rows, q[|prefix|]).Some? {
        var row := Named(rows, q[|prefix|]).value;
        var k :| 0 <= k < |rows| && rows[k] == row;
      }
    }
  }

  lemma LookupThrough(git: Git, text: Text, id: string, rows: seq<Row>, n: nat, q: Parts, at: nat)
    requires Rows(git, text, id) == Some(rows) && Distinct(rows) && n < |rows| && at < |q| && q[at] == rows[n].name
    ensures Lookup(git, text, id, q[at..])
         == if |q| == at + 1 then Some(rows[n])
            else if rows[n].mode == TREE then Lookup(git, text, rows[n].id, q[at + 1..]) else None
  {
    NamedAt(rows, n);
    assert q[at..][0] == q[at] && q[at..][1..] == q[at + 1..];
  }

  lemma AmongNext(rows: seq<Row>, n: nat, name: string)
    requires n < |rows|
    ensures Among(rows, n + 1, name) <==> Among(rows, n, name) || rows[n].name == name
  {
  }

  /** A path that goes through another entry, or not through this tree, is not affected by entry `n`. */
  lemma ElsewhereKept(git: Git, text: Text, id: string, prefix: Parts, rows: seq<Row>, n: nat,
                      listed: Listing, after: Listing, q: Parts)
    requires n < |rows| && Extends(prefix, q) && q[|prefix|] != rows[n].name
    requires UpToAt(git, text, id, prefix, rows, n, listed, q) && SameAt(listed, after, q)
    ensures UpToAt(git, text, id, prefix, rows, n + 1, after, q)
  {
    AmongNext(rows, n, q[|prefix|]);
  }

  lemma ThroughEntry(prefix: Parts, name: string, q: Parts)
    requires Extends(prefix, q)
    ensures q[|prefix|] == name <==> q == prefix + [name] || Extends(prefix + [name], q)
  {
    var p := prefix + [name];
    if q[|prefix|] == name {
      assert q[..|p|] == p;
      if |q| == |p| {
        assert q[..|p|] == q;
      }
    }
    if Extends(p, q) {
      assert q[..|p|][|prefix|] == p[|prefix|];
    }
  }

  lemma ExtendsThrough(prefix: Parts, name: string, q: Parts)
    requires Extends(prefix + [name], q)
    ensures Extends(prefix, q)
  {
    var p := prefix + [name];
    assert q[..|prefix|] == q[..|p|][..|prefix|];
  }

  /** A file row extends the listing by its own path only. */
  lemma FileListed(git: Git, text: Text, id: string, prefix: Parts, rows: seq<Row>, n: nat, listed: Listing)
    requires Rows(git, text, id) == Some(rows) && Distinct(rows) && n < |rows| && rows[n].mode != TREE
    requires CompleteUpTo(git, text, id, prefix, rows, n, listed)
    ensures CompleteUpTo(git, text, id, prefix, rows, n + 1, listed[prefix + [rows[n].name] := rows[n]])
  {
    var p := prefix + [rows[n].name];
    var after := listed[p := rows[n]];
    forall q | Extends(prefix, q) ensures UpToAt(git, text, id, prefix, rows, n + 1, after, q) {
      assert UpToAt(git, text, id, prefix, rows, n, listed, q);
      ThroughEntry(prefix, rows[n].name, q);
      if q[|prefix|] == rows[n].name {
        LookupThrough(git, text, id, rows, n, q, |prefix|);
        AmongNext(rows, n, q[|prefix|]);
        assert !Among(rows, n, rows[n].name);
      } else {
        ElsewhereKept(git, text, id, prefix, rows, n, listed, after, q);
      }
    }
  }

  /** A tree row extends it by its own path and by everything below. */
  lemma TreeListed(git: Git, text: Text, id: string, prefix: Parts, rows: seq<Row>, n: nat, listed: Listing,
                   after: Listing)
    requires Rows(git, text, id) == Some(rows) && Distinct(rows) && n < |rows| && rows[n].mode == TREE
    requires CompleteUpTo(git, text, id, prefix, rows, n, listed)
    requires var p := prefix + [rows[n].name];
             SameOutside(p, listed[p := rows[n]], after) && Complete(git, text, rows[n].id, p, after)
    ensures CompleteUpTo(git, text, id, prefix, rows, n + 1, after)
  {
    var p := prefix + [rows[n].name];
    forall q | Extends(prefix, q) ensures UpToAt(git, text, id, prefix, rows, n + 1, after, q) {
      assert UpToAt(git, text, id, prefix, rows, n, listed, q);
      ThroughEntry(prefix, rows[n].name, q);
      if q[|prefix|] == rows[n].name {
        LookupThrough(git, text, id, rows, n, q, |prefix|);
        AmongNext(rows, n, q[|prefix|]);
        if q == p {
          assert SameAt(listed[p := rows[n]], after, q);
        } else {
          assert AgreesAt(git, text, rows[n].id, after, q, |p|);
        }
      } else {
        assert SameAt(listed[p := rows[n]], after, q);
        ElsewhereKept(git, text, id, prefix, rows, n, listed, after, q);
      }
    }
  }

  /** The next entry's path, and everything below it, is still free. */
  lemma NextIsFree(git: Git, text: Text, id: string, prefix: Parts, rows: seq<Row>, n: nat, listed: Listing)
    requires n < |rows| && Distinct(rows) && CompleteUpTo(git, text, id, prefix, rows, n, listed)
    ensures var p := prefix + [rows[n].name]; p !in listed && NothingBelow(p, listed[p := rows[n]])
  {
    var p := prefix + [rows[n].name];
    assert p[..|prefix|] == prefix;
    assert UpToAt(git, text, id, prefix, rows, n, listed, p);
    forall q | q in listed ensures !Extends(p, q) {
      if Extends(prefix, q) {
        assert UpToAt(git, text, id, prefix, rows, n, listed, q);
        ThroughEntry(prefix, rows[n].name, q);
      } else if Extends(p, q) {
        ExtendsThrough(prefix, rows[n].name, q);
      }
    }
  }

  lemma SameThrough(prefix: Parts, name: string, row: Row, before: Listing, listed: Listing, after: Listing)
    requires SameOutside(prefix, before, listed)
    requires SameOutside(prefix + [name], listed[prefix + [name] := row], after)
    ensures SameOutside(prefix, before, after)
  {
    var p := prefix + [name];
    assert p[..|prefix|] == prefix;
    forall q | !Extends(prefix, q) ensures SameAt(before, after, q) {
      assert !Extends(p, q) by {
        if Extends(p, q) { ExtendsThrough(prefix, name, q); }
      }
      assert SameAt(before, listed, q);
      assert SameAt(listed[p := row], after, q);
    }
  }

  // ---------------------------------------------------------------- files and directories of a listing

  ghost predicate IsFile(git: Git, f: File, q: Parts, row: Row) {
    && f.path == PathOf(q) && f.executable == (row.mode == EXECUTABLE) && f.id == row.id
    && Genuine(git, Key(Blob, row.id), f.content)
  }

  predicate Holds(at: seq<Parts>, q: Parts) {
    at != [] && (at[|at| - 1] == q || Holds(at[..|at| - 1], q))
  }

  lemma {:induction false} HeldAt(at: seq<Parts>, q: Parts) returns (i: nat)
    requires Holds(at, q)
    ensures i < |at| && at[i] == q
  {
    if at[|at| - 1] == q {
      i := |at| - 1;
    } else {
      i := HeldAt(at[..|at| - 1], q);
    }
  }

  /** The files, in visiting order, are those of the listing; `at` says which path each stands for. */
  ghost predicate FilesOf(git: Git, blobs: seq<File>, at: seq<Parts>, listed: Listing) {
    && |at| == |blobs|
    && (forall i :: 0 <= i < |at| ==>
          at[i] in listed && listed[at[i]].mode != TREE && IsFile(git, blobs[i], at[i], listed[at[i]]))
    && (forall q :: q in listed && listed[q].mode != TREE ==> Holds(at, q))
    && (forall i, j :: 0 <= i < j < |at| ==> at[i] != at[j])
  }

  ghost predicate DirectoriesOf(directories: set<string>, listed: Listing) {
    && (forall q :: q in listed && listed[q].mode == TREE ==> PathOf(q) in directories)
    && (forall d :: d in directories ==> exists q :: q in listed && listed[q].mode == TREE && PathOf(q) == d)
  }

  ghost predicate ValidListing(text: Text, listed: Listing) {
    forall q :: q in listed ==> q != [] && Clean(q) && ValidPath(text, PathOf(q))
  }

  lemma FileAdded(git: Git, blobs: seq<File>, at: seq<Parts>, listed: Listing, f: File, q: Parts, row: Row)
    requires FilesOf(git, blobs, at, listed) && q !in listed && row.mode != TREE && IsFile(git, f, q, row)
    ensures FilesOf(git, blobs + [f], at + [q], listed[q := row])
  {
    assert (at + [q])[..|at|] == at;
  }

  lemma TreeAdded(git: Git, blobs: seq<File>, at: seq<Parts>, directories: set<string>, listed: Listing, q: Parts,
                  row: Row)
    requires FilesOf(git, blobs, at, listed) && DirectoriesOf(directories, listed) && q !in listed && row.mode == TREE
    ensures FilesOf(git, blobs, at, listed[q := row]) && DirectoriesOf(directories + {PathOf(q)}, listed[q := row])
  {
    var after := listed[q := row];
    forall d | d in directories + {PathOf(q)}
      ensures exists p :: p in after && after[p].mode == TREE && PathOf(p) == d
    {
      if d == PathOf(q) {
        assert q in after && after[q].mode == TREE;
      } else {
        var p :| p in listed && listed[p].mode == TREE && PathOf(p) == d;
        assert p in after && after[p] == listed[p];
      }
    }
  }

  lemma DirectoriesKept(directories: set<string>, listed: Listing, q: Parts, row: Row)
    requires DirectoriesOf(directories, listed) && q !in listed && row.mode != TREE
    ensures DirectoriesOf(directories, listed[q := row])
  {
    var after := listed[q := row];
    forall d | d in directories ensures exists p :: p in after && after[p].mode == TREE && PathOf(p) == d {
      var p :| p in listed && listed[p].mode == TREE && PathOf(p) == d;
      assert p in after && after[p] == listed[p];
    }
  }

  /** Files and directories stand for the listing, and every listed path is valid. */
  ghost predicate Filed(git: Git, text: Text, blobs: seq<File>, at: seq<Parts>, directories: set<string>,
                        listed: Listing)
  {
    FilesOf(git, blobs, at, listed) && DirectoriesOf(directories, listed) && ValidListing(text, listed)
  }

  ghost predicate ValidEntry(text: Text, q: Parts) {
    q != [] && Clean(q) && ValidPath(text, PathOf(q))
  }

  lemma FiledFile(git: Git, text: Text, blobs: seq<File>, at: seq<Parts>, directories: set<string>, listed: Listing,
                  f: File, q: Parts, row: Row)
    requires Filed(git, text, blobs, at, directories, listed) && q !in listed && ValidEntry(text, q)
    requires row.mode != TREE && IsFile(git, f, q, row)
    ensures Filed(git, text, blobs + [f], at + [q], directories, listed[q := row])
  {
    FileAdded(git, blobs, at, listed, f, q, row);
    DirectoriesKept(directories, listed, q, row);
  }

  lemma FiledTree(git: Git, text: Text, blobs: seq<File>, at: seq<Parts>, directories: set<string>, listed: Listing,
                  q: Parts, row: Row)
    requires Filed(git, text, blobs, at, directories, listed) && q !in listed && ValidEntry(text, q) && row.mode == TREE
    ensures Filed(git, text, blobs, at, directories + {PathOf(q)}, listed[q := row])
  {
    TreeAdded(git, blobs, at, directories, listed, q, row);
  }

  lemma SameTwice(prefix: Parts, a: Listing, b: Listing, c: Listing)
    requires SameOutside(prefix, a, b) && SameOutside(prefix, b, c)
    ensures SameOutside(prefix, a, c)
  {
    forall q | !Extends(prefix, q) ensures SameAt(a, c, q) {
      assert SameAt(a, b, q) && SameAt(b, c, q);
    }
  }
}
