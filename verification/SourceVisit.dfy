/**
 * The path-expanding visit that turns a commit's root tree into files and directories, checked
 * against path lookup through the stored trees.
 */
module SourceVisit {
  import opened Basics
  import opened GitTree
  import opened ObjectWalk
  import opened SourcePlan
  import opened SourceFits

  /** The root, a listing the stored tree may have, and what the graph check visited. */
  datatype Hope = Hope(root: string, want: Listing, trees: set<string>, finished: seq<string>)

  /** After the graph check, a tree of a source that fits. */
  ghost predicate Hopeful(git: Git, text: Text, cache: map<Key, string>, h: Hope, id: string, ancestry: set<string>) {
    Stocked(git, cache, h.trees, h.finished) && Ahead(h.finished, id, ancestry) && Suitable(git, text, h.root, h.want)
  }

  /** The tree the visit has come to reads strictly and leaves room below it. */
  lemma HopefulTree(git: Git, text: Text, cache: map<Key, string>, h: Hope, id: string, ancestry: set<string>,
                    parts: Parts,
                    listed: Listing)
    requires Hopeful(git, text, cache, h, id, ancestry) && Leads(git, text, h.root, parts, id)
    requires Rooted(git, text, h.root, listed)
    ensures 2 + Sum(listed, Units()) <= MAX_REACHABLE_OBJECTS
    ensures id !in ancestry && |parts| < MAX_PATH_COMPONENTS && Rows(git, text, id).Some?
    ensures Key(Tree, id) in cache && |cache[Key(Tree, id)]| <= MAX_TREE_BYTES
  {
    AheadApart(h.finished, id, ancestry);
    if parts != [] {
      ListedAt(git, text, h.root, h.want, parts);
      assert RowFits(git, text, parts, h.want[parts]);
    }
    StockedTree(git, text, cache, h.trees, h.finished, id);
    RootedWithin(git, text, h.root, listed, h.want);
    SumWithin(listed, h.want, Units());
  }

  /** The entry can be counted and taken: a subtree is one to hope for, a file is cached and within its bound. */
  ghost predicate Room(git: Git, text: Text, cache: map<Key, string>, h: Hope, row: Row, listed: Listing,
                       ancestry: set<string>)
  {
    && 3 + Sum(listed, Units()) <= MAX_REACHABLE_OBJECTS
    && if row.mode == TREE then Hopeful(git, text, cache, h, row.id, ancestry)
       else
         var key := Key(Blob, row.id);
         && key in cache && |cache[key]| <= MAX_SOURCE_FILE_BYTES
         && |SENTINEL| + Sum(listed, Octets(git)) + |cache[key]| <= MAX_TOTAL_BYTES
  }

  /** So is the next entry, and there is room for it. */
  lemma HopefulRow(git: Git, text: Text, cache: map<Key, string>, h: Hope, id: string, ancestry: set<string>,
                   parts: Parts,
                   rows: seq<Row>, i: nat, listed: Listing)
    requires Hopeful(git, text, cache, h, id, ancestry) && Leads(git, text, h.root, parts, id)
    requires Rows(git, text, id) == Some(rows) && i < |rows| && StrictRow(text, rows[i]) && Distinct(rows)
    requires Rooted(git, text, h.root, listed) && parts + [rows[i].name] !in listed
    ensures ValidPath(text, PathOf(parts + [rows[i].name]))
    ensures Room(git, text, cache, h, rows[i], listed, ancestry + {id})
  {
    var q, row := parts + [rows[i].name], rows[i];
    LeadsOn(git, text, h.root, parts, id, rows, i);
    ListedAt(git, text, h.root, h.want, q);
    assert RowFits(git, text, q, h.want[q]);
    RootedWithin(git, text, h.root, listed, h.want);
    SumRoom(listed, h.want, q, row, Units());
    SumRoom(listed, h.want, q, row, Octets(git));
    AheadApart(h.finished, id, ancestry);
    StockedRow(git, text, cache, h.trees, h.finished, id, i);
    if row.mode == TREE {
      AheadOn(git, cache, h.trees, h.finished, id, ancestry, row.id);
    }
  }

  class Planner {
    const reader: Reader
    const text: Text
    var blobs: seq<File>
    var directories: set<string>
    var objectCount: nat
    var totalBytes: nat
    ghost var listed: Listing
    ghost var at: seq<Parts>

    constructor (reader: Reader, text: Text)
      requires reader.Valid()
      ensures this.reader == reader && this.text == text && Valid() && listed == map[] && objectCount == 1
    {
      this.reader, this.text := reader, text;
      blobs, directories, objectCount, totalBytes := [], {}, 1, |SENTINEL|;
      listed, at := map[], [];
    }

    ghost predicate Valid()
      reads this, reader
    {
      && reader.Valid() && Filed(reader.git, text, blobs, at, directories, listed) && FilesFit(reader.git, listed)
      && totalBytes == |SENTINEL| + Sum(listed, Octets(reader.git)) && totalBytes <= MAX_TOTAL_BYTES
      && objectCount <= MAX_REACHABLE_OBJECTS
    }

    /** One object more, within the bound. */
    method Count() returns (ok: bool)
      requires Valid()
      modifies this`objectCount
      ensures objectCount == old(objectCount) + 1 && (ok <==> objectCount <= MAX_REACHABLE_OBJECTS) && (ok ==> Valid())
    {
      objectCount := objectCount + 1;
      ok := objectCount <= MAX_REACHABLE_OBJECTS;
    }

    /** A file entry: its content is fetched, counted and appended. */
    method AddFile(row: Row, path: string, ghost q: Parts) returns (ok: bool)
      requires Valid() && q !in listed && row.mode != TREE && path == PathOf(q) && ValidEntry(text, q)
      modifies this`blobs, this`totalBytes, this`listed, this`at, reader
      ensures ok ==> Valid() && listed == old(listed)[q := row] && old(reader.cache).Keys <= reader.cache.Keys
      ensures var key := Key(Blob, row.id);
              old(key in reader.cache && |reader.cache[key]| <= MAX_SOURCE_FILE_BYTES
                  && totalBytes + |reader.cache[key]| <= MAX_TOTAL_BYTES)
              ==> ok && reader.cache == old(reader.cache)
    {
      var content := reader.Fetch(Key(Blob, row.id), MAX_SOURCE_FILE_BYTES);
      if content.None? {
        return false;
      }
      if totalBytes + |content.value| > MAX_TOTAL_BYTES {
        return false;
      }
      Append(File(path, row.mode == EXECUTABLE, row.id, content.value), q, row);
      ok := true;
    }

    method Append(f: File, ghost q: Parts, ghost row: Row)
      requires Valid() && q !in listed && row.mode != TREE && ValidEntry(text, q) && IsFile(reader.git, f, q, row)
      requires |f.content| <= MAX_SOURCE_FILE_BYTES && totalBytes + |f.content| <= MAX_TOTAL_BYTES
      modifies this`blobs, this`totalBytes, this`listed, this`at
      ensures Valid() && listed == old(listed)[q := row]
    {
      FiledFile(reader.git, text, blobs, at, directories, listed, f, q, row);
      SumWith(listed, q, row, Octets(reader.git));
      Extend(blobs + [f], totalBytes + |f.content|, listed[q := row], at + [q]);
    }

    method Extend(grown: seq<File>, total: nat, ghost wider: Listing, ghost places: seq<Parts>)
      requires Valid() && Filed(reader.git, text, grown, places, directories, wider) && FilesFit(reader.git, wider)
      requires total == |SENTINEL| + Sum(wider, Octets(reader.git)) && total <= MAX_TOTAL_BYTES
      modifies this`blobs, this`totalBytes, this`listed, this`at
      ensures Valid() && blobs == grown && listed == wider && totalBytes == total
    {
      blobs, totalBytes, listed, at := grown, total, wider, places;
    }

    /** A tree entry: its path becomes a directory. */
    method AddDirectory(row: Row, path: string, ghost q: Parts)
      requires Valid() && q !in listed && row.mode == TREE && path == PathOf(q) && ValidEntry(text, q)
      modifies this`directories, this`listed
      ensures Valid() && listed == old(listed)[q := row] && directories == old(directories) + {path}
    {
      FiledTree(reader.git, text, blobs, at, directories, listed, q, row);
      SumWith(listed, q, row, Octets(reader.git));
      directories, listed := directories + {path}, listed[q := row];
    }

    /** Where the visit of a tree at a path begins. */
    ghost predicate Begins(root: string, id: string, parts: Parts, prefix: string)
      reads this, reader
    {
      && Valid() && Clean(parts) && prefix == PathOf(parts)
      && Leads(reader.git, text, root, parts, id) && Rooted(reader.git, text, root, listed)
    }

    /**
     * `visit`: everything below the prefix is listed exactly as lookup finds it, and nothing else
     * changes. After the graph check it succeeds on every tree of a source that fits.
     */
    method Visit(id: string, prefix: string, ghost parts: Parts, ancestry: set<string>, ghost h: Hope)
      returns (ok: bool)
      requires Begins(h.root, id, parts, prefix) && NothingBelow(parts, listed)
      requires |ancestry| == |parts| <= MAX_PATH_COMPONENTS && objectCount == 1 + Sum(listed, Units())
      modifies this, reader
      ensures ok ==> Valid() && old(reader.cache).Keys <= reader.cache.Keys
      ensures ok ==> SameOutside(parts, old(listed), listed) && Complete(reader.git, text, id, parts, listed)
      ensures ok ==> Rows(reader.git, text, id).Some? && |parts| < MAX_PATH_COMPONENTS
      ensures ok ==> ReadBelow(reader.git, text, parts, listed) && Rooted(reader.git, text, h.root, listed)
      ensures ok ==> objectCount == 2 + Sum(listed, Units())
      ensures Hopeful(reader.git, text, old(reader.cache), h, id, ancestry) ==> ok && reader.cache == old(reader.cache)
      decreases MAX_PATH_COMPONENTS - |ancestry|, 2
    {
      if Hopeful(reader.git, text, reader.cache, h, id, ancestry) {
        HopefulTree(reader.git, text, reader.cache, h, id, ancestry, parts, listed);
      }
      if id in ancestry || |ancestry| >= MAX_PATH_COMPONENTS {
        return false;
      }
      var rows := Open(id);
      if rows.None? {
        return false;
      }
      ok := VisitRows(id, rows.value, prefix, parts, ancestry, h);
      if ok {
        CompleteAtEnd(reader.git, text, id, parts, rows.value, listed);
      }
    }

    /** The tree is fetched, counted and read. */
    method Open(id: string) returns (rows: Option<seq<Row>>)
      requires Valid()
      modifies this`objectCount, reader
      ensures rows.Some? ==>
                Valid() && Rows(reader.git, text, id) == rows && old(reader.cache).Keys <= reader.cache.Keys
      ensures rows.Some? ==> objectCount == old(objectCount) + 1
      ensures var key := Key(Tree, id);
              old(key in reader.cache && |reader.cache[key]| <= MAX_TREE_BYTES && objectCount < MAX_REACHABLE_OBJECTS
                  && Rows(reader.git, text, id).Some?)
              ==> rows.Some? && reader.cache == old(reader.cache)
    {
      var tree := reader.Fetch(Key(Tree, id), MAX_TREE_BYTES);
      if tree.None? {
        return None;
      }
      var counted := Count();
      if !counted {
        return None;
      }
      rows := TreeEntries(text, tree.value);
      assert Rows(reader.git, text, id) == rows;
    }

    /** The loop over one tree's rows. */
    method VisitRows(id: string, rows: seq<Row>, prefix: string, ghost parts: Parts, ancestry: set<string>,
                     ghost h: Hope)
      returns (ok: bool)
      requires Begins(h.root, id, parts, prefix) && NothingBelow(parts, listed)
      requires |ancestry| == |parts| < MAX_PATH_COMPONENTS && id !in ancestry
      requires Rows(reader.git, text, id) == Some(rows)
      requires objectCount == 2 + Sum(listed, Units())
      modifies this, reader
      ensures ok ==> Valid() && old(reader.cache).Keys <= reader.cache.Keys
      ensures ok ==> SameOutside(parts, old(listed), listed)
      ensures ok ==> CompleteUpTo(reader.git, text, id, parts, rows, |rows|, listed)
      ensures ok ==> ReadBelow(reader.git, text, parts, listed) && Rooted(reader.git, text, h.root, listed)
      ensures ok ==> objectCount == 2 + Sum(listed, Units())
      ensures Hopeful(reader.git, text, old(reader.cache), h, id, ancestry) ==> ok && reader.cache == old(reader.cache)
      decreases MAX_PATH_COMPONENTS - |ancestry|, 1
    {
      CompleteAtStart(reader.git, text, id, parts, rows, listed);
      var i := 0;
      while i < |rows|
        invariant 0 <= i <= |rows| && Begins(h.root, id, parts, prefix) && old(reader.cache).Keys <= reader.cache.Keys
        invariant SameOutside(parts, old(listed), listed) && ReadBelow(reader.git, text, parts, listed)
        invariant CompleteUpTo(reader.git, text, id, parts, rows, i, listed)
        invariant objectCount == 2 + Sum(listed, Units())
        invariant Hopeful(reader.git, text, old(reader.cache), h, id, ancestry) ==> reader.cache == old(reader.cache)
      {
        ghost var before := listed;
        var done := VisitRow(id, rows, i, prefix, parts, ancestry, h);
        if !done {
          return false;
        }
        SameTwice(parts, old(listed), before, listed);
        i := i + 1;
      }
      ok := true;
    }

    /** One row: its path is checked, then it is listed as a directory and visited, or added as a file. */
    method VisitRow(id: string, rows: seq<Row>, i: nat, prefix: string, ghost parts: Parts, ancestry: set<string>,
                    ghost h: Hope)
      returns (ok: bool)
      requires Begins(h.root, id, parts, prefix) && i < |rows| && ReadBelow(reader.git, text, parts, listed)
      requires |ancestry| == |parts| < MAX_PATH_COMPONENTS && id !in ancestry
      requires Rows(reader.git, text, id) == Some(rows)
      requires CompleteUpTo(reader.git, text, id, parts, rows, i, listed) && objectCount == 2 + Sum(listed, Units())
      modifies this, reader
      ensures ok ==> Valid() && Rooted(reader.git, text, h.root, listed) && old(reader.cache).Keys <= reader.cache.Keys
      ensures ok ==> RowDone(reader.git, text, id, parts, rows, i, old(listed), listed)
      ensures ok ==> objectCount == 2 + Sum(listed, Units())
      ensures Hopeful(reader.git, text, old(reader.cache), h, id, ancestry) ==> ok && reader.cache == old(reader.cache)
      decreases MAX_PATH_COMPONENTS - |ancestry|, 0
    {
      var row := rows[i];
      ghost var q, before := parts + [row.name], listed;
      RowReady(reader.git, text, h.root, id, parts, rows, i, listed);
      if Hopeful(reader.git, text, reader.cache, h, id, ancestry) {
        HopefulRow(reader.git, text, reader.cache, h, id, ancestry, parts, rows, i, listed);
      }
      var path := if prefix == "" then row.name else prefix + "/" + row.name;
      if !ValidPath(text, path) {
        return false;
      }
      ok := Take(row, path, q, ancestry + {id}, h);
      if ok {
        AnyRowDone(reader.git, text, id, parts, rows, i, before, listed);
      }
    }

    /** A row whose path is valid: counted, then descended into or added as a file. */
    method Take(row: Row, path: string, ghost q: Parts, ancestry: set<string>, ghost h: Hope) returns (ok: bool)
      requires Valid() && Ready(reader.git, text, h.root, q, row, listed) && path == PathOf(q) && ValidPath(text, path)
      requires |ancestry| == |q| <= MAX_PATH_COMPONENTS && objectCount == 2 + Sum(listed, Units())
      modifies this, reader
      ensures ok ==> Valid() && Rooted(reader.git, text, h.root, listed) && old(reader.cache).Keys <= reader.cache.Keys
      ensures ok ==> Below(reader.git, text, q, row, old(listed), listed)
      ensures ok ==> objectCount == 2 + Sum(listed, Units())
      ensures Room(reader.git, text, old(reader.cache), h, row, old(listed), ancestry) ==>
                ok && reader.cache == old(reader.cache)
      decreases MAX_PATH_COMPONENTS - |ancestry|, 4
    {
      SumWith(listed, q, row, Units());
      var counted := Count();
      if !counted {
        return false;
      }
      if row.mode == TREE {
        ok := Descend(row, path, q, ancestry, h);
      } else {
        ok := AddFile(row, path, q);
      }
    }

    /** A tree entry: listed as a directory, then visited. */
    method Descend(row: Row, path: string, ghost q: Parts, ancestry: set<string>, ghost h: Hope) returns (ok: bool)
      requires Valid() && q !in listed && row.mode == TREE && path == PathOf(q) && ValidEntry(text, q)
      requires NothingBelow(q, listed[q := row]) && Leads(reader.git, text, h.root, q, row.id)
      requires Rooted(reader.git, text, h.root, listed[q := row])
      requires |ancestry| == |q| <= MAX_PATH_COMPONENTS && objectCount == 1 + Sum(listed[q := row], Units())
      modifies this, reader
      ensures ok ==> Valid() && Rooted(reader.git, text, h.root, listed) && old(reader.cache).Keys <= reader.cache.Keys
      ensures ok ==> Below(reader.git, text, q, row, old(listed), listed)
      ensures ok ==> objectCount == 2 + Sum(listed, Units())
      ensures Hopeful(reader.git, text, old(reader.cache), h, row.id, ancestry) ==>
                ok && reader.cache == old(reader.cache)
      decreases MAX_PATH_COMPONENTS - |ancestry|, 3
    {
      AddDirectory(row, path, q);
      ok := Visit(row.id, path, q, ancestry, h);
    }
  }

  /** The row's path is free, and leads from the root to the row. */
  ghost predicate Ready(git: Git, text: Text, root: string, q: Parts, row: Row, listed: Listing) {
    && q != [] && Clean(q) && q !in listed && NothingBelow(q, listed[q := row])
    && Rooted(git, text, root, listed[q := row]) && (row.mode == TREE ==> Leads(git, text, root, q, row.id))
  }

  lemma RowReady(git: Git, text: Text, root: string, id: string, parts: Parts, rows: seq<Row>, i: nat, listed: Listing)
    requires Clean(parts) && Leads(git, text, root, parts, id) && Rooted(git, text, root, listed)
    requires Rows(git, text, id) == Some(rows) && i < |rows| && CompleteUpTo(git, text, id, parts, rows, i, listed)
    ensures StrictRow(text, rows[i]) && Distinct(rows)
    ensures Ready(git, text, root, parts + [rows[i].name], rows[i], listed)
    ensures PathOf(parts + [rows[i].name])
         == if PathOf(parts) == "" then rows[i].name else PathOf(parts) + "/" + rows[i].name
  {
    var q := parts + [rows[i].name];
    assert StrictRow(text, rows[i]) && Distinct(rows) && rows[i].name != "" && '/' !in rows[i].name by {
      StrictRows(git, text, id, rows, i);
    }
    assert Clean(q);
    PathStep(parts, rows[i].name);
    NextIsFree(git, text, id, parts, rows, i, listed);
    RowLeads(git, text, root, id, parts, rows, i, listed);
  }

  lemma RowLeads(git: Git, text: Text, root: string, id: string, parts: Parts, rows: seq<Row>, i: nat, listed: Listing)
    requires Leads(git, text, root, parts, id) && Rooted(git, text, root, listed)
    requires Rows(git, text, id) == Some(rows) && Distinct(rows) && i < |rows|
    ensures var q := parts + [rows[i].name];
            && Rooted(git, text, root, listed[q := rows[i]])
            && (rows[i].mode == TREE ==> Leads(git, text, root, q, rows[i].id))
  {
    LeadsOn(git, text, root, parts, id, rows, i);
    RootedWith(git, text, root, listed, parts + [rows[i].name], rows[i]);
  }

  lemma RootedWith(git: Git, text: Text, root: string, listed: Listing, q: Parts, row: Row)
    requires Rooted(git, text, root, listed) && q != [] && Lookup(git, text, root, q) == Some(row)
    ensures Rooted(git, text, root, listed[q := row])
  {
  }

  lemma StrictRows(git: Git, text: Text, id: string, rows: seq<Row>, i: nat)
    requires Rows(git, text, id) == Some(rows) && i < |rows|
    ensures StrictRow(text, rows[i]) && Distinct(rows) && rows[i].name != "" && '/' !in rows[i].name
  {
  }

  /** What one row leaves: the listing is complete one row further, and nothing outside the prefix changed. */
  ghost predicate RowDone(git: Git, text: Text, id: string, parts: Parts, rows: seq<Row>, i: nat, before: Listing,
                          after: Listing)
    requires i < |rows|
  {
    && SameOutside(parts, before, after) && ReadBelow(git, text, parts, after)
    && CompleteUpTo(git, text, id, parts, rows, i + 1, after)
  }

  lemma TreeRowDone(git: Git, text: Text, id: string, parts: Parts, rows: seq<Row>, i: nat, before: Listing,
                    after: Listing)
    requires Rows(git, text, id) == Some(rows) && Distinct(rows) && i < |rows| && rows[i].mode == TREE
    requires CompleteUpTo(git, text, id, parts, rows, i, before) && ReadBelow(git, text, parts, before)
    requires var q := parts + [rows[i].name];
             && SameOutside(q, before[q := rows[i]], after) && Complete(git, text, rows[i].id, q, after)
             && TreeRead(git, text, q, rows[i]) && ReadBelow(git, text, q, after)
    ensures RowDone(git, text, id, parts, rows, i, before, after)
  {
    SameThrough(parts, rows[i].name, rows[i], before, before, after);
    TreeListed(git, text, id, parts, rows, i, before, after);
    ReadOn(git, text, parts, rows[i].name, rows[i], before, after);
  }

  /** What a row leaves below its own path. */
  ghost predicate Below(git: Git, text: Text, q: Parts, row: Row, before: Listing, after: Listing) {
    if row.mode != TREE then after == before[q := row]
    else
      && SameOutside(q, before[q := row], after) && Complete(git, text, row.id, q, after)
      && TreeRead(git, text, q, row) && ReadBelow(git, text, q, after)
  }

  lemma AnyRowDone(git: Git, text: Text, id: string, parts: Parts, rows: seq<Row>, i: nat, before: Listing,
                   after: Listing)
    requires Rows(git, text, id) == Some(rows) && Distinct(rows) && i < |rows|
    requires CompleteUpTo(git, text, id, parts, rows, i, before) && ReadBelow(git, text, parts, before)
    requires Below(git, text, parts + [rows[i].name], rows[i], before, after)
    ensures RowDone(git, text, id, parts, rows, i, before, after)
  {
    if rows[i].mode == TREE {
      TreeRowDone(git, text, id, parts, rows, i, before, after);
    } else {
      FileRowDone(git, text, id, parts, rows, i, before);
    }
  }

  lemma FileRowDone(git: Git, text: Text, id: string, parts: Parts, rows: seq<Row>, i: nat, before: Listing)
    requires Rows(git, text, id) == Some(rows) && Distinct(rows) && i < |rows| && rows[i].mode != TREE
    requires CompleteUpTo(git, text, id, parts, rows, i, before) && ReadBelow(git, text, parts, before)
    ensures RowDone(git, text, id, parts, rows, i, before, before[parts + [rows[i].name] := rows[i]])
  {
    var after := before[parts + [rows[i].name] := rows[i]];
    FileListed(git, text, id, parts, rows, i, before);
    SameThrough(parts, rows[i].name, rows[i], before, before, after);
  }
}
