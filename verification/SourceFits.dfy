/** Which stored trees a source plan can be made of: conditions on what path lookup finds, and their totals. */
module SourceFits {
  import opened Basics
  import opened GitTree
  import opened ObjectWalk
  import opened SourcePlan

  // ---------------------------------------------------------------- sums over a listing

  ghost function Sum(listed: Listing, f: Row -> nat): nat
    decreases |listed|
  {
    if listed == map[] then 0
    else
      var q :| q in listed;
      f(listed[q]) + Sum(listed - {q}, f)
  }

  lemma {:induction false} SumWithout(listed: Listing, q: Parts, f: Row -> nat)
    requires q in listed
    ensures Sum(listed, f) == f(listed[q]) + Sum(listed - {q}, f)
    decreases |listed|
  {
    var p :| p in listed && Sum(listed, f) == f(listed[p]) + Sum(listed - {p}, f);
    if p != q {
      SumWithout(listed - {p}, q, f);
      SumWithout(listed - {q}, p, f);
      assert listed - {p} - {q} == listed - {q} - {p};
    }
  }

  lemma SumWith(listed: Listing, q: Parts, row: Row, f: Row -> nat)
    requires q !in listed
    ensures Sum(listed[q := row], f) == Sum(listed, f) + f(row)
  {
    SumWithout(listed[q := row], q, f);
    assert listed[q := row] - {q} == listed;
  }

  ghost predicate Within(small: Listing, large: Listing) {
    forall q :: q in small ==> q in large && large[q] == small[q]
  }

  lemma {:induction false} SumWithin(small: Listing, large: Listing, f: Row -> nat)
    requires Within(small, large)
    ensures Sum(small, f) <= Sum(large, f)
    decreases |small|
  {
    if small != map[] {
      var q :| q in small;
      SumWithout(small, q, f);
      SumWithout(large, q, f);
      SumWithin(small - {q}, large - {q}, f);
    }
  }

  /** One row more, still within. */
  lemma SumRoom(small: Listing, large: Listing, q: Parts, row: Row, f: Row -> nat)
    requires Within(small, large) && q !in small && q in large && large[q] == row
    ensures Sum(small, f) + f(row) <= Sum(large, f)
  {
    SumWith(small, q, row, f);
    SumWithin(small[q := row], large, f);
  }

  /** What an entry adds to the object count: its row, and the visit of a tree. */
  function Units(): Row -> nat {
    (row: Row) => if row.mode == TREE then 2 else 1
  }

  ghost function Octets(git: Git): Row -> nat {
    (row: Row) => if row.mode == TREE then 0 else Size(git, Key(Blob, row.id))
  }

  // ---------------------------------------------------------------- what fits

  /** A tree reads strictly and leaves room below it; a file is within its bound. */
  ghost predicate RowFits(git: Git, text: Text, q: Parts, row: Row) {
    && ValidPath(text, PathOf(q))
    && if row.mode == TREE then Rows(git, text, row.id).Some? && |q| < MAX_PATH_COMPONENTS
       else Size(git, Key(Blob, row.id)) <= MAX_SOURCE_FILE_BYTES
  }

  /**
   * The listing is what lookup finds below the root, every entry of it fits, and so do the totals. The
   * count includes the commit and the root tree, the bytes the sentinel.
   */
  ghost predicate Suitable(git: Git, text: Text, root: string, want: Listing) {
    && Rows(git, text, root).Some? && Complete(git, text, root, [], want)
    && (forall q :: q in want ==> RowFits(git, text, q, want[q]))
    && 2 + Sum(want, Units()) <= MAX_REACHABLE_OBJECTS && |SENTINEL| + Sum(want, Octets(git)) <= MAX_TOTAL_BYTES
  }

  lemma ListedAt(git: Git, text: Text, root: string, listed: Listing, q: Parts)
    requires Complete(git, text, root, [], listed) && q != []
    ensures q in listed <==> Lookup(git, text, root, q).Some?
    ensures q in listed ==> listed[q] == Lookup(git, text, root, q).value
  {
    assert Extends([], q) && q[0..] == q;
    assert AgreesAt(git, text, root, listed, q, 0);
  }

  // ---------------------------------------------------------------- where the visit stands

  /** The path leads from the root to the tree. */
  ghost predicate Leads(git: Git, text: Text, root: string, parts: Parts, id: string) {
    if parts == [] then id == root
    else
      match Lookup(git, text, root, parts)
      case None => false
      case Some(row) => row.mode == TREE && row.id == id
  }

  lemma {:induction false} LookupSnoc(git: Git, text: Text, root: string, parts: Parts, name: string)
    requires parts != [] && Lookup(git, text, root, parts).Some? && Lookup(git, text, root, parts).value.mode == TREE
    ensures Lookup(git, text, root, parts + [name])
         == Lookup(git, text, Lookup(git, text, root, parts).value.id, [name])
    decreases |parts|
  {
    var all := parts + [name];
    assert all[0] == parts[0];
    if |parts| == 1 {
      assert all[1..] == [name];
    } else {
      var row := Named(Rows(git, text, root).value, parts[0]).value;
      assert all[1..] == parts[1..] + [name];
      LookupSnoc(git, text, row.id, parts[1..], name);
    }
  }

  /** An entry of a tree the visit has reached is found by lookup from the root. */
  lemma LeadsOn(git: Git, text: Text, root: string, parts: Parts, id: string, rows: seq<Row>, i: nat)
    requires Leads(git, text, root, parts, id) && Rows(git, text, id) == Some(rows) && Distinct(rows) && i < |rows|
    ensures Lookup(git, text, root, parts + [rows[i].name]) == Some(rows[i])
    ensures rows[i].mode == TREE ==> Leads(git, text, root, parts + [rows[i].name], rows[i].id)
  {
    NamedAt(rows, i);
    assert Lookup(git, text, id, [rows[i].name]) == Some(rows[i]);
    if parts == [] {
      assert parts + [rows[i].name] == [rows[i].name];
    } else {
      LookupSnoc(git, text, root, parts, rows[i].name);
    }
  }

  /** Everything listed is what lookup from the root finds. */
  ghost predicate Rooted(git: Git, text: Text, root: string, listed: Listing) {
    forall q :: q in listed ==> q != [] && Lookup(git, text, root, q) == Some(listed[q])
  }

  lemma RootedWithin(git: Git, text: Text, root: string, listed: Listing, want: Listing)
    requires Rooted(git, text, root, listed) && Complete(git, text, root, [], want)
    ensures Within(listed, want)
  {
    forall q | q in listed ensures q in want && want[q] == listed[q] {
      ListedAt(git, text, root, want, q);
    }
  }

  ghost predicate TreeRead(git: Git, text: Text, q: Parts, row: Row) {
    row.mode == TREE ==> Rows(git, text, row.id).Some? && |q| < MAX_PATH_COMPONENTS
  }

  /** Every tree listed below the prefix was read, above the depth bound. */
  ghost predicate ReadBelow(git: Git, text: Text, prefix: Parts, listed: Listing) {
    forall q :: q in listed && Extends(prefix, q) ==> TreeRead(git, text, q, listed[q])
  }

  lemma ReadOn(git: Git, text: Text, prefix: Parts, name: string, row: Row, before: Listing, after: Listing)
    requires var p := prefix + [name];
             && ReadBelow(git, text, prefix, before) && SameOutside(p, before[p := row], after)
             && TreeRead(git, text, p, row) && ReadBelow(git, text, p, after)
    ensures ReadBelow(git, text, prefix, after)
  {
    var p := prefix + [name];
    forall q | q in after && Extends(prefix, q) ensures TreeRead(git, text, q, after[q]) {
      if !Extends(p, q) {
        assert SameAt(before[p := row], after, q);
      }
    }
  }

  /** The files listed are within their bound. */
  ghost predicate FilesFit(git: Git, listed: Listing) {
    forall q :: q in listed && listed[q].mode != TREE ==> Size(git, Key(Blob, listed[q].id)) <= MAX_SOURCE_FILE_BYTES
  }

  // ---------------------------------------------------------------- after the graph check

  /** The graph check has run: everything below its trees is cached, and its trees are in layers. */
  ghost predicate Stocked(git: Git, cache: map<Key, string>, trees: set<string>, finished: seq<string>) {
    AllGenuine(git, cache) && SoundWalk(git, cache, trees, finished, {})
  }

  /** The tree stands in a layer before every ancestor. */
  ghost predicate Ahead(finished: seq<string>, id: string, ancestry: set<string>) {
    exists k :: 0 <= k < |finished| && finished[k] == id && NoneIn(ancestry, finished[..k + 1])
  }

  ghost predicate NoneIn(ancestry: set<string>, finished: seq<string>) {
    forall a :: a in ancestry ==> a !in finished
  }

  lemma AheadApart(finished: seq<string>, id: string, ancestry: set<string>)
    requires Ahead(finished, id, ancestry)
    ensures id !in ancestry && id in finished
  {
    var k :| 0 <= k < |finished| && finished[k] == id && NoneIn(ancestry, finished[..k + 1]);
    assert finished[..k + 1][k] == id;
  }

  lemma AheadOn(git: Git, cache: map<Key, string>, trees: set<string>, finished: seq<string>, id: string,
                ancestry: set<string>, child: string)
    requires Stocked(git, cache, trees, finished) && Ahead(finished, id, ancestry)
    requires Entries(git, id).Some? && (TREE, child) in Entries(git, id).value
    ensures Ahead(finished, child, ancestry + {id})
  {
    var k :| 0 <= k < |finished| && finished[k] == id && NoneIn(ancestry, finished[..k + 1]);
    assert SubtreesIn(git, id, finished[..k]);
    var j :| 0 <= j < k && finished[..k][j] == child;
    forall a | a in ancestry + {id} ensures a !in finished[..j + 1] {
      forall i | 0 <= i <= j ensures finished[i] != a {
        assert finished[..k + 1][i] == finished[i];
      }
    }
    assert finished[j] == child;
  }

  /** A tree of the checked graph and the files it names are cached. */
  lemma StockedTree(git: Git, text: Text, cache: map<Key, string>, trees: set<string>, finished: seq<string>,
                    id: string)
    requires Stocked(git, cache, trees, finished) && id in finished && Rows(git, text, id).Some?
    ensures Key(Tree, id) in cache && |cache[Key(Tree, id)]| <= MAX_TREE_BYTES
    ensures Entries(git, id) == Some(Kept(Rows(git, text, id).value))
  {
    assert Settled(git, id, cache, trees);
    assert Genuine(git, Key(Tree, id), cache[Key(Tree, id)]);
    StrictWithinIntegrity(text, cache[Key(Tree, id)]);
  }

  lemma StockedRow(git: Git, text: Text, cache: map<Key, string>, trees: set<string>, finished: seq<string>,
                   id: string, i: nat)
    requires Stocked(git, cache, trees, finished) && id in finished && Rows(git, text, id).Some?
    requires i < |Rows(git, text, id).value| && StrictRow(text, Rows(git, text, id).value[i])
    ensures var row := Rows(git, text, id).value[i];
            if row.mode == TREE then Entries(git, id).Some? && (TREE, row.id) in Entries(git, id).value
            else Key(Blob, row.id) in cache && |cache[Key(Blob, row.id)]| == Size(git, Key(Blob, row.id))
  {
    StockedTree(git, text, cache, trees, finished, id);
    var rows := Rows(git, text, id).value;
    assert Settled(git, id, cache, trees);
    assert Kept(rows)[i] == (rows[i].mode, rows[i].id);
    assert EntrySettled(Kept(rows)[i], cache, trees);
    if rows[i].mode != TREE {
      assert Genuine(git, Key(Blob, rows[i].id), cache[Key(Blob, rows[i].id)]);
    }
  }
}
