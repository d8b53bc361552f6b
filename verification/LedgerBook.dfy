/** The order of ledger rows, and what it does and does not depend on. */
module LedgerBook {
  import opened Order
  import opened Separated
  import opened Ledger
  import opened LedgerJson
  import opened LedgerOrder

  // ---------------------------------------------------------------- sorting

  function InsertBy<T>(r: T, rows: seq<T>, key: T -> string): seq<T> {
    if rows == [] then [r]
    else if Less(key(r), key(rows[0])) then [r] + rows
    else [rows[0]] + InsertBy(r, rows[1..], key)
  }

  /** A stable sort by key. */
  function SortBy<T>(rows: seq<T>, key: T -> string): seq<T> {
    if rows == [] then [] else InsertBy(rows[|rows| - 1], SortBy(rows[..|rows| - 1], key), key)
  }

  lemma {:induction false} InsertKeeps<T>(r: T, rows: seq<T>, key: T -> string)
    ensures multiset(InsertBy(r, rows, key)) == multiset{r} + multiset(rows)
  {
    if rows != [] && !Less(key(r), key(rows[0])) {
      assert rows == [rows[0]] + rows[1..];
      InsertKeeps(r, rows[1..], key);
    }
  }

  lemma {:induction false} SortKeeps<T>(rows: seq<T>, key: T -> string)
    ensures multiset(SortBy(rows, key)) == multiset(rows)
  {
    if rows != [] {
      var init := rows[..|rows| - 1];
      assert rows == init + [rows[|rows| - 1]];
      SortKeeps(init, key);
      InsertKeeps(rows[|rows| - 1], SortBy(init, key), key);
    }
  }

  predicate AscendingBy<T>(rows: seq<T>, key: T -> string) {
    forall i, j :: 0 <= i < j < |rows| ==> !Less(key(rows[j]), key(rows[i]))
  }

  lemma NotLessTransitive(a: string, b: string, c: string)
    requires !Less(b, a) && !Less(c, b)
    ensures !Less(c, a)
  {
    LessTotal(a, b);
    LessTotal(b, c);
    if Less(c, a) {
      if a != b {
        LessTransitive(c, a, b);
      }
    }
  }

  lemma {:induction false} InsertAscending<T>(r: T, rows: seq<T>, key: T -> string)
    requires AscendingBy(rows, key)
    ensures AscendingBy(InsertBy(r, rows, key), key)
  {
    if rows != [] {
      var after := InsertBy(r, rows, key);
      if Less(key(r), key(rows[0])) {
        LessIrreflexive(key(r));
        forall j | 0 <= j < |rows| ensures !Less(key(rows[j]), key(r)) {
          if Less(key(rows[0]), key(r)) {
            LessTransitive(key(r), key(rows[0]), key(r));
          }
          if j > 0 {
            NotLessTransitive(key(r), key(rows[0]), key(rows[j]));
          }
        }
      } else {
        var rest := InsertBy(r, rows[1..], key);
        InsertAscending(r, rows[1..], key);
        InsertKeeps(r, rows[1..], key);
        forall j | 0 <= j < |rest| ensures !Less(key(rest[j]), key(rows[0])) {
          assert rest[j] in multiset(rest);
          if rest[j] != r {
            assert rest[j] in rows[1..];
          }
        }
      }
    }
  }

  lemma {:induction false} SortAscending<T>(rows: seq<T>, key: T -> string)
    ensures AscendingBy(SortBy(rows, key), key)
  {
    if rows != [] {
      SortAscending(rows[..|rows| - 1], key);
      InsertAscending(rows[|rows| - 1], SortBy(rows[..|rows| - 1], key), key);
    }
  }

  function KeysOf<T>(rows: seq<T>, key: T -> string): (keys: seq<string>)
    ensures |keys| == |rows| && forall i :: 0 <= i < |rows| ==> keys[i] == key(rows[i])
  {
    if rows == [] then [] else [key(rows[0])] + KeysOf(rows[1..], key)
  }

  lemma KeysRemoved<T>(rows: seq<T>, key: T -> string, j: nat)
    requires j < |rows|
    ensures KeysOf(Removed(rows, j), key) == Removed(KeysOf(rows, key), j)
  {
    var rest, keys := Removed(rows, j), KeysOf(rows, key);
    forall i | 0 <= i < |rest| ensures KeysOf(rest, key)[i] == Removed(keys, j)[i] {
      RemovedAt(rows, j, i);
      RemovedAt(keys, j, i);
    }
  }

  lemma {:induction false} KeysShuffled<T>(a: seq<T>, b: seq<T>, key: T -> string)
    requires multiset(a) == multiset(b)
    ensures multiset(KeysOf(a, key)) == multiset(KeysOf(b, key))
    decreases |a|
  {
    if a == [] {
      assert |b| == |multiset(b)| == |multiset(a)| == 0;
    } else {
      var j := FirstRemoved(a, b);
      KeysShuffled(a[1..], Removed(b, j), key);
      KeysRemoved(b, key, j);
      LedgerOrder.Split(KeysOf(b, key), j);
    }
  }

  /** The same rows in any order are sorted to the same keys. */
  lemma SortedKeys<T>(a: seq<T>, b: seq<T>, key: T -> string)
    requires multiset(a) == multiset(b)
    ensures |SortBy(a, key)| == |SortBy(b, key)| == |a|
    ensures forall i :: 0 <= i < |a| ==> key(SortBy(a, key)[i]) == key(SortBy(b, key)[i])
  {
    var s, t := SortBy(a, key), SortBy(b, key);
    SortKeeps(a, key);
    SortKeeps(b, key);
    SortAscending(a, key);
    SortAscending(b, key);
    assert |s| == |multiset(s)| == |a| && |t| == |multiset(t)|;
    KeysShuffled(s, t, key);
    AscendingUnique(KeysOf(s, key), KeysOf(t, key));
    assert forall i :: 0 <= i < |a| ==> KeysOf(s, key)[i] == KeysOf(t, key)[i];
  }

  // ---------------------------------------------------------------- the sort key

  ghost predicate Hex64(digest: Digest) {
    forall s :: |digest(s)| == 64
  }

  function SortKey(digest: Digest, r: Row): string {
    FindingKey(digest, r.core) + ("\0" + Text(digest, r))
  }

  lemma KeyDetermines(digest: Digest, a: Row, b: Row)
    requires Hex64(digest) && SortKey(digest, a) == SortKey(digest, b)
    ensures Text(digest, a) == Text(digest, b)
  {
    var x, y := FindingKey(digest, a.core), FindingKey(digest, b.core);
    assert |x| == 64 && |y| == 64;
    assert SortKey(digest, a)[65..] == Text(digest, a) && SortKey(digest, b)[65..] == Text(digest, b);
  }
}
