/** Rows do not depend on the order of results, packages or findings. */
module LedgerOrder {
  import opened Basics
  import opened Ledger

  // ---------------------------------------------------------------- packages

  lemma InMultiset<T>(s: seq<T>, t: seq<T>, x: T)
    requires multiset(s) == multiset(t)
    ensures x in s <==> x in t
  {
    assert x in s <==> x in multiset(s);
    assert x in t <==> x in multiset(t);
  }

  /** What stands where once one element is removed. */
  lemma RemovedAt<T>(s: seq<T>, j: nat, i: nat)
    requires j < |s| && i < |s| - 1
    ensures |Removed(s, j)| == |s| - 1 && Removed(s, j)[i] == if i < j then s[i] else s[i + 1]
  {
  }

  lemma AgreeingOn(ps: seq<Package>, x: Package, y: Package)
    requires Agreeing(ps) && x in ps && y in ps && x.id == y.id
    ensures x.identity == y.identity
  {
    var i :| 0 <= i < |ps| && ps[i] == x;
    var j :| 0 <= j < |ps| && ps[j] == y;
    if i < j {
      assert ps[i].identity == ps[j].identity;
    } else if j < i {
      assert ps[j].identity == ps[i].identity;
    }
  }

  lemma AgreeingSame(ps: seq<Package>, qs: seq<Package>)
    requires Agreeing(ps) && multiset(ps) == multiset(qs)
    ensures Agreeing(qs)
  {
    forall i, j | 0 <= i < j < |qs| && qs[i].id == qs[j].id ensures qs[i].identity == qs[j].identity {
      InMultiset(ps, qs, qs[i]);
      InMultiset(ps, qs, qs[j]);
      AgreeingOn(ps, qs[i], qs[j]);
    }
  }

  lemma {:induction false} InventoryFrom(ps: seq<Package>, id: string)
    ensures Inventory(ps, id).Some? ==> exists p :: p in ps && p.id == id && Inventory(ps, id) == Some(p.identity)
    ensures Inventory(ps, id).None? ==> forall p :: p in ps ==> p.id != id
  {
    if ps != [] {
      assert ps == [ps[0]] + ps[1..];
      if ps[0].id == id {
        assert ps[0] in ps;
      } else {
        InventoryFrom(ps[1..], id);
      }
    }
  }

  /** Which of two agreeing packages comes first does not matter. */
  lemma InventorySame(ps: seq<Package>, qs: seq<Package>, id: string)
    requires Agreeing(ps) && multiset(ps) == multiset(qs)
    ensures Inventory(ps, id) == Inventory(qs, id)
  {
    InventoryFrom(ps, id);
    InventoryFrom(qs, id);
    AgreeingSame(ps, qs);
    if Inventory(ps, id).Some? {
      var p :| p in ps && p.id == id && Inventory(ps, id) == Some(p.identity);
      InMultiset(ps, qs, p);
      var q :| q in qs && q.id == id && Inventory(qs, id) == Some(q.identity);
      InMultiset(ps, qs, q);
      AgreeingOn(ps, p, q);
    } else if Inventory(qs, id).Some? {
      var q :| q in qs && q.id == id && Inventory(qs, id) == Some(q.identity);
      InMultiset(ps, qs, q);
    }
  }

  // ---------------------------------------------------------------- findings

  lemma {:induction false} RowsOfSame(place: Place, ps: seq<Package>, qs: seq<Package>, fs: seq<Finding>)
    requires Agreeing(ps) && multiset(ps) == multiset(qs)
    ensures RowsOf(place, ps, fs) == RowsOf(place, qs, fs)
  {
    if fs != [] {
      InventorySame(ps, qs, fs[0].ids.package);
      RowsOfSame(place, ps, qs, fs[1..]);
    }
  }

  lemma {:induction false} RowsOfAppend(place: Place, ps: seq<Package>, a: seq<Finding>, b: seq<Finding>)
    ensures RowsOf(place, ps, a + b) == RowsOf(place, ps, a) + RowsOf(place, ps, b)
  {
    if a == [] {
      assert a + b == b;
    } else {
      assert (a + b)[0] == a[0] && (a + b)[1..] == a[1..] + b;
      RowsOfAppend(place, ps, a[1..], b);
    }
  }

  lemma Split<T>(s: seq<T>, j: nat)
    requires j < |s|
    ensures s == s[..j] + ([s[j]] + s[j + 1..]) && multiset(s) == multiset{s[j]} + multiset(Removed(s, j))
  {
    assert s == s[..j] + ([s[j]] + s[j + 1..]);
  }

  lemma RowsOfRemoved(place: Place, ps: seq<Package>, fs: seq<Finding>, j: nat)
    requires j < |fs|
    ensures multiset(RowsOf(place, ps, fs))
         == multiset{RowOf(place, Inventory(ps, fs[j].ids.package), fs[j])} + multiset(RowsOf(place, ps,
                                                                                              Removed(fs, j)))
  {
    Split(fs, j);
    var a, x, b := fs[..j], [fs[j]], fs[j + 1..];
    RowsOfAppend(place, ps, a, x + b);
    RowsOfAppend(place, ps, x, b);
    RowsOfAppend(place, ps, a, b);
    assert x[1..] == [];
    assert RowsOf(place, ps, x) == [RowOf(place, Inventory(ps, fs[j].ids.package), fs[j])];
  }

  /** The first of some elements stands in any permutation of them; without it the rest still agree. */
  lemma FirstRemoved<T>(s: seq<T>, t: seq<T>) returns (j: nat)
    requires s != [] && multiset(s) == multiset(t)
    ensures |s| == |t| && j < |t| && t[j] == s[0] && multiset(s[1..]) == multiset(Removed(t, j))
  {
    assert |s| == |multiset(s)| == |multiset(t)| == |t|;
    InMultiset(s, t, s[0]);
    j :| 0 <= j < |t| && t[j] == s[0];
    Split(t, j);
    Split(s, 0);
    assert Removed(s, 0) == s[1..];
    Cancelled(multiset{s[0]}, multiset(s[1..]), multiset(Removed(t, j)));
  }

  lemma Cancelled<T>(a: multiset<T>, b: multiset<T>, c: multiset<T>)
    requires a + b == a + c
    ensures b == c
  {
    assert (a + b) - a == b && (a + c) - a == c;
  }

  lemma RowsOfFirst(place: Place, ps: seq<Package>, fs: seq<Finding>)
    requires fs != []
    ensures multiset(RowsOf(place, ps, fs))
         == multiset{RowOf(place, Inventory(ps, fs[0].ids.package), fs[0])} + multiset(RowsOf(place, ps, fs[1..]))
  {
  }

  lemma {:induction false} FindingsShuffled(place: Place, ps: seq<Package>, fs: seq<Finding>, gs: seq<Finding>)
    requires multiset(fs) == multiset(gs)
    ensures multiset(RowsOf(place, ps, fs)) == multiset(RowsOf(place, ps, gs))
    decreases |fs|
  {
    if fs == [] {
      assert |gs| == |multiset(gs)| == |multiset(fs)| == 0;
    } else {
      var j := FirstRemoved(fs, gs);
      FindingsShuffled(place, ps, fs[1..], Removed(gs, j));
      RowsOfRemoved(place, ps, gs, j);
      RowsOfFirst(place, ps, fs);
    }
  }

  // ---------------------------------------------------------------- results

  ghost function ResultRows(r: ScanResult): multiset<Row> {
    multiset(RowsOf(r.place, r.packages, r.findings))
  }

  lemma ResultShuffled(a: ScanResult, b: ScanResult)
    requires SameResult(a, b) && Agreeing(a.packages)
    ensures ResultRows(a) == ResultRows(b)
  {
    RowsOfSame(a.place, a.packages, b.packages, b.findings);
    FindingsShuffled(a.place, a.packages, a.findings, b.findings);
  }

  lemma {:induction false} RowsAppend(a: seq<ScanResult>, b: seq<ScanResult>)
    ensures Rows(a + b) == Rows(a) + Rows(b)
  {
    if a == [] {
      assert a + b == b;
    } else {
      assert (a + b)[0] == a[0] && (a + b)[1..] == a[1..] + b;
      RowsAppend(a[1..], b);
    }
  }

  lemma RowsRemoved(rs: seq<ScanResult>, j: nat)
    requires j < |rs|
    ensures multiset(Rows(rs)) == ResultRows(rs[j]) + multiset(Rows(Removed(rs, j)))
  {
    Split(rs, j);
    var a, x, b := rs[..j], [rs[j]], rs[j + 1..];
    RowsAppend(a, x + b);
    RowsAppend(x, b);
    RowsAppend(a, b);
    assert x[1..] == [];
    assert Rows(x) == RowsOf(rs[j].place, rs[j].packages, rs[j].findings) + [];
  }

  ghost predicate AllAgreeing(rs: seq<ScanResult>) {
    forall i :: 0 <= i < |rs| ==> Agreeing(rs[i].packages)
  }

  /** The rows of shuffled results are the same, as a collection. */
  lemma {:induction false} RowsShuffled(a: seq<ScanResult>, b: seq<ScanResult>)
    requires Shuffled(a, b) && AllAgreeing(a)
    ensures multiset(Rows(a)) == multiset(Rows(b))
    decreases |a|
  {
    if a != [] {
      var j :| 0 <= j < |b| && SameResult(a[0], b[j]) && Shuffled(a[1..], Removed(b, j));
      RowsShuffled(a[1..], Removed(b, j));
      ResultShuffled(a[0], b[j]);
      RowsRemoved(b, j);
    }
  }

  // ---------------------------------------------------------------- validity

  lemma ValidResultSame(a: ScanResult, b: ScanResult, osFamily: string)
    requires SameResult(a, b) && ValidResult(a, osFamily)
    ensures ValidResult(b, osFamily)
  {
    AgreeingSame(a.packages, b.packages);
    forall i | 0 <= i < |b.packages| ensures ValidPackage(b.packages[i]) {
      InMultiset(a.packages, b.packages, b.packages[i]);
    }
    forall i | 0 <= i < |b.findings| ensures ValidFinding(b.findings[i]) {
      InMultiset(a.findings, b.findings, b.findings[i]);
    }
    assert |a.packages| == |multiset(a.packages)| == |b.packages|;
  }

  lemma {:induction false} CountsAppend(a: seq<ScanResult>, b: seq<ScanResult>)
    ensures PackageCount(a + b) == PackageCount(a) + PackageCount(b)
    ensures FindingCount(a + b) == FindingCount(a) + FindingCount(b)
  {
    if a == [] {
      assert a + b == b;
    } else {
      assert (a + b)[0] == a[0] && (a + b)[1..] == a[1..] + b;
      CountsAppend(a[1..], b);
    }
  }

  lemma CountsRemoved(rs: seq<ScanResult>, j: nat)
    requires j < |rs|
    ensures PackageCount(rs) == |rs[j].packages| + PackageCount(Removed(rs, j))
    ensures FindingCount(rs) == |rs[j].findings| + FindingCount(Removed(rs, j))
  {
    Split(rs, j);
    var a, x, b := rs[..j], [rs[j]], rs[j + 1..];
    CountsAppend(a, x + b);
    CountsAppend(x, b);
    CountsAppend(a, b);
    assert x[1..] == [];
  }

  ghost predicate AllValid(rs: seq<ScanResult>, osFamily: string) {
    forall i :: 0 <= i < |rs| ==> ValidResult(rs[i], osFamily)
  }

  lemma {:induction false} CountsShuffled(a: seq<ScanResult>, b: seq<ScanResult>)
    requires Shuffled(a, b)
    ensures PackageCount(a) == PackageCount(b) && FindingCount(a) == FindingCount(b)
    decreases |a|
  {
    if a != [] {
      var j :| 0 <= j < |b| && SameResult(a[0], b[j]) && Shuffled(a[1..], Removed(b, j));
      CountsShuffled(a[1..], Removed(b, j));
      CountsRemoved(b, j);
      assert |a[0].packages| == |multiset(a[0].packages)| == |b[j].packages|;
      assert |a[0].findings| == |multiset(a[0].findings)| == |b[j].findings|;
    }
  }

  lemma {:induction false} OsShuffled(a: seq<ScanResult>, b: seq<ScanResult>)
    requires Shuffled(a, b)
    ensures HasOs(a) <==> HasOs(b)
    decreases |a|
  {
    if a != [] {
      var j :| 0 <= j < |b| && SameResult(a[0], b[j]) && Shuffled(a[1..], Removed(b, j));
      OsShuffled(a[1..], Removed(b, j));
      OsRemoved(b, j);
      OsRemoved(a, 0);
      assert Removed(a, 0) == a[1..];
    }
  }

  lemma {:induction false} ValidShuffled(a: seq<ScanResult>, b: seq<ScanResult>, osFamily: string)
    requires Shuffled(a, b) && AllValid(a, osFamily)
    ensures AllValid(b, osFamily)
    decreases |a|
  {
    if a != [] {
      var j :| 0 <= j < |b| && SameResult(a[0], b[j]) && Shuffled(a[1..], Removed(b, j));
      assert AllValid(a[1..], osFamily);
      ValidShuffled(a[1..], Removed(b, j), osFamily);
      ValidResultSame(a[0], b[j], osFamily);
      ValidRemoved(b, j, osFamily);
    }
  }

  /** A shuffled report is refused or accepted as the report is. */
  lemma ReportShuffled(r: Report, s: Report)
    requires r.osFamily == s.osFamily && Shuffled(r.results, s.results) && ValidReport(r)
    ensures ValidReport(s)
  {
    CountsShuffled(r.results, s.results);
    OsShuffled(r.results, s.results);
    assert AllValid(r.results, r.osFamily);
    ValidShuffled(r.results, s.results, r.osFamily);
  }

  lemma OsRemoved(rs: seq<ScanResult>, j: nat)
    requires j < |rs|
    ensures HasOs(rs) <==> rs[j].place.class_ == OsPackages || HasOs(Removed(rs, j))
  {
    var rest := Removed(rs, j);
    if HasOs(rs) {
      var i :| 0 <= i < |rs| && rs[i].place.class_ == OsPackages;
      if i < j {
        assert rest[i] == rs[i];
      } else if j < i {
        assert rest[i - 1] == rs[i];
      }
    }
    if HasOs(rest) {
      var i :| 0 <= i < |rest| && rest[i].place.class_ == OsPackages;
      assert rest[i] == rs[if i < j then i else i + 1];
    }
  }

  lemma ValidRemoved(rs: seq<ScanResult>, j: nat, osFamily: string)
    requires j < |rs| && ValidResult(rs[j], osFamily) && AllValid(Removed(rs, j), osFamily)
    ensures AllValid(rs, osFamily)
  {
    var rest := Removed(rs, j);
    forall i | 0 <= i < |rs| ensures ValidResult(rs[i], osFamily) {
      if i < j {
        assert rest[i] == rs[i];
      } else if j < i {
        assert rest[i - 1] == rs[i];
      }
    }
  }

  // ---------------------------------------------------------------- shuffling back

  lemma RemovedTwice<T>(s: seq<T>, k: nat, i: nat) returns (j: nat, l: nat)
    requires k < |s| && i < |s| - 1
    ensures j < |s| && l < |s| - 1 && s[j] == Removed(s, k)[i]
    ensures Removed(s, j)[l] == s[k] && Removed(Removed(s, k), i) == Removed(Removed(s, j), l)
  {
    if i < k {
      j, l := i, k - 1;
    } else {
      j, l := i + 1, k;
    }
    RemovedAt(s, k, i);
    RemovedAt(s, j, l);
    var once, other := Removed(s, k), Removed(s, j);
    var a, b := Removed(once, i), Removed(other, l);
    assert |a| == |b| == |s| - 2;
    forall m | 0 <= m < |a| ensures a[m] == b[m] {
      RemovedAt(once, i, m);
      RemovedAt(other, l, m);
      RemovedAt(s, k, if m < i then m else m + 1);
      RemovedAt(s, j, if m < l then m else m + 1);
    }
  }

  lemma TailRemoved<T>(b: seq<T>, j: nat)
    requires 0 < j < |b|
    ensures Removed(b, j)[1..] == Removed(b[1..], j - 1)
  {
  }

  lemma {:induction false} ShuffledWith(b: seq<ScanResult>, j: nat, y: seq<ScanResult>, k: nat)
    requires j < |b| && k < |y| && SameResult(b[j], y[k]) && Shuffled(Removed(b, j), Removed(y, k))
    ensures Shuffled(b, y)
    decreases |b|
  {
    if j == 0 {
      assert Removed(b, 0) == b[1..];
    } else {
      var c, z := Removed(b, j), Removed(y, k);
      assert c[0] == b[0];
      var i :| 0 <= i < |z| && SameResult(c[0], z[i]) && Shuffled(c[1..], Removed(z, i));
      var m, l := RemovedTwice(y, k, i);
      TailRemoved(b, j);
      ShuffledWith(b[1..], j - 1, Removed(y, m), l);
      assert SameResult(b[0], y[m]) && Shuffled(b[1..], Removed(y, m));
    }
  }

  lemma {:induction false} ShuffledBack(a: seq<ScanResult>, b: seq<ScanResult>)
    requires Shuffled(a, b)
    ensures Shuffled(b, a)
    decreases |a|
  {
    if a != [] {
      var j :| 0 <= j < |b| && SameResult(a[0], b[j]) && Shuffled(a[1..], Removed(b, j));
      ShuffledBack(a[1..], Removed(b, j));
      assert Removed(a, 0) == a[1..];
      ShuffledWith(b, j, a, 0);
    }
  }
}
