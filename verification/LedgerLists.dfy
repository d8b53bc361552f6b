/** What the lists and counts of a ledger say of its findings, entry by entry. */
module LedgerLists {
  import opened Order
  import opened Counting
  import opened Ledger
  import opened LedgerBook
  import opened LedgerGroups
  import opened LedgerClaims

  // ---------------------------------------------------------------- groups as lists

  ghost predicate Inhabited(gs: seq<Group>) {
    forall i :: 0 <= i < |gs| ==> gs[i].members != []
  }

  lemma {:induction false} CategoryRowsAre(gs: seq<Group>)
    requires Inhabited(gs)
    ensures |CategoryRows(gs)| == |gs|
    ensures forall i :: 0 <= i < |gs| ==> CategoryRows(gs)[i] == (CategoryOf(gs[i].members[0]), |gs[i].members|)
  {
    if gs != [] {
      CategoryRowsAre(gs[1..]);
    }
  }

  lemma {:induction false} SourceRowsAre(gs: seq<Group>)
    requires Inhabited(gs)
    ensures |SourceRows(gs)| == |gs|
    ensures forall i :: 0 <= i < |gs| ==>
              SourceRows(gs)[i] == SourceRow(OriginOf(gs[i].members[0]), |gs[i].members|,
                                             VulnerabilitiesOf(gs[i].members))
  {
    if gs != [] {
      SourceRowsAre(gs[1..]);
    }
  }

  lemma {:induction false} MembersPlace(gs: seq<Group>, k: string) returns (i: nat)
    requires MembersOf(gs, k) != []
    ensures i < |gs| && gs[i].key == k
  {
    if gs[0].key == k {
      i := 0;
    } else {
      i := MembersPlace(gs[1..], k);
      i := i + 1;
    }
  }

  lemma {:induction false} SelectHas(cs: seq<Core>, key: Core -> string, c: Core)
    requires c in cs
    ensures Select(cs, key, key(c)) != []
  {
    var init, last := cs[..|cs| - 1], cs[|cs| - 1];
    if last != c {
      assert cs == init + [last];
      SelectHas(init, key, c);
    }
  }

  /** Every finding has its group. */
  lemma GroupOf(cs: seq<Core>, key: Core -> string, c: Core) returns (i: nat)
    requires c in cs
    ensures i < |GroupBy(cs, key)| && GroupBy(cs, key)[i].key == key(c)
  {
    SelectHas(cs, key, c);
    GroupsExact(cs, key, key(c));
    i := MembersPlace(GroupBy(cs, key), key(c));
  }

  lemma SortedHas<T>(rows: seq<T>, key: T -> string, x: T)
    ensures x in SortBy(rows, key) <==> x in rows
  {
    SortKeeps(rows, key);
    assert x in SortBy(rows, key) <==> x in multiset(SortBy(rows, key));
    assert x in rows <==> x in multiset(rows);
  }

  /** Nothing stands twice in a sorted list if nothing did before. */
  lemma SortedOnce<T>(rows: seq<T>, key: T -> string)
    requires Different(rows)
    ensures Different(SortBy(rows, key))
  {
    var s := SortBy(rows, key);
    SortKeeps(rows, key);
    forall i, j | 0 <= i < j < |s| ensures s[i] != s[j] {
      if s[i] == s[j] {
        TwiceThere(s, i, j);
        OnceThere(rows, s[i]);
      }
    }
  }

  lemma TwiceThere<T>(s: seq<T>, i: nat, j: nat)
    requires i < j < |s| && s[i] == s[j]
    ensures multiset(s)[s[i]] >= 2
  {
    assert s == s[..i] + [s[i]] + s[i + 1..j] + [s[j]] + s[j + 1..];
  }

  lemma {:induction false} OnceThere<T>(s: seq<T>, x: T)
    requires Different(s)
    ensures multiset(s)[x] <= 1
  {
    if s != [] {
      assert s == [s[0]] + s[1..];
      OnceThere(s[1..], x);
      if s[0] == x && x in s[1..] {
        var j :| 0 <= j < |s[1..]| && s[1..][j] == x;
        assert s[j + 1] == s[0];
      }
      assert multiset(s)[x] == (if s[0] == x then 1 else 0) + multiset(s[1..])[x];
    }
  }

  // ---------------------------------------------------------------- categories

  lemma {:induction false} CategoryFound(cs: seq<Core>, k: Category) returns (c: Core)
    requires CategoryCount(cs, k) > 0
    ensures c in cs && CategoryOf(c) == k
  {
    var init, last := cs[..|cs| - 1], cs[|cs| - 1];
    assert cs == init + [last];
    if CategoryOf(last) == k {
      c := last;
    } else {
      c := CategoryFound(init, k);
    }
  }

  /** The category rows before sorting: each category of a finding, with its count, once. */
  lemma CategoryRowsExact(cs: seq<Core>, k: Category, n: nat)
    requires AllValidCores(cs)
    ensures (k, n) in CategoryRows(GroupBy(cs, CategoryKey)) <==> n == CategoryCount(cs, k) > 0
  {
    var gs := GroupBy(cs, CategoryKey);
    GroupsNonempty(cs, CategoryKey);
    CategoryRowsAre(gs);
    var rows := CategoryRows(gs);
    if (k, n) in rows {
      var i :| 0 <= i < |rows| && rows[i] == (k, n);
      CategoryExact(cs, i);
    }
    if n == CategoryCount(cs, k) > 0 {
      var c := CategoryFound(cs, k);
      var i := GroupOf(cs, CategoryKey, c);
      GroupIs(cs, CategoryKey, i);
      CategoryKeyExact(gs[i].members[0], c);
      CategoryExact(cs, i);
      assert rows[i] == (k, n);
    }
  }

  lemma CategoryRowsOnce(cs: seq<Core>)
    requires AllValidCores(cs)
    ensures var rows := CategoryRows(GroupBy(cs, CategoryKey));
            forall i, j :: 0 <= i < j < |rows| ==> rows[i].0 != rows[j].0
  {
    var gs := GroupBy(cs, CategoryKey);
    GroupsNonempty(cs, CategoryKey);
    GroupsExact(cs, CategoryKey, "");
    CategoryRowsAre(gs);
    forall i, j | 0 <= i < j < |gs| ensures CategoryOf(gs[i].members[0]) != CategoryOf(gs[j].members[0]) {
      GroupIs(cs, CategoryKey, i);
      GroupIs(cs, CategoryKey, j);
      CategoryKeyExact(gs[i].members[0], gs[j].members[0]);
    }
  }

  /** The ledger lists a category with a count exactly when that many findings, and at least one, have its fields. */
  lemma CategoriesExact(printer: Printer, cs: seq<Core>, texts: seq<string>, k: Category, n: nat)
    requires AllValidCores(cs)
    ensures (k, n) in BookOf(printer, cs, texts).categories <==> n == CategoryCount(cs, k) > 0
    ensures Different(BookOf(printer, cs, texts).categories)
  {
    var rows := CategoryRows(GroupBy(cs, CategoryKey));
    CategoryRowsExact(cs, k, n);
    CategoryRowsOnce(cs);
    SortedHas(rows, printer.category, (k, n));
    assert Different(rows);
    SortedOnce(rows, printer.category);
  }

  // ---------------------------------------------------------------- source packages

  lemma {:induction false} OriginFound(cs: seq<Core>, o: Origin) returns (c: Core)
    requires OriginVulnerabilities(cs, o) != []
    ensures c in cs && OriginOf(c) == o
  {
    var init, last := cs[..|cs| - 1], cs[|cs| - 1];
    assert cs == init + [last];
    if OriginOf(last) == o {
      c := last;
    } else {
      c := OriginFound(init, o);
    }
  }

  /** The row of a source package as collected. */
  function Collected(cs: seq<Core>, o: Origin): SourceRow {
    SourceRow(o, |OriginVulnerabilities(cs, o)|, OriginVulnerabilities(cs, o))
  }

  lemma SourceRowIs(cs: seq<Core>, i: nat)
    requires AllValidCores(cs) && i < |GroupBy(cs, OriginKey)|
    ensures Inhabited(GroupBy(cs, OriginKey)) && |SourceRows(GroupBy(cs, OriginKey))| == |GroupBy(cs, OriginKey)|
    ensures var o := OriginOf(GroupBy(cs, OriginKey)[i].members[0]);
            SourceRows(GroupBy(cs, OriginKey))[i] == Collected(cs, o) && OriginVulnerabilities(cs, o) != []
  {
    GroupsNonempty(cs, OriginKey);
    SourceRowsAre(GroupBy(cs, OriginKey));
    OriginExact(cs, i);
  }

  lemma SourceRowsExact(cs: seq<Core>, s: SourceRow)
    requires AllValidCores(cs)
    ensures s in SourceRows(GroupBy(cs, OriginKey)) <==> s == Collected(cs, s.origin) && s.count > 0
  {
    var gs := GroupBy(cs, OriginKey);
    GroupsNonempty(cs, OriginKey);
    SourceRowsAre(gs);
    var rows := SourceRows(gs);
    if s in rows {
      var i :| 0 <= i < |rows| && rows[i] == s;
      SourceRowIs(cs, i);
    }
    if s == Collected(cs, s.origin) && s.count > 0 {
      var c := OriginFound(cs, s.origin);
      var i := GroupOf(cs, OriginKey, c);
      GroupIs(cs, OriginKey, i);
      OriginKeyExact(gs[i].members[0], c);
      SourceRowIs(cs, i);
      assert rows[i] == s;
    }
  }

  lemma {:induction false} TidiedAre(rows: seq<SourceRow>)
    ensures |Tidied(rows)| == |rows|
    ensures forall i :: 0 <= i < |rows| ==>
              Tidied(rows)[i] == rows[i].(vulnerabilities := Sorted(rows[i].vulnerabilities))
  {
    if rows != [] {
      TidiedAre(rows[1..]);
    }
  }

  /** Strictly ascending in code-point order. */
  predicate Ascending(s: seq<string>) {
    forall i, j :: 0 <= i < j < |s| ==> Less(s[i], s[j])
  }

  lemma {:induction false} InsertNewExact(x: string, s: seq<string>)
    requires Ascending(s)
    ensures Ascending(InsertNew(x, s)) && forall y :: y in InsertNew(x, s) <==> y in s || y == x
  {
    if s != [] {
      if Less(x, s[0]) {
        forall j | 0 <= j < |s| ensures Less(x, s[j]) {
          if j > 0 {
            LessTransitive(x, s[0], s[j]);
          }
        }
      } else if x != s[0] {
        LessTotal(x, s[0]);
        var rest := InsertNew(x, s[1..]);
        InsertNewExact(x, s[1..]);
        forall j | 0 <= j < |rest| ensures Less(s[0], rest[j]) {
          if rest[j] != x {
            assert rest[j] in s[1..];
          }
        }
        assert s == [s[0]] + s[1..];
      }
    }
  }

  /** The identifiers of a source package: those of its findings, each once, in order. */
  lemma {:induction false} SortedExact(ids: seq<string>)
    ensures Ascending(Sorted(ids)) && forall y :: y in Sorted(ids) <==> y in ids
  {
    if ids != [] {
      var init, last := ids[..|ids| - 1], ids[|ids| - 1];
      SortedExact(init);
      InsertNewExact(last, Sorted(init));
      assert ids == init + [last];
    }
  }

  /** The row of a source package as the ledger lists it. */
  function Listed(cs: seq<Core>, o: Origin): SourceRow {
    SourceRow(o, |OriginVulnerabilities(cs, o)|, Sorted(OriginVulnerabilities(cs, o)))
  }

  lemma SourceListHas(printer: Printer, cs: seq<Core>, s: SourceRow)
    requires AllValidCores(cs)
    ensures s in SourceList(printer, cs) <==> s == Listed(cs, s.origin) && s.count > 0
  {
    var rows := SortBy(SourceRows(GroupBy(cs, OriginKey)), printer.source);
    TidiedAre(rows);
    if s in Tidied(rows) {
      var i :| 0 <= i < |rows| && Tidied(rows)[i] == s;
      SortedHas(SourceRows(GroupBy(cs, OriginKey)), printer.source, rows[i]);
      SourceRowsExact(cs, rows[i]);
    }
    if s == Listed(cs, s.origin) && s.count > 0 {
      var raw := Collected(cs, s.origin);
      SourceRowsExact(cs, raw);
      SortedHas(SourceRows(GroupBy(cs, OriginKey)), printer.source, raw);
      var i :| 0 <= i < |rows| && rows[i] == raw;
      assert Tidied(rows)[i] == s;
    }
  }

  lemma SourceRowsOnce(cs: seq<Core>)
    requires AllValidCores(cs)
    ensures Different(SourceRows(GroupBy(cs, OriginKey)))
  {
    var gs := GroupBy(cs, OriginKey);
    GroupsNonempty(cs, OriginKey);
    GroupsExact(cs, OriginKey, "");
    SourceRowsAre(gs);
    forall i, j | 0 <= i < j < |gs| ensures OriginOf(gs[i].members[0]) != OriginOf(gs[j].members[0]) {
      GroupIs(cs, OriginKey, i);
      GroupIs(cs, OriginKey, j);
      OriginKeyExact(gs[i].members[0], gs[j].members[0]);
    }
  }

  lemma SourceListOnce(printer: Printer, cs: seq<Core>)
    requires AllValidCores(cs)
    ensures Different(SourceList(printer, cs))
  {
    var raw := SourceRows(GroupBy(cs, OriginKey));
    var rows := SortBy(raw, printer.source);
    SourceRowsOnce(cs);
    SortedOnce(raw, printer.source);
    TidiedAre(rows);
    forall i, j | 0 <= i < j < |rows| ensures Tidied(rows)[i] != Tidied(rows)[j] {
      SortedHas(raw, printer.source, rows[i]);
      SortedHas(raw, printer.source, rows[j]);
      SourceRowsExact(cs, rows[i]);
      SourceRowsExact(cs, rows[j]);
    }
  }

  /**
   * The ledger lists a source package exactly when some finding belongs to it, once, with the number
   * of its findings and with their vulnerability identifiers, each once, in code-point order.
   */
  lemma SourcesExact(printer: Printer, cs: seq<Core>, texts: seq<string>, s: SourceRow)
    requires AllValidCores(cs)
    ensures s in BookOf(printer, cs, texts).sources <==> s == Listed(cs, s.origin) && s.count > 0
    ensures Different(BookOf(printer, cs, texts).sources)
    ensures Ascending(Listed(cs, s.origin).vulnerabilities)
    ensures forall v :: v in Listed(cs, s.origin).vulnerabilities <==> v in OriginVulnerabilities(cs, s.origin)
  {
    SourceListHas(printer, cs, s);
    SourceListOnce(printer, cs);
    SortedExact(OriginVulnerabilities(cs, s.origin));
  }

  // ---------------------------------------------------------------- advisories

  /** An advisory by its fields. */
  type Advisory = (Origin, string)

  function AdvisoryOf(c: Core): Advisory {
    (OriginOf(c), c.ids.vulnerability)
  }

  ghost function Advisories(cs: seq<Core>): set<Advisory> {
    set i | 0 <= i < |cs| :: AdvisoryOf(cs[i])
  }

  lemma AdvisoriesSnoc(cs: seq<Core>)
    requires cs != []
    ensures Advisories(cs) == Advisories(cs[..|cs| - 1]) + {AdvisoryOf(cs[|cs| - 1])}
  {
    var init, last := cs[..|cs| - 1], cs[|cs| - 1];
    forall a | a in Advisories(init) ensures a in Advisories(cs) {
      var i :| 0 <= i < |init| && AdvisoryOf(init[i]) == a;
      assert cs[i] == init[i];
    }
    assert AdvisoryOf(cs[|cs| - 1]) in Advisories(cs);
  }

  /** Keys of advisories are as many as the advisories themselves. */
  lemma {:induction false} AdvisoryCount(cs: seq<Core>)
    requires AllValidCores(cs)
    ensures |Elements(AdvisoriesOf(cs))| == |Advisories(cs)|
  {
    if cs != [] {
      var init, last := cs[..|cs| - 1], cs[|cs| - 1];
      AdvisoryCount(init);
      AdvisoriesSnoc(cs);
      assert cs == init + [last];
      ElementsSnoc(init, last);
      AdvisoryKnown(init, last);
      OneMore(Elements(AdvisoriesOf(init)), AdvisoryKey(last), Advisories(init), AdvisoryOf(last));
    }
  }

  lemma OneMore<A, B>(a: set<A>, x: A, b: set<B>, y: B)
    requires |a| == |b| && (x in a <==> y in b)
    ensures |a + {x}| == |b + {y}|
  {
    if x in a {
      assert a + {x} == a && b + {y} == b;
    }
  }

  lemma AdvisoryKnown(init: seq<Core>, last: Core)
    requires AllValidCores(init) && ValidCore(last)
    ensures AdvisoryKey(last) in Elements(AdvisoriesOf(init)) <==> AdvisoryOf(last) in Advisories(init)
  {
    ElementsAre(AdvisoriesOf(init), AdvisoryKey(last));
    if AdvisoryKey(last) in AdvisoriesOf(init) {
      var i :| 0 <= i < |init| && AdvisoriesOf(init)[i] == AdvisoryKey(last);
      AdvisoryKeyExact(init[i], last);
      assert AdvisoryOf(init[i]) in Advisories(init);
    }
    if AdvisoryOf(last) in Advisories(init) {
      var i :| 0 <= i < |init| && AdvisoryOf(init[i]) == AdvisoryOf(last);
      AdvisoryKeyExact(init[i], last);
      assert AdvisoriesOf(init)[i] == AdvisoryKey(last);
    }
  }

  /** The ledger counts source packages paired with vulnerabilities, and vulnerabilities, each once. */
  lemma AdvisoriesExact(printer: Printer, cs: seq<Core>, texts: seq<string>)
    requires AllValidCores(cs)
    ensures BookOf(printer, cs, texts).advisories == |Advisories(cs)|
    ensures BookOf(printer, cs, texts).vulnerabilityIds == |set i | 0 <= i < |cs| :: cs[i].ids.vulnerability|
  {
    AdvisoryCount(cs);
    var ids := VulnerabilitiesOf(cs);
    var plain := set i | 0 <= i < |cs| :: cs[i].ids.vulnerability;
    forall v ensures v in Elements(ids) <==> v in plain {
      ElementsAre(ids, v);
      if v in ids {
        var i :| 0 <= i < |ids| && ids[i] == v;
        assert cs[i].ids.vulnerability in plain;
      }
    }
    assert Elements(ids) == plain;
  }
}
