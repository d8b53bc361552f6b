/** The ledger as a whole: order does not matter, and every count adds up. */
module LedgerClaims {
  import opened Basics
  import opened Counting
  import opened Order
  import opened Ledger
  import opened LedgerJson
  import opened LedgerOrder
  import opened LedgerBook
  import opened LedgerGroups

  // ---------------------------------------------------------------- the sorted rows

  function SortedRows(digest: Digest, rows: seq<Row>): seq<Row> {
    SortBy(rows, (r: Row) => SortKey(digest, r))
  }

  function Cores(rows: seq<Row>): (cs: seq<Core>)
    ensures |cs| == |rows| && forall i :: 0 <= i < |rows| ==> cs[i] == rows[i].core
  {
    seq(|rows|, i requires 0 <= i < |rows| => rows[i].core)
  }

  function Texts(digest: Digest, rows: seq<Row>): (ts: seq<string>)
    ensures |ts| == |rows| && forall i :: 0 <= i < |rows| ==> ts[i] == Text(digest, rows[i])
  {
    seq(|rows|, i requires 0 <= i < |rows| => Text(digest, rows[i]))
  }

  ghost predicate AllDistinctVendors(rows: seq<Row>) {
    forall r :: r in rows ==> DistinctVendors(r)
  }

  lemma SortedAgree(digest: Digest, a: seq<Row>, b: seq<Row>)
    requires Hex64(digest) && multiset(a) == multiset(b) && AllDistinctVendors(a)
    ensures Texts(digest, SortedRows(digest, a)) == Texts(digest, SortedRows(digest, b))
    ensures Cores(SortedRows(digest, a)) == Cores(SortedRows(digest, b))
  {
    var key := (r: Row) => SortKey(digest, r);
    var s, t := SortedRows(digest, a), SortedRows(digest, b);
    SortedKeys(a, b, key);
    SortKeeps(a, key);
    SortKeeps(b, key);
    forall i | 0 <= i < |s| ensures Text(digest, s[i]) == Text(digest, t[i]) && s[i].core == t[i].core {
      assert key(s[i]) == key(t[i]);
      KeyDetermines(digest, s[i], t[i]);
      InMultiset(s, a, s[i]);
      InMultiset(t, a, t[i]);
      TextDetermines(digest, s[i], t[i]);
    }
  }

  // ---------------------------------------------------------------- counts

  function SeverityCount(cs: seq<Core>, s: Severity): nat {
    if cs == [] then 0 else SeverityCount(cs[..|cs| - 1], s) + if cs[|cs| - 1].grade.severity == s then 1 else 0
  }

  function FixedCount(cs: seq<Core>, fixed: bool): nat {
    if cs == [] then 0
    else FixedCount(cs[..|cs| - 1], fixed) + if cs[|cs| - 1].grade.fixedVersion.Some? == fixed then 1 else 0
  }

  function ClassCount(cs: seq<Core>, c: Class): nat {
    if cs == [] then 0 else ClassCount(cs[..|cs| - 1], c) + if cs[|cs| - 1].place.class_ == c then 1 else 0
  }

  /** The rows the gate is about. */
  predicate Blocking(c: Core) {
    c.grade.severity == High || c.grade.severity == Critical
  }

  function BlockingCount(cs: seq<Core>): nat {
    if cs == [] then 0 else BlockingCount(cs[..|cs| - 1]) + if Blocking(cs[|cs| - 1]) then 1 else 0
  }

  lemma {:induction false} CountsAddUp(cs: seq<Core>)
    ensures SeverityCount(cs, Unknown) + SeverityCount(cs, Low) + SeverityCount(cs, Medium) + SeverityCount(cs, High)
        + SeverityCount(cs, Critical) == |cs|
    ensures FixedCount(cs, true) + FixedCount(cs, false) == |cs|
    ensures ClassCount(cs, OsPackages) + ClassCount(cs, LanguagePackages) == |cs|
    ensures SeverityCount(cs, High) + SeverityCount(cs, Critical) == BlockingCount(cs)
  {
    if cs != [] {
      CountsAddUp(cs[..|cs| - 1]);
    }
  }

  // ---------------------------------------------------------------- the book

  datatype Counts = Counts(severity: map<Severity, nat>, fixed: nat, unfixed: nat, os: nat, language: nat)

  datatype SourceRow = SourceRow(origin: Origin, count: nat, vulnerabilities: seq<string>)

  /** What the ledger reports of its findings. */
  datatype Book = Book(findings: seq<string>, counts: Counts, categories: seq<(Category, nat)>, sources: seq<SourceRow>,
                       vulnerabilityIds: nat, advisories: nat, gate: nat)

  /** The canonical texts by which the two lists are sorted. */
  datatype Printer = Printer(category: ((Category, nat)) -> string, source: SourceRow -> string)

  ghost predicate CountsOf(n: Counts, cs: seq<Core>) {
    && (forall s :: s in n.severity && n.severity[s] == SeverityCount(cs, s))
    && n.fixed == FixedCount(cs, true) && n.unfixed == FixedCount(cs, false)
    && n.os == ClassCount(cs, OsPackages) && n.language == ClassCount(cs, LanguagePackages)
  }

  function CategoryRows(gs: seq<Group>): seq<(Category, nat)> {
    if gs == [] then []
    else (if gs[0].members == [] then [] else [(CategoryOf(gs[0].members[0]), |gs[0].members|)]) + CategoryRows(gs[1..])
  }

  function VulnerabilitiesOf(cs: seq<Core>): (ids: seq<string>)
    ensures |ids| == |cs| && forall i :: 0 <= i < |cs| ==> ids[i] == cs[i].ids.vulnerability
  {
    seq(|cs|, i requires 0 <= i < |cs| => cs[i].ids.vulnerability)
  }

  function SourceRows(gs: seq<Group>): seq<SourceRow> {
    if gs == [] then []
    else
      (if gs[0].members == [] then []
       else [SourceRow(OriginOf(gs[0].members[0]), |gs[0].members|, VulnerabilitiesOf(gs[0].members))])
      + SourceRows(gs[1..])
  }

  /** A list without repetitions, in code-point order. */
  function InsertNew(x: string, s: seq<string>): seq<string> {
    if s == [] || Less(x, s[0]) then [x] + s
    else if x == s[0] then s
    else [s[0]] + InsertNew(x, s[1..])
  }

  function Sorted(ids: seq<string>): seq<string> {
    if ids == [] then [] else InsertNew(ids[|ids| - 1], Sorted(ids[..|ids| - 1]))
  }

  function Tidied(rows: seq<SourceRow>): seq<SourceRow> {
    if rows == [] then [] else [rows[0].(vulnerabilities := Sorted(rows[0].vulnerabilities))] + Tidied(rows[1..])
  }

  function AdvisoriesOf(cs: seq<Core>): (keys: seq<string>)
    ensures |keys| == |cs| && forall i :: 0 <= i < |cs| ==> keys[i] == AdvisoryKey(cs[i])
  {
    seq(|cs|, i requires 0 <= i < |cs| => AdvisoryKey(cs[i]))
  }

  function CountsFor(cs: seq<Core>): Counts {
    Counts(map s: Severity | s in {Unknown, Low, Medium, High, Critical} :: SeverityCount(cs, s),
           FixedCount(cs, true), FixedCount(cs, false), ClassCount(cs, OsPackages), ClassCount(cs, LanguagePackages))
  }

  function CategoryList(printer: Printer, cs: seq<Core>): seq<(Category, nat)> {
    SortBy(CategoryRows(GroupBy(cs, CategoryKey)), printer.category)
  }

  /** Sorted with the vulnerabilities as collected; only then are those made unique and sorted. */
  function SourceList(printer: Printer, cs: seq<Core>): seq<SourceRow> {
    Tidied(SortBy(SourceRows(GroupBy(cs, OriginKey)), printer.source))
  }

  /** Everything the book says depends on the sorted cores and texts alone. */
  function BookOf(printer: Printer, cs: seq<Core>, texts: seq<string>): Book {
    Book(texts, CountsFor(cs), CategoryList(printer, cs), SourceList(printer, cs),
         |Elements(VulnerabilitiesOf(cs))|, |Elements(AdvisoriesOf(cs))|,
         SeverityCount(cs, High) + SeverityCount(cs, Critical))
  }

  /** `createReleaseLocalLedger`, as far as findings, counts and groups go. */
  function CreateLedger(digest: Digest, printer: Printer, r: Report): Option<Book> {
    if !ValidReport(r) then None
    else
      var rows := SortedRows(digest, Rows(r.results));
      Some(BookOf(printer, Cores(rows), Texts(digest, rows)))
  }

  // ---------------------------------------------------------------- rows of a valid report

  predicate ValidRow(r: Row) {
    ValidCore(r.core) && forall i, j :: 0 <= i < j < |r.vendor| ==> r.vendor[i].0 != r.vendor[j].0
  }

  lemma {:induction false} InventoryValid(ps: seq<Package>, id: string)
    requires forall i :: 0 <= i < |ps| ==> ValidPackage(ps[i])
    ensures Inventory(ps, id).Some? ==>
              var p := Inventory(ps, id).value;
              Bounded(p.name) && Bounded(p.version) && Nullable(p.sourceName) && Nullable(p.sourceVersion)
  {
    if ps != [] && ps[0].id != id {
      InventoryValid(ps[1..], id);
    }
  }

  lemma {:induction false} RowsOfValid(place: Place, ps: seq<Package>, fs: seq<Finding>, r: Row)
    requires Bounded(place.kind) && (forall i :: 0 <= i < |ps| ==> ValidPackage(ps[i]))
    requires forall i :: 0 <= i < |fs| ==> ValidFinding(fs[i])
    requires r in RowsOf(place, ps, fs)
    ensures ValidRow(r)
  {
    var f := fs[0];
    if r == RowOf(place, Inventory(ps, f.ids.package), f) {
      assert ValidFinding(f);
      InventoryValid(ps, f.ids.package);
      assert Bounded("unknown");
    } else {
      RowsOfValid(place, ps, fs[1..], r);
    }
  }

  lemma {:induction false} RowsValid(rs: seq<ScanResult>, osFamily: string, r: Row)
    requires AllValid(rs, osFamily) && r in Rows(rs)
    ensures ValidRow(r)
  {
    assert ValidResult(rs[0], osFamily);
    if r in RowsOf(rs[0].place, rs[0].packages, rs[0].findings) {
      RowsOfValid(rs[0].place, rs[0].packages, rs[0].findings, r);
    } else {
      RowsValid(rs[1..], osFamily, r);
    }
  }

  // ---------------------------------------------------------------- order does not matter

  /**
   * Permuting results, and packages and vulnerabilities inside them, changes nothing: the report is
   * refused or accepted alike, and findings, counts, categories and source packages are the same.
   */
  lemma OrderFree(digest: Digest, printer: Printer, r: Report, s: Report)
    requires Hex64(digest) && r.osFamily == s.osFamily && Shuffled(r.results, s.results)
    ensures CreateLedger(digest, printer, r) == CreateLedger(digest, printer, s)
  {
    if ValidReport(s) {
      ShuffledBack(r.results, s.results);
      ReportShuffled(s, r);
    }
    if ValidReport(r) {
      ReportShuffled(r, s);
      assert AllValid(r.results, r.osFamily);
      forall i | 0 <= i < |r.results| ensures Agreeing(r.results[i].packages) {
        assert ValidResult(r.results[i], r.osFamily);
      }
      RowsShuffled(r.results, s.results);
      forall row | row in Rows(r.results) ensures DistinctVendors(row) {
        RowsValid(r.results, r.osFamily, row);
      }
      SortedAgree(digest, Rows(r.results), Rows(s.results));
    }
  }

  // ---------------------------------------------------------------- every count adds up

  function CategoryTotal(cs: seq<(Category, nat)>): nat {
    if cs == [] then 0 else cs[0].1 + CategoryTotal(cs[1..])
  }

  function SourceTotal(rows: seq<SourceRow>): nat {
    if rows == [] then 0 else rows[0].count + SourceTotal(rows[1..])
  }

  lemma {:induction false} CategoryRowsTotal(gs: seq<Group>)
    ensures CategoryTotal(CategoryRows(gs)) == MemberCount(gs)
  {
    if gs != [] {
      CategoryRowsTotal(gs[1..]);
      CategoryTotalAppend(if gs[0].members == [] then [] else [(CategoryOf(gs[0].members[0]), |gs[0].members|)],
                          CategoryRows(gs[1..]));
    }
  }

  lemma {:induction false} CategoryTotalAppend(a: seq<(Category, nat)>, b: seq<(Category, nat)>)
    ensures CategoryTotal(a + b) == CategoryTotal(a) + CategoryTotal(b)
  {
    if a == [] {
      assert a + b == b;
    } else {
      assert (a + b)[1..] == a[1..] + b;
      CategoryTotalAppend(a[1..], b);
    }
  }

  lemma {:induction false} SourceRowsTotal(gs: seq<Group>)
    ensures SourceTotal(SourceRows(gs)) == MemberCount(gs)
  {
    if gs != [] {
      SourceRowsTotal(gs[1..]);
      var g := gs[0];
      SourceTotalAppend(if g.members == [] then []
                        else [SourceRow(OriginOf(g.members[0]), |g.members|, VulnerabilitiesOf(g.members))],
                        SourceRows(gs[1..]));
    }
  }

  lemma {:induction false} SourceTotalAppend(a: seq<SourceRow>, b: seq<SourceRow>)
    ensures SourceTotal(a + b) == SourceTotal(a) + SourceTotal(b)
  {
    if a == [] {
      assert a + b == b;
    } else {
      assert (a + b)[1..] == a[1..] + b;
      SourceTotalAppend(a[1..], b);
    }
  }

  lemma {:induction false} CategoryInsert(x: (Category, nat), s: seq<(Category, nat)>, key: ((Category, nat)) -> string)
    ensures CategoryTotal(InsertBy(x, s, key)) == x.1 + CategoryTotal(s)
  {
    if s != [] && !Less(key(x), key(s[0])) {
      CategoryInsert(x, s[1..], key);
    }
  }

  lemma {:induction false} CategorySort(s: seq<(Category, nat)>, key: ((Category, nat)) -> string)
    ensures CategoryTotal(SortBy(s, key)) == CategoryTotal(s)
  {
    if s != [] {
      var init := s[..|s| - 1];
      var last: (Category, nat) := s[|s| - 1];
      CategorySort(init, key);
      CategoryInsert(last, SortBy(init, key), key);
      assert s == init + [last];
      CategoryTotalAppend(init, [last]);
      assert CategoryTotal([last]) == last.1 + CategoryTotal([]);
    }
  }

  lemma {:induction false} SourceInsert(x: SourceRow, s: seq<SourceRow>, key: SourceRow -> string)
    ensures SourceTotal(InsertBy(x, s, key)) == x.count + SourceTotal(s)
  {
    if s != [] && !Less(key(x), key(s[0])) {
      SourceInsert(x, s[1..], key);
    }
  }

  lemma {:induction false} SourceSort(s: seq<SourceRow>, key: SourceRow -> string)
    ensures SourceTotal(SortBy(s, key)) == SourceTotal(s)
  {
    if s != [] {
      var init, last := s[..|s| - 1], s[|s| - 1];
      SourceSort(init, key);
      SourceInsert(last, SortBy(init, key), key);
      assert s == init + [last];
      SourceTotalAppend(init, [last]);
      assert SourceTotal([last]) == last.count + SourceTotal([]);
    }
  }

  lemma {:induction false} TidiedTotal(rows: seq<SourceRow>)
    ensures SourceTotal(Tidied(rows)) == SourceTotal(rows)
  {
    if rows != [] {
      TidiedTotal(rows[1..]);
    }
  }

  /**
   * Severity, fixedness, class, category and source-package counts each sum to the findings; the gate is HIGH and
   * CRITICAL.
   */
  lemma Conserved(printer: Printer, cs: seq<Core>, texts: seq<string>)
    requires |cs| == |texts|
    ensures var b := BookOf(printer, cs, texts);
            var n := b.counts;
            && (forall s :: s in n.severity)
            && n.severity[Unknown] + n.severity[Low] + n.severity[Medium] + n.severity[High]
                + n.severity[Critical] == |b.findings|
            && n.fixed + n.unfixed == |b.findings| && n.os + n.language == |b.findings|
            && CategoryTotal(b.categories) == |b.findings| && SourceTotal(b.sources) == |b.findings|
            && b.gate == BlockingCount(cs)
  {
    CountsAddUp(cs);
    EverySeverity(cs);
    GroupsExact(cs, CategoryKey, "");
    GroupsExact(cs, OriginKey, "");
    CategoryRowsTotal(GroupBy(cs, CategoryKey));
    CategorySort(CategoryRows(GroupBy(cs, CategoryKey)), printer.category);
    SourceRowsTotal(GroupBy(cs, OriginKey));
    SourceSort(SourceRows(GroupBy(cs, OriginKey)), printer.source);
    TidiedTotal(SortBy(SourceRows(GroupBy(cs, OriginKey)), printer.source));
  }

  lemma EverySeverity(cs: seq<Core>)
    ensures forall s :: s in CountsFor(cs).severity && CountsFor(cs).severity[s] == SeverityCount(cs, s)
  {
    forall s ensures s in CountsFor(cs).severity {
      match s
      case Unknown =>
      case Low =>
      case Medium =>
      case High =>
      case Critical =>
    }
  }

  // ---------------------------------------------------------------- every group is what it says

  function CategoryCount(cs: seq<Core>, k: Category): nat {
    if cs == [] then 0 else CategoryCount(cs[..|cs| - 1], k) + if CategoryOf(cs[|cs| - 1]) == k then 1 else 0
  }

  /** The vulnerabilities of a source package's rows, in their order. */
  function OriginVulnerabilities(cs: seq<Core>, o: Origin): seq<string> {
    if cs == [] then []
    else OriginVulnerabilities(cs[..|cs| - 1], o) + if OriginOf(cs[|cs| - 1]) == o then [cs[|cs| - 1].ids.vulnerability]
                                                    else []
  }

  ghost predicate AllValidCores(cs: seq<Core>) {
    forall i :: 0 <= i < |cs| ==> ValidCore(cs[i])
  }

  lemma {:induction false} SelectFrom(cs: seq<Core>, key: Core -> string, k: string)
    ensures forall i :: 0 <= i < |Select(cs, key, k)| ==> Select(cs, key, k)[i] in cs && key(Select(cs, key, k)[i]) == k
  {
    if cs != [] {
      var init := cs[..|cs| - 1];
      assert cs == init + [cs[|cs| - 1]];
      SelectFrom(init, key, k);
    }
  }

  lemma {:induction false} SelectCategory(cs: seq<Core>, c: Core)
    requires AllValidCores(cs) && ValidCore(c)
    ensures |Select(cs, CategoryKey, CategoryKey(c))| == CategoryCount(cs, CategoryOf(c))
  {
    if cs != [] {
      SelectCategory(cs[..|cs| - 1], c);
      CategoryKeyExact(cs[|cs| - 1], c);
    }
  }

  lemma {:induction false} SelectOrigin(cs: seq<Core>, c: Core)
    requires AllValidCores(cs) && ValidCore(c)
    ensures VulnerabilitiesOf(Select(cs, OriginKey, OriginKey(c))) == OriginVulnerabilities(cs, OriginOf(c))
  {
    if cs != [] {
      SelectOrigin(cs[..|cs| - 1], c);
      OriginKeyExact(cs[|cs| - 1], c);
      var init := Select(cs[..|cs| - 1], OriginKey, OriginKey(c));
      assert VulnerabilitiesOf(init + [cs[|cs| - 1]]) == VulnerabilitiesOf(init) + [cs[|cs| - 1].ids.vulnerability];
    }
  }

  lemma {:induction false} AddToNonempty(gs: seq<Group>, k: string, c: Core)
    requires forall i :: 0 <= i < |gs| ==> gs[i].members != []
    ensures forall i :: 0 <= i < |AddTo(gs, k, c)| ==> AddTo(gs, k, c)[i].members != []
  {
    if gs != [] && gs[0].key != k {
      AddToNonempty(gs[1..], k, c);
    }
  }

  lemma {:induction false} GroupsNonempty(cs: seq<Core>, key: Core -> string)
    ensures forall i :: 0 <= i < |GroupBy(cs, key)| ==> GroupBy(cs, key)[i].members != []
  {
    if cs != [] {
      GroupsNonempty(cs[..|cs| - 1], key);
      AddToNonempty(GroupBy(cs[..|cs| - 1], key), key(cs[|cs| - 1]), cs[|cs| - 1]);
    }
  }

  lemma GroupIs(cs: seq<Core>, key: Core -> string, i: nat)
    requires i < |GroupBy(cs, key)|
    ensures var g := GroupBy(cs, key)[i];
            g.members != [] && g.members == Select(cs, key, g.key) && g.members[0] in cs && key(g.members[0]) == g.key
  {
    var g := GroupBy(cs, key)[i];
    GroupsNonempty(cs, key);
    GroupsExact(cs, key, g.key);
    MembersAt(GroupBy(cs, key), i);
    SelectFrom(cs, key, g.key);
  }

  /** A category's count is the number of findings with its fields. */
  lemma CategoryExact(cs: seq<Core>, i: nat)
    requires AllValidCores(cs) && i < |GroupBy(cs, CategoryKey)|
    ensures var g := GroupBy(cs, CategoryKey)[i];
            g.members != [] && |g.members| == CategoryCount(cs, CategoryOf(g.members[0]))
  {
    var g := GroupBy(cs, CategoryKey)[i];
    GroupIs(cs, CategoryKey, i);
    SelectCategory(cs, g.members[0]);
  }

  /** A source package's rows are the findings of that package. */
  lemma OriginExact(cs: seq<Core>, i: nat)
    requires AllValidCores(cs) && i < |GroupBy(cs, OriginKey)|
    ensures var g := GroupBy(cs, OriginKey)[i];
            g.members != [] && VulnerabilitiesOf(g.members) == OriginVulnerabilities(cs, OriginOf(g.members[0]))
  {
    var g := GroupBy(cs, OriginKey)[i];
    GroupIs(cs, OriginKey, i);
    SelectOrigin(cs, g.members[0]);
  }

  // ---------------------------------------------------------------- the loop over rows

  const NO_COUNTS := Counts(map[Unknown := 0, Low := 0, Medium := 0, High := 0, Critical := 0], 0, 0, 0, 0)

  function Counted(n: Counts, c: Core): Counts
    requires c.grade.severity in n.severity
  {
    Counts(n.severity[c.grade.severity := n.severity[c.grade.severity] + 1],
           if c.grade.fixedVersion.Some? then n.fixed + 1 else n.fixed,
           if c.grade.fixedVersion.None? then n.unfixed + 1 else n.unfixed,
           if c.place.class_ == OsPackages then n.os + 1 else n.os,
           if c.place.class_ == LanguagePackages then n.language + 1 else n.language)
  }

  lemma CountsStart()
    ensures CountsOf(NO_COUNTS, [])
  {
    forall s ensures s in NO_COUNTS.severity && NO_COUNTS.severity[s] == 0 {
      match s
      case Unknown =>
      case Low =>
      case Medium =>
      case High =>
      case Critical =>
    }
  }

  lemma CountsSnoc(n: Counts, cs: seq<Core>, c: Core)
    requires CountsOf(n, cs)
    ensures CountsOf(Counted(n, c), cs + [c])
  {
    assert (cs + [c])[..|cs|] == cs;
    forall s ensures s in Counted(n, c).severity && Counted(n, c).severity[s] == SeverityCount(cs + [c], s) {
      assert s in n.severity;
    }
  }

  lemma CountsAre(n: Counts, cs: seq<Core>)
    requires CountsOf(n, cs)
    ensures n == CountsFor(cs)
  {
    EverySeverity(cs);
    forall s ensures s in n.severity && s in CountsFor(cs).severity && n.severity[s] == CountsFor(cs).severity[s] {}
    assert n.severity == CountsFor(cs).severity;
  }

  /** The loop's maps and sets. */
  datatype Totals = Totals(counts: Counts, categories: seq<Group>, sources: seq<Group>, vulnerabilities: set<string>,
                           advisories: set<string>)

  function TotalsOf(cs: seq<Core>): Totals {
    Totals(CountsFor(cs), GroupBy(cs, CategoryKey), GroupBy(cs, OriginKey), Elements(VulnerabilitiesOf(cs)),
           Elements(AdvisoriesOf(cs)))
  }

  lemma GroupSnoc(cs: seq<Core>, c: Core, key: Core -> string)
    ensures GroupBy(cs + [c], key) == AddTo(GroupBy(cs, key), key(c), c)
  {
    assert (cs + [c])[..|cs|] == cs;
  }

  lemma CountsForSnoc(cs: seq<Core>, c: Core)
    ensures c.grade.severity in CountsFor(cs).severity && Counted(CountsFor(cs), c) == CountsFor(cs + [c])
  {
    EverySeverity(cs);
    CountsSnoc(CountsFor(cs), cs, c);
    CountsAre(Counted(CountsFor(cs), c), cs + [c]);
  }

  lemma TotalsStart()
    ensures TotalsOf([]) == Totals(NO_COUNTS, [], [], {}, {})
  {
    CountsStart();
    CountsAre(NO_COUNTS, []);
  }

  /** The loop that counts and groups the sorted rows. */
  method Collect(cs: seq<Core>) returns (t: Totals)
    ensures t == TotalsOf(cs)
  {
    t := Totals(NO_COUNTS, [], [], {}, {});
    TotalsStart();
    assert cs[..0] == [];
    var i := 0;
    while i < |cs|
      invariant 0 <= i <= |cs| && t == TotalsOf(cs[..i])
    {
      var c := cs[i];
      assert cs[..i + 1] == cs[..i] + [c];
      CountsForSnoc(cs[..i], c);
      GroupSnoc(cs[..i], c, CategoryKey);
      GroupSnoc(cs[..i], c, OriginKey);
      ElementsSnoc(cs[..i], c);
      t := Totals(Counted(t.counts, c), AddTo(t.categories, CategoryKey(c), c), AddTo(t.sources, OriginKey(c), c),
                  t.vulnerabilities + {c.ids.vulnerability}, t.advisories + {AdvisoryKey(c)});
      i := i + 1;
    }
    assert cs[..|cs|] == cs;
  }

  /** The second half of `createReleaseLocalLedger`, from the sorted rows on. */
  method Summarise(printer: Printer, cs: seq<Core>, texts: seq<string>) returns (book: Book)
    ensures book == BookOf(printer, cs, texts)
  {
    var t := Collect(cs);
    EverySeverity(cs);
    book := Book(texts, t.counts, SortBy(CategoryRows(t.categories), printer.category),
                 Tidied(SortBy(SourceRows(t.sources), printer.source)),
                 |t.vulnerabilities|, |t.advisories|, t.counts.severity[High] + t.counts.severity[Critical]);
  }

  lemma ElementsSnoc(cs: seq<Core>, c: Core)
    ensures Elements(VulnerabilitiesOf(cs + [c])) == Elements(VulnerabilitiesOf(cs)) + {c.ids.vulnerability}
    ensures Elements(AdvisoriesOf(cs + [c])) == Elements(AdvisoriesOf(cs)) + {AdvisoryKey(c)}
  {
    var v, a := VulnerabilitiesOf(cs + [c]), AdvisoriesOf(cs + [c]);
    assert v[..|cs|] == VulnerabilitiesOf(cs) && a[..|cs|] == AdvisoriesOf(cs);
  }

  // ---------------------------------------------------------------- from the report to the gate

  predicate BlockingFinding(f: Finding) {
    f.grade.severity == High || f.grade.severity == Critical
  }

  function BlockingIn(fs: seq<Finding>): nat {
    if fs == [] then 0 else (if BlockingFinding(fs[0]) then 1 else 0) + BlockingIn(fs[1..])
  }

  /** HIGH and CRITICAL findings as they stand in the report. */
  function BlockingReported(rs: seq<ScanResult>): nat {
    if rs == [] then 0 else BlockingIn(rs[0].findings) + BlockingReported(rs[1..])
  }

  function BlockingRows(rows: seq<Row>): nat {
    if rows == [] then 0 else (if Blocking(rows[0].core) then 1 else 0) + BlockingRows(rows[1..])
  }

  lemma {:induction false} BlockingAppend(a: seq<Row>, b: seq<Row>)
    ensures BlockingRows(a + b) == BlockingRows(a) + BlockingRows(b)
  {
    if a == [] {
      assert a + b == b;
    } else {
      assert (a + b)[0] == a[0] && (a + b)[1..] == a[1..] + b;
      BlockingAppend(a[1..], b);
    }
  }

  lemma {:induction false} BlockingOfResult(place: Place, ps: seq<Package>, fs: seq<Finding>)
    ensures BlockingRows(RowsOf(place, ps, fs)) == BlockingIn(fs) && |RowsOf(place, ps, fs)| == |fs|
  {
    if fs != [] {
      BlockingOfResult(place, ps, fs[1..]);
      assert RowsOf(place, ps, fs)[1..] == RowsOf(place, ps, fs[1..]);
    }
  }

  lemma {:induction false} BlockingOfReport(rs: seq<ScanResult>)
    ensures BlockingRows(Rows(rs)) == BlockingReported(rs) && |Rows(rs)| == FindingCount(rs)
  {
    if rs != [] {
      BlockingOfReport(rs[1..]);
      BlockingOfResult(rs[0].place, rs[0].packages, rs[0].findings);
      BlockingAppend(RowsOf(rs[0].place, rs[0].packages, rs[0].findings), Rows(rs[1..]));
    }
  }

  lemma {:induction false} BlockingInsert(r: Row, rows: seq<Row>, key: Row -> string)
    ensures BlockingRows(InsertBy(r, rows, key)) == BlockingRows(rows) + if Blocking(r.core) then 1 else 0
  {
    if rows != [] && !Less(key(r), key(rows[0])) {
      BlockingInsert(r, rows[1..], key);
    }
  }

  lemma {:induction false} BlockingSorted(rows: seq<Row>, key: Row -> string)
    ensures BlockingRows(SortBy(rows, key)) == BlockingRows(rows)
  {
    if rows != [] {
      var init, last := rows[..|rows| - 1], rows[|rows| - 1];
      BlockingSorted(init, key);
      BlockingInsert(last, SortBy(init, key), key);
      assert rows == init + [last];
      BlockingAppend(init, [last]);
      assert BlockingRows([last]) == (if Blocking(last.core) then 1 else 0) + BlockingRows([]);
    }
  }

  lemma {:induction false} BlockingCores(rows: seq<Row>)
    ensures BlockingCount(Cores(rows)) == BlockingRows(rows)
  {
    if rows != [] {
      var init, last := rows[..|rows| - 1], rows[|rows| - 1];
      BlockingCores(init);
      assert Cores(rows)[..|rows| - 1] == Cores(init);
      assert rows == init + [last];
      BlockingAppend(init, [last]);
      assert BlockingRows([last]) == (if Blocking(last.core) then 1 else 0) + BlockingRows([]);
    }
  }

  /**
   * A ledger has one row per reported finding, all of them groupable, and its gate counts the reported HIGH and
   * CRITICAL ones.
   */
  lemma LedgerFaithful(digest: Digest, printer: Printer, r: Report)
    requires ValidReport(r)
    ensures var rows := SortedRows(digest, Rows(r.results));
            && CreateLedger(digest, printer, r) == Some(BookOf(printer, Cores(rows), Texts(digest, rows)))
            && AllValidCores(Cores(rows)) && |rows| == FindingCount(r.results)
            && BookOf(printer, Cores(rows), Texts(digest, rows)).gate == BlockingReported(r.results)
  {
    var key := (x: Row) => SortKey(digest, x);
    var all := Rows(r.results);
    var rows := SortedRows(digest, all);
    SortKeeps(all, key);
    assert |rows| == |multiset(rows)| == |all|;
    BlockingOfReport(r.results);
    BlockingSorted(all, key);
    BlockingCores(rows);
    CountsAddUp(Cores(rows));
    assert AllValid(r.results, r.osFamily);
    forall i | 0 <= i < |rows| ensures ValidCore(rows[i].core) {
      InMultiset(rows, all, rows[i]);
      RowsValid(r.results, r.osFamily, rows[i]);
    }
  }
}
