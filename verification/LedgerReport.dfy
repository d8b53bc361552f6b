/** What the ledger says of the scanner's report: every count and list, told from the reported findings. */
module LedgerReport {
  import opened Basics
  import opened Counting
  import opened Order
  import opened Json
  import opened JsonClaims
  import opened Ledger
  import opened LedgerJson
  import opened LedgerOrder
  import opened LedgerBook
  import opened LedgerGroups
  import opened LedgerClaims
  import opened LedgerLists

  // ---------------------------------------------------------------- the reported findings

  /** A finding with the place and the package inventory it was reported under. */
  datatype Entry = Entry(place: Place, packages: seq<Package>, finding: Finding)

  function EntriesOf(place: Place, ps: seq<Package>, fs: seq<Finding>): seq<Entry> {
    if fs == [] then [] else [Entry(place, ps, fs[0])] + EntriesOf(place, ps, fs[1..])
  }

  /** The report as one list of findings. */
  function Entries(rs: seq<ScanResult>): seq<Entry> {
    if rs == [] then [] else EntriesOf(rs[0].place, rs[0].packages, rs[0].findings) + Entries(rs[1..])
  }

  function RowFor(e: Entry): Row {
    RowOf(e.place, Inventory(e.packages, e.finding.ids.package), e.finding)
  }

  lemma {:induction false} RowsOfAre(place: Place, ps: seq<Package>, fs: seq<Finding>)
    ensures |RowsOf(place, ps, fs)| == |EntriesOf(place, ps, fs)| == |fs|
    ensures forall i :: 0 <= i < |fs| ==> RowsOf(place, ps, fs)[i] == RowFor(EntriesOf(place, ps, fs)[i])
    ensures forall e :: e in EntriesOf(place, ps, fs) <==> e.place == place && e.packages == ps && e.finding in fs
  {
    if fs != [] {
      RowsOfAre(place, ps, fs[1..]);
      assert fs == [fs[0]] + fs[1..];
    }
  }

  /** The rows before sorting are those of the reported findings, one by one. */
  lemma {:induction false} RowsAre(rs: seq<ScanResult>)
    ensures |Rows(rs)| == |Entries(rs)| && forall i :: 0 <= i < |Rows(rs)| ==> Rows(rs)[i] == RowFor(Entries(rs)[i])
  {
    if rs != [] {
      RowsOfAre(rs[0].place, rs[0].packages, rs[0].findings);
      RowsAre(rs[1..]);
    }
  }

  /** An entry is a finding of one of the results, with that result's place and packages. */
  lemma {:induction false} EntriesAre(rs: seq<ScanResult>, e: Entry)
    ensures e in Entries(rs) <==>
              exists i :: 0 <= i < |rs| && e.place == rs[i].place && e.packages == rs[i].packages
                  && e.finding in rs[i].findings
  {
    if rs != [] {
      var first := rs[0];
      RowsOfAre(first.place, first.packages, first.findings);
      EntriesAre(rs[1..], e);
      if e in Entries(rs[1..]) {
        var i :| 0 <= i < |rs[1..]| && e.place == rs[1..][i].place && e.packages == rs[1..][i].packages
                 && e.finding in rs[1..][i].findings;
        assert rs[i + 1] == rs[1..][i];
      }
      if i :| 0 < i < |rs| && e.place == rs[i].place && e.packages == rs[i].packages && e.finding in rs[i].findings {
        assert rs[1..][i - 1] == rs[i];
      }
    }
  }

  // ---------------------------------------------------------------- counting

  function CountOf<T>(s: seq<T>, p: T -> bool): nat {
    if s == [] then 0 else CountOf(s[..|s| - 1], p) + if p(s[|s| - 1]) then 1 else 0
  }

  lemma CountSnoc<T>(s: seq<T>, x: T, p: T -> bool)
    ensures CountOf(s + [x], p) == CountOf(s, p) + if p(x) then 1 else 0
  {
    assert (s + [x])[..|s|] == s;
  }

  lemma {:induction false} CountAppend<T>(a: seq<T>, b: seq<T>, p: T -> bool)
    ensures CountOf(a + b, p) == CountOf(a, p) + CountOf(b, p)
  {
    if b == [] {
      assert a + b == a;
    } else {
      var init, last := b[..|b| - 1], b[|b| - 1];
      CountAppend(a, init, p);
      CountSnoc(a + init, last, p);
      assert a + b == a + init + [last];
    }
  }

  lemma {:induction false} CountInsert<T>(x: T, s: seq<T>, key: T -> string, p: T -> bool)
    ensures CountOf(InsertBy(x, s, key), p) == CountOf(s, p) + if p(x) then 1 else 0
  {
    if s == [] || Less(key(x), key(s[0])) {
      CountAppend([x], s, p);
      assert CountOf([x], p) == (if p(x) then 1 else 0) + CountOf([], p);
    } else {
      CountInsert(x, s[1..], key, p);
      CountAppend([s[0]], InsertBy(x, s[1..], key), p);
      CountAppend([s[0]], s[1..], p);
      assert s == [s[0]] + s[1..];
    }
  }

  lemma {:induction false} CountSorted<T>(s: seq<T>, key: T -> string, p: T -> bool)
    ensures CountOf(SortBy(s, key), p) == CountOf(s, p)
  {
    if s != [] {
      CountSorted(s[..|s| - 1], key, p);
      CountInsert(s[|s| - 1], SortBy(s[..|s| - 1], key), key, p);
    }
  }

  /** Lists that agree place by place, under two readings of one question, have one count. */
  lemma {:induction false} CountAlike<T, U>(a: seq<T>, b: seq<U>, p: T -> bool, q: U -> bool)
    requires |a| == |b| && forall i :: 0 <= i < |a| ==> p(a[i]) == q(b[i])
    ensures CountOf(a, p) == CountOf(b, q)
  {
    if a != [] {
      CountAlike(a[..|a| - 1], b[..|b| - 1], p, q);
    }
  }

  function OnCore(q: Core -> bool): Row -> bool {
    (r: Row) => q(r.core)
  }

  /** A question asked of the sorted rows has the answer it has of the reported findings. */
  lemma CountedFromReport(digest: Digest, rs: seq<ScanResult>, q: Core -> bool, p: Entry -> bool)
    requires forall e :: e in Entries(rs) ==> q(RowFor(e).core) == p(e)
    ensures CountOf(Cores(SortedRows(digest, Rows(rs))), q) == CountOf(Entries(rs), p)
  {
    var all, rows := Rows(rs), SortedRows(digest, Rows(rs));
    RowsAre(rs);
    CountAlike(Cores(rows), rows, q, OnCore(q));
    CountSorted(all, (r: Row) => SortKey(digest, r), OnCore(q));
    forall i | 0 <= i < |all| ensures OnCore(q)(all[i]) == p(Entries(rs)[i]) {
      assert Entries(rs)[i] in Entries(rs);
    }
    CountAlike(all, Entries(rs), OnCore(q), p);
  }

  // ---------------------------------------------------------------- questions about a reported finding

  function OfSeverity(s: Severity): Entry -> bool {
    (e: Entry) => e.finding.grade.severity == s
  }

  function HasFix(fixed: bool): Entry -> bool {
    (e: Entry) => e.finding.grade.fixedVersion.Some? == fixed
  }

  function OfClass(c: Class): Entry -> bool {
    (e: Entry) => e.place.class_ == c
  }

  /**
   * The source package of a finding. A package in the inventory under the finding's package id gives its
   * source's name and version, each falling back to its own; without one the finding's own are taken.
   * The mapping says which it was, and language packages are always their own source.
   */
  predicate SourceTold(e: Entry, s: Source) {
    var id := e.finding.ids.package;
    && (forall i :: 0 <= i < |e.packages| && e.packages[i].id == id ==>
          var p := e.packages[i].identity;
          && s.name == (if p.sourceName.Some? then p.sourceName.value else p.name)
          && s.version == (if p.sourceVersion.Some? then p.sourceVersion.value else p.version)
          && s.mapping == (if e.place.class_ == LanguagePackages then LanguageSelf
                           else if p.sourceName.Some? then ScannerSource else ScannerSelf))
    && ((forall i :: 0 <= i < |e.packages| ==> e.packages[i].id != id) ==>
          && s.name == e.finding.ids.packageName && s.version == e.finding.ids.installed
          && s.mapping == if e.place.class_ == LanguagePackages then LanguageSelf else BinaryFallback)
  }

  predicate FieldsOf(e: Entry, k: Category) {
    && e.place.class_ == k.class_ && e.place.kind == k.kind && e.finding.grade.severity == k.severity
    && k.status == (if e.finding.status.Some? then e.finding.status.value else "unknown")
    && k.fixedness
         == (if e.finding.grade.fixedVersion.Some? then "fixed-version-available" else "no-known-fixed-version")
    && k.severitySource == e.finding.grade.severitySource
    && k.dataId == (if e.finding.notes.data.Some? then e.finding.notes.data.value.id else None)
    && SourceTold(e, k.source)
  }

  function InCategory(k: Category): Entry -> bool {
    (e: Entry) => FieldsOf(e, k)
  }

  predicate ComesFrom(e: Entry, o: Origin) {
    e.place.class_ == o.class_ && e.place.kind == o.kind && SourceTold(e, o.source)
  }

  function FromOrigin(o: Origin): Entry -> bool {
    (e: Entry) => ComesFrom(e, o)
  }

  // ---------------------------------------------------------------- the answers of a row

  lemma {:induction false} InventoryFirst(ps: seq<Package>, id: string)
    ensures Inventory(ps, id).None? <==> forall i :: 0 <= i < |ps| ==> ps[i].id != id
    ensures Inventory(ps, id).Some? ==>
              exists i :: 0 <= i < |ps| && ps[i].id == id && ps[i].identity == Inventory(ps, id).value
  {
    if ps != [] {
      InventoryFirst(ps[1..], id);
      if ps[0].id != id && Inventory(ps[1..], id).Some? {
        var i :| 0 <= i < |ps[1..]| && ps[1..][i].id == id && ps[1..][i].identity == Inventory(ps[1..], id).value;
        assert ps[i + 1] == ps[1..][i];
      }
    }
  }

  /** The source package of a row is the one the inventory tells, and no other. */
  lemma SourceExactly(e: Entry, s: Source)
    requires Agreeing(e.packages)
    ensures RowFor(e).core.source == s <==> SourceTold(e, s)
  {
    var id := e.finding.ids.package;
    InventoryFirst(e.packages, id);
    if Inventory(e.packages, id).Some? {
      var j :| 0 <= j < |e.packages| && e.packages[j].id == id
          && e.packages[j].identity == Inventory(e.packages, id).value;
      forall i | 0 <= i < |e.packages| && e.packages[i].id == id
        ensures e.packages[i].identity == e.packages[j].identity
      {
        if i < j {
          assert e.packages[i].identity == e.packages[j].identity;
        }
      }
    }
  }

  lemma CategoryTold(e: Entry, k: Category)
    requires Agreeing(e.packages)
    ensures CategoryOf(RowFor(e).core) == k <==> FieldsOf(e, k)
  {
    SourceExactly(e, k.source);
  }

  lemma OriginTold(e: Entry, o: Origin)
    requires Agreeing(e.packages)
    ensures OriginOf(RowFor(e).core) == o <==> ComesFrom(e, o)
  {
    SourceExactly(e, o.source);
  }

  lemma EntryAgreeing(r: Report, e: Entry)
    requires ValidReport(r) && e in Entries(r.results)
    ensures Agreeing(e.packages)
  {
    EntriesAre(r.results, e);
    var i :| 0 <= i < |r.results| && e.place == r.results[i].place && e.packages == r.results[i].packages
             && e.finding in r.results[i].findings;
    assert ValidResult(r.results[i], r.osFamily);
  }

  // ---------------------------------------------------------------- counts of the book as counts of cores

  lemma {:induction false} CountsAsCounts(cs: seq<Core>, s: Severity, fixed: bool, c: Class)
    ensures SeverityCount(cs, s) == CountOf(cs, (x: Core) => x.grade.severity == s)
    ensures FixedCount(cs, fixed) == CountOf(cs, (x: Core) => x.grade.fixedVersion.Some? == fixed)
    ensures ClassCount(cs, c) == CountOf(cs, (x: Core) => x.place.class_ == c)
  {
    if cs != [] {
      CountsAsCounts(cs[..|cs| - 1], s, fixed, c);
    }
  }

  lemma {:induction false} CategoryAsCount(cs: seq<Core>, k: Category)
    ensures CategoryCount(cs, k) == CountOf(cs, (x: Core) => CategoryOf(x) == k)
  {
    if cs != [] {
      CategoryAsCount(cs[..|cs| - 1], k);
    }
  }

  lemma {:induction false} OriginAsCount(cs: seq<Core>, o: Origin)
    ensures |OriginVulnerabilities(cs, o)| == CountOf(cs, (x: Core) => OriginOf(x) == o)
  {
    if cs != [] {
      OriginAsCount(cs[..|cs| - 1], o);
    }
  }

  // ---------------------------------------------------------------- the book, told from the report

  function Reported(r: Report, p: Entry -> bool): nat {
    CountOf(Entries(r.results), p)
  }

  /** The sorted rows of a report. */
  function CoresOf(digest: Digest, r: Report): seq<Core> {
    Cores(SortedRows(digest, Rows(r.results)))
  }

  /** The ledger of a report, from its sorted rows. */
  lemma BookIs(digest: Digest, printer: Printer, r: Report, cs: seq<Core>, texts: seq<string>)
    requires ValidReport(r) && cs == CoresOf(digest, r) && texts == Texts(digest, SortedRows(digest, Rows(r.results)))
    ensures CreateLedger(digest, printer, r) == Some(BookOf(printer, cs, texts)) && AllValidCores(cs)
  {
    LedgerFaithful(digest, printer, r);
  }

  /** Severity, fixedness and class counts are those of the reported findings, and so is the gate. */
  lemma CountsTold(digest: Digest, printer: Printer, r: Report, s: Severity, fixed: bool, c: Class)
    requires ValidReport(r)
    ensures CreateLedger(digest, printer, r).Some?
    ensures var n := CreateLedger(digest, printer, r).value.counts;
            && s in n.severity && n.severity[s] == Reported(r, OfSeverity(s))
            && (if fixed then n.fixed else n.unfixed) == Reported(r, HasFix(fixed))
            && (if c == OsPackages then n.os else n.language) == Reported(r, OfClass(c))
  {
    var cs := CoresOf(digest, r);
    BookIs(digest, printer, r, cs, Texts(digest, SortedRows(digest, Rows(r.results))));
    EverySeverity(cs);
    CountsAsCounts(cs, s, fixed, c);
    CountedFromReport(digest, r.results, (x: Core) => x.grade.severity == s, OfSeverity(s));
    CountedFromReport(digest, r.results, (x: Core) => x.grade.fixedVersion.Some? == fixed, HasFix(fixed));
    CountedFromReport(digest, r.results, (x: Core) => x.place.class_ == c, OfClass(c));
  }

  lemma GateTold(digest: Digest, printer: Printer, r: Report)
    requires ValidReport(r)
    ensures CreateLedger(digest, printer, r).Some?
    ensures CreateLedger(digest, printer, r).value.gate
         == Reported(r, OfSeverity(High)) + Reported(r, OfSeverity(Critical))
  {
    var cs := CoresOf(digest, r);
    BookIs(digest, printer, r, cs, Texts(digest, SortedRows(digest, Rows(r.results))));
    CountsTold(digest, printer, r, High, true, OsPackages);
    CountsTold(digest, printer, r, Critical, true, OsPackages);
    EverySeverity(cs);
  }

  /** A category is listed with a count exactly when that many reported findings, and at least one, have its fields. */
  lemma CategoriesTold(digest: Digest, printer: Printer, r: Report, k: Category, n: nat)
    requires ValidReport(r)
    ensures CreateLedger(digest, printer, r).Some?
    ensures (k, n) in CreateLedger(digest, printer, r).value.categories <==> n == Reported(r, InCategory(k)) > 0
  {
    var cs := CoresOf(digest, r);
    var texts := Texts(digest, SortedRows(digest, Rows(r.results)));
    BookIs(digest, printer, r, cs, texts);
    CategoriesExact(printer, cs, texts, k, n);
    CategoryAsCount(cs, k);
    forall e | e in Entries(r.results) ensures (CategoryOf(RowFor(e).core) == k) == InCategory(k)(e) {
      EntryAgreeing(r, e);
      CategoryTold(e, k);
    }
    CountedFromReport(digest, r.results, (x: Core) => CategoryOf(x) == k, InCategory(k));
  }

  /**
   * A source package is listed with a count exactly when that many reported findings, and at least one, come from
   * it.
   */
  lemma SourcesTold(digest: Digest, printer: Printer, r: Report, o: Origin, n: nat)
    requires ValidReport(r)
    ensures CreateLedger(digest, printer, r).Some?
    ensures (exists s :: s in CreateLedger(digest, printer, r).value.sources && s.origin == o && s.count == n) <==>
              n == Reported(r, FromOrigin(o)) > 0
  {
    var cs := CoresOf(digest, r);
    var texts := Texts(digest, SortedRows(digest, Rows(r.results)));
    BookIs(digest, printer, r, cs, texts);
    OriginAsCount(cs, o);
    forall e | e in Entries(r.results) ensures (OriginOf(RowFor(e).core) == o) == FromOrigin(o)(e) {
      EntryAgreeing(r, e);
      OriginTold(e, o);
    }
    CountedFromReport(digest, r.results, (x: Core) => OriginOf(x) == o, FromOrigin(o));
    SourcesExact(printer, cs, texts, Listed(cs, o));
    forall s | s in BookOf(printer, cs, texts).sources && s.origin == o
      ensures s.count == |OriginVulnerabilities(cs, o)| > 0
    {
      SourcesExact(printer, cs, texts, s);
    }
  }

  // ---------------------------------------------------------------- identifiers

  /** The sorted rows are the rows of the entries, and no others. */
  lemma CoreReported(digest: Digest, r: Report, c: Core)
    ensures c in CoresOf(digest, r) <==> exists e :: e in Entries(r.results) && RowFor(e).core == c
  {
    var all, rows := Rows(r.results), SortedRows(digest, Rows(r.results));
    var key := (x: Row) => SortKey(digest, x);
    RowsAre(r.results);
    if c in CoresOf(digest, r) {
      var i :| 0 <= i < |rows| && rows[i].core == c;
      SortedHas(all, key, rows[i]);
      var j :| 0 <= j < |all| && all[j] == rows[i];
      assert Entries(r.results)[j] in Entries(r.results);
    }
    if e :| e in Entries(r.results) && RowFor(e).core == c {
      var j :| 0 <= j < |all| && Entries(r.results)[j] == e;
      SortedHas(all, key, all[j]);
      var i :| 0 <= i < |rows| && rows[i] == all[j];
      assert CoresOf(digest, r)[i] == c;
    }
  }

  lemma {:induction false} OriginHolds(cs: seq<Core>, o: Origin, v: string)
    ensures v in OriginVulnerabilities(cs, o) <==> exists c :: c in cs && OriginOf(c) == o && c.ids.vulnerability == v
  {
    if cs != [] {
      var init, last := cs[..|cs| - 1], cs[|cs| - 1];
      OriginHolds(init, o, v);
      assert cs == init + [last];
      if v in OriginVulnerabilities(init, o) {
        var c :| c in init && OriginOf(c) == o && c.ids.vulnerability == v;
        assert c in cs;
      }
    }
  }

  /** The identifiers listed for a source package are those of the findings reported from it, in order, each once. */
  lemma VulnerabilitiesTold(digest: Digest, printer: Printer, r: Report, s: SourceRow, v: string)
    requires ValidReport(r) && CreateLedger(digest, printer, r).Some?
    requires s in CreateLedger(digest, printer, r).value.sources
    ensures LedgerLists.Ascending(s.vulnerabilities)
    ensures v in s.vulnerabilities <==>
              exists e :: e in Entries(r.results) && ComesFrom(e, s.origin) && e.finding.ids.vulnerability == v
  {
    var cs := CoresOf(digest, r);
    var texts := Texts(digest, SortedRows(digest, Rows(r.results)));
    BookIs(digest, printer, r, cs, texts);
    SourcesExact(printer, cs, texts, s);
    OriginHolds(cs, s.origin, v);
    if c :| c in cs && OriginOf(c) == s.origin && c.ids.vulnerability == v {
      CoreReported(digest, r, c);
      var e :| e in Entries(r.results) && RowFor(e).core == c;
      EntryAgreeing(r, e);
      OriginTold(e, s.origin);
    }
    if e :| e in Entries(r.results) && ComesFrom(e, s.origin) && e.finding.ids.vulnerability == v {
      EntryAgreeing(r, e);
      OriginTold(e, s.origin);
      CoreReported(digest, r, RowFor(e).core);
    }
  }

  /** A source package and a vulnerability, as some finding was reported. */
  ghost predicate Advises(r: Report, a: Advisory) {
    exists e :: e in Entries(r.results) && ComesFrom(e, a.0) && e.finding.ids.vulnerability == a.1
  }

  lemma AdvisoryReported(digest: Digest, r: Report, a: Advisory)
    requires ValidReport(r)
    ensures a in Advisories(CoresOf(digest, r)) <==> Advises(r, a)
  {
    var cs := CoresOf(digest, r);
    if a in Advisories(cs) {
      var i :| 0 <= i < |cs| && AdvisoryOf(cs[i]) == a;
      CoreReported(digest, r, cs[i]);
      var e :| e in Entries(r.results) && RowFor(e).core == cs[i];
      EntryAgreeing(r, e);
      OriginTold(e, a.0);
    }
    if e :| e in Entries(r.results) && ComesFrom(e, a.0) && e.finding.ids.vulnerability == a.1 {
      EntryAgreeing(r, e);
      OriginTold(e, a.0);
      CoreReported(digest, r, RowFor(e).core);
      var i :| 0 <= i < |cs| && cs[i] == RowFor(e).core;
      assert AdvisoryOf(cs[i]) == a;
    }
  }

  ghost function ReportedIds(r: Report): set<string> {
    set e | e in Entries(r.results) :: e.finding.ids.vulnerability
  }

  lemma IdReported(digest: Digest, r: Report, v: string)
    ensures (exists c :: c in CoresOf(digest, r) && c.ids.vulnerability == v) <==> v in ReportedIds(r)
  {
    if c :| c in CoresOf(digest, r) && c.ids.vulnerability == v {
      CoreReported(digest, r, c);
    }
    if v in ReportedIds(r) {
      var e :| e in Entries(r.results) && e.finding.ids.vulnerability == v;
      CoreReported(digest, r, RowFor(e).core);
    }
  }

  lemma IdsReported(digest: Digest, r: Report, cs: seq<Core>)
    requires cs == CoresOf(digest, r)
    ensures (set i | 0 <= i < |cs| :: cs[i].ids.vulnerability) == ReportedIds(r)
  {
    var plain := set i | 0 <= i < |cs| :: cs[i].ids.vulnerability;
    forall v ensures v in plain <==> v in ReportedIds(r) {
      IdReported(digest, r, v);
      if c :| c in cs && c.ids.vulnerability == v {
        var i :| 0 <= i < |cs| && cs[i] == c;
      }
    }
  }

  /** The numbers of vulnerabilities and of advisories are those of the distinct ones reported. */
  lemma IdentifiersTold(digest: Digest, printer: Printer, r: Report, advisories: set<Advisory>)
    requires ValidReport(r) && forall a :: a in advisories <==> Advises(r, a)
    ensures CreateLedger(digest, printer, r).Some?
    ensures CreateLedger(digest, printer, r).value.vulnerabilityIds == |ReportedIds(r)|
    ensures CreateLedger(digest, printer, r).value.advisories == |advisories|
  {
    var cs, texts := CoresOf(digest, r), Texts(digest, SortedRows(digest, Rows(r.results)));
    BookIs(digest, printer, r, cs, texts);
    AdvisoriesExact(printer, cs, texts);
    IdsReported(digest, r, cs);
    forall a ensures a in advisories <==> a in Advisories(cs) {
      AdvisoryReported(digest, r, a);
    }
    assert advisories == Advisories(cs);
  }

  // ---------------------------------------------------------------- the rows as they are written

  predicate Shows(j: Json, key: string, value: Json) {
    j.Obj? && (key, value) in j.members
  }

  lemma RecordShows(keys: seq<string>, values: seq<Json>, i: nat)
    requires |keys| == |values| && i < |keys|
    ensures Shows(Record(keys, values), keys[i], values[i])
  {
    assert Record(keys, values).members[i] == (keys[i], values[i]);
  }

  function OrNull(o: Option<string>): Json {
    if o.Some? then Str(o.value) else Null
  }

  /** The members of a written row that say where a finding was reported and what it is. */
  lemma RowShows(digest: Digest, e: Entry)
    ensures var j, f := RowJson(digest, RowFor(e)), e.finding;
            && Shows(j, "class", Str(if e.place.class_ == OsPackages then "os-pkgs" else "lang-pkgs"))
            && Shows(j, "target", Str(e.place.target)) && Shows(j, "type", Str(e.place.kind))
            && Shows(j, "vulnerability_id", Str(f.ids.vulnerability)) && Shows(j, "package_id", Str(f.ids.package))
            && Shows(j, "package_name", Str(f.ids.packageName)) && Shows(j, "installed_version", Str(f.ids.installed))
  {
    var values := Values(digest, RowFor(e));
    RecordShows(ROW_KEYS, values, 0);
    RecordShows(ROW_KEYS, values, 1);
    RecordShows(ROW_KEYS, values, 2);
    RecordShows(ROW_KEYS, values, 3);
    RecordShows(ROW_KEYS, values, 4);
    RecordShows(ROW_KEYS, values, 5);
    RecordShows(ROW_KEYS, values, 6);
  }

  /** Those that grade it. */
  lemma RowGrades(digest: Digest, e: Entry)
    ensures var j, f := RowJson(digest, RowFor(e)), e.finding;
            && Shows(j, "fixed_version", OrNull(f.grade.fixedVersion))
            && Shows(j, "fixedness", Str(if f.grade.fixedVersion.Some? then "fixed-version-available"
                                         else "no-known-fixed-version"))
            && Shows(j, "severity", Str(SeverityName(f.grade.severity)))
            && Shows(j, "severity_source", OrNull(f.grade.severitySource))
            && Shows(j, "status", Str(if f.status.Some? then f.status.value else "unknown"))
            && Shows(j, "primary_url", OrNull(f.notes.url))
  {
    var values := Values(digest, RowFor(e));
    RecordShows(ROW_KEYS, values, 7);
    RecordShows(ROW_KEYS, values, 8);
    RecordShows(ROW_KEYS, values, 9);
    RecordShows(ROW_KEYS, values, 10);
    RecordShows(ROW_KEYS, values, 12);
    RecordShows(ROW_KEYS, values, 14);
  }

  /** Those that are records themselves, and the key under which the row is sorted. */
  lemma RowRecords(digest: Digest, e: Entry)
    ensures var j, c := RowJson(digest, RowFor(e)), RowFor(e).core;
            && Shows(j, "vendor_severity", VendorJson(e.finding.vendor))
            && Shows(j, "data_source", DataJson(e.finding.notes.data))
            && Shows(j, "source_package", SourceJson(c.source))
            && Shows(j, "finding_key_sha256", Str(digest(Canonical(false, IdentityJson(c)) + "\n")))
  {
    var values := Values(digest, RowFor(e));
    RecordShows(ROW_KEYS, values, 11);
    RecordShows(ROW_KEYS, values, 13);
    RecordShows(ROW_KEYS, values, 15);
    RecordShows(ROW_KEYS, values, 16);
  }

  lemma RecordsShow(s: Source, d: DataSource)
    ensures Shows(SourceJson(s), "name", Str(s.name)) && Shows(SourceJson(s), "version", Str(s.version))
    ensures Shows(SourceJson(s), "mapping", Str(MappingName(s.mapping)))
    ensures DataJson(None) == Null
    ensures var j := DataJson(Some(d));
            Shows(j, "id", OrNull(d.id)) && Shows(j, "name", OrNull(d.name)) && Shows(j, "url", OrNull(d.url))
  {
    var source := [Str(s.name), Str(s.version), Str(MappingName(s.mapping))];
    RecordShows(SOURCE_KEYS, source, 0);
    RecordShows(SOURCE_KEYS, source, 1);
    RecordShows(SOURCE_KEYS, source, 2);
    var data := [OptionJson(d.id), OptionJson(d.name), OptionJson(d.url)];
    RecordShows(DATA_KEYS, data, 0);
    RecordShows(DATA_KEYS, data, 1);
    RecordShows(DATA_KEYS, data, 2);
  }

  /** The identity that is hashed: where the finding is, what it is, its fixed version, severity and status. */
  lemma IdentityShows(e: Entry)
    ensures var j, f := IdentityJson(RowFor(e).core), e.finding;
            && Shows(j, "class", Str(if e.place.class_ == OsPackages then "os-pkgs" else "lang-pkgs"))
            && Shows(j, "target", Str(e.place.target)) && Shows(j, "type", Str(e.place.kind))
            && Shows(j, "vulnerability_id", Str(f.ids.vulnerability)) && Shows(j, "package_id", Str(f.ids.package))
            && Shows(j, "package_name", Str(f.ids.packageName)) && Shows(j, "installed_version", Str(f.ids.installed))
            && Shows(j, "fixed_version", OrNull(f.grade.fixedVersion))
            && Shows(j, "severity", Str(SeverityName(f.grade.severity)))
            && Shows(j, "status", Str(if f.status.Some? then f.status.value else "unknown"))
  {
    var c := RowFor(e).core;
    var values := [Str(ClassName(c.place.class_)), Str(c.place.target), Str(c.place.kind), Str(c.ids.vulnerability),
                   Str(c.ids.package), Str(c.ids.packageName), Str(c.ids.installed), OptionJson(c.grade.fixedVersion),
                   Str(SeverityName(c.grade.severity)), Str(c.status)];
    forall i | 0 <= i < 10 ensures Shows(IdentityJson(c), IDENTITY_KEYS[i], values[i]) {
      RecordShows(IDENTITY_KEYS, values, i);
    }
    assert IDENTITY_KEYS[0] == "class" && values[0] == Str(ClassName(c.place.class_));
    assert Shows(IdentityJson(c), IDENTITY_KEYS[1], values[1]) && Shows(IdentityJson(c), IDENTITY_KEYS[2], values[2]);
    assert Shows(IdentityJson(c), IDENTITY_KEYS[3], values[3]) && Shows(IdentityJson(c), IDENTITY_KEYS[4], values[4]);
    assert Shows(IdentityJson(c), IDENTITY_KEYS[5], values[5]) && Shows(IdentityJson(c), IDENTITY_KEYS[6], values[6]);
    assert Shows(IdentityJson(c), IDENTITY_KEYS[7], values[7]) && Shows(IdentityJson(c), IDENTITY_KEYS[8], values[8]);
    assert Shows(IdentityJson(c), IDENTITY_KEYS[9], values[9]);
  }

  /** The findings listed are the canonical texts of these rows, as many times as they were reported. */
  lemma FindingsTold(digest: Digest, printer: Printer, r: Report, text: string)
    requires ValidReport(r)
    ensures CreateLedger(digest, printer, r).Some?
    ensures CountOf(CreateLedger(digest, printer, r).value.findings, (x: string) => x == text)
         == Reported(r, (e: Entry) => Canonical(false, RowJson(digest, RowFor(e))) == text)
  {
    var all, rows := Rows(r.results), SortedRows(digest, Rows(r.results));
    var texts := Texts(digest, rows);
    BookIs(digest, printer, r, CoresOf(digest, r), texts);
    RowsAre(r.results);
    var same := (x: Row) => Text(digest, x) == text;
    CountAlike(texts, rows, (x: string) => x == text, same);
    CountSorted(all, (x: Row) => SortKey(digest, x), same);
    CountAlike(all, Entries(r.results), same, (e: Entry) => Canonical(false, RowJson(digest, RowFor(e))) == text);
  }

  /** Which reports are read: bounded texts, at most 1024 results, and at most so many packages and findings. */
  lemma ReportExactly(r: Report)
    ensures ValidReport(r) <==>
              && 1 <= |r.osFamily| <= 16_384 && '\0' !in r.osFamily && 1 <= |r.results| <= 1024
              && PackageCount(r.results) <= 500_000 && FindingCount(r.results) <= 250_000
              && (exists i :: 0 <= i < |r.results| && r.results[i].place.class_ == OsPackages)
              && forall i :: 0 <= i < |r.results| ==> ValidResult(r.results[i], r.osFamily)
  {
  }
}
