/**
 * The vulnerability ledger made of a scanner report: one row per finding, sorted by key, then counted
 * and grouped. SHA-256 of a finding's identity is a parameter.
 */
module Ledger {
  import opened Basics

  const MAX_RESULTS := 1024
  const MAX_PACKAGES := 500_000
  const MAX_FINDINGS := 250_000
  const MAX_STRING := 16_384

  // ---------------------------------------------------------------- the report

  datatype Severity = Unknown | Low | Medium | High | Critical

  datatype Class = OsPackages | LanguagePackages

  datatype Package = Package(id: string, identity: PackageIdentity)

  /** `packageSecurityIdentity`. */
  datatype PackageIdentity =
    PackageIdentity(name: string, version: string, sourceName: Option<string>, sourceVersion: Option<string>)

  datatype Ids = Ids(vulnerability: string, package: string, packageName: string, installed: string)

  datatype Grade = Grade(severity: Severity, severitySource: Option<string>, fixedVersion: Option<string>)

  datatype DataSource = DataSource(id: Option<string>, name: Option<string>, url: Option<string>)

  datatype Notes = Notes(data: Option<DataSource>, url: Option<string>)

  /** A vulnerability entry; `vendor` keeps the order in which the vendors were written. */
  datatype Finding = Finding(ids: Ids, grade: Grade, status: Option<string>, notes: Notes,
                             vendor: seq<(string, Severity)>)

  datatype Place = Place(class_: Class, target: string, kind: string)

  datatype ScanResult = ScanResult(place: Place, packages: seq<Package>, findings: seq<Finding>)

  datatype Report = Report(osFamily: string, results: seq<ScanResult>)

  // ---------------------------------------------------------------- validation

  /** `boundedString`: not empty, bounded, without NUL. */
  predicate Bounded(s: string) {
    1 <= |s| <= MAX_STRING && '\0' !in s
  }

  /** `nullableString` never yields an empty string. */
  predicate Nullable(o: Option<string>) {
    o.Some? ==> Bounded(o.value)
  }

  predicate ValidPackage(p: Package) {
    && Bounded(p.id) && Bounded(p.identity.name) && Bounded(p.identity.version)
    && Nullable(p.identity.sourceName) && Nullable(p.identity.sourceVersion)
  }

  predicate ValidFinding(f: Finding) {
    && Bounded(f.ids.vulnerability) && Bounded(f.ids.package) && Bounded(f.ids.packageName) && Bounded(f.ids.installed)
    && Nullable(f.grade.severitySource) && Nullable(f.grade.fixedVersion) && Nullable(f.status)
    && (f.notes.data.Some? ==>
          Nullable(f.notes.data.value.id) && Nullable(f.notes.data.value.name) && Nullable(f.notes.data.value.url))
    && Nullable(f.notes.url)
    && |f.vendor| <= 64 && (forall i :: 0 <= i < |f.vendor| ==> Bounded(f.vendor[i].0))
    && (forall i, j :: 0 <= i < j < |f.vendor| ==> f.vendor[i].0 != f.vendor[j].0)
  }

  /** Packages that share an id share their identity. */
  predicate Agreeing(ps: seq<Package>) {
    forall i, j :: 0 <= i < j < |ps| && ps[i].id == ps[j].id ==> ps[i].identity == ps[j].identity
  }

  predicate ValidResult(r: ScanResult, osFamily: string) {
    && Bounded(r.place.target) && Bounded(r.place.kind)
    && (r.place.class_ == OsPackages ==> r.place.kind == osFamily && r.packages != [])
    && (forall i :: 0 <= i < |r.packages| ==> ValidPackage(r.packages[i]))
    && Agreeing(r.packages)
    && (forall i :: 0 <= i < |r.findings| ==> ValidFinding(r.findings[i]))
  }

  function PackageCount(rs: seq<ScanResult>): nat {
    if rs == [] then 0 else |rs[0].packages| + PackageCount(rs[1..])
  }

  function FindingCount(rs: seq<ScanResult>): nat {
    if rs == [] then 0 else |rs[0].findings| + FindingCount(rs[1..])
  }

  predicate HasOs(rs: seq<ScanResult>) {
    exists i :: 0 <= i < |rs| && rs[i].place.class_ == OsPackages
  }

  predicate ValidReport(r: Report) {
    && Bounded(r.osFamily) && 1 <= |r.results| <= MAX_RESULTS
    && (forall i :: 0 <= i < |r.results| ==> ValidResult(r.results[i], r.osFamily))
    && PackageCount(r.results) <= MAX_PACKAGES && FindingCount(r.results) <= MAX_FINDINGS && HasOs(r.results)
  }

  // ---------------------------------------------------------------- rows

  datatype Mapping = BinaryFallback | LanguageSelf | ScannerSelf | ScannerSource

  datatype Source = Source(name: string, version: string, mapping: Mapping)

  /** A row without the vendors' grades, which no count or group looks at. */
  datatype Core = Core(place: Place, ids: Ids, grade: Grade, status: string, notes: Notes, source: Source)

  datatype Row = Row(core: Core, vendor: seq<(string, Severity)>)

  /** The first package with an id: the one the map keeps. */
  function Inventory(ps: seq<Package>, id: string): Option<PackageIdentity> {
    if ps == [] then None
    else if ps[0].id == id then Some(ps[0].identity)
    else Inventory(ps[1..], id)
  }

  function OrElse(o: Option<string>, other: string): string {
    if o.Some? then o.value else other
  }

  /** `sourcePackage`. */
  function SourceOf(c: Class, ids: Ids, inventory: Option<PackageIdentity>): Source {
    match inventory
    case None => Source(ids.packageName, ids.installed, if c == OsPackages then BinaryFallback else LanguageSelf)
    case Some(p) =>
      Source(OrElse(p.sourceName, p.name), OrElse(p.sourceVersion, p.version),
             if c == LanguagePackages then LanguageSelf else if p.sourceName.None? then ScannerSelf else ScannerSource)
  }

  function RowOf(place: Place, inventory: Option<PackageIdentity>, f: Finding): Row {
    Row(Core(place, f.ids, f.grade, OrElse(f.status, "unknown"), f.notes, SourceOf(place.class_, f.ids, inventory)),
        f.vendor)
  }

  function RowsOf(place: Place, ps: seq<Package>, fs: seq<Finding>): seq<Row> {
    if fs == [] then [] else [RowOf(place, Inventory(ps, fs[0].ids.package), fs[0])] + RowsOf(place, ps, fs[1..])
  }

  function Rows(rs: seq<ScanResult>): seq<Row> {
    if rs == [] then [] else RowsOf(rs[0].place, rs[0].packages, rs[0].findings) + Rows(rs[1..])
  }

  // ---------------------------------------------------------------- permutations

  /** The same result with its packages and findings in another order. */
  ghost predicate SameResult(a: ScanResult, b: ScanResult) {
    a.place == b.place && multiset(a.packages) == multiset(b.packages) && multiset(a.findings) == multiset(b.findings)
  }

  function Removed<T>(s: seq<T>, j: nat): seq<T>
    requires j < |s|
  {
    s[..j] + s[j + 1..]
  }

  /** The same results in another order, each of them shuffled inside. */
  ghost predicate Shuffled(a: seq<ScanResult>, b: seq<ScanResult>)
    decreases |a|
  {
    |a| == |b| && (a == [] || exists j :: 0 <= j < |b| && SameResult(a[0], b[j]) && Shuffled(a[1..], Removed(b, j)))
  }
}
