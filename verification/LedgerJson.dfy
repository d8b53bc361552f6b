/** A ledger row as JSON: its canonical text determines everything but the order of the vendors. */
module LedgerJson {
  import opened Basics
  import opened Json
  import opened JsonClaims
  import opened Ledger

  function SeverityName(s: Severity): string {
    match s
    case Unknown => "UNKNOWN"
    case Low => "LOW"
    case Medium => "MEDIUM"
    case High => "HIGH"
    case Critical => "CRITICAL"
  }

  function ClassName(c: Class): string {
    match c
    case OsPackages => "os-pkgs"
    case LanguagePackages => "lang-pkgs"
  }

  function MappingName(m: Mapping): string {
    match m
    case BinaryFallback => "binary-package-fallback-unverified"
    case LanguageSelf => "language-package-self"
    case ScannerSelf => "scanner-package-self"
    case ScannerSource => "scanner-authenticated-source-package"
  }

  function Fixedness(g: Grade): string {
    if g.fixedVersion.None? then "no-known-fixed-version" else "fixed-version-available"
  }

  lemma SeverityNames(s: Severity, t: Severity)
    ensures SeverityName(s) == SeverityName(t) ==> s == t
  {
    SeverityLength(s);
    SeverityLength(t);
  }

  lemma SeverityLength(s: Severity)
    ensures |SeverityName(s)| == match s
                                 case Unknown => 7
                                 case Low => 3
                                 case Medium => 6
                                 case High => 4
                                 case Critical => 8
  {
  }

  lemma ClassNames(c: Class, d: Class)
    ensures ClassName(c) == ClassName(d) ==> c == d
  {
    assert |ClassName(OsPackages)| == 7 && |ClassName(LanguagePackages)| == 9;
  }

  lemma MappingNames(m: Mapping, n: Mapping)
    ensures MappingName(m) == MappingName(n) ==> m == n
  {
    MappingLength(m);
    MappingLength(n);
  }

  lemma MappingLength(m: Mapping)
    ensures |MappingName(m)| == match m
                                case BinaryFallback => 34
                                case LanguageSelf => 21
                                case ScannerSelf => 20
                                case ScannerSource => 36
  {
  }

  function OptionJson(o: Option<string>): Json {
    if o.None? then Null else Str(o.value)
  }

  const SOURCE_KEYS := ["name", "version", "mapping"]
  const DATA_KEYS := ["id", "name", "url"]

  function SourceJson(s: Source): Json {
    Record(SOURCE_KEYS, [Str(s.name), Str(s.version), Str(MappingName(s.mapping))])
  }

  function DataJson(d: Option<DataSource>): Json {
    if d.None? then Null
    else Record(DATA_KEYS, [OptionJson(d.value.id), OptionJson(d.value.name), OptionJson(d.value.url)])
  }

  function VendorJson(v: seq<(string, Severity)>): (j: Json)
    ensures j.Obj? && |j.members| == |v|
    ensures forall i :: 0 <= i < |v| ==> j.members[i] == (v[i].0, Str(SeverityName(v[i].1)))
  {
    Obj(seq(|v|, i requires 0 <= i < |v| => (v[i].0, Str(SeverityName(v[i].1)))))
  }

  const ROW_KEYS := ["class", "target", "type", "vulnerability_id", "package_id", "package_name", "installed_version",
                     "fixed_version", "fixedness", "severity", "severity_source", "vendor_severity", "status",
                     "data_source", "primary_url", "source_package", "finding_key_sha256"]

  /** The fields of `findingIdentity`. */
  const IDENTITY_KEYS := ["class", "target", "type", "vulnerability_id", "package_id", "package_name",
                          "installed_version", "fixed_version", "severity", "status"]

  function IdentityJson(c: Core): Json {
    Record(IDENTITY_KEYS,
           [Str(ClassName(c.place.class_)), Str(c.place.target), Str(c.place.kind), Str(c.ids.vulnerability),
            Str(c.ids.package), Str(c.ids.packageName), Str(c.ids.installed), OptionJson(c.grade.fixedVersion),
            Str(SeverityName(c.grade.severity)), Str(c.status)])
  }

  type Digest = string -> string

  function FindingKey(digest: Digest, c: Core): string {
    digest(Canonical(false, IdentityJson(c)) + "\n")
  }

  function Values(digest: Digest, r: Row): seq<Json> {
    var c := r.core;
    [Str(ClassName(c.place.class_)), Str(c.place.target), Str(c.place.kind), Str(c.ids.vulnerability),
     Str(c.ids.package), Str(c.ids.packageName), Str(c.ids.installed), OptionJson(c.grade.fixedVersion),
     Str(Fixedness(c.grade)),
     Str(SeverityName(c.grade.severity)), OptionJson(c.grade.severitySource), VendorJson(r.vendor), Str(c.status),
     DataJson(c.notes.data), OptionJson(c.notes.url), SourceJson(c.source), Str(FindingKey(digest, c))]
  }

  function RowJson(digest: Digest, r: Row): Json {
    Record(ROW_KEYS, Values(digest, r))
  }

  function Text(digest: Digest, r: Row): string {
    Canonical(false, RowJson(digest, r))
  }

  ghost predicate DistinctVendors(r: Row) {
    forall i, j :: 0 <= i < j < |r.vendor| ==> r.vendor[i].0 != r.vendor[j].0
  }

  // ---------------------------------------------------------------- keys

  lemma SmallKeys()
    ensures DifferentKeys(SOURCE_KEYS) && DifferentKeys(DATA_KEYS)
  {
    assert |SOURCE_KEYS[0]| == 4 && |SOURCE_KEYS[1]| == 7 && |SOURCE_KEYS[2]| == 7 && SOURCE_KEYS[1][0] == 'v';
    assert SOURCE_KEYS[2][0] == 'm';
    assert |DATA_KEYS[0]| == 2 && |DATA_KEYS[1]| == 4 && |DATA_KEYS[2]| == 3;
  }

  lemma RowKeys()
    ensures DifferentKeys(ROW_KEYS)
  {
    var k := ROW_KEYS;
    assert |k[0]| == 5 && |k[1]| == 6 && |k[2]| == 4 && |k[3]| == 16 && |k[4]| == 10 && |k[5]| == 12 && |k[6]| == 17;
    assert |k[7]| == 13;
    assert |k[8]| == 9 && |k[9]| == 8 && |k[10]| == 15 && |k[11]| == 15 && |k[12]| == 6 && |k[13]| == 11;
    assert |k[14]| == 11;
    assert |k[15]| == 14 && |k[16]| == 18;
    assert k[1][0] == 't' && k[12][0] == 's' && k[10][0] == 's' && k[11][0] == 'v' && k[13][0] == 'd';
    assert k[14][0] == 'p';
  }

  // ---------------------------------------------------------------- the text determines the core

  lemma RowWellKeyed(digest: Digest, r: Row)
    requires DistinctVendors(r)
    ensures WellKeyed(RowJson(digest, r))
  {
    SmallKeys();
    RowKeys();
    var s := r.core.source;
    RecordKeyed(SOURCE_KEYS, [Str(s.name), Str(s.version), Str(MappingName(s.mapping))]);
    if r.core.notes.data.Some? {
      var d := r.core.notes.data.value;
      RecordKeyed(DATA_KEYS, [OptionJson(d.id), OptionJson(d.name), OptionJson(d.url)]);
    }
    assert WellKeyed(VendorJson(r.vendor));
    RecordKeyed(ROW_KEYS, Values(digest, r));
  }

  lemma OptionSame(a: Option<string>, b: Option<string>)
    requires Same(OptionJson(a), OptionJson(b))
    ensures a == b
  {
  }

  lemma SourceSame(a: Source, b: Source)
    requires Same(SourceJson(a), SourceJson(b))
    ensures a == b
  {
    SmallKeys();
    var xs := [Str(a.name), Str(a.version), Str(MappingName(a.mapping))];
    var ys := [Str(b.name), Str(b.version), Str(MappingName(b.mapping))];
    RecordSame(SOURCE_KEYS, xs, ys, 0);
    RecordSame(SOURCE_KEYS, xs, ys, 1);
    RecordSame(SOURCE_KEYS, xs, ys, 2);
    MappingNames(a.mapping, b.mapping);
  }

  lemma DataSame(a: Option<DataSource>, b: Option<DataSource>)
    requires Same(DataJson(a), DataJson(b))
    ensures a == b
  {
    if a.Some? && b.Some? {
      SmallKeys();
      var x, y := a.value, b.value;
      var xs := [OptionJson(x.id), OptionJson(x.name), OptionJson(x.url)];
      var ys := [OptionJson(y.id), OptionJson(y.name), OptionJson(y.url)];
      RecordSame(DATA_KEYS, xs, ys, 0);
      RecordSame(DATA_KEYS, xs, ys, 1);
      RecordSame(DATA_KEYS, xs, ys, 2);
      OptionSame(x.id, y.id);
      OptionSame(x.name, y.name);
      OptionSame(x.url, y.url);
    }
  }

  lemma ValueSame(digest: Digest, a: Row, b: Row, i: nat)
    requires Same(RowJson(digest, a), RowJson(digest, b)) && i < 17
    ensures Same(Values(digest, a)[i], Values(digest, b)[i])
  {
    RowKeys();
    RecordSame(ROW_KEYS, Values(digest, a), Values(digest, b), i);
  }

  lemma PlaceSame(digest: Digest, a: Row, b: Row)
    requires Same(RowJson(digest, a), RowJson(digest, b))
    ensures a.core.place == b.core.place
  {
    ValueSame(digest, a, b, 0);
    ValueSame(digest, a, b, 1);
    ValueSame(digest, a, b, 2);
    ClassNames(a.core.place.class_, b.core.place.class_);
  }

  lemma IdsSame(digest: Digest, a: Row, b: Row)
    requires Same(RowJson(digest, a), RowJson(digest, b))
    ensures a.core.ids == b.core.ids
  {
    ValueSame(digest, a, b, 3);
    ValueSame(digest, a, b, 4);
    ValueSame(digest, a, b, 5);
    ValueSame(digest, a, b, 6);
  }

  lemma GradeAndStatus(digest: Digest, a: Row, b: Row)
    requires Same(RowJson(digest, a), RowJson(digest, b))
    ensures a.core.grade == b.core.grade && a.core.status == b.core.status
  {
    ValueSame(digest, a, b, 7);
    ValueSame(digest, a, b, 9);
    ValueSame(digest, a, b, 10);
    ValueSame(digest, a, b, 12);
    OptionSame(a.core.grade.fixedVersion, b.core.grade.fixedVersion);
    OptionSame(a.core.grade.severitySource, b.core.grade.severitySource);
    SeverityNames(a.core.grade.severity, b.core.grade.severity);
  }

  lemma NotesAndSource(digest: Digest, a: Row, b: Row)
    requires Same(RowJson(digest, a), RowJson(digest, b))
    ensures a.core.notes == b.core.notes && a.core.source == b.core.source
  {
    ValueSame(digest, a, b, 13);
    ValueSame(digest, a, b, 14);
    ValueSame(digest, a, b, 15);
    DataSame(a.core.notes.data, b.core.notes.data);
    OptionSame(a.core.notes.url, b.core.notes.url);
    SourceSame(a.core.source, b.core.source);
  }

  /** Rows with one canonical text agree in everything that is counted or grouped. */
  lemma TextDetermines(digest: Digest, a: Row, b: Row)
    requires DistinctVendors(a) && DistinctVendors(b) && Text(digest, a) == Text(digest, b)
    ensures a.core == b.core
  {
    RowWellKeyed(digest, a);
    RowWellKeyed(digest, b);
    CanonicalExact(false, RowJson(digest, a), RowJson(digest, b));
    PlaceSame(digest, a, b);
    IdsSame(digest, a, b);
    GradeAndStatus(digest, a, b);
    NotesAndSource(digest, a, b);
  }
}
