/** Counting and grouping of ledger rows, by joined keys as the source does and by fields as it means. */
module LedgerGroups {
  import opened Basics
  import opened Separated
  import opened Ledger
  import opened LedgerJson

  // ---------------------------------------------------------------- rows that were validated

  predicate ValidCore(c: Core) {
    && Bounded(c.place.kind) && Bounded(c.status) && Bounded(c.ids.vulnerability)
    && Nullable(c.grade.severitySource) && Nullable(DataId(c)) && Bounded(c.source.name) && Bounded(c.source.version)
  }

  function DataId(c: Core): Option<string> {
    if c.notes.data.None? then None else c.notes.data.value.id
  }

  // ---------------------------------------------------------------- group keys

  datatype Category = Category(class_: Class, kind: string, severity: Severity, status: string, fixedness: string,
                               severitySource: Option<string>, dataId: Option<string>, source: Source)

  function CategoryOf(c: Core): Category {
    Category(c.place.class_, c.place.kind, c.grade.severity, c.status, Fixedness(c.grade), c.grade.severitySource,
             DataId(c), c.source)
  }

  function CategoryParts(c: Core): seq<string> {
    [ClassName(c.place.class_), c.place.kind, SeverityName(c.grade.severity), c.status, Fixedness(c.grade),
     OrElse(c.grade.severitySource, ""), OrElse(DataId(c), ""), c.source.name, c.source.version,
     MappingName(c.source.mapping)]
  }

  function CategoryKey(c: Core): string {
    Join(CategoryParts(c), '\0')
  }

  datatype Origin = Origin(class_: Class, kind: string, source: Source)

  function OriginOf(c: Core): Origin {
    Origin(c.place.class_, c.place.kind, c.source)
  }

  function OriginParts(c: Core): seq<string> {
    [ClassName(c.place.class_), c.place.kind, c.source.name, c.source.version, MappingName(c.source.mapping)]
  }

  function OriginKey(c: Core): string {
    Join(OriginParts(c), '\0')
  }

  lemma PlainClass(c: Class)
    ensures '\0' !in ClassName(c)
  {
  }

  lemma PlainSeverity(s: Severity)
    ensures '\0' !in SeverityName(s)
  {
  }

  lemma PlainFixedness(g: Grade)
    ensures '\0' !in Fixedness(g)
  {
  }

  lemma PlainMapping(m: Mapping)
    ensures '\0' !in MappingName(m)
  {
    match m
    case BinaryFallback => assert '\0' !in "binary-package-fallback-unverified";
    case LanguageSelf => assert '\0' !in "language-package-self";
    case ScannerSelf => assert '\0' !in "scanner-package-self";
    case ScannerSource => assert '\0' !in "scanner-authenticated-source-package";
  }

  lemma PlainNames(c: Core)
    ensures '\0' !in ClassName(c.place.class_) && '\0' !in SeverityName(c.grade.severity)
    ensures '\0' !in Fixedness(c.grade) && '\0' !in MappingName(c.source.mapping)
  {
    PlainClass(c.place.class_);
    PlainSeverity(c.grade.severity);
    PlainFixedness(c.grade);
    PlainMapping(c.source.mapping);
  }

  lemma OptionFromText(a: Option<string>, b: Option<string>)
    requires Nullable(a) && Nullable(b) && OrElse(a, "") == OrElse(b, "")
    ensures a == b
  {
  }

  lemma CategoryPlain(c: Core)
    requires ValidCore(c)
    ensures forall i :: 0 <= i < |CategoryParts(c)| ==> '\0' !in CategoryParts(c)[i]
  {
    PlainNames(c);
  }

  lemma OriginPlain(c: Core)
    requires ValidCore(c)
    ensures forall i :: 0 <= i < |OriginParts(c)| ==> '\0' !in OriginParts(c)[i]
  {
    PlainNames(c);
  }

  lemma CategoryPartsDetermine(a: Core, b: Core)
    requires ValidCore(a) && ValidCore(b) && CategoryParts(a) == CategoryParts(b)
    ensures CategoryOf(a) == CategoryOf(b)
  {
    var p, q := CategoryParts(a), CategoryParts(b);
    assert p[0] == q[0] && p[1] == q[1] && p[2] == q[2] && p[3] == q[3] && p[4] == q[4] && p[5] == q[5];
    assert p[6] == q[6] && p[7] == q[7] && p[8] == q[8] && p[9] == q[9];
    ClassNames(a.place.class_, b.place.class_);
    SeverityNames(a.grade.severity, b.grade.severity);
    MappingNames(a.source.mapping, b.source.mapping);
    OptionFromText(a.grade.severitySource, b.grade.severitySource);
    OptionFromText(DataId(a), DataId(b));
  }

  /** The joined key of a category stands for its fields: an absent field and its empty text cannot be confused. */
  lemma CategoryKeyExact(a: Core, b: Core)
    requires ValidCore(a) && ValidCore(b)
    ensures CategoryKey(a) == CategoryKey(b) <==> CategoryOf(a) == CategoryOf(b)
  {
    if CategoryKey(a) == CategoryKey(b) {
      CategoryPlain(a);
      CategoryPlain(b);
      JoinInjective(CategoryParts(a), CategoryParts(b), '\0');
      CategoryPartsDetermine(a, b);
    }
    if CategoryOf(a) == CategoryOf(b) {
      assert CategoryParts(a) == CategoryParts(b);
    }
  }

  lemma OriginPartsDetermine(a: Core, b: Core)
    requires OriginParts(a) == OriginParts(b)
    ensures OriginOf(a) == OriginOf(b)
  {
    var p, q := OriginParts(a), OriginParts(b);
    assert p[0] == q[0] && p[1] == q[1] && p[2] == q[2] && p[3] == q[3] && p[4] == q[4];
    ClassNames(a.place.class_, b.place.class_);
    MappingNames(a.source.mapping, b.source.mapping);
  }

  /** The same for source packages. */
  lemma OriginKeyExact(a: Core, b: Core)
    requires ValidCore(a) && ValidCore(b)
    ensures OriginKey(a) == OriginKey(b) <==> OriginOf(a) == OriginOf(b)
  {
    if OriginKey(a) == OriginKey(b) {
      OriginPlain(a);
      OriginPlain(b);
      JoinInjective(OriginParts(a), OriginParts(b), '\0');
      OriginPartsDetermine(a, b);
    }
    if OriginOf(a) == OriginOf(b) {
      assert OriginParts(a) == OriginParts(b);
    }
  }

  /** An advisory: a source package and a vulnerability, joined once more. */
  function AdvisoryKey(c: Core): string {
    OriginKey(c) + ['\0'] + c.ids.vulnerability
  }

  lemma NoneAfter(y: string, w: string, p: nat)
    requires '\0' !in w && p < |y + ['\0'] + w| && (y + ['\0'] + w)[p] == '\0'
    ensures p <= |y|
  {
    var t := y + ['\0'] + w;
    assert forall i :: |y| < i < |t| ==> t[i] == w[i - |y| - 1];
  }

  lemma LastSeparator(x: string, v: string, y: string, w: string)
    requires '\0' !in v && '\0' !in w && x + ['\0'] + v == y + ['\0'] + w
    ensures x == y && v == w
  {
    var s, t := x + ['\0'] + v, y + ['\0'] + w;
    assert s[|x|] == '\0' && t[|y|] == '\0';
    NoneAfter(y, w, |x|);
    NoneAfter(x, v, |y|);
    assert s[..|x|] == x && t[..|y|] == y && s[|x| + 1..] == v && t[|y| + 1..] == w;
  }

  lemma AdvisoryKeyExact(a: Core, b: Core)
    requires ValidCore(a) && ValidCore(b)
    ensures AdvisoryKey(a) == AdvisoryKey(b) <==>
              OriginOf(a) == OriginOf(b) && a.ids.vulnerability == b.ids.vulnerability
  {
    OriginKeyExact(a, b);
    if AdvisoryKey(a) == AdvisoryKey(b) {
      LastSeparator(OriginKey(a), a.ids.vulnerability, OriginKey(b), b.ids.vulnerability);
    }
  }

  // ---------------------------------------------------------------- grouping

  /** An entry of a map in insertion order: its key and the rows that went to it. */
  datatype Group = Group(key: string, members: seq<Core>)

  function AddTo(gs: seq<Group>, k: string, c: Core): seq<Group> {
    if gs == [] then [Group(k, [c])]
    else if gs[0].key == k then [Group(k, gs[0].members + [c])] + gs[1..]
    else [gs[0]] + AddTo(gs[1..], k, c)
  }

  function GroupBy(cs: seq<Core>, key: Core -> string): seq<Group> {
    if cs == [] then [] else AddTo(GroupBy(cs[..|cs| - 1], key), key(cs[|cs| - 1]), cs[|cs| - 1])
  }

  /** The rows with a key, in their order. */
  function Select(cs: seq<Core>, key: Core -> string, k: string): seq<Core> {
    if cs == [] then []
    else Select(cs[..|cs| - 1], key, k) + if key(cs[|cs| - 1]) == k then [cs[|cs| - 1]] else []
  }

  function MemberCount(gs: seq<Group>): nat {
    if gs == [] then 0 else |gs[0].members| + MemberCount(gs[1..])
  }

  predicate DistinctGroups(gs: seq<Group>) {
    forall i, j :: 0 <= i < j < |gs| ==> gs[i].key != gs[j].key
  }

  function MembersOf(gs: seq<Group>, k: string): seq<Core> {
    if gs == [] then [] else if gs[0].key == k then gs[0].members else MembersOf(gs[1..], k)
  }

  lemma {:induction false} AddToKeys(gs: seq<Group>, k: string, c: Core)
    requires DistinctGroups(gs)
    ensures DistinctGroups(AddTo(gs, k, c))
    ensures forall i :: 0 <= i < |AddTo(gs, k, c)| ==>
              AddTo(gs, k, c)[i].key == k || exists j :: 0 <= j < |gs| && gs[j].key == AddTo(gs, k, c)[i].key
  {
    if gs != [] {
      var after := AddTo(gs, k, c);
      if gs[0].key == k {
        forall i | 0 <= i < |after| ensures after[i].key == gs[i].key {}
      } else {
        AddToKeys(gs[1..], k, c);
        var rest := AddTo(gs[1..], k, c);
        forall i | 0 <= i < |rest|
          ensures rest[i].key != gs[0].key
          ensures rest[i].key == k || exists j :: 0 <= j < |gs| && gs[j].key == rest[i].key
        {
          if rest[i].key != k {
            var j :| 0 <= j < |gs[1..]| && gs[1..][j].key == rest[i].key;
            assert gs[j + 1].key == rest[i].key;
          }
        }
      }
    }
  }

  lemma {:induction false} AddToMembers(gs: seq<Group>, k: string, c: Core, l: string)
    ensures MembersOf(AddTo(gs, k, c), l) == MembersOf(gs, l) + if l == k then [c] else []
    ensures MemberCount(AddTo(gs, k, c)) == MemberCount(gs) + 1
  {
    if gs != [] && gs[0].key != k {
      AddToMembers(gs[1..], k, c, l);
    }
  }

  /** Each group holds exactly the rows with its key, and together they hold every row once. */
  lemma {:induction false} GroupsExact(cs: seq<Core>, key: Core -> string, k: string)
    ensures DistinctGroups(GroupBy(cs, key)) && MembersOf(GroupBy(cs, key), k) == Select(cs, key, k)
    ensures MemberCount(GroupBy(cs, key)) == |cs|
  {
    if cs != [] {
      var init, last := cs[..|cs| - 1], cs[|cs| - 1];
      GroupsExact(init, key, k);
      AddToKeys(GroupBy(init, key), key(last), last);
      AddToMembers(GroupBy(init, key), key(last), last, k);
    }
  }

  lemma {:induction false} MembersAt(gs: seq<Group>, i: nat)
    requires DistinctGroups(gs) && i < |gs|
    ensures MembersOf(gs, gs[i].key) == gs[i].members
  {
    if i > 0 {
      MembersAt(gs[1..], i - 1);
    }
  }
}
