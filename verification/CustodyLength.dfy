/** How long a custody record is, and so which run ids give a record that its own validator refuses. */
module CustodyLength {
  import opened Basics
  import opened Decimals
  import opened Order
  import opened JsonStrings
  import opened Json
  import opened PyJson
  import opened ArtifactCustody
  import opened CustodyRecord

  // ---------------------------------------------------------------- sums

  function Sum<T>(s: seq<T>, f: T -> nat): nat {
    if s == [] then 0 else f(s[0]) + Sum(s[1..], f)
  }

  function At<T>(s: seq<T>, f: T -> nat, i: nat): nat {
    if i < |s| then f(s[i]) else 0
  }

  lemma SumFive<T>(s: seq<T>, f: T -> nat)
    requires |s| <= 5
    ensures Sum(s, f) == At(s, f, 0) + At(s, f, 1) + At(s, f, 2) + At(s, f, 3) + At(s, f, 4)
  {
    SumSplit(s, f);
    if |s| > 1 {
      SumSplit(s[1..], f);
      assert s[1..][1..] == s[2..];
    }
    if |s| > 2 {
      SumSplit(s[2..], f);
      assert s[2..][1..] == s[3..];
    }
    if |s| > 3 {
      SumSplit(s[3..], f);
      assert s[3..][1..] == s[4..];
    }
  }

  lemma SumSplit<T>(s: seq<T>, f: T -> nat)
    ensures Sum(s, f) == At(s, f, 0) + (if s == [] then 0 else Sum(s[1..], f))
  {
  }

  /** Sums over two lists whose terms differ by a constant. */
  lemma {:induction false} SumPair<S, T>(a: seq<S>, f: S -> nat, b: seq<T>, g: T -> nat, n: nat)
    requires |a| == |b| && forall i :: 0 <= i < |a| ==> f(a[i]) == n + g(b[i])
    ensures Sum(a, f) == |a| * n + Sum(b, g)
    decreases |a|
  {
    if a != [] {
      SumPair(a[1..], f, b[1..], g, n);
      assert |a| * n == n + |a[1..]| * n;
    }
  }

  // ---------------------------------------------------------------- lengths of canonical text

  /** A member with its separator. */
  function MemberSize(): Member -> nat {
    (p: Member) => |PrintString(true, p.0)| + |Canonical(true, p.1)| + 2
  }

  function ItemSize(): Json -> nat {
    (v: Json) => |Canonical(true, v)| + 1
  }

  lemma {:induction false} InsertSize(p: Member, ms: seq<Member>, f: Member -> nat)
    ensures Sum(Insert(p, ms), f) == f(p) + Sum(ms, f)
  {
    if ms != [] {
      if Less(ms[0].0, p.0) {
        InsertSize(p, ms[1..], f);
        assert ([ms[0]] + Insert(p, ms[1..]))[1..] == Insert(p, ms[1..]);
      } else {
        assert ([p] + ms)[1..] == ms;
      }
    }
  }

  lemma {:induction false} SortSize(ms: seq<Member>, f: Member -> nat)
    ensures Sum(Sort(ms), f) == Sum(ms, f)
  {
    if ms != [] {
      SortSize(ms[1..], f);
      InsertSize(ms[0], Sort(ms[1..]), f);
    }
  }

  lemma {:induction false} MembersLength(whole: Json, ms: seq<Member>)
    requires whole.Obj? && (forall p :: p in ms ==> p in whole.members) && ms != []
    ensures |CanonicalMembers(true, whole, ms)| + 1 == Sum(ms, MemberSize())
    decreases |ms|
  {
    if |ms| > 1 {
      MembersLength(whole, ms[1..]);
    } else {
      assert ms[1..] == [];
    }
  }

  /** An object's text: its members with separators, and one character more. */
  lemma ObjectLength(ms: seq<Member>)
    requires ms != []
    ensures |Canonical(true, Obj(ms))| == Sum(ms, MemberSize()) + 1
  {
    SortKeeps(ms);
    SortSize(ms, MemberSize());
    MembersLength(Obj(ms), Sort(ms));
  }

  lemma {:induction false} ItemsLength(whole: Json, items: seq<Json>)
    requires whole.Arr? && (forall x :: x in items ==> x in whole.items) && items != []
    ensures |CanonicalItems(true, whole, items)| + 1 == Sum(items, ItemSize())
    decreases |items|
  {
    if |items| > 1 {
      ItemsLength(whole, items[1..]);
    } else {
      assert items[1..] == [];
    }
  }

  lemma ArrayLength(items: seq<Json>)
    requires items != []
    ensures |Canonical(true, Arr(items))| == Sum(items, ItemSize()) + 1
  {
    ItemsLength(Arr(items), items);
  }

  // ---------------------------------------------------------------- strings printed as they are

  predicate Unescaped(s: string) {
    forall i :: 0 <= i < |s| ==> ' ' <= s[i] <= '~' && s[i] != '"' && s[i] != '\\'
  }

  lemma {:induction false} StringLength(s: string)
    requires Unescaped(s)
    ensures |PrintString(true, s)| == |s| + 2
  {
    if s != "" {
      StringLength(s[1..]);
    }
  }

  lemma StrLength(s: string)
    requires Unescaped(s)
    ensures |Canonical(true, Str(s))| == |s| + 2
  {
    StringLength(s);
  }

  lemma HexUnescaped(s: string)
    requires Hex(s)
    ensures Unescaped(s)
  {
  }

  lemma DigitsUnescaped(s: string)
    requires AllDigits(s)
    ensures Unescaped(s)
  {
  }

  lemma Joined(a: string, b: string)
    requires Unescaped(a) && Unescaped(b)
    ensures Unescaped(a + b)
  {
  }

  lemma VersionUnescaped()
    ensures Unescaped(VERSION) && |VERSION| == 44
  {
    assert Unescaped("cogs.stage2-");
    assert Unescaped("formal-local-");
    assert Unescaped("artifact-custody/v2");
    Joined("formal-local-", "artifact-custody/v2");
    Joined("cogs.stage2-", "formal-local-" + "artifact-custody/v2");
  }

  lemma AuthorityUnescaped()
    ensures Unescaped(AUTHORITY) && |AUTHORITY| == 60
  {
    assert Unescaped("authenticated-");
    assert Unescaped("github-actions-api-");
    assert Unescaped("cycle-artifact-");
    assert Unescaped("custody-only");
    Joined("cycle-artifact-", "custody-only");
    Joined("github-actions-api-", "cycle-artifact-" + "custody-only");
    Joined("authenticated-", "github-actions-api-" + ("cycle-artifact-" + "custody-only"));
  }

  // ---------------------------------------------------------------- the record

  /** The revisions are SHA-1 names. */
  predicate Revisions(e: Expected) {
    && |e.implementation| == 40 && Hex(e.implementation) && |e.control| == 40 && Hex(e.control)
    && |e.qualification| == 40 && Hex(e.qualification)
  }

  lemma NameLength(e: Expected, name: string, ordinal: nat)
    requires RunNumeral(e) && Revisions(e) && 1 <= ordinal <= CYCLES && Named(name, e, ordinal)
    ensures |name| == 176 + |e.run| && Unescaped(name)
  {
    var p := Prefix(e, ordinal);
    assert Unescaped(FAMILY) && Unescaped("-") && Unescaped("-1-host-");
    DigitsUnescaped(e.run);
    assert |Decimal(ordinal)| == 1;
    assert Unescaped(Decimal(ordinal) + Suffix(e));
    assert Unescaped(p);
    assert name == p + name[|p|..];
  }

  function PlainSize(): Member -> nat {
    (p: Member) => |p.0| + |Canonical(true, p.1)|
  }

  function TextSize(): Json -> nat {
    (v: Json) => |Canonical(true, v)|
  }

  /** A member under a plain key, by the size of its value. */
  function KeyAndValue(ms: seq<Member>, size: Json -> nat, i: nat): nat {
    if i < |ms| then |ms[i].0| + size(ms[i].1) else 0
  }

  function FiveSizes(ms: seq<Member>, size: Json -> nat): nat {
    KeyAndValue(ms, size, 0) + KeyAndValue(ms, size, 1) + KeyAndValue(ms, size, 2) + KeyAndValue(ms, size, 3)
        + KeyAndValue(ms, size, 4)
  }

  lemma PlainObject(ms: seq<Member>)
    requires ms != [] && |ms| <= 5 && forall i :: 0 <= i < |ms| ==> Unescaped(ms[i].0)
    ensures |Canonical(true, Obj(ms))| == FiveSizes(ms, TextSize()) + 4 * |ms| + 1
  {
    ObjectLength(ms);
    forall i | 0 <= i < |ms| ensures MemberSize()(ms[i]) == 4 + PlainSize()(ms[i]) {
      StringLength(ms[i].0);
    }
    SumPair(ms, MemberSize(), ms, PlainSize(), 4);
    SumFive(ms, PlainSize());
  }

  lemma RowKeys(r: Row)
    ensures var ms := RowJson(r).members; forall i :: 0 <= i < |ms| ==> Unescaped(ms[i].0)
  {
    assert Unescaped("ordinal") && Unescaped("name") && Unescaped("artifact_id") && Unescaped("archive_digest");
  }

  lemma RunKeys(e: Expected)
    requires RunNumeral(e)
    ensures var ms := RunJson(e).members; forall i :: 0 <= i < |ms| ==> Unescaped(ms[i].0)
  {
    assert Unescaped("id") && Unescaped("attempt") && Unescaped("head_sha");
  }

  lemma CustodyKeys(e: Expected, rows: seq<Row>)
    requires RunNumeral(e)
    ensures var ms := CustodyJson(e, rows).members; forall i :: 0 <= i < |ms| ==> Unescaped(ms[i].0)
  {
    assert Unescaped("version") && Unescaped("authority") && Unescaped("repository") && Unescaped("workflow_run");
    assert Unescaped("artifacts");
  }

  lemma RowLength(e: Expected, r: Row)
    requires RunNumeral(e) && Revisions(e) && 1 <= r.ordinal <= CYCLES && GoodRow(e, r, r.ordinal)
    ensures |Canonical(true, RowJson(r))| == 305 + |e.run| + |Decimal(r.id)|
  {
    var ms := RowJson(r).members;
    RowKeys(r);
    PlainObject(ms);
    NameLength(e, r.name, r.ordinal);
    StrLength(r.name);
    DigestUnescaped(r.digest);
    StrLength(r.digest);
    assert |Decimal(r.ordinal)| == 1;
  }

  lemma DigestUnescaped(s: string)
    requires ArchiveDigest(s)
    ensures Unescaped(s)
  {
    assert Unescaped("sha256:");
    assert s == s[..7] + s[7..] && s[..7] == "sha256:";
  }

  lemma RunLength(e: Expected)
    requires RunNumeral(e) && Revisions(e)
    ensures |Canonical(true, RunJson(e))| == 73 + |e.run|
  {
    var ms := RunJson(e).members;
    RunKeys(e);
    PlainObject(ms);
    DecimalNumber(e.run);
    HexUnescaped(e.qualification);
    StrLength(e.qualification);
    assert Decimal(1) == "1";
  }

  function IdSize(): Row -> nat {
    (r: Row) => if r.id < 0 then 0 else |Decimal(r.id)|
  }

  /** The digits of all artifact ids. */
  function IdDigits(rows: seq<Row>): nat {
    Sum(rows, IdSize())
  }

  lemma RowsLength(e: Expected, rows: seq<Row>)
    requires RunNumeral(e) && Revisions(e) && GoodRows(e, rows, 1) && |rows| == CYCLES
    ensures Sum(RowsJson(rows), ItemSize()) == CYCLES * (306 + |e.run|) + IdDigits(rows)
  {
    var items := RowsJson(rows);
    forall i | 0 <= i < |rows| ensures ItemSize()(items[i]) == 306 + |e.run| + IdSize()(rows[i]) {
      assert GoodRow(e, rows[i], 1 + i);
      RowLength(e, rows[i]);
    }
    SumPair(items, ItemSize(), rows, IdSize(), 306 + |e.run|);
  }

  const FIXED_BYTES := 2404

  lemma HeadLengths()
    ensures |Canonical(true, Str(VERSION))| == 46 && |Canonical(true, Str(AUTHORITY))| == 62
    ensures |Canonical(true, Str(REPOSITORY))| == 11
  {
    VersionUnescaped();
    AuthorityUnescaped();
    assert Unescaped(REPOSITORY);
    StrLength(VERSION);
    StrLength(AUTHORITY);
    StrLength(REPOSITORY);
  }

  lemma ArtifactsLength(e: Expected, rows: seq<Row>)
    requires RunNumeral(e) && Revisions(e) && GoodCustody(e, rows)
    ensures |Canonical(true, Arr(RowsJson(rows)))| == 2143 + 7 * |e.run| + IdDigits(rows)
  {
    ArrayLength(RowsJson(rows));
    RowsLength(e, rows);
  }

  lemma KeySizes(version: Json, authority: Json, repository: Json, run: Json, artifacts: Json, size: Json -> nat)
    ensures FiveSizes([("version", version), ("authority", authority), ("repository", repository),
                       ("workflow_run", run), ("artifacts", artifacts)], size)
         == 47 + size(version) + size(authority) + size(repository) + size(run) + size(artifacts)
  {
  }

  /** The record's length: the run id stands in it eight times, each artifact id once. */
  lemma TextLength(e: Expected, rows: seq<Row>)
    requires RunNumeral(e) && Revisions(e) && GoodCustody(e, rows)
    ensures |CustodyText(e, rows)| == FIXED_BYTES + 8 * |e.run| + IdDigits(rows)
  {
    var ms := CustodyJson(e, rows).members;
    CustodyKeys(e, rows);
    PlainObject(ms);
    KeySizes(Str(VERSION), Str(AUTHORITY), Str(REPOSITORY), RunJson(e), Arr(RowsJson(rows)), TextSize());
    HeadLengths();
    RunLength(e);
    ArtifactsLength(e, rows);
  }

  /**
   * What a caller can tell beforehand: a custody revalidates exactly when its run id and artifact ids are short
   * enough.
   */
  lemma RevalidatesExactly(decode: Decoder, e: Expected, items: seq<Item>, p: seq<nat>)
    requires RunNumeral(e) && Revisions(e) && Plain(decode) && Complete(items, e) && Assigns(p, items, e, CYCLES)
    ensures ValidateCustody(decode, e, CustodyText(e, RowsOf(p, items)))
         == if 8 * |e.run| + IdDigits(RowsOf(p, items)) <= MAX_CUSTODY_BYTES - FIXED_BYTES then Some(RowsOf(p, items))
            else None
  {
    var rows := RowsOf(p, items);
    ExtractedRevalidates(decode, e, items, p);
    IdentitiesOf(p, items, e);
    forall i | 0 <= i < |rows| ensures GoodRow(e, rows[i], 1 + i) {
      assert Live(items[p[i]], e) && Named(items[p[i]].name, e, i + 1);
    }
    TextLength(e, rows);
  }

  // ---------------------------------------------------------------- long run ids

  lemma {:induction false} DecimalBound(n: nat, k: nat)
    requires n < Power(k)
    ensures 1 <= |Decimal(n)| && (k >= 1 ==> |Decimal(n)| <= k)
    decreases k
  {
    if n >= 10 && k >= 1 {
      DecimalBound(n / 10, k - 1);
    }
  }

  function Power(k: nat): nat {
    if k == 0 then 1 else 10 * Power(k - 1)
  }

  lemma SafeDigits(n: int)
    requires PositiveSafe(n)
    ensures 1 <= |Decimal(n)| <= 16
  {
    assert Power(4) == 10_000 && Power(8) == 100_000_000;
    assert Power(12) == 1_000_000_000_000 && Power(16) == 10_000_000_000_000_000;
    var k := 16;
    DecimalBound(n, k);
  }

  lemma {:induction false} IdDigitsBound(rows: seq<Row>)
    requires forall i :: 0 <= i < |rows| ==> PositiveSafe(rows[i].id)
    ensures |rows| <= IdDigits(rows) <= 16 * |rows|
  {
    if rows != [] {
      SafeDigits(rows[0].id);
      IdDigitsBound(rows[1..]);
    }
  }

  const LONGEST_SAFE := 1733
  const SHORTEST_REFUSED := 1747

  /** By the length of the run id alone: up to 1733 digits every custody revalidates, from 1747 on none does. */
  lemma RunLengthDecides(decode: Decoder, e: Expected, items: seq<Item>, p: seq<nat>)
    requires RunNumeral(e) && Revisions(e) && Plain(decode) && Complete(items, e) && Assigns(p, items, e, CYCLES)
    ensures |e.run| <= LONGEST_SAFE ==>
              ValidateCustody(decode, e, CustodyText(e, RowsOf(p, items))) == Some(RowsOf(p, items))
    ensures |e.run| >= SHORTEST_REFUSED ==> ValidateCustody(decode, e, CustodyText(e, RowsOf(p, items))) == None
  {
    RevalidatesExactly(decode, e, items, p);
    IdDigitsBound(RowsOf(p, items));
  }

  // ---------------------------------------------------------------- a refused inventory

  /** The most digits Python's `int` takes. */
  const INT_DIGITS := 4300

  function Repeated(c: char, n: nat): (s: string)
    ensures |s| == n && forall i :: 0 <= i < n ==> s[i] == c
  {
    seq(n, i => c)
  }

  function LongRun(n: nat): Expected {
    Expected(Repeated('a', 40), Repeated('b', 40), Repeated('c', 40), Repeated('1', n))
  }

  function CycleItem(e: Expected, o: nat): Item
    requires RunNumeral(e) && 1 <= o <= CYCLES
  {
    Item(Prefix(e, o) + Repeated('0', 64), false, Number(e.run), e.qualification, o,
         "sha256:" + Repeated(DigitChar(o), 64))
  }

  function CycleItems(e: Expected): (items: seq<Item>)
    requires RunNumeral(e)
    ensures |items| == CYCLES && forall i :: 0 <= i < CYCLES ==> items[i] == CycleItem(e, i + 1)
  {
    seq(CYCLES, i requires 0 <= i < CYCLES => CycleItem(e, i + 1))
  }

  lemma CycleItemGood(e: Expected, o: nat)
    requires RunNumeral(e) && 1 <= o <= CYCLES
    ensures Live(CycleItem(e, o), e) && Named(CycleItem(e, o).name, e, o)
  {
    var x := CycleItem(e, o);
    assert x.digest[7..] == Repeated(DigitChar(o), 64);
    assert x.name[|Prefix(e, o)|..] == Repeated('0', 64);
  }

  lemma CycleItemsComplete(e: Expected)
    requires RunNumeral(e)
    ensures Complete(CycleItems(e), e) && Assigns([0, 1, 2, 3, 4, 5, 6], CycleItems(e), e, CYCLES)
  {
    var items, p := CycleItems(e), [0, 1, 2, 3, 4, 5, 6];
    forall i | 0 <= i < CYCLES ensures Live(items[i], e) && Named(items[i].name, e, i + 1) {
      CycleItemGood(e, i + 1);
    }
    forall i, j | 0 <= i < j < CYCLES
      ensures items[i].name != items[j].name && items[i].id != items[j].id && items[i].digest != items[j].digest
    {
      assert Prefix(e, i + 1) <= items[i].name && Prefix(e, j + 1) <= items[j].name;
      if items[i].name == items[j].name {
        PrefixApart(items[i].name, e, i + 1, j + 1);
      }
      assert items[i].digest[7] == DigitChar(i + 1) && items[j].digest[7] == DigitChar(j + 1);
    }
    forall o | 1 <= o <= CYCLES ensures Provided(items, e, o) {
      assert Named(items[o - 1].name, e, o);
    }
    forall i | 0 <= i < CYCLES ensures p[i] < |items| && Named(items[p[i]].name, e, i + 1) {
      assert p[i] == i;
    }
  }

  /**
   * A run id that `int` still takes, and a complete inventory under it, whose record is refused as soon as it is
   * made.
   */
  lemma LongRunRefused(decode: Decoder) returns (e: Expected, items: seq<Item>, p: seq<nat>)
    requires Plain(decode)
    ensures RunNumeral(e) && Revisions(e) && |e.run| <= INT_DIGITS && Complete(items, e) && Assigns(p, items, e, CYCLES)
    ensures ValidateCustody(decode, e, CustodyText(e, RowsOf(p, items))) == None
  {
    e := LongRun(SHORTEST_REFUSED);
    items, p := CycleItems(e), [0, 1, 2, 3, 4, 5, 6];
    CycleItemsComplete(e);
    RunLengthDecides(decode, e, items, p);
  }
}
