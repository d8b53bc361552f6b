/**
 * Custody of the seven cycle artifacts: which artifact of the API inventory belongs to which cycle,
 * and the record of it that is validated again later.
 */
module ArtifactCustody {
  import opened Basics
  import opened Counting
  import opened Decimals

  const CYCLES: nat := 7
  const SAFE_INTEGER := 9_007_199_254_740_991

  /** The environment's revisions and run; the run id is a numeral. */
  datatype Expected = Expected(implementation: string, control: string, qualification: string, run: string)

  /** An entry of the artifact inventory. */
  datatype Item = Item(name: string, expired: bool, run: int, head: string, id: int, digest: string)

  datatype Row = Row(ordinal: nat, name: string, id: int, digest: string)

  // ---------------------------------------------------------------- names

  const FAMILY := "stage2-formal-cycle-"

  function Suffix(e: Expected): string {
    "-" + e.implementation + "-" + e.control + "-" + e.run + "-1-host-"
  }

  /** `expected_artifact_prefix`. */
  function Prefix(e: Expected, ordinal: nat): string {
    FAMILY + (Decimal(ordinal) + Suffix(e))
  }

  predicate Hex(s: string) {
    forall i :: 0 <= i < |s| ==> '0' <= s[i] <= '9' || 'a' <= s[i] <= 'f'
  }

  /** `artifact_host_sha256` accepts the name. */
  predicate Named(name: string, e: Expected, ordinal: nat) {
    Prefix(e, ordinal) <= name && |name| == |Prefix(e, ordinal)| + 64 && Hex(name[|Prefix(e, ordinal)|..])
  }

  predicate ArchiveDigest(s: string) {
    |s| == 71 && "sha256:" <= s && Hex(s[7..])
  }

  predicate PositiveSafe(n: int) {
    0 < n <= SAFE_INTEGER
  }

  predicate RunNumeral(e: Expected) {
    AllDigits(e.run) && e.run[0] != '0'
  }

  /** What is asked of every item before any is assigned. */
  predicate Live(x: Item, e: Expected)
    requires RunNumeral(e)
  {
    !x.expired && x.run == Number(e.run) && x.head == e.qualification && PositiveSafe(x.id) && ArchiveDigest(x.digest)
  }

  lemma DigitAt(name: string, e: Expected, ordinal: nat)
    requires 1 <= ordinal <= CYCLES && Prefix(e, ordinal) <= name
    ensures |name| > |FAMILY| && name[|FAMILY|] == DigitChar(ordinal)
  {
  }

  /** The name the host job gives its artifact: the cycle, both commits, the run, and the host's digest. */
  function HostName(e: Expected, ordinal: nat, host: string): string {
    "stage2-formal-cycle-" + Decimal(ordinal) + "-" + e.implementation + "-" + e.control + "-" + e.run + "-1-host-"
        + host
  }

  lemma NamedExactly(name: string, e: Expected, ordinal: nat)
    ensures Named(name, e, ordinal) <==> exists host :: |host| == 64 && Hex(host) && name == HostName(e, ordinal, host)
  {
    forall host ensures HostName(e, ordinal, host) == Prefix(e, ordinal) + host {
    }
    if Named(name, e, ordinal) {
      var host := name[|Prefix(e, ordinal)|..];
      assert name == Prefix(e, ordinal) + host;
      assert name == HostName(e, ordinal, host);
    }
    forall host | |host| == 64 && Hex(host) && name == HostName(e, ordinal, host) ensures Named(name, e, ordinal) {
      assert name[|Prefix(e, ordinal)|..] == host;
    }
  }

  /** A name belongs to at most one cycle. */
  lemma PrefixApart(name: string, e: Expected, a: nat, b: nat)
    requires 1 <= a <= CYCLES && 1 <= b <= CYCLES && Prefix(e, a) <= name && Prefix(e, b) <= name
    ensures a == b
  {
    DigitAt(name, e, a);
    DigitAt(name, e, b);
    assert DigitValue(DigitChar(a)) == a && DigitValue(DigitChar(b)) == b;
  }

  // ---------------------------------------------------------------- counting

  /** The numbers below a bound. */
  function Below(n: nat): set<nat> {
    if n == 0 then {} else Below(n - 1) + {n - 1}
  }

  lemma {:induction false} BelowSize(n: nat)
    ensures |Below(n)| == n && forall j: nat :: j in Below(n) <==> j < n
  {
    if n > 0 {
      BelowSize(n - 1);
    }
  }

  /** A list of `n` different numbers below `n` misses none of them. */
  lemma Surjective(p: seq<nat>, n: nat, j: nat)
    requires Different(p) && |p| == n && (forall i :: 0 <= i < n ==> p[i] < n) && j < n
    ensures j in p
  {
    ElementCount(p);
    BelowSize(n);
    forall x | x in Elements(p) ensures x in Below(n) {
      ElementsAre(p, x);
    }
    assert |Below(n) - Elements(p)| == |Below(n)| - |Elements(p)|;
    assert Below(n) - Elements(p) == {};
    assert j in Elements(p);
    ElementsAre(p, j);
  }

  // ---------------------------------------------------------------- the assignment

  ghost predicate DistinctNames(items: seq<Item>) {
    forall i, j :: 0 <= i < j < |items| ==> items[i].name != items[j].name
  }

  ghost predicate DistinctIdentities(items: seq<Item>) {
    forall i, j :: 0 <= i < j < |items| ==> items[i].id != items[j].id && items[i].digest != items[j].digest
  }

  ghost predicate Provided(items: seq<Item>, e: Expected, ordinal: nat) {
    exists j :: 0 <= j < |items| && Named(items[j].name, e, ordinal)
  }

  /** Seven live items with their own names and identities, and a well-named one for every cycle. */
  ghost predicate Complete(items: seq<Item>, e: Expected)
    requires RunNumeral(e)
  {
    && |items| == CYCLES && (forall i :: 0 <= i < |items| ==> Live(items[i], e)) && DistinctNames(items)
    && DistinctIdentities(items)
    && (forall o :: 1 <= o <= CYCLES ==> Provided(items, e, o))
  }

  function RowOf(ordinal: nat, x: Item): Row {
    Row(ordinal, x.name, x.id, x.digest)
  }

  /** The assignment as a list: item `p[o - 1]` belongs to cycle `o`. */
  ghost predicate Assigns(p: seq<nat>, items: seq<Item>, e: Expected, n: nat) {
    |p| == n && forall i :: 0 <= i < n ==> p[i] < |items| && Named(items[p[i]].name, e, i + 1)
  }

  lemma AssignsDifferent(p: seq<nat>, items: seq<Item>, e: Expected, n: nat)
    requires n <= CYCLES && Assigns(p, items, e, n)
    ensures Different(p)
  {
    forall i, j | 0 <= i < j < |p| ensures p[i] != p[j] {
      if p[i] == p[j] {
        PrefixApart(items[p[i]].name, e, i + 1, j + 1);
      }
    }
  }

  /** The rows a list of items gives. */
  function RowsOf(p: seq<nat>, items: seq<Item>): (rows: seq<Row>)
    requires forall i :: 0 <= i < |p| ==> p[i] < |items|
    ensures |rows| == |p| && forall i :: 0 <= i < |p| ==> rows[i] == RowOf(i + 1, items[p[i]])
  {
    seq(|p|, i requires 0 <= i < |p| => RowOf(i + 1, items[p[i]]))
  }

  lemma IdentitiesOf(p: seq<nat>, items: seq<Item>, e: Expected)
    requires |items| == CYCLES && Assigns(p, items, e, CYCLES)
    ensures DistinctIdentities(items) <==> DistinctRows(RowsOf(p, items))
  {
    AssignsDifferent(p, items, e, CYCLES);
    var rows := RowsOf(p, items);
    if DistinctIdentities(items) {
      forall i, j | 0 <= i < j < |rows| ensures rows[i].id != rows[j].id && rows[i].digest != rows[j].digest {
        assert p[i] != p[j];
        if p[i] < p[j] {
          assert items[p[i]].id != items[p[j]].id;
        } else {
          assert items[p[j]].id != items[p[i]].id;
        }
      }
    }
    if DistinctRows(rows) {
      forall i, j | 0 <= i < j < |items| ensures items[i].id != items[j].id && items[i].digest != items[j].digest {
        Surjective(p, CYCLES, i);
        Surjective(p, CYCLES, j);
        var a :| 0 <= a < |p| && p[a] == i;
        var b :| 0 <= b < |p| && p[b] == j;
        if a < b {
          assert rows[a].id != rows[b].id;
        } else {
          assert rows[b].id != rows[a].id;
        }
      }
    }
  }

  ghost predicate DistinctRows(rows: seq<Row>) {
    forall i, j :: 0 <= i < j < |rows| ==> rows[i].id != rows[j].id && rows[i].digest != rows[j].digest
  }

  // ---------------------------------------------------------------- the two loops

  /** The first loop: every item live, every name new. */
  method Inventory(items: seq<Item>, e: Expected) returns (ok: bool)
    requires RunNumeral(e)
    ensures ok <==> (forall i :: 0 <= i < |items| ==> Live(items[i], e)) && DistinctNames(items)
  {
    var names: set<string>, i := {}, 0;
    while i < |items|
      invariant 0 <= i <= |items| && (forall k :: 0 <= k < i ==> Live(items[k], e))
      invariant forall a, b :: 0 <= a < b < i ==> items[a].name != items[b].name
      invariant forall x :: x in names <==> exists k :: 0 <= k < i && items[k].name == x
    {
      if items[i].name in names || !Live(items[i], e) {
        return false;
      }
      names := names + {items[i].name};
      i := i + 1;
    }
    ok := true;
  }

  /** The names that start with a cycle's prefix: how many, and the last. */
  method Matching(items: seq<Item>, e: Expected, ordinal: nat) returns (count: nat, at: nat)
    ensures count == Count(items, e, ordinal, |items|)
    ensures count > 0 ==> at < |items| && Prefix(e, ordinal) <= items[at].name
  {
    count, at := 0, 0;
    var i := 0;
    while i < |items|
      invariant 0 <= i <= |items| && count == Count(items, e, ordinal, i)
      invariant count > 0 ==> at < i && Prefix(e, ordinal) <= items[at].name
    {
      if Prefix(e, ordinal) <= items[i].name {
        count, at := count + 1, i;
      }
      i := i + 1;
    }
  }

  function Count(items: seq<Item>, e: Expected, ordinal: nat, n: nat): nat
    requires n <= |items|
  {
    if n == 0 then 0 else Count(items, e, ordinal, n - 1) + if Prefix(e, ordinal) <= items[n - 1].name then 1 else 0
  }

  lemma {:induction false} CountSome(items: seq<Item>, e: Expected, ordinal: nat, n: nat, j: nat)
    requires n <= |items| && j < n && Prefix(e, ordinal) <= items[j].name
    ensures Count(items, e, ordinal, n) >= 1
  {
    if j < n - 1 {
      CountSome(items, e, ordinal, n - 1, j);
    }
  }

  lemma {:induction false} CountOne(items: seq<Item>, e: Expected, ordinal: nat, n: nat, j: nat)
    requires n <= |items| && forall i :: 0 <= i < n && Prefix(e, ordinal) <= items[i].name ==> i == j
    ensures Count(items, e, ordinal, n) <= if j < n then 1 else 0
  {
    if n > 0 {
      CountOne(items, e, ordinal, n - 1, j);
    }
  }

  /** In a complete inventory every cycle has one item and no other: the list of them. */
  lemma {:induction false} Assignment(items: seq<Item>, e: Expected, n: nat) returns (p: seq<nat>)
    requires n <= CYCLES && forall o :: 1 <= o <= CYCLES ==> Provided(items, e, o)
    ensures Assigns(p, items, e, n)
  {
    if n == 0 {
      p := [];
    } else {
      var q := Assignment(items, e, n - 1);
      assert Provided(items, e, n);
      var j :| 0 <= j < |items| && Named(items[j].name, e, n);
      p := q + [j];
    }
  }

  lemma OnlyOne(items: seq<Item>, e: Expected, p: seq<nat>, ordinal: nat, j: nat)
    requires |items| == CYCLES && Assigns(p, items, e, CYCLES) && 1 <= ordinal <= CYCLES
    requires j < |items| && Prefix(e, ordinal) <= items[j].name
    ensures j == p[ordinal - 1]
  {
    AssignsDifferent(p, items, e, CYCLES);
    Surjective(p, CYCLES, j);
    var a :| 0 <= a < |p| && p[a] == j;
    PrefixApart(items[j].name, e, a + 1, ordinal);
  }

  lemma CompleteCounts(items: seq<Item>, e: Expected, p: seq<nat>, ordinal: nat)
    requires |items| == CYCLES && Assigns(p, items, e, CYCLES) && 1 <= ordinal <= CYCLES
    ensures Count(items, e, ordinal, |items|) == 1
  {
    var j := p[ordinal - 1];
    CountSome(items, e, ordinal, |items|, j);
    forall i | 0 <= i < |items| && Prefix(e, ordinal) <= items[i].name ensures i == j {
      OnlyOne(items, e, p, ordinal, i);
    }
    CountOne(items, e, ordinal, |items|, j);
  }

  /**
   * `custody_from_api` on the decoded inventory. It accepts exactly the complete inventories, and
   * then cycles and items correspond one to one.
   */
  method CustodyFromApi(items: seq<Item>, e: Expected) returns (rows: Option<seq<Row>>, ghost p: seq<nat>)
    requires RunNumeral(e)
    ensures rows.Some? <==> Complete(items, e)
    ensures rows.Some? ==> Assigns(p, items, e, CYCLES) && rows.value == RowsOf(p, items)
    ensures rows.Some? ==> Different(p) && forall j :: 0 <= j < |items| ==> j in p
  {
    p := [];
    if |items| != CYCLES {
      return None, p;
    }
    var live := Inventory(items, e);
    if !live {
      return None, p;
    }
    var ok, made;
    ok, made, p := Assign(items, e);
    if !ok {
      return None, p;
    }
    IdentitiesOf(p, items, e);
    AssignsDifferent(p, items, e, CYCLES);
    forall j | 0 <= j < |items| ensures j in p {
      Surjective(p, CYCLES, j);
    }
    var distinct := Unique(made);
    ProvidedBy(p, items, e);
    rows := if distinct then Some(made) else None;
  }

  lemma ProvidedBy(p: seq<nat>, items: seq<Item>, e: Expected)
    requires Assigns(p, items, e, CYCLES)
    ensures forall o :: 1 <= o <= CYCLES ==> Provided(items, e, o)
  {
    forall o | 1 <= o <= CYCLES ensures Provided(items, e, o) {
      assert Named(items[p[o - 1]].name, e, o - 1 + 1);
    }
  }

  /** The second loop: one item per cycle, by prefix, with a well-formed name. */
  method Assign(items: seq<Item>, e: Expected) returns (ok: bool, rows: seq<Row>, ghost p: seq<nat>)
    requires |items| == CYCLES
    ensures ok <==> forall o :: 1 <= o <= CYCLES ==> Provided(items, e, o)
    ensures ok ==> Assigns(p, items, e, CYCLES) && rows == RowsOf(p, items)
  {
    rows, p, ok := [], [], false;
    ghost var complete := forall o :: 1 <= o <= CYCLES ==> Provided(items, e, o);
    ghost var q: seq<nat> := [];
    if complete {
      q := Assignment(items, e, CYCLES);
    }
    var o := 1;
    while o <= CYCLES
      invariant 1 <= o <= CYCLES + 1 && Assigns(p, items, e, o - 1) && rows == RowsOf(p, items)
    {
      if complete {
        CompleteCounts(items, e, q, o);
      }
      var count, at := Matching(items, e, o);
      if count != 1 {
        return;
      }
      if complete {
        OnlyOne(items, e, q, o, at);
        assert Named(items[q[o - 1]].name, e, o - 1 + 1);
      }
      if !Named(items[at].name, e, o) {
        return;
      }
      rows, p := rows + [RowOf(o, items[at])], p + [at];
      o := o + 1;
    }
    ProvidedBy(p, items, e);
    ok := true;
  }

  /** The comparison of the two sets of identities with seven. */
  method Unique(rows: seq<Row>) returns (ok: bool)
    ensures ok <==> DistinctRows(rows)
  {
    var ids := seq(|rows|, i requires 0 <= i < |rows| => rows[i].id);
    var digests := seq(|rows|, i requires 0 <= i < |rows| => rows[i].digest);
    ElementCount(ids);
    ElementCount(digests);
    ok := |Elements(ids)| == |rows| && |Elements(digests)| == |rows|;
    RowsDiffer(rows, ids, digests);
  }

  lemma RowsDiffer(rows: seq<Row>, ids: seq<int>, digests: seq<string>)
    requires |ids| == |digests| == |rows|
    requires forall i :: 0 <= i < |rows| ==> ids[i] == rows[i].id && digests[i] == rows[i].digest
    ensures DistinctRows(rows) <==> Different(ids) && Different(digests)
  {
  }
}
