/** The custody record as canonical JSON, and its validation. */
module CustodyRecord {
  import opened Basics
  import opened Decimals
  import opened Json
  import opened JsonClaims
  import opened PyJson
  import opened ArtifactCustody

  const MAX_CUSTODY_BYTES := 16 * 1024
  const VERSION := "cogs.stage2-" + ("formal-local-" + "artifact-custody/v2")
  const AUTHORITY := "authenticated-" + ("github-actions-api-" + ("cycle-artifact-" + "custody-only"))
  const REPOSITORY := "nenb/cogs"

  // ---------------------------------------------------------------- writing

  function RowJson(r: Row): Json {
    Obj([("ordinal", Num(r.ordinal)), ("name", Str(r.name)), ("artifact_id", Num(r.id)),
         ("archive_digest", Str(r.digest))])
  }

  function RowsJson(rows: seq<Row>): (items: seq<Json>)
    ensures |items| == |rows| && forall i :: 0 <= i < |rows| ==> items[i] == RowJson(rows[i])
  {
    seq(|rows|, i requires 0 <= i < |rows| => RowJson(rows[i]))
  }

  function RunJson(e: Expected): Json
    requires RunNumeral(e)
  {
    Obj([("id", Num(Number(e.run))), ("attempt", Num(1)), ("head_sha", Str(e.qualification))])
  }

  function CustodyJson(e: Expected, rows: seq<Row>): Json
    requires RunNumeral(e)
  {
    Obj([("version", Str(VERSION)), ("authority", Str(AUTHORITY)), ("repository", Str(REPOSITORY)),
         ("workflow_run", RunJson(e)), ("artifacts", Arr(RowsJson(rows)))])
  }

  function CustodyText(e: Expected, rows: seq<Row>): string
    requires RunNumeral(e)
  {
    Canonical(true, CustodyJson(e, rows)) + "\n"
  }

  // ---------------------------------------------------------------- reading

  predicate GoodRow(e: Expected, r: Row, ordinal: nat) {
    r.ordinal == ordinal && Named(r.name, e, ordinal) && PositiveSafe(r.id) && ArchiveDigest(r.digest)
  }

  function ReadRow(e: Expected, v: Json, ordinal: nat): Option<Row> {
    if !v.Obj? || |v.members| != 4 then None
    else
      var ms := v.members;
      match (Field(ms, "ordinal"), Field(ms, "name"), Field(ms, "artifact_id"), Field(ms, "archive_digest"))
      case (Some(Num(n)), Some(Str(name)), Some(Num(id)), Some(Str(digest))) =>
        if n == ordinal && GoodRow(e, Row(ordinal, name, id, digest), ordinal) then Some(Row(ordinal, name, id, digest))
        else None
      case _ => None
  }

  function ReadRows(e: Expected, items: seq<Json>, ordinal: nat): Option<seq<Row>>
    decreases |items|
  {
    if items == [] then Some([])
    else
      match (ReadRow(e, items[0], ordinal), ReadRows(e, items[1..], ordinal + 1))
      case (Some(r), Some(more)) => Some([r] + more)
      case _ => None
  }

  predicate ReadRun(e: Expected, v: Json)
    requires RunNumeral(e)
  {
    && v.Obj? && |v.members| == 3 && Field(v.members, "id") == Some(Num(Number(e.run)))
    && Field(v.members, "attempt") == Some(Num(1)) && Field(v.members, "head_sha") == Some(Str(e.qualification))
  }

  predicate Headed(v: Json) {
    && v.Obj? && |v.members| == 5 && Field(v.members, "version") == Some(Str(VERSION))
    && Field(v.members, "authority") == Some(Str(AUTHORITY)) && Field(v.members, "repository") == Some(Str(REPOSITORY))
  }

  ghost function Validate(e: Expected, v: Json): Option<seq<Row>>
    requires RunNumeral(e)
  {
    if !Headed(v) then None
    else
      match (Field(v.members, "workflow_run"), Field(v.members, "artifacts"))
      case (Some(run), Some(Arr(items))) =>
        if ReadRun(e, run) && |items| == CYCLES && ReadRows(e, items, 1).Some?
           && DistinctRows(ReadRows(e, items, 1).value)
        then ReadRows(e, items, 1) else None
      case _ => None
  }

  /** `validate_custody`, with `decode` on top. */
  ghost function ValidateCustody(decode: Decoder, e: Expected, raw: string): Option<seq<Row>>
    requires RunNumeral(e)
  {
    if !(0 < |raw| <= MAX_CUSTODY_BYTES) || raw[|raw| - 1] != '\n' then None
    else
      match decode(raw)
      case None => None
      case Some(text) =>
        match StrictParse(text)
        case None => None
        case Some(v) => if Canonical(true, v) + "\n" != raw then None else Validate(e, v)
  }

  // ---------------------------------------------------------------- what is written is well keyed

  lemma RowKeyed(r: Row)
    ensures WellKeyed(RowJson(r))
  {
    var ms := RowJson(r).members;
    assert ms[0].0[0] == 'o' && ms[1].0[0] == 'n' && ms[2].0[0] == 'a' && ms[3].0[0] == 'a' && ms[2].0[2] == 't';
    assert ms[3].0[2] == 'c';
  }

  lemma RunKeyed(e: Expected)
    requires RunNumeral(e)
    ensures WellKeyed(RunJson(e))
  {
    var ms := RunJson(e).members;
    assert ms[0].0[0] == 'i' && ms[1].0[0] == 'a' && ms[2].0[0] == 'h';
  }

  lemma CustodyKeyed(e: Expected, rows: seq<Row>)
    requires RunNumeral(e)
    ensures WellKeyed(CustodyJson(e, rows))
  {
    var ms := CustodyJson(e, rows).members;
    assert ms[0].0[0] == 'v' && ms[1].0[0] == 'a' && ms[2].0[0] == 'r' && ms[3].0[0] == 'w' && ms[4].0[0] == 'a';
    assert ms[1].0[1] == 'u' && ms[4].0[1] == 'r';
    RunKeyed(e);
    var items := RowsJson(rows);
    forall i | 0 <= i < |items| ensures WellKeyed(items[i]) {
      RowKeyed(rows[i]);
    }
    assert WellKeyed(ms[4].1);
  }

  // ---------------------------------------------------------------- reading the written record

  lemma RowBack(e: Expected, r: Row)
    requires GoodRow(e, r, r.ordinal)
    ensures ReadRow(e, Normal(RowJson(r)), r.ordinal) == Some(r)
  {
    RowKeyed(r);
    var v := RowJson(r);
    FieldNormal(v, 0);
    FieldNormal(v, 1);
    FieldNormal(v, 2);
    FieldNormal(v, 3);
  }

  lemma RunBack(e: Expected)
    requires RunNumeral(e)
    ensures ReadRun(e, Normal(RunJson(e)))
  {
    RunKeyed(e);
    var v := RunJson(e);
    FieldNormal(v, 0);
    FieldNormal(v, 1);
    FieldNormal(v, 2);
  }

  /** Rows numbered from an ordinal on, each good at its place. */
  ghost predicate GoodRows(e: Expected, rows: seq<Row>, ordinal: nat) {
    forall i :: 0 <= i < |rows| ==> GoodRow(e, rows[i], ordinal + i)
  }

  lemma {:induction false} RowsBack(e: Expected, rows: seq<Row>, ordinal: nat, items: seq<Json>)
    requires GoodRows(e, rows, ordinal) && |items| == |rows|
    requires forall i :: 0 <= i < |rows| ==> items[i] == Normal(RowJson(rows[i]))
    ensures ReadRows(e, items, ordinal) == Some(rows)
    decreases |rows|
  {
    if rows != [] {
      assert GoodRow(e, rows[0], ordinal + 0);
      RowBack(e, rows[0]);
      forall i | 0 <= i < |rows[1..]| ensures GoodRow(e, rows[1..][i], ordinal + 1 + i) {
        assert GoodRow(e, rows[i + 1], ordinal + (i + 1));
      }
      RowsBack(e, rows[1..], ordinal + 1, items[1..]);
      assert [rows[0]] + rows[1..] == rows;
    }
  }

  lemma ArtifactsBack(e: Expected, rows: seq<Row>)
    requires GoodRows(e, rows, 1)
    ensures Normal(Arr(RowsJson(rows))).Arr? && |Normal(Arr(RowsJson(rows))).items| == |rows|
    ensures ReadRows(e, Normal(Arr(RowsJson(rows))).items, 1) == Some(rows)
  {
    var v := Arr(RowsJson(rows));
    forall i | 0 <= i < |rows| ensures Normal(v).items[i] == Normal(RowJson(rows[i])) {
      NormalItemAt(v, v.items, i);
    }
    RowsBack(e, rows, 1, Normal(v).items);
  }

  /** The rows of an accepted inventory. */
  ghost predicate GoodCustody(e: Expected, rows: seq<Row>) {
    |rows| == CYCLES && GoodRows(e, rows, 1) && DistinctRows(rows)
  }

  lemma CustodyBack(e: Expected, rows: seq<Row>)
    requires RunNumeral(e) && GoodCustody(e, rows)
    ensures Validate(e, Normal(CustodyJson(e, rows))) == Some(rows)
  {
    CustodyKeyed(e, rows);
    var v := CustodyJson(e, rows);
    FieldNormal(v, 0);
    FieldNormal(v, 1);
    FieldNormal(v, 2);
    FieldNormal(v, 3);
    FieldNormal(v, 4);
    RunBack(e);
    ArtifactsBack(e, rows);
  }

  // ---------------------------------------------------------------- what is read was written

  lemma {:induction false} FieldPlace(ms: seq<Member>, key: string) returns (i: nat)
    requires Field(ms, key).Some?
    ensures i < |ms| && ms[i] == (key, Field(ms, key).value)
  {
    if ms[0].0 == key {
      i := 0;
    } else {
      i := FieldPlace(ms[1..], key);
      i := i + 1;
    }
  }

  /** The wanted member stands in the other object, up to key order inside it. */
  predicate Holds(p: Member, v: Json) {
    v.Obj? && Field(v.members, p.0).Some? && Same(p.1, Field(v.members, p.0).value)
  }

  lemma HoldsAll(wanted: Json, v: Json)
    requires wanted.Obj? && v.Obj? && |wanted.members| == |v.members|
    requires forall i :: 0 <= i < |wanted.members| ==> Holds(wanted.members[i], v)
    ensures Same(wanted, v)
  {
    forall i | 0 <= i < |wanted.members| ensures Matched(wanted, i, v.members) {
      assert Holds(wanted.members[i], v);
      var j := FieldPlace(v.members, wanted.members[i].0);
      MatchedAt(wanted, i, v.members, j);
    }
  }

  lemma RowRead(e: Expected, v: Json, ordinal: nat)
    requires ReadRow(e, v, ordinal).Some?
    ensures GoodRow(e, ReadRow(e, v, ordinal).value, ordinal) && Same(RowJson(ReadRow(e, v, ordinal).value), v)
  {
    var wanted := RowJson(ReadRow(e, v, ordinal).value);
    var ms := wanted.members;
    assert Holds(ms[0], v) && Holds(ms[1], v) && Holds(ms[2], v) && Holds(ms[3], v);
    HoldsAll(wanted, v);
  }

  lemma {:induction false} RowsRead(e: Expected, items: seq<Json>, ordinal: nat)
    requires ReadRows(e, items, ordinal).Some?
    ensures var rows := ReadRows(e, items, ordinal).value;
            |rows| == |items| && GoodRows(e, rows, ordinal) && forall i :: 0 <= i < |items| ==>
              Same(RowJson(rows[i]), items[i])
    decreases |items|
  {
    if items != [] {
      RowRead(e, items[0], ordinal);
      RowsRead(e, items[1..], ordinal + 1);
      var rows := ReadRows(e, items, ordinal).value;
      var more := ReadRows(e, items[1..], ordinal + 1).value;
      assert rows[1..] == more;
      forall i | 0 <= i < |items| ensures Same(RowJson(rows[i]), items[i]) && GoodRow(e, rows[i], ordinal + i) {
        if i > 0 {
          assert rows[i] == more[i - 1] && items[i] == items[1..][i - 1];
          assert GoodRow(e, more[i - 1], ordinal + 1 + (i - 1));
        }
      }
    }
  }

  lemma RunRead(e: Expected, v: Json)
    requires RunNumeral(e) && ReadRun(e, v)
    ensures Same(RunJson(e), v)
  {
    var ms := RunJson(e).members;
    assert Holds(ms[0], v) && Holds(ms[1], v) && Holds(ms[2], v);
    HoldsAll(RunJson(e), v);
  }

  lemma CustodyRead(e: Expected, v: Json, rows: seq<Row>)
    requires RunNumeral(e) && Validate(e, v) == Some(rows)
    ensures GoodCustody(e, rows) && Same(CustodyJson(e, rows), v)
  {
    var run, artifacts := Field(v.members, "workflow_run").value, Field(v.members, "artifacts").value;
    RunRead(e, run);
    RowsRead(e, artifacts.items, 1);
    var wanted := CustodyJson(e, rows);
    var ms := wanted.members;
    assert Same(ms[4].1, artifacts);
    assert Holds(ms[0], v) && Holds(ms[1], v) && Holds(ms[2], v) && Holds(ms[3], v) && Holds(ms[4], v);
    HoldsAll(wanted, v);
  }

  // ---------------------------------------------------------------- exactly the written records

  lemma TextPlain(decode: Decoder, e: Expected, rows: seq<Row>)
    requires RunNumeral(e) && Plain(decode)
    ensures decode(CustodyText(e, rows)) == Some(CustodyText(e, rows))
    ensures StrictParse(CustodyText(e, rows)) == Some(Normal(CustodyJson(e, rows)))
    ensures Canonical(true, Normal(CustodyJson(e, rows))) == Canonical(true, CustodyJson(e, rows))
  {
    CustodyKeyed(e, rows);
    CanonicalPrintable(CustodyJson(e, rows));
    ParseCanonical(true, CustodyJson(e, rows), "\n");
    CanonicalNormal(true, CustodyJson(e, rows));
  }

  /**
   * The validator accepts exactly the canonical texts of good custody within its bound, and gives
   * their rows back.
   */
  lemma ValidateExact(decode: Decoder, e: Expected, raw: string, rows: seq<Row>)
    requires RunNumeral(e) && Plain(decode)
    ensures ValidateCustody(decode, e, raw) == Some(rows)
       <==> GoodCustody(e, rows) && raw == CustodyText(e, rows) && |raw| <= MAX_CUSTODY_BYTES
  {
    if ValidateCustody(decode, e, raw) == Some(rows) {
      var v := StrictParse(decode(raw).value).value;
      CustodyRead(e, v, rows);
      CustodyKeyed(e, rows);
      CanonicalExact(true, CustodyJson(e, rows), v);
    }
    if GoodCustody(e, rows) && raw == CustodyText(e, rows) && |raw| <= MAX_CUSTODY_BYTES {
      TextPlain(decode, e, rows);
      CustodyBack(e, rows);
    }
  }

  /** The rows made from a complete inventory are good custody, so their record revalidates if it fits. */
  lemma ExtractedRevalidates(decode: Decoder, e: Expected, items: seq<Item>, p: seq<nat>)
    requires RunNumeral(e) && Plain(decode) && Complete(items, e) && Assigns(p, items, e, CYCLES)
    ensures ValidateCustody(decode, e, CustodyText(e, RowsOf(p, items)))
         == if |CustodyText(e, RowsOf(p, items))| <= MAX_CUSTODY_BYTES then Some(RowsOf(p, items)) else None
  {
    var rows := RowsOf(p, items);
    IdentitiesOf(p, items, e);
    forall i | 0 <= i < |rows| ensures GoodRow(e, rows[i], 1 + i) {
      assert Live(items[p[i]], e) && Named(items[p[i]].name, e, i + 1);
    }
    ValidateExact(decode, e, CustodyText(e, rows), rows);
  }
}
