/**
 * The release image-set assertion record: finalised to canonical bytes, and classified from bytes.
 * The schema and semantic checks are a parameter that does not look at the order of keys.
 */
module Assertion {
  import opened Basics
  import opened Json
  import opened JsonClaims
  import opened Utf8

  const MAX_ASSERTION_BYTES := 1024 * 1024

  datatype Verdict = ValidRecord | BoundedInputViolation | NonCanonicalJson | SchemaOrSemanticDrift

  type Semantics = Json -> bool

  ghost predicate OrderFree(accepts: Semantics) {
    forall a, b {:trigger accepts(a), Same(a, b)} :: WellKeyed(a) && WellKeyed(b) && Same(a, b) ==>
      accepts(a) == accepts(b)
  }

  function CanonicalBytes(v: Json): Bytes {
    Encode(Canonical(false, v) + "\n")
  }

  function Finalize(accepts: Semantics, v: Json): Option<Bytes> {
    if accepts(v) then Some(CanonicalBytes(v)) else None
  }

  function Classify(accepts: Semantics, bytes: Bytes): Verdict {
    if |bytes| < 1 || |bytes| > MAX_ASSERTION_BYTES then BoundedInputViolation
    else
      match DecodeText(bytes)
      case None => NonCanonicalJson
      case Some(text) =>
        match Parse(text)
        case None => NonCanonicalJson
        case Some(v) =>
          if CanonicalBytes(v) != bytes then NonCanonicalJson
          else if accepts(v) then ValidRecord
          else SchemaOrSemanticDrift
  }

  // ---------------------------------------------------------------- what a parse returns has unique keys

  lemma {:induction false} CollapseWithin(ms: seq<Member>)
    ensures forall p :: p in Collapse(ms) ==> p in ms
  {
    if ms != [] {
      CollapseWithin(ms[1..]);
      assert ms == [ms[0]] + ms[1..];
    }
  }

  lemma {:induction false} CollapseKeyed(ms: seq<Member>)
    ensures DistinctKeys(Collapse(ms))
  {
    if ms != [] {
      CollapseKeyed(ms[1..]);
      CollapseWithin(ms[1..]);
      if !(exists i :: 1 <= i < |ms| && ms[i].0 == ms[0].0) {
        var rest := Collapse(ms[1..]);
        forall j | 0 <= j < |rest| ensures rest[j].0 != ms[0].0 {
          assert rest[j] in ms[1..];
          var i :| 0 <= i < |ms[1..]| && ms[1..][i] == rest[j];
          assert ms[i + 1] == rest[j];
        }
      }
    }
  }

  lemma {:induction false} UniqueKeyed(v: Json)
    ensures WellKeyed(Unique(v))
  {
    match v
    case Arr(items) =>
      forall i | 0 <= i < |items| ensures WellKeyed(Unique(items[i])) {
        UniqueKeyed(items[i]);
      }
    case Obj(ms) =>
      var us := seq(|ms|, i requires 0 <= i < |ms| => (ms[i].0, Unique(ms[i].1)));
      forall i | 0 <= i < |ms| ensures WellKeyed(us[i].1) {
        UniqueKeyed(ms[i].1);
      }
      CollapsedKeyed(us);
    case _ =>
  }

  lemma CollapsedKeyed(us: seq<Member>)
    requires forall i :: 0 <= i < |us| ==> WellKeyed(us[i].1)
    ensures WellKeyed(Obj(Collapse(us)))
  {
    CollapseKeyed(us);
    CollapseWithin(us);
    var rest := Collapse(us);
    forall j | 0 <= j < |rest| ensures WellKeyed(rest[j].1) {
      assert rest[j] in us;
    }
  }

  // ---------------------------------------------------------------- finalised records classify

  lemma CanonicalReadBack(v: Json)
    requires WellKeyed(v)
    ensures CanonicalBytes(v) != [] && DecodeText(CanonicalBytes(v)) == Some(Canonical(false, v) + "\n")
    ensures Parse(Canonical(false, v) + "\n") == Some(Normal(v))
    ensures CanonicalBytes(Normal(v)) == CanonicalBytes(v) && Same(v, Normal(v)) && WellKeyed(Normal(v))
  {
    var text := Canonical(false, v) + "\n";
    Starts(false, v);
    assert text[0] == Canonical(false, v)[0];
    DecodeTextEncode(text);
    ParseCanonical(false, v, "\n");
    CanonicalNormal(false, v);
  }

  /** The bytes of any value within the bound are judged on the value's semantics alone. */
  lemma ClassifyCanonical(accepts: Semantics, v: Json)
    requires WellKeyed(v) && OrderFree(accepts) && |CanonicalBytes(v)| <= MAX_ASSERTION_BYTES
    ensures Classify(accepts, CanonicalBytes(v)) == if accepts(v) then ValidRecord else SchemaOrSemanticDrift
  {
    CanonicalReadBack(v);
    assert accepts(v) == accepts(Normal(v));
  }

  /** Finalising an accepted assertion within the bound always classifies as valid. */
  lemma FinalizedIsValid(accepts: Semantics, v: Json)
    requires WellKeyed(v) && OrderFree(accepts) && Finalize(accepts, v).Some?
    requires |Finalize(accepts, v).value| <= MAX_ASSERTION_BYTES
    ensures Classify(accepts, Finalize(accepts, v).value) == ValidRecord
  {
    ClassifyCanonical(accepts, v);
  }

  /** And nothing else does: the valid records are exactly the finalised ones within the bound. */
  lemma ClassifyExact(accepts: Semantics, bytes: Bytes)
    requires OrderFree(accepts)
    ensures Classify(accepts, bytes) == ValidRecord
       <==> |bytes| <= 1_048_576 && exists v :: WellKeyed(v) && Finalize(accepts, v) == Some(bytes)
    ensures Classify(accepts, bytes) == BoundedInputViolation <==> bytes == [] || |bytes| > 1_048_576
  {
    if Classify(accepts, bytes) == ValidRecord {
      var v := Parse(DecodeText(bytes).value).value;
      UniqueKeyed(Read(DecodeText(bytes).value).value);
      assert Finalize(accepts, v) == Some(bytes);
    }
    if |bytes| <= MAX_ASSERTION_BYTES {
      forall v | WellKeyed(v) && Finalize(accepts, v) == Some(bytes) ensures Classify(accepts, bytes) == ValidRecord {
        FinalizedIsValid(accepts, v);
      }
    }
  }

  /** Two records with one digest-relevant byte string say the same. */
  lemma FinalizedApart(accepts: Semantics, a: Json, b: Json)
    requires WellKeyed(a) && WellKeyed(b) && accepts(a) && accepts(b)
    ensures Finalize(accepts, a) == Finalize(accepts, b) <==> Same(a, b)
  {
    CanonicalExact(false, a, b);
    if Finalize(accepts, a) == Finalize(accepts, b) {
      var x, y := Canonical(false, a), Canonical(false, b);
      EncodeInjective(x + "\n", y + "\n");
      assert (x + "\n")[..|x|] == x && (y + "\n")[..|y|] == y;
    }
  }
}
