/** JSON as Python's `json` module reads and writes it: ASCII output, fields looked up in dictionaries. */
module PyJson {
  import opened Basics
  import opened JsonStrings
  import opened Json
  import opened JsonClaims

  /** How the bytes of a text become characters. */
  type Decoder = string -> Option<string>

  predicate Printable(c: char) {
    ' ' <= c <= '~'
  }

  predicate AllPrintable(s: string) {
    forall i :: 0 <= i < |s| ==> Printable(s[i])
  }

  /** Printable ASCII, with its line end, is left as it is. */
  ghost predicate Plain(decode: Decoder) {
    forall s :: AllPrintable(s) ==> decode(s + "\n") == Some(s + "\n")
  }

  // ---------------------------------------------------------------- canonical text is printable

  lemma CharPrintable(c: char)
    ensures AllPrintable(PrintChar(true, c))
  {
  }

  lemma {:induction false} CharsPrintable(s: string)
    ensures AllPrintable(PrintChars(true, s))
  {
    if s != "" {
      CharPrintable(s[0]);
      CharsPrintable(s[1..]);
    }
  }

  lemma StringPrintable(s: string)
    ensures AllPrintable(PrintString(true, s))
  {
    CharsPrintable(s);
  }

  lemma NumberPrintable(n: int)
    ensures AllPrintable(PrintInt(n))
  {
  }

  lemma {:induction false} ItemsPrintable(whole: Json, items: seq<Json>)
    requires whole.Arr? && forall x :: x in items ==> x in whole.items
    ensures AllPrintable(CanonicalItems(true, whole, items))
    decreases whole, 0, |items|
  {
    if items != [] {
      ItemSmaller(whole, items[0]);
      CanonicalPrintable(items[0]);
      ItemsPrintable(whole, items[1..]);
    }
  }

  lemma {:induction false} MembersPrintable(whole: Json, ms: seq<Member>)
    requires whole.Obj? && forall p :: p in ms ==> p in whole.members
    ensures AllPrintable(CanonicalMembers(true, whole, ms))
    decreases whole, 0, |ms|
  {
    if ms != [] {
      MemberSmaller(whole, ms[0]);
      CanonicalPrintable(ms[0].1);
      StringPrintable(ms[0].0);
      MembersPrintable(whole, ms[1..]);
    }
  }

  lemma {:induction false} CanonicalPrintable(v: Json)
    ensures AllPrintable(Canonical(true, v))
    decreases v, 1
  {
    match v
    case Num(n) => NumberPrintable(n);
    case Str(s) => StringPrintable(s);
    case Arr(items) => ItemsPrintable(v, items);
    case Obj(ms) =>
      SortKeeps(ms);
      MembersPrintable(v, Sort(ms));
    case _ =>
  }

  // ---------------------------------------------------------------- fields

  function Field(ms: seq<Member>, key: string): Option<Json> {
    if ms == [] then None
    else if ms[0].0 == key then Some(ms[0].1)
    else Field(ms[1..], key)
  }

  lemma {:induction false} FieldAt(ms: seq<Member>, i: nat)
    requires DistinctKeys(ms) && i < |ms|
    ensures Field(ms, ms[i].0) == Some(ms[i].1)
  {
    if i > 0 {
      FieldAt(ms[1..], i - 1);
    }
  }

  lemma FieldNormal(v: Json, i: nat)
    requires v.Obj? && WellKeyed(v) && i < |v.members|
    ensures |Normal(v).members| == |v.members|
    ensures Field(Normal(v).members, v.members[i].0) == Some(Normal(v.members[i].1))
  {
    var k := PlaceSorted(v, i);
    NormalDistinct(v);
    FieldAt(Normal(v).members, k);
  }

  lemma {:induction false} FieldKeyed(ms: seq<Member>, key: string)
    requires (forall i :: 0 <= i < |ms| ==> WellKeyed(ms[i].1)) && Field(ms, key).Some?
    ensures WellKeyed(Field(ms, key).value)
  {
    if ms[0].0 != key {
      FieldKeyed(ms[1..], key);
    }
  }
}
