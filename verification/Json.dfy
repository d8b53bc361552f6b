/**
 * JSON values with integer numbers, their canonical text, and a reader for all of RFC 8259 that is
 * not about fractions and exponents.
 */
module Json {
  import opened Basics
  import opened Decimals
  import opened JsonStrings
  import opened Order

  datatype Json =
    | Null
    | Bool(b: bool)
    | Num(n: int)
    | Str(s: string)
    | Arr(items: seq<Json>)
    | Obj(members: seq<Member>)

  type Member = (string, Json)

  // ---------------------------------------------------------------- sorting by key

  function Insert(p: Member, ms: seq<Member>): seq<Member> {
    if ms == [] then [p]
    else if Less(ms[0].0, p.0) then [ms[0]] + Insert(p, ms[1..])
    else [p] + ms
  }

  /** `sort` with `compareCodePoints` on the keys. */
  function Sort(ms: seq<Member>): seq<Member> {
    if ms == [] then [] else Insert(ms[0], Sort(ms[1..]))
  }

  lemma {:induction false} InsertKeeps(p: Member, ms: seq<Member>)
    ensures multiset(Insert(p, ms)) == multiset{p} + multiset(ms)
  {
    if ms != [] && Less(ms[0].0, p.0) {
      assert ms == [ms[0]] + ms[1..];
      InsertKeeps(p, ms[1..]);
    }
  }

  lemma {:induction false} SortPermutes(ms: seq<Member>)
    ensures multiset(Sort(ms)) == multiset(ms)
  {
    if ms != [] {
      assert ms == [ms[0]] + ms[1..];
      SortPermutes(ms[1..]);
      InsertKeeps(ms[0], Sort(ms[1..]));
    }
  }

  lemma SortKeeps(ms: seq<Member>)
    ensures |Sort(ms)| == |ms| && forall p :: p in Sort(ms) <==> p in ms
  {
    SortPermutes(ms);
    assert |multiset(Sort(ms))| == |multiset(ms)|;
    assert forall p :: p in ms <==> p in multiset(ms);
    assert forall p :: p in Sort(ms) <==> p in multiset(Sort(ms));
  }

  predicate DistinctKeys(ms: seq<Member>) {
    forall i, j :: 0 <= i < j < |ms| ==> ms[i].0 != ms[j].0
  }

  predicate Sorted(ms: seq<Member>) {
    forall i, j :: 0 <= i < j < |ms| ==> Less(ms[i].0, ms[j].0)
  }

  lemma {:induction false} InsertSorted(p: Member, ms: seq<Member>)
    requires Sorted(ms) && forall i :: 0 <= i < |ms| ==> ms[i].0 != p.0
    ensures Sorted(Insert(p, ms))
  {
    if ms != [] {
      if Less(ms[0].0, p.0) {
        InsertSorted(p, ms[1..]);
        var r := Insert(p, ms[1..]);
        InsertKeeps(p, ms[1..]);
        forall i | 0 <= i < |r| ensures Less(ms[0].0, r[i].0) {
          assert r[i] in multiset(r);
          if r[i] != p {
            assert r[i] in ms[1..];
          }
        }
      } else {
        LessTotal(ms[0].0, p.0);
        forall i | 1 <= i < |ms| ensures Less(p.0, ms[i].0) {
          LessTransitive(p.0, ms[0].0, ms[i].0);
        }
      }
    }
  }

  lemma {:induction false} SortSorted(ms: seq<Member>)
    requires DistinctKeys(ms)
    ensures Sorted(Sort(ms))
  {
    if ms != [] {
      SortSorted(ms[1..]);
      SortKeeps(ms[1..]);
      var r := Sort(ms[1..]);
      forall i | 0 <= i < |r| ensures r[i].0 != ms[0].0 {
        assert r[i] in r;
        assert r[i] in ms[1..];
      }
      InsertSorted(ms[0], r);
    }
  }

  // ---------------------------------------------------------------- canonical text

  function PrintInt(n: int): string {
    if n < 0 then "-" + Decimal(-n) else Decimal(n)
  }

  lemma ItemSmaller(whole: Json, x: Json)
    requires whole.Arr? && x in whole.items
    ensures x < whole
  {
    var i :| 0 <= i < |whole.items| && whole.items[i] == x;
  }

  lemma MemberSmaller(whole: Json, p: Member)
    requires whole.Obj? && p in whole.members
    ensures p.1 < whole
  {
    var i :| 0 <= i < |whole.members| && whole.members[i] == p;
  }

  /** `canonicalJson`: members in key order, no spaces. */
  function Canonical(ascii: bool, v: Json): string
    decreases v
  {
    match v
    case Null => "null"
    case Bool(b) => if b then "true" else "false"
    case Num(n) => PrintInt(n)
    case Str(s) => PrintString(ascii, s)
    case Arr(items) => "[" + CanonicalItems(ascii, v, items) + "]"
    case Obj(members) =>
      SortKeeps(members);
      "{" + CanonicalMembers(ascii, v, Sort(members)) + "}"
  }

  function CanonicalItems(ascii: bool, ghost whole: Json, items: seq<Json>): string
    requires whole.Arr? && forall x :: x in items ==> x in whole.items
    decreases whole, |items|
  {
    if items == [] then ""
    else
      ItemSmaller(whole, items[0]);
      if |items| == 1 then Canonical(ascii, items[0])
      else Canonical(ascii, items[0]) + "," + CanonicalItems(ascii, whole, items[1..])
  }

  function CanonicalMembers(ascii: bool, ghost whole: Json, ms: seq<Member>): string
    requires whole.Obj? && forall p :: p in ms ==> p in whole.members
    decreases whole, |ms|
  {
    if ms == [] then ""
    else
      MemberSmaller(whole, ms[0]);
      var head := PrintString(ascii, ms[0].0) + ":" + Canonical(ascii, ms[0].1);
      if |ms| == 1 then head else head + "," + CanonicalMembers(ascii, whole, ms[1..])
  }

  // ---------------------------------------------------------------- the reader

  function SkipSpace(s: string): (r: string)
    ensures |r| <= |s|
  {
    if s != "" && (s[0] == ' ' || s[0] == '\t' || s[0] == '\n' || s[0] == '\r') then SkipSpace(s[1..]) else s
  }

  function ReadDigits(s: string): (r: Option<(nat, string)>)
    ensures r.Some? ==> |r.value.1| < |s|
  {
    var n := DigitRun(s);
    if n == 0 || (n > 1 && s[0] == '0') || (n < |s| && (s[n] == '.' || s[n] == 'e' || s[n] == 'E')) then None
    else Some((Number(s[..n]), s[n..]))
  }

  function ReadNumber(s: string): (r: Option<(Json, string)>)
    requires s != ""
    ensures r.Some? ==> |r.value.1| < |s|
  {
    var negative := s[0] == '-';
    match ReadDigits(if negative then s[1..] else s)
    case None => None
    case Some((n, rest)) =>
      var k: int := n;
      Some((Num(if negative then -k else k), rest))
  }

  function ReadWord(s: string): (r: Option<(Json, string)>)
    ensures r.Some? ==> |r.value.1| < |s|
  {
    if "null" <= s then Some((Null, s[4..]))
    else if "true" <= s then Some((Bool(true), s[4..]))
    else if "false" <= s then Some((Bool(false), s[5..]))
    else None
  }

  function ReadValue(s: string): (r: Option<(Json, string)>)
    ensures r.Some? ==> |r.value.1| < |s|
    decreases |s|, 0
  {
    if s == "" then None
    else if s[0] == '"' then
      match ReadChars(s[1..])
      case None => None
      case Some((text, rest)) => Some((Str(text), rest))
    else if s[0] == '[' then
      var t := SkipSpace(s[1..]);
      if t != "" && t[0] == ']' then Some((Arr([]), t[1..]))
      else
        match ReadItems(t)
        case None => None
        case Some((items, rest)) => Some((Arr(items), rest))
    else if s[0] == '{' then
      var t := SkipSpace(s[1..]);
      if t != "" && t[0] == '}' then Some((Obj([]), t[1..]))
      else
        match ReadMembers(t)
        case None => None
        case Some((ms, rest)) => Some((Obj(ms), rest))
    else if s[0] == '-' || IsDigit(s[0]) then ReadNumber(s)
    else ReadWord(s)
  }

  function ReadItems(s: string): (r: Option<(seq<Json>, string)>)
    ensures r.Some? ==> |r.value.1| < |s|
    decreases |s|, 1
  {
    match ReadValue(s)
    case None => None
    case Some((v, after)) =>
      var t := SkipSpace(after);
      if t == "" then None
      else if t[0] == ']' then Some(([v], t[1..]))
      else if t[0] != ',' then None
      else
        match ReadItems(SkipSpace(t[1..]))
        case None => None
        case Some((more, rest)) => Some(([v] + more, rest))
  }

  function ReadKey(s: string): (r: Option<(string, string)>)
    ensures r.Some? ==> |r.value.1| < |s|
  {
    if s == "" || s[0] != '"' then None
    else
      match ReadChars(s[1..])
      case None => None
      case Some((key, after)) =>
        var t := SkipSpace(after);
        if t == "" || t[0] != ':' then None else Some((key, SkipSpace(t[1..])))
  }

  function ReadMembers(s: string): (r: Option<(seq<Member>, string)>)
    ensures r.Some? ==> |r.value.1| < |s|
    decreases |s|, 1
  {
    match ReadKey(s)
    case None => None
    case Some((key, text)) =>
      match ReadValue(text)
      case None => None
      case Some((v, after)) =>
        var t := SkipSpace(after);
        if t == "" then None
        else if t[0] == '}' then Some(([(key, v)], t[1..]))
        else if t[0] != ',' then None
        else
          match ReadMembers(SkipSpace(t[1..]))
          case None => None
          case Some((more, rest)) => Some(([(key, v)] + more, rest))
  }

  /** A whole text: one value and spaces around it, with object members as they are written. */
  function Read(s: string): Option<Json> {
    match ReadValue(SkipSpace(s))
    case None => None
    case Some((v, rest)) => if SkipSpace(rest) == "" then Some(v) else None
  }

  // ---------------------------------------------------------------- repeated keys

  /** Object keys are unique at every level, as in a JavaScript object or a Python dictionary. */
  predicate WellKeyed(v: Json) {
    match v
    case Arr(items) => forall i :: 0 <= i < |items| ==> WellKeyed(items[i])
    case Obj(ms) => DistinctKeys(ms) && forall i :: 0 <= i < |ms| ==> WellKeyed(ms[i].1)
    case _ => true
  }

  /** Of several members with one key, the one written last. */
  function Collapse(ms: seq<Member>): seq<Member> {
    if ms == [] then []
    else if exists i :: 1 <= i < |ms| && ms[i].0 == ms[0].0 then Collapse(ms[1..])
    else [ms[0]] + Collapse(ms[1..])
  }

  function Unique(v: Json): Json {
    match v
    case Arr(items) => Arr(seq(|items|, i requires 0 <= i < |items| => Unique(items[i])))
    case Obj(ms) => Obj(Collapse(seq(|ms|, i requires 0 <= i < |ms| => (ms[i].0, Unique(ms[i].1)))))
    case _ => v
  }

  /** `JSON.parse`: the value written last wins. */
  function Parse(s: string): Option<Json> {
    match Read(s)
    case None => None
    case Some(v) => Some(Unique(v))
  }

  /** `json.loads` with the `_pairs` hook: a repeated key is refused. */
  function StrictParse(s: string): Option<Json> {
    match Read(s)
    case None => None
    case Some(v) => if WellKeyed(v) then Some(v) else None
  }
}
