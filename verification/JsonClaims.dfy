/** What the canonical text is worth: it is read back, and it identifies a value up to key order. */
module JsonClaims {
  import opened Basics
  import opened Decimals
  import opened JsonStrings
  import opened Json
  import opened Order

  /** The same value with every object's members in key order. */
  function Normal(v: Json): Json
    decreases v
  {
    match v
    case Arr(items) => Arr(NormalItems(v, items))
    case Obj(ms) =>
      SortKeeps(ms);
      Obj(NormalMembers(v, Sort(ms)))
    case _ => v
  }

  function NormalItems(ghost whole: Json, items: seq<Json>): (r: seq<Json>)
    requires whole.Arr? && forall x :: x in items ==> x in whole.items
    ensures |r| == |items|
    decreases whole, |items|
  {
    if items == [] then []
    else
      ItemSmaller(whole, items[0]);
      [Normal(items[0])] + NormalItems(whole, items[1..])
  }

  function NormalMembers(ghost whole: Json, ms: seq<Member>): (r: seq<Member>)
    requires whole.Obj? && forall p :: p in ms ==> p in whole.members
    ensures |r| == |ms| && forall i :: 0 <= i < |ms| ==> r[i].0 == ms[i].0
    decreases whole, |ms|
  {
    if ms == [] then []
    else
      MemberSmaller(whole, ms[0]);
      [(ms[0].0, Normal(ms[0].1))] + NormalMembers(whole, ms[1..])
  }

  // ---------------------------------------------------------------- reading back

  /** What may follow a value inside a canonical text, or after it. */
  predicate Ends(rest: string) {
    rest == "" || rest[0] == ',' || rest[0] == ']' || rest[0] == '}' || rest[0] == '\n'
  }

  predicate Solid(c: char) {
    c != ' ' && c != '\t' && c != '\n' && c != '\r' && c != ']' && c != '}' && c != ',' && c != ':' && c as int < 128
  }

  lemma Starts(ascii: bool, v: Json)
    ensures Canonical(ascii, v) != "" && Solid(Canonical(ascii, v)[0])
  {
    match v
    case Num(n) => assert PrintInt(n) != "" && (PrintInt(n)[0] == '-' || IsDigit(PrintInt(n)[0]));
    case Obj(ms) => SortKeeps(ms);
    case _ =>
  }

  lemma SkipNothing(s: string)
    requires s == "" || !(s[0] == ' ' || s[0] == '\t' || s[0] == '\n' || s[0] == '\r')
    ensures SkipSpace(s) == s
  {
  }

  lemma DigitsBack(n: nat, rest: string)
    requires Ends(rest)
    ensures ReadDigits(Decimal(n) + rest) == Some((n, rest))
  {
    var d := Decimal(n);
    var s := d + rest;
    DigitRunOf(d, rest);
    assert s[..|d|] == d && s[|d|..] == rest;
    NumberDecimal(n);
    if n == 0 {
      assert |d| == 1;
    }
    assert s[0] == d[0];
    assert |d| < |s| ==> s[|d|] == rest[0];
  }

  lemma PositiveBack(digits: string, n: int, rest: string)
    requires digits != "" && IsDigit(digits[0]) && n >= 0 && ReadDigits(digits + rest) == Some((n, rest))
    ensures ReadValue(digits + rest) == Some((Num(n), rest))
  {
  }

  lemma NegativeBack(digits: string, n: int, rest: string)
    requires n >= 0 && ReadDigits(digits + rest) == Some((n, rest))
    ensures ReadValue("-" + digits + rest) == Some((Num(-n), rest))
  {
    assert ("-" + digits + rest)[1..] == digits + rest;
  }

  lemma NumberBack(n: int, rest: string)
    requires Ends(rest)
    ensures ReadValue(PrintInt(n) + rest) == Some((Num(n), rest))
  {
    if n < 0 {
      DigitsBack(-n, rest);
      NegativeBack(Decimal(-n), -n, rest);
    } else {
      DigitsBack(n, rest);
      PositiveBack(Decimal(n), n, rest);
    }
  }

  lemma TextBack(ascii: bool, text: string, rest: string)
    ensures ReadValue(PrintString(ascii, text) + rest) == Some((Str(text), rest))
  {
    StringBack(ascii, text, rest);
  }

  lemma WordsBack(rest: string)
    ensures ReadValue("null" + rest) == Some((Null, rest))
    ensures ReadValue("true" + rest) == Some((Bool(true), rest))
    ensures ReadValue("false" + rest) == Some((Bool(false), rest))
  {
    assert ("null" + rest)[4..] == rest;
    assert ("true" + rest)[4..] == rest;
    assert ("false" + rest)[5..] == rest;
  }

  lemma ReadsItem(s: string, v: Json, after: string)
    requires ReadValue(s) == Some((v, after)) && after != "" && (after[0] == ']' || after[0] == ',')
    ensures ReadItems(s)
         == if after[0] == ']' then Some(([v], after[1..]))
            else match ReadItems(SkipSpace(after[1..]))
                 case None => None
                 case Some((more, rest)) => Some(([v] + more, rest))
  {
    SkipNothing(after);
  }

  lemma GlueItem(x: string, t: string, rest: string)
    ensures x + "]" + rest == x + ("]" + rest)
    ensures x + "," + t + "]" + rest == x + ("," + (t + "]" + rest))
  {
  }

  lemma GlueMember(k: string, x: string, t: string, rest: string)
    ensures k + ":" + x + "}" + rest == k + (":" + (x + ("}" + rest)))
    ensures k + ":" + x + "," + t + "}" + rest == k + (":" + (x + ("," + (t + "}" + rest))))
  {
  }

  lemma ItemsStart(ascii: bool, whole: Json, items: seq<Json>)
    requires whole.Arr? && items != [] && forall x :: x in items ==> x in whole.items
    ensures CanonicalItems(ascii, whole, items) != "" && Solid(CanonicalItems(ascii, whole, items)[0])
  {
    Starts(ascii, items[0]);
  }

  lemma MembersStart(ascii: bool, whole: Json, ms: seq<Member>)
    requires whole.Obj? && ms != [] && forall p :: p in ms ==> p in whole.members
    ensures CanonicalMembers(ascii, whole, ms) != "" && CanonicalMembers(ascii, whole, ms)[0] == '"'
  {
  }

  lemma {:induction false} ItemsBack(ascii: bool, whole: Json, items: seq<Json>, rest: string)
    requires whole.Arr? && WellKeyed(whole) && items != [] && forall x :: x in items ==> x in whole.items
    ensures ReadItems(CanonicalItems(ascii, whole, items) + "]" + rest) == Some((NormalItems(whole, items), rest))
    decreases whole, 0, |items|
  {
    var text := Canonical(ascii, items[0]);
    WellKeyedItem(whole, items[0]);
    if |items| == 1 {
      GlueItem(text, "", rest);
      LastItem(ascii, items[0], rest);
      assert NormalItems(whole, items) == [Normal(items[0])];
    } else {
      var tail := CanonicalItems(ascii, whole, items[1..]);
      ItemsBack(ascii, whole, items[1..], rest);
      ItemsStart(ascii, whole, items[1..]);
      GlueItem(text, tail, rest);
      FirstItem(ascii, items[0], tail + "]" + rest);
    }
  }

  lemma LastItem(ascii: bool, x: Json, rest: string)
    requires WellKeyed(x)
    ensures ReadItems(Canonical(ascii, x) + ("]" + rest)) == Some(([Normal(x)], rest))
    decreases x, 3, 0
  {
    ValueBack(ascii, x, "]" + rest);
    ReadsItem(Canonical(ascii, x) + ("]" + rest), Normal(x), "]" + rest);
    assert ("]" + rest)[1..] == rest;
  }

  lemma FirstItem(ascii: bool, x: Json, tail: string)
    requires WellKeyed(x) && tail != "" && Solid(tail[0])
    ensures ReadItems(Canonical(ascii, x) + ("," + tail))
         == match ReadItems(tail) case None => None case Some((more, rest)) => Some(([Normal(x)] + more, rest))
    decreases x, 3, 0
  {
    ValueBack(ascii, x, "," + tail);
    ReadsItem(Canonical(ascii, x) + ("," + tail), Normal(x), "," + tail);
    assert ("," + tail)[1..] == tail;
    SkipNothing(tail);
  }

  lemma WellKeyedItem(whole: Json, x: Json)
    requires whole.Arr? && WellKeyed(whole) && x in whole.items
    ensures WellKeyed(x) && x < whole
  {
    var i :| 0 <= i < |whole.items| && whole.items[i] == x;
  }

  lemma WellKeyedMember(whole: Json, p: Member)
    requires whole.Obj? && WellKeyed(whole) && p in whole.members
    ensures WellKeyed(p.1) && p.1 < whole
  {
    var i :| 0 <= i < |whole.members| && whole.members[i] == p;
  }

  lemma KeyBack(ascii: bool, key: string, text: string)
    requires text != "" && Solid(text[0])
    ensures ReadKey(PrintString(ascii, key) + (":" + text)) == Some((key, text))
  {
    StringBack(ascii, key, ":" + text);
    SkipNothing(":" + text);
    assert (":" + text)[1..] == text;
    SkipNothing(text);
  }

  lemma ReadsMember(s: string, key: string, text: string, v: Json, after: string)
    requires ReadKey(s) == Some((key, text)) && ReadValue(text) == Some((v, after))
    requires after != "" && (after[0] == '}' || after[0] == ',')
    ensures ReadMembers(s)
         == if after[0] == '}' then Some(([(key, v)], after[1..]))
            else match ReadMembers(SkipSpace(after[1..]))
                 case None => None
                 case Some((more, rest)) => Some(([(key, v)] + more, rest))
  {
    SkipNothing(after);
  }

  /** One member's text, and what follows it. */
  lemma MemberBack(ascii: bool, whole: Json, p: Member, after: string)
    requires whole.Obj? && WellKeyed(whole) && p in whole.members && after != "" && (after[0] == '}' || after[0] == ',')
    ensures var text := Canonical(ascii, p.1) + after;
            && ReadKey(PrintString(ascii, p.0) + (":" + text)) == Some((p.0, text))
            && ReadValue(text) == Some((Normal(p.1), after))
    decreases whole, 0, 0, 0
  {
    WellKeyedMember(whole, p);
    Starts(ascii, p.1);
    KeyBack(ascii, p.0, Canonical(ascii, p.1) + after);
    ValueBack(ascii, p.1, after);
  }

  lemma LastMember(ascii: bool, whole: Json, p: Member, rest: string)
    requires whole.Obj? && WellKeyed(whole) && p in whole.members
    ensures ReadMembers(PrintString(ascii, p.0) + (":" + (Canonical(ascii, p.1) + ("}" + rest))))
         == Some(([(p.0, Normal(p.1))], rest))
    decreases whole, 0, 0, 1
  {
    var after := "}" + rest;
    var text := Canonical(ascii, p.1) + after;
    MemberBack(ascii, whole, p, after);
    ReadsMember(PrintString(ascii, p.0) + (":" + text), p.0, text, Normal(p.1), after);
    assert after[1..] == rest;
  }

  lemma FirstMember(ascii: bool, whole: Json, p: Member, tail: string)
    requires whole.Obj? && WellKeyed(whole) && p in whole.members && tail != "" && tail[0] == '"'
    ensures ReadMembers(PrintString(ascii, p.0) + (":" + (Canonical(ascii, p.1) + ("," + tail))))
         == match ReadMembers(tail)
            case None => None
            case Some((more, rest)) => Some(([(p.0, Normal(p.1))] + more, rest))
    decreases whole, 0, 0, 1
  {
    var after := "," + tail;
    var text := Canonical(ascii, p.1) + after;
    MemberBack(ascii, whole, p, after);
    ReadsMember(PrintString(ascii, p.0) + (":" + text), p.0, text, Normal(p.1), after);
    assert after[1..] == tail;
    SkipNothing(tail);
  }

  lemma {:induction false} MembersBack(ascii: bool, whole: Json, ms: seq<Member>, rest: string)
    requires whole.Obj? && WellKeyed(whole) && ms != [] && forall p :: p in ms ==> p in whole.members
    ensures ReadMembers(CanonicalMembers(ascii, whole, ms) + "}" + rest) == Some((NormalMembers(whole, ms), rest))
    decreases whole, 0, |ms|
  {
    var key, text := PrintString(ascii, ms[0].0), Canonical(ascii, ms[0].1);
    if |ms| == 1 {
      GlueMember(key, text, "", rest);
      LastMember(ascii, whole, ms[0], rest);
      assert NormalMembers(whole, ms) == [(ms[0].0, Normal(ms[0].1))];
    } else {
      var tail := CanonicalMembers(ascii, whole, ms[1..]);
      MembersBack(ascii, whole, ms[1..], rest);
      MembersStart(ascii, whole, ms[1..]);
      GlueMember(key, text, tail, rest);
      FirstMember(ascii, whole, ms[0], tail + "}" + rest);
    }
  }

  lemma {:induction false} CollapseDistinct(ms: seq<Member>)
    requires DistinctKeys(ms)
    ensures Collapse(ms) == ms
  {
    if ms != [] {
      CollapseDistinct(ms[1..]);
      assert [ms[0]] + ms[1..] == ms;
    }
  }

  lemma SortedDistinct(ms: seq<Member>)
    requires Sorted(ms)
    ensures DistinctKeys(ms)
  {
    forall i, j | 0 <= i < j < |ms| ensures ms[i].0 != ms[j].0 {
      LessIrreflexive(ms[i].0);
    }
  }

  lemma ReadsObject(t: string, ms: seq<Member>, rest: string)
    requires t != "" && t[0] == '"' && ReadMembers(t) == Some((ms, rest))
    ensures ReadValue("{" + t) == Some((Obj(ms), rest))
  {
    assert ("{" + t)[1..] == t;
    SkipNothing(t);
  }

  lemma ReadsArray(t: string, items: seq<Json>, rest: string)
    requires t != "" && Solid(t[0]) && ReadItems(t) == Some((items, rest))
    ensures ReadValue("[" + t) == Some((Arr(items), rest))
  {
    assert ("[" + t)[1..] == t;
    SkipNothing(t);
  }

  lemma EmptyBack(rest: string)
    ensures ReadValue("{}" + rest) == Some((Obj([]), rest)) && ReadValue("[]" + rest) == Some((Arr([]), rest))
  {
    assert ("{}" + rest)[1..] == "}" + rest && ("[]" + rest)[1..] == "]" + rest;
    SkipNothing("}" + rest);
    SkipNothing("]" + rest);
    assert ("}" + rest)[1..] == rest && ("]" + rest)[1..] == rest;
  }

  lemma Bracketed(opening: string, inner: string, closing: string, rest: string)
    ensures opening + inner + closing + rest == opening + (inner + closing + rest)
  {
  }

  lemma ObjectBack(ascii: bool, v: Json, rest: string)
    requires v.Obj? && WellKeyed(v)
    ensures ReadValue(Canonical(ascii, v) + rest) == Some((Normal(v), rest))
    decreases v, 1
  {
    var ms := Sort(v.members);
    SortKeeps(v.members);
    if ms == [] {
      EmptyBack(rest);
    } else {
      MembersBack(ascii, v, ms, rest);
      MembersStart(ascii, v, ms);
      var inner := CanonicalMembers(ascii, v, ms);
      Bracketed("{", inner, "}", rest);
      ReadsObject(inner + "}" + rest, NormalMembers(v, ms), rest);
    }
  }

  lemma NormalDistinct(v: Json)
    requires v.Obj? && WellKeyed(v)
    ensures Normal(v).Obj? && Sorted(Normal(v).members) && DistinctKeys(Normal(v).members)
  {
    SortKeeps(v.members);
    SortSorted(v.members);
    SortedDistinct(Normal(v).members);
  }

  lemma ArrayBack(ascii: bool, v: Json, rest: string)
    requires v.Arr? && WellKeyed(v)
    ensures ReadValue(Canonical(ascii, v) + rest) == Some((Normal(v), rest))
    decreases v, 1
  {
    if v.items == [] {
      EmptyBack(rest);
    } else {
      ItemsBack(ascii, v, v.items, rest);
      ItemsStart(ascii, v, v.items);
      var inner := CanonicalItems(ascii, v, v.items);
      Bracketed("[", inner, "]", rest);
      ReadsArray(inner + "]" + rest, NormalItems(v, v.items), rest);
    }
  }

  /** A canonical text is read back as its value in key order, wherever it stands. */
  lemma {:induction false} ValueBack(ascii: bool, v: Json, rest: string)
    requires WellKeyed(v) && Ends(rest)
    ensures ReadValue(Canonical(ascii, v) + rest) == Some((Normal(v), rest))
    decreases v, 2
  {
    match v
    case Null => WordsBack(rest);
    case Bool(_) => WordsBack(rest);
    case Num(n) => NumberBack(n, rest);
    case Str(text) => TextBack(ascii, text, rest);
    case Arr(_) => ArrayBack(ascii, v, rest);
    case Obj(_) => ObjectBack(ascii, v, rest);
  }

  // ---------------------------------------------------------------- equality up to key order

  /** The same JSON value: objects hold the same keys with the same values, in any order. */
  predicate Same(a: Json, b: Json)
    decreases a, 1
  {
    match a
    case Arr(items) =>
      b.Arr? && |items| == |b.items| && forall i :: 0 <= i < |items| ==> Same(items[i], b.items[i])
    case Obj(ms) => b.Obj? && |ms| == |b.members| && forall i :: 0 <= i < |ms| ==> Matched(a, i, b.members)
    case _ => a == b
  }

  /** A member of an object has its counterpart among the others. */
  predicate Matched(a: Json, i: nat, others: seq<Member>)
    requires a.Obj? && i < |a.members|
    decreases a, 0
  {
    exists j :: 0 <= j < |others| && a.members[i].0 == others[j].0 && Same(a.members[i].1, others[j].1)
  }

  lemma MatchedAt(a: Json, i: nat, others: seq<Member>, j: nat)
    requires a.Obj? && i < |a.members| && j < |others| && a.members[i].0 == others[j].0
    requires Same(a.members[i].1, others[j].1)
    ensures Matched(a, i, others)
  {
  }

  lemma MatchOf(a: Json, i: nat, others: seq<Member>) returns (j: nat)
    requires a.Obj? && i < |a.members| && Matched(a, i, others)
    ensures j < |others| && a.members[i].0 == others[j].0 && Same(a.members[i].1, others[j].1)
  {
    j :| 0 <= j < |others| && a.members[i].0 == others[j].0 && Same(a.members[i].1, others[j].1);
  }

  lemma {:induction false} NormalItemAt(whole: Json, items: seq<Json>, i: nat)
    requires whole.Arr? && (forall x :: x in items ==> x in whole.items) && i < |items|
    ensures NormalItems(whole, items)[i] == Normal(items[i])
    decreases |items|
  {
    if i > 0 {
      NormalItemAt(whole, items[1..], i - 1);
    }
  }

  lemma {:induction false} NormalMemberAt(whole: Json, ms: seq<Member>, i: nat)
    requires whole.Obj? && (forall p :: p in ms ==> p in whole.members) && i < |ms|
    ensures NormalMembers(whole, ms)[i] == (ms[i].0, Normal(ms[i].1))
    decreases |ms|
  {
    if i > 0 {
      NormalMemberAt(whole, ms[1..], i - 1);
    }
  }

  /** The member of a value that stands at a place of its sorted members. */
  lemma SortedPlace(v: Json, k: nat) returns (i: nat)
    requires v.Obj? && WellKeyed(v) && k < |v.members|
    ensures |Sort(v.members)| == |v.members| && i < |v.members| && v.members[i] == Sort(v.members)[k]
    ensures |Normal(v).members| == |v.members| && Normal(v).members[k] == (v.members[i].0, Normal(v.members[i].1))
    ensures WellKeyed(v.members[i].1) && v.members[i].1 < v
  {
    var ms := Sort(v.members);
    SortKeeps(v.members);
    assert ms[k] in ms;
    assert ms[k] in v.members;
    i :| 0 <= i < |v.members| && v.members[i] == ms[k];
    NormalMemberAt(v, ms, k);
  }

  /** Where a member goes when its object's members are sorted. */
  lemma PlaceSorted(v: Json, i: nat) returns (k: nat)
    requires v.Obj? && WellKeyed(v) && i < |v.members|
    ensures |Normal(v).members| == |v.members| && k < |v.members|
    ensures Normal(v).members[k] == (v.members[i].0, Normal(v.members[i].1))
  {
    var ms := Sort(v.members);
    SortKeeps(v.members);
    assert v.members[i] in v.members;
    assert v.members[i] in ms;
    k :| 0 <= k < |ms| && ms[k] == v.members[i];
    NormalMemberAt(v, ms, k);
  }

  /** Values with one normal form are the same. */
  lemma {:induction false} NormalSame(a: Json, b: Json)
    requires WellKeyed(a) && WellKeyed(b) && Normal(a) == Normal(b)
    ensures Same(a, b)
    decreases a
  {
    match a
    case Arr(items) =>
      forall i | 0 <= i < |items| ensures Same(items[i], b.items[i]) {
        NormalItemAt(a, items, i);
        NormalItemAt(b, b.items, i);
        NormalSame(items[i], b.items[i]);
      }
    case Obj(ms) =>
      SortKeeps(a.members);
      SortKeeps(b.members);
      forall i | 0 <= i < |ms| ensures Matched(a, i, b.members) {
        var k := PlaceSorted(a, i);
        var j := SortedPlace(b, k);
        NormalSame(ms[i].1, b.members[j].1);
        MatchedAt(a, i, b.members, j);
      }
    case _ =>
  }

  function Keys(ms: seq<Member>): (keys: seq<string>)
    ensures |keys| == |ms| && forall i :: 0 <= i < |ms| ==> keys[i] == ms[i].0
  {
    seq(|ms|, i requires 0 <= i < |ms| => ms[i].0)
  }

  /** Same objects have the same keys in order. */
  lemma SameKeys(a: Json, b: Json)
    requires a.Obj? && b.Obj? && WellKeyed(a) && WellKeyed(b) && Same(a, b)
    ensures |Normal(a).members| == |Normal(b).members| == |a.members|
    ensures Keys(Normal(a).members) == Keys(Normal(b).members)
  {
    SortKeeps(a.members);
    SortKeeps(b.members);
    NormalDistinct(a);
    NormalDistinct(b);
    var s, t := Keys(Normal(a).members), Keys(Normal(b).members);
    forall x | x in s ensures x in t {
      var k :| 0 <= k < |s| && s[k] == x;
      var i := SortedPlace(a, k);
      var j := MatchOf(a, i, b.members);
      var l := PlaceSorted(b, j);
      assert t[l] == x;
    }
    IncreasingWithin(s, t);
  }

  /** The same values have one normal form. */
  lemma {:induction false} SameNormal(a: Json, b: Json)
    requires WellKeyed(a) && WellKeyed(b) && Same(a, b)
    ensures Normal(a) == Normal(b)
    decreases a
  {
    match a
    case Arr(items) =>
      forall i | 0 <= i < |items| ensures NormalItems(a, items)[i] == NormalItems(b, b.items)[i] {
        NormalItemAt(a, items, i);
        NormalItemAt(b, b.items, i);
        SameNormal(items[i], b.items[i]);
      }
      assert NormalItems(a, items) == NormalItems(b, b.items);
    case Obj(ms) =>
      SameKeys(a, b);
      var na, nb := Normal(a).members, Normal(b).members;
      forall k | 0 <= k < |na| ensures na[k] == nb[k] {
        assert Keys(na)[k] == Keys(nb)[k];
        var i := SortedPlace(a, k);
        var j := SortedPlace(b, k);
        SameMember(a, b, i, j);
        SameNormal(ms[i].1, b.members[j].1);
      }
      assert na == nb;
    case _ =>
  }

  lemma SameMember(a: Json, b: Json, i: nat, j: nat)
    requires a.Obj? && b.Obj? && WellKeyed(b) && Same(a, b) && i < |a.members| && j < |b.members|
    requires a.members[i].0 == b.members[j].0
    ensures Same(a.members[i].1, b.members[j].1)
  {
    var l := MatchOf(a, i, b.members);
    assert l == j;
  }

  // ---------------------------------------------------------------- canonical text up to key order

  lemma {:induction false} InsertFirst(p: Member, ms: seq<Member>)
    requires ms != [] ==> Less(p.0, ms[0].0)
    ensures Insert(p, ms) == [p] + ms
  {
    if ms != [] && Less(ms[0].0, p.0) {
      LessTransitive(p.0, ms[0].0, p.0);
      LessIrreflexive(p.0);
    }
  }

  lemma {:induction false} SortOfSorted(ms: seq<Member>)
    requires Sorted(ms)
    ensures Sort(ms) == ms
  {
    if ms != [] {
      SortOfSorted(ms[1..]);
      InsertFirst(ms[0], ms[1..]);
      assert [ms[0]] + ms[1..] == ms;
    }
  }

  lemma {:induction false} ItemsNormal(ascii: bool, whole: Json, items: seq<Json>, other: Json, normal: seq<Json>)
    requires whole.Arr? && WellKeyed(whole) && forall x :: x in items ==> x in whole.items
    requires other.Arr? && (forall x :: x in normal ==> x in other.items) && normal == NormalItems(whole, items)
    ensures CanonicalItems(ascii, whole, items) == CanonicalItems(ascii, other, normal)
    decreases whole, 0, |items|
  {
    if items != [] {
      WellKeyedItem(whole, items[0]);
      CanonicalNormal(ascii, items[0]);
      assert normal[0] == Normal(items[0]) && normal[1..] == NormalItems(whole, items[1..]);
      ItemsNormal(ascii, whole, items[1..], other, normal[1..]);
    }
  }

  lemma {:induction false} MembersNormal(ascii: bool, whole: Json, ms: seq<Member>, other: Json, normal: seq<Member>)
    requires whole.Obj? && WellKeyed(whole) && forall p :: p in ms ==> p in whole.members
    requires other.Obj? && (forall p :: p in normal ==> p in other.members) && normal == NormalMembers(whole, ms)
    ensures CanonicalMembers(ascii, whole, ms) == CanonicalMembers(ascii, other, normal)
    decreases whole, 0, |ms|
  {
    if ms != [] {
      WellKeyedMember(whole, ms[0]);
      CanonicalNormal(ascii, ms[0].1);
      assert normal[0] == (ms[0].0, Normal(ms[0].1)) && normal[1..] == NormalMembers(whole, ms[1..]);
      MembersNormal(ascii, whole, ms[1..], other, normal[1..]);
    }
  }

  /** The canonical text does not depend on the order of members. */
  lemma {:induction false} CanonicalNormal(ascii: bool, v: Json)
    requires WellKeyed(v)
    ensures Canonical(ascii, v) == Canonical(ascii, Normal(v))
    decreases v, 1
  {
    match v
    case Arr(items) => ItemsNormal(ascii, v, items, Normal(v), Normal(v).items);
    case Obj(ms) =>
      SortKeeps(ms);
      NormalDistinct(v);
      var normal := Normal(v);
      SortOfSorted(normal.members);
      MembersNormal(ascii, v, Sort(ms), normal, normal.members);
    case _ =>
  }

  // ---------------------------------------------------------------- the two laws

  lemma {:induction false} UniqueKept(v: Json)
    requires WellKeyed(v)
    ensures Unique(v) == v
  {
    match v
    case Arr(items) =>
      forall i | 0 <= i < |items| ensures Unique(items[i]) == items[i] {
        UniqueKept(items[i]);
      }
      assert Unique(v).items == items;
    case Obj(ms) =>
      var us := seq(|ms|, i requires 0 <= i < |ms| => (ms[i].0, Unique(ms[i].1)));
      forall i | 0 <= i < |ms| ensures us[i] == ms[i] {
        UniqueKept(ms[i].1);
      }
      assert us == ms;
      CollapseDistinct(ms);
    case _ =>
  }

  lemma {:induction false} NormalKeyed(v: Json)
    requires WellKeyed(v)
    ensures WellKeyed(Normal(v))
    decreases v
  {
    match v
    case Arr(items) =>
      forall i | 0 <= i < |items| ensures WellKeyed(Normal(v).items[i]) {
        NormalItemAt(v, items, i);
        NormalKeyed(items[i]);
      }
    case Obj(ms) =>
      NormalDistinct(v);
      SortKeeps(ms);
      forall k | 0 <= k < |Normal(v).members| ensures WellKeyed(Normal(v).members[k].1) {
        var i := SortedPlace(v, k);
        NormalKeyed(ms[i].1);
      }
    case _ =>
  }

  /**
   * Reading a canonical text, with or without its final newline, gives the value up to key order,
   * under either rule about repeated keys.
   */
  lemma ParseCanonical(ascii: bool, v: Json, end: string)
    requires WellKeyed(v) && (end == "" || end == "\n")
    ensures Parse(Canonical(ascii, v) + end) == Some(Normal(v))
    ensures StrictParse(Canonical(ascii, v) + end) == Some(Normal(v))
    ensures Same(v, Normal(v)) && WellKeyed(Normal(v))
  {
    var text := Canonical(ascii, v);
    Starts(ascii, v);
    SkipNothing(text + end);
    ValueBack(ascii, v, end);
    assert SkipSpace(end) == "" by { assert "\n"[1..] == ""; }
    SelfNormal(v);
    NormalKeyed(v);
    UniqueKept(Normal(v));
  }

  lemma NormalTwice(v: Json)
    requires WellKeyed(v)
    ensures Normal(Normal(v)) == Normal(v)
  {
    SelfNormal(v);
    NormalKeyed(v);
    SameNormal(v, Normal(v));
  }

  /** Two values share their canonical text exactly when they are the same up to key order. */
  lemma CanonicalExact(ascii: bool, a: Json, b: Json)
    requires WellKeyed(a) && WellKeyed(b)
    ensures Canonical(ascii, a) == Canonical(ascii, b) <==> Same(a, b)
  {
    if Canonical(ascii, a) == Canonical(ascii, b) {
      ParseCanonical(ascii, a, "");
      ParseCanonical(ascii, b, "");
      NormalSame(a, b);
    }
    if Same(a, b) {
      SameNormal(a, b);
      CanonicalNormal(ascii, a);
      CanonicalNormal(ascii, b);
    }
  }

  lemma MembersSame(v: Json)
    requires v.Obj? && WellKeyed(v) && forall i :: 0 <= i < |v.members| ==> Same(v.members[i].1, Normal(v.members[i].1))
    ensures Same(v, Normal(v))
  {
    SortKeeps(v.members);
    var normal := Normal(v);
    forall i | 0 <= i < |v.members| ensures Matched(v, i, normal.members) {
      var k := PlaceSorted(v, i);
      assert normal.members[k] == (v.members[i].0, Normal(v.members[i].1));
      MatchedAt(v, i, normal.members, k);
    }
  }

  /** A value is the same as its normal form. */
  lemma {:induction false} SelfNormal(v: Json)
    requires WellKeyed(v)
    ensures Same(v, Normal(v))
    decreases v
  {
    match v
    case Arr(items) =>
      forall i | 0 <= i < |items| ensures Same(items[i], Normal(v).items[i]) {
        NormalItemAt(v, items, i);
        SelfNormal(items[i]);
      }
    case Obj(ms) =>
      forall i | 0 <= i < |ms| ensures Same(ms[i].1, Normal(ms[i].1)) {
        SelfNormal(ms[i].1);
      }
      MembersSame(v);
    case _ =>
  }

  // ---------------------------------------------------------------- objects written to one pattern

  /** An object with given keys and values. */
  function Record(keys: seq<string>, values: seq<Json>): (v: Json)
    requires |keys| == |values|
    ensures v.Obj? && |v.members| == |keys| && forall i :: 0 <= i < |keys| ==> v.members[i] == (keys[i], values[i])
  {
    Obj(seq(|keys|, i requires 0 <= i < |keys| => (keys[i], values[i])))
  }

  ghost predicate DifferentKeys(keys: seq<string>) {
    forall i, j :: 0 <= i < j < |keys| ==> keys[i] != keys[j]
  }

  lemma RecordKeyed(keys: seq<string>, values: seq<Json>)
    requires |keys| == |values| && DifferentKeys(keys) && forall i :: 0 <= i < |values| ==> WellKeyed(values[i])
    ensures WellKeyed(Record(keys, values))
  {
  }

  /** Objects of one pattern are the same exactly when their values are, place by place. */
  lemma RecordSame(keys: seq<string>, xs: seq<Json>, ys: seq<Json>, i: nat)
    requires |keys| == |xs| == |ys| && DifferentKeys(keys) && i < |keys| && Same(Record(keys, xs), Record(keys, ys))
    ensures Same(xs[i], ys[i])
  {
    var a, b := Record(keys, xs), Record(keys, ys);
    assert Matched(a, i, b.members);
    var j := MatchOf(a, i, b.members);
    assert keys[i] == keys[j];
    assert i == j;
  }
}
