/** The canonical text of a value spelled out: each character, each number, lists and objects. */
module JsonText {
  import opened Basics
  import opened Decimals
  import opened Order
  import opened JsonStrings
  import opened Json

  // ---------------------------------------------------------------- characters

  /** The characters with an escape of their own, by code: quote, backslash, and five controls. */
  function ShortEscape(n: int): string {
    match n
    case 34 => "\\\""
    case 92 => "\\\\"
    case 8 => "\\b"
    case 9 => "\\t"
    case 10 => "\\n"
    case 12 => "\\f"
    case 13 => "\\r"
    case _ => ""
  }

  /** Four hexadecimal digits in lower case, and the number they stand for. */
  predicate LowerHex(s: string, n: int) {
    && |s| == 4 && (forall i :: 0 <= i < 4 ==> '0' <= s[i] <= '9' || 'a' <= s[i] <= 'f')
    && Read4(s) == Some(n)
  }

  predicate UnicodeEscape(s: string, n: int) {
    |s| == 6 && s[0] == '\\' && s[1] == 'u' && LowerHex(s[2..], n)
  }

  lemma UnicodeIs(n: nat)
    requires n < 0x1_0000
    ensures UnicodeEscape(Unicode(n), n)
  {
    Read4Back(n, "");
    assert Hex4(n) + "" == Hex4(n) && Unicode(n)[2..] == Hex4(n);
  }

  /** A character beyond the basic plane, as the escapes of its two surrogates. */
  predicate PairEscape(t: string, n: int) {
    && |t| == 12 && UnicodeEscape(t[..6], 55_296 + (n - 65_536) / 1024)
    && UnicodeEscape(t[6..], 56_320 + (n - 65_536) % 1024)
  }

  /**
   * How a character is printed: by its short escape if it has one, as a Unicode escape below the space
   * and, for Python, beyond the tilde, as a surrogate pair beyond the basic plane, and as itself otherwise.
   */
  predicate Spelled(ascii: bool, c: char, t: string) {
    var n := c as int;
    if ShortEscape(n) != "" then t == ShortEscape(n)
    else if n < 32 || (ascii && 126 < n < 65_536) then UnicodeEscape(t, n)
    else if ascii && n >= 65_536 then PairEscape(t, n)
    else t == [c]
  }

  lemma TwoEscapes(high: string, low: string, m: int, n: int)
    requires UnicodeEscape(high, m) && UnicodeEscape(low, n)
    ensures |high + low| == 12 && UnicodeEscape((high + low)[..6], m) && UnicodeEscape((high + low)[6..], n)
  {
    assert (high + low)[..6] == high && (high + low)[6..] == low;
  }

  lemma PairPrinted(c: char, k: nat)
    requires c as int == 65_536 + k
    ensures k < 1_048_576
    ensures PrintChar(true, c) == Unicode(55_296 + k / 1024) + Unicode(56_320 + k % 1024)
  {
  }

  lemma PairIs(c: char)
    requires c as int >= 65_536
    ensures PairEscape(PrintChar(true, c), c as int)
  {
    var k := c as int - 65_536;
    PairPrinted(c, k);
    var m, n := 55_296 + k / 1024, 56_320 + k % 1024;
    UnicodeIs(m);
    UnicodeIs(n);
    TwoEscapes(Unicode(m), Unicode(n), m, n);
  }

  lemma PlainIs(ascii: bool, c: char)
    requires 32 <= c as int && c as int != 34 && c as int != 92 && (ascii ==> c as int <= 126)
    ensures PrintChar(ascii, c) == [c]
  {
  }

  lemma ShortIs(ascii: bool, c: char)
    requires ShortEscape(c as int) != ""
    ensures PrintChar(ascii, c) == ShortEscape(c as int)
  {
  }

  lemma EscapeIs(ascii: bool, c: char)
    requires ShortEscape(c as int) == "" && (c as int < 32 || (ascii && 126 < c as int < 65_536))
    ensures PrintChar(ascii, c) == Unicode(c as int)
  {
  }

  lemma CharacterExactly(ascii: bool, c: char)
    ensures Spelled(ascii, c, PrintChar(ascii, c))
  {
    var n := c as int;
    if ShortEscape(n) != "" {
      ShortIs(ascii, c);
    } else if n < 32 || (ascii && 126 < n < 65_536) {
      EscapeIs(ascii, c);
      UnicodeIs(n);
    } else if ascii && n >= 65_536 {
      PairIs(c);
    } else {
      PlainIs(ascii, c);
    }
  }

  // ---------------------------------------------------------------- numbers

  lemma NumberExactly(n: int)
    ensures n >= 0 ==> AllDigits(PrintInt(n)) && Number(PrintInt(n)) == n && (n > 0 ==> PrintInt(n)[0] != '0')
    ensures n == 0 ==> PrintInt(n) == "0"
    ensures n < 0 ==> PrintInt(n) == "-" + PrintInt(-n)
  {
    if n >= 0 {
      NumberDecimal(n);
    }
  }

  // ---------------------------------------------------------------- lists and objects

  function Commas(parts: seq<string>): string {
    if parts == [] then ""
    else if |parts| == 1 then parts[0]
    else parts[0] + "," + Commas(parts[1..])
  }

  ghost function ItemTexts(ascii: bool, items: seq<Json>): seq<string> {
    seq(|items|, i requires 0 <= i < |items| => Canonical(ascii, items[i]))
  }

  ghost function MemberTexts(ascii: bool, ms: seq<Member>): seq<string> {
    seq(|ms|, i requires 0 <= i < |ms| => PrintString(ascii, ms[i].0) + ":" + Canonical(ascii, ms[i].1))
  }

  lemma {:induction false} ItemsJoined(ascii: bool, whole: Json, items: seq<Json>)
    requires whole.Arr? && forall x :: x in items ==> x in whole.items
    ensures CanonicalItems(ascii, whole, items) == Commas(ItemTexts(ascii, items))
    decreases |items|
  {
    if items != [] {
      ItemsJoined(ascii, whole, items[1..]);
      assert ItemTexts(ascii, items)[1..] == ItemTexts(ascii, items[1..]);
    }
  }

  lemma {:induction false} MembersJoined(ascii: bool, whole: Json, ms: seq<Member>)
    requires whole.Obj? && forall p :: p in ms ==> p in whole.members
    ensures CanonicalMembers(ascii, whole, ms) == Commas(MemberTexts(ascii, ms))
    decreases |ms|
  {
    if ms != [] {
      MembersJoined(ascii, whole, ms[1..]);
      assert MemberTexts(ascii, ms)[1..] == MemberTexts(ascii, ms[1..]);
    }
  }

  lemma ListText(ascii: bool, items: seq<Json>)
    ensures Canonical(ascii, Arr(items)) == "[" + Commas(ItemTexts(ascii, items)) + "]"
  {
    ItemsJoined(ascii, Arr(items), items);
  }

  lemma SameHead(a: seq<Member>, b: seq<Member>)
    requires Sorted(a) && Sorted(b) && a != [] && multiset(a) == multiset(b)
    ensures b != [] && a[0] == b[0]
  {
    assert a[0] in multiset(a) && a[0] in multiset(b);
    var i :| 0 <= i < |b| && b[i] == a[0];
    assert b[0] in multiset(b) && b[0] in multiset(a);
    var j :| 0 <= j < |a| && a[j] == b[0];
    if i > 0 && j > 0 {
      LessTransitive(a[0].0, a[j].0, a[0].0);
      LessIrreflexive(a[0].0);
    } else if i > 0 {
      LessIrreflexive(a[0].0);
    }
  }

  /** Members in key order are determined by which members there are. */
  lemma {:induction false} OneOrder(a: seq<Member>, b: seq<Member>)
    requires Sorted(a) && Sorted(b) && multiset(a) == multiset(b)
    ensures a == b
    decreases |a|
  {
    if a == [] {
      assert |multiset(b)| == 0;
    } else {
      SameHead(a, b);
      assert a == [a[0]] + a[1..] && b == [b[0]] + b[1..];
      assert multiset(a[1..]) == multiset(a) - multiset{a[0]};
      assert multiset(b[1..]) == multiset(b) - multiset{b[0]};
      OneOrder(a[1..], b[1..]);
    }
  }

  /** The text of an object, from its members in key order: no blanks, and nothing after the last member. */
  lemma ObjectText(ascii: bool, ms: seq<Member>, sorted: seq<Member>)
    requires DistinctKeys(ms) && multiset(sorted) == multiset(ms)
    requires forall i, j :: 0 <= i < j < |sorted| ==> ComesBefore(sorted[i].0, sorted[j].0)
    ensures Canonical(ascii, Obj(ms)) == "{" + Commas(MemberTexts(ascii, sorted)) + "}"
  {
    forall i, j | 0 <= i < j < |sorted| ensures Less(sorted[i].0, sorted[j].0) {
      OrderExactly(sorted[i].0, sorted[j].0);
    }
    SortSorted(ms);
    SortPermutes(ms);
    OneOrder(Sort(ms), sorted);
    SortKeeps(ms);
    MembersJoined(ascii, Obj(ms), Sort(ms));
  }
}
