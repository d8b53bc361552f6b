/** Byte strings and texts in code-point order: the order of Python's `bytes` and of `compareCodePoints`. */
module Order {

  predicate Less(a: string, b: string) {
    if b == "" then false
    else if a == "" then true
    else a[0] < b[0] || (a[0] == b[0] && Less(a[1..], b[1..]))
  }

  lemma {:induction false} LessIrreflexive(a: string)
    ensures !Less(a, a)
  {
    if a != "" {
      LessIrreflexive(a[1..]);
    }
  }

  lemma {:induction false} LessTransitive(a: string, b: string, c: string)
    requires Less(a, b) && Less(b, c)
    ensures Less(a, c)
  {
    if a != "" && a[0] == b[0] && b[0] == c[0] {
      LessTransitive(a[1..], b[1..], c[1..]);
    }
  }

  lemma {:induction false} LessTotal(a: string, b: string)
    ensures Less(a, b) || a == b || Less(b, a)
  {
    if a != "" && b != "" && a[0] == b[0] {
      LessTotal(a[1..], b[1..]);
      assert a == [a[0]] + a[1..] && b == [b[0]] + b[1..];
    }
  }

  predicate SmallerAt(a: string, b: string, i: nat) {
    i < |a| && i < |b| && (forall k :: 0 <= k < i ==> a[k] == b[k]) && a[i] < b[i]
  }

  /** One text comes before another: it is the shorter beginning, or smaller where they first differ. */
  ghost predicate ComesBefore(a: string, b: string) {
    a < b || exists i: nat :: SmallerAt(a, b, i)
  }

  lemma {:induction false} LessDiffers(a: string, b: string) returns (i: nat)
    requires Less(a, b)
    ensures a < b || SmallerAt(a, b, i)
  {
    i := 0;
    if a != "" && a[0] == b[0] {
      var k := LessDiffers(a[1..], b[1..]);
      i := k + 1;
      if SmallerAt(a[1..], b[1..], k) {
        forall m | 0 <= m < i ensures a[m] == b[m] {
          assert m > 0 ==> a[1..][m - 1] == b[1..][m - 1];
        }
      } else {
        assert a == [a[0]] + a[1..] && b == [b[0]] + b[1..];
      }
    }
  }

  lemma {:induction false} SmallerLess(a: string, b: string, i: nat)
    requires SmallerAt(a, b, i)
    ensures Less(a, b)
  {
    if i > 0 {
      assert a[0] == b[0];
      SmallerLess(a[1..], b[1..], i - 1);
    }
  }

  lemma {:induction false} PrefixLess(a: string, b: string)
    requires a < b
    ensures Less(a, b)
  {
    if a != "" {
      assert a[0] == b[0] && a[1..] < b[1..];
      PrefixLess(a[1..], b[1..]);
    }
  }

  lemma OrderExactly(a: string, b: string)
    ensures Less(a, b) <==> ComesBefore(a, b)
  {
    if Less(a, b) {
      var i := LessDiffers(a, b);
    }
    if a < b {
      PrefixLess(a, b);
    } else if i: nat :| SmallerAt(a, b, i) {
      SmallerLess(a, b, i);
    }
  }

  predicate Increasing(s: seq<string>) {
    forall i, j :: 0 <= i < j < |s| ==> Less(s[i], s[j])
  }

  lemma IncreasingDistinct(s: seq<string>, i: nat, j: nat)
    requires Increasing(s) && i < j < |s|
    ensures s[i] != s[j]
  {
    LessIrreflexive(s[i]);
  }

  lemma {:induction false} DistinctCount(s: seq<string>)
    requires forall i, j :: 0 <= i < j < |s| ==> s[i] != s[j]
    ensures |set x | x in s| == |s|
  {
    if s != [] {
      var rest := s[1..];
      DistinctCount(rest);
      assert (set x | x in s) == {s[0]} + set x | x in rest;
      assert s[0] !in rest;
    }
  }

  lemma SameSize(a: set<string>, b: set<string>)
    requires a <= b && |a| == |b|
    ensures a == b
  {
    assert |b - a| == |b| - |a|;
    assert b == a + (b - a);
  }

  /** An increasing sequence is determined by its elements. */
  lemma {:induction false} IncreasingUnique(s: seq<string>, t: seq<string>)
    requires Increasing(s) && Increasing(t) && |s| == |t| && (forall x :: x in s <==> x in t)
    ensures s == t
    decreases |s|
  {
    if s != [] {
      assert s[0] in t && t[0] in s;
      LeastFirst(s, t[0]);
      LeastFirst(t, s[0]);
      if s[0] != t[0] {
        LessTransitive(s[0], t[0], s[0]);
        LessIrreflexive(s[0]);
      }
      TailElements(s);
      TailElements(t);
      IncreasingUnique(s[1..], t[1..]);
      assert s == [s[0]] + s[1..] && t == [t[0]] + t[1..];
    }
  }

  lemma LeastFirst(s: seq<string>, x: string)
    requires Increasing(s) && x in s
    ensures x == s[0] || Less(s[0], x)
  {
  }

  lemma TailElements(s: seq<string>)
    requires Increasing(s) && s != []
    ensures forall x :: x in s[1..] <==> x in s && x != s[0]
  {
    forall x | x in s[1..] ensures x != s[0] {
      LessIrreflexive(s[0]);
    }
  }

  /** Increasing sequences of one length, one within the other, are equal. */
  lemma IncreasingWithin(s: seq<string>, t: seq<string>)
    requires Increasing(s) && Increasing(t) && |s| == |t| && forall x :: x in s ==> x in t
    ensures s == t
  {
    forall i, j | 0 <= i < j < |s| ensures s[i] != s[j] && t[i] != t[j] {
      IncreasingDistinct(s, i, j);
      IncreasingDistinct(t, i, j);
    }
    DistinctCount(s);
    DistinctCount(t);
    var a, b := set x | x in s, set x | x in t;
    SameSize(a, b);
    assert forall x :: x in s <==> x in a;
    assert forall x :: x in t <==> x in b;
    IncreasingUnique(s, t);
  }

  predicate Ascending(s: seq<string>) {
    forall i, j :: 0 <= i < j < |s| ==> !Less(s[j], s[i])
  }

  /** An ascending sequence is determined by its elements with their multiplicities. */
  lemma {:induction false} AscendingUnique(s: seq<string>, t: seq<string>)
    requires Ascending(s) && Ascending(t) && multiset(s) == multiset(t)
    ensures s == t
    decreases |s|
  {
    assert |s| == |multiset(s)| == |multiset(t)| == |t|;
    if s != [] {
      SameFirst(s, t);
      FirstApart(s);
      FirstApart(t);
      AscendingUnique(s[1..], t[1..]);
      assert s == [s[0]] + s[1..] && t == [t[0]] + t[1..];
    }
  }

  lemma SameFirst(s: seq<string>, t: seq<string>)
    requires Ascending(s) && Ascending(t) && multiset(s) == multiset(t) && s != [] && t != []
    ensures s[0] == t[0]
  {
    assert s[0] in multiset(t) && t[0] in multiset(s);
    LeastOfAscending(s, t[0]);
    LeastOfAscending(t, s[0]);
    LessTotal(s[0], t[0]);
  }

  lemma FirstApart(s: seq<string>)
    requires s != [] && Ascending(s)
    ensures multiset(s[1..]) == multiset(s) - multiset{s[0]} && Ascending(s[1..])
  {
    assert s == [s[0]] + s[1..];
    assert multiset(s) == multiset{s[0]} + multiset(s[1..]);
  }

  lemma LeastOfAscending(s: seq<string>, x: string)
    requires Ascending(s) && x in s
    ensures !Less(x, s[0])
  {
    LessIrreflexive(s[0]);
  }
}
