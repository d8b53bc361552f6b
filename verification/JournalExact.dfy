/** Which texts are journals, said of their lines and members instead of by reading them. */
module JournalExact {
  import opened Basics
  import opened Json
  import opened JsonClaims
  import opened PyJson
  import opened Journal

  // ---------------------------------------------------------------- members

  lemma {:induction false} FieldIn(ms: seq<Member>, key: string, x: Json)
    requires DistinctKeys(ms)
    ensures Field(ms, key) == Some(x) <==> (key, x) in ms
  {
    if ms != [] {
      FieldIn(ms[1..], key, x);
      assert ms == [ms[0]] + ms[1..];
      if ms[0].0 == key && (key, x) in ms {
        var i :| 0 <= i < |ms| && ms[i] == (key, x);
        assert i == 0;
      }
    }
  }

  /** An object with exactly these five members, in any order. */
  predicate IsRecord(v: Json, r: Record) {
    && v.Obj? && |v.members| == 5
    && ("sequence", r.sequence) in v.members
    && ("previous", Str(r.previous)) in v.members
    && ("kind", r.kind) in v.members
    && ("body", r.body) in v.members
    && ("sha256", Str(r.sha256)) in v.members
  }

  lemma RecordExactly(v: Json, r: Record)
    requires WellKeyed(v)
    ensures FromJson(v) == Some(r) <==> IsRecord(v, r)
  {
    if v.Obj? {
      FieldIn(v.members, "sequence", r.sequence);
      FieldIn(v.members, "previous", Str(r.previous));
      FieldIn(v.members, "kind", r.kind);
      FieldIn(v.members, "body", r.body);
      FieldIn(v.members, "sha256", Str(r.sha256));
    }
  }

  // ---------------------------------------------------------------- one line

  /** Python's equality of a member and a place in the journal. */
  predicate CountsAs(v: Json, n: nat) {
    match v
    case Num(k) => k == n
    case Bool(b) => n == if b then 1 else 0
    case _ => false
  }

  /** The text a record's digest is taken of. */
  function Signed(n: nat, r: Record): string {
    Canonical(true, Obj([("sequence", Num(n)), ("previous", Str(r.previous)), ("kind", r.kind), ("body", r.body)]))
  }

  /** The line decodes to an object without repeated keys that is this record, at its place and rightly signed. */
  predicate LineHolds(host: Host, n: nat, line: string, r: Record) {
    && host.decode(line + "\n").Some?
    && var v := StrictParse(host.decode(line + "\n").value);
    && v.Some? && IsRecord(v.value, r)
    && CountsAs(r.sequence, n) && r.sha256 == host.digest(Signed(n, r))
  }

  lemma LineExactly(host: Host, n: nat, previous: string, line: string, r: Record)
    ensures ReadLine(host, n, previous, line) == Some(r) <==> LineHolds(host, n, line, r) && r.previous == previous
  {
    if host.decode(line + "\n").Some? {
      var v := StrictParse(host.decode(line + "\n").value);
      if v.Some? {
        RecordExactly(v.value, r);
        if FromJson(v.value).Some? {
          RecordExactly(v.value, FromJson(v.value).value);
        }
      }
    }
  }

  // ---------------------------------------------------------------- all lines

  /** A record comes from its line, counted from `n`, and names the digest before it. */
  predicate HoldsAt(host: Host, n: nat, origin: string, lines: seq<string>, records: seq<Record>, i: nat)
    requires i < |lines| && i < |records|
  {
    LineHolds(host, n + i, lines[i], records[i]) && records[i].previous == Before(origin, records, i)
  }

  ghost predicate LinesHold(host: Host, n: nat, origin: string, lines: seq<string>, records: seq<Record>) {
    |records| == |lines| && forall i :: 0 <= i < |lines| ==> HoldsAt(host, n, origin, lines, records, i)
  }

  /** One line of the rest, seen from the whole. */
  lemma HoldsLater(host: Host, n: nat, origin: string, lines: seq<string>, records: seq<Record>, i: nat)
    requires |records| == |lines| && 0 < i < |lines|
    ensures HoldsAt(host, n, origin, lines, records, i) <==>
              HoldsAt(host, n + 1, records[0].sha256, lines[1..], records[1..], i - 1)
  {
    assert n + 1 + (i - 1) == n + i;
    assert lines[1..][i - 1] == lines[i] && records[1..][i - 1] == records[i];
    assert i > 1 ==> records[1..][i - 2] == records[i - 1];
  }

  lemma HoldsApart(host: Host, n: nat, origin: string, lines: seq<string>, records: seq<Record>)
    requires |records| == |lines| > 0
    ensures LinesHold(host, n, origin, lines, records) <==>
              && LineHolds(host, n, lines[0], records[0]) && records[0].previous == origin
              && LinesHold(host, n + 1, records[0].sha256, lines[1..], records[1..])
  {
    assert HoldsAt(host, n, origin, lines, records, 0) <==>
             LineHolds(host, n, lines[0], records[0]) && records[0].previous == origin;
    if LinesHold(host, n, origin, lines, records) {
      var next: nat := n + 1;
      forall i | 0 <= i < |lines[1..]| ensures HoldsAt(host, next, records[0].sha256, lines[1..], records[1..], i) {
        HoldsLater(host, n, origin, lines, records, i + 1);
      }
    }
    if LinesHold(host, n + 1, records[0].sha256, lines[1..], records[1..]) {
      forall i | 0 < i < |lines| ensures HoldsAt(host, n, origin, lines, records, i) {
        HoldsLater(host, n, origin, lines, records, i);
      }
    }
  }

  /** Lines are read one after the other, whatever checks them. */
  lemma ReadStep(check: LineCheck, n: nat, origin: string, lines: seq<string>, records: seq<Record>)
    requires lines != []
    ensures ReadLines(check, n, origin, lines) == Some(records) <==>
              && records != [] && check(n, origin, lines[0]) == Some(records[0])
              && ReadLines(check, n + 1, records[0].sha256, lines[1..]) == Some(records[1..])
  {
    if records != [] {
      assert records == [records[0]] + records[1..];
    }
    var read := ReadLines(check, n, origin, lines);
    if read.Some? {
      var r := check(n, origin, lines[0]).value;
      var more := ReadLines(check, n + 1, r.sha256, lines[1..]).value;
      assert read.value[0] == r && read.value[1..] == more;
    }
  }

  lemma {:induction false} LinesExactly(host: Host, n: nat, origin: string, lines: seq<string>, records: seq<Record>)
    ensures ReadLines(Checked(host), n, origin, lines) == Some(records) <==>
              LinesHold(host, n, origin, lines, records)
    decreases |lines|
  {
    if lines != [] {
      ReadStep(Checked(host), n, origin, lines, records);
      if records != [] {
        LineExactly(host, n, origin, lines[0], records[0]);
        LinesExactly(host, n + 1, records[0].sha256, lines[1..], records[1..]);
        if |records| == |lines| {
          HoldsApart(host, n, origin, lines, records);
        }
      }
    }
  }

  // ---------------------------------------------------------------- lines of a text

  function Text(lines: seq<string>, ends: seq<string>): string
    requires |lines| == |ends|
  {
    if lines == [] then "" else lines[0] + ends[0] + Text(lines[1..], ends[1..])
  }

  /** Lines without breaks, each ended by LF, CR or CR LF; a CR is not followed by the LF of an empty line. */
  predicate Ended(lines: seq<string>, ends: seq<string>) {
    && |lines| == |ends|
    && (forall i :: 0 <= i < |lines| ==> NoBreak(lines[i]))
    && (forall i :: 0 <= i < |ends| ==> ends[i] == "\n" || ends[i] == "\r" || ends[i] == "\r\n")
    && (forall i :: 0 <= i < |ends| - 1 && ends[i] == "\r" && lines[i + 1] == "" ==> ends[i + 1] != "\n")
  }

  lemma EndedRest(lines: seq<string>, ends: seq<string>)
    requires Ended(lines, ends) && lines != []
    ensures Ended(lines[1..], ends[1..])
  {
    forall i | 0 <= i < |ends| - 2 && ends[1..][i] == "\r" && lines[1..][i + 1] == ""
      ensures ends[1..][i + 1] != "\n"
    {
      assert ends[i + 1] == "\r" && lines[i + 2] == "";
    }
  }

  lemma {:induction false} LineEndIs(line: string, rest: string)
    requires NoBreak(line) && rest != "" && (rest[0] == '\n' || rest[0] == '\r')
    ensures LineEnd(line + rest) == |line|
  {
    if line == "" {
      assert line + rest == rest;
    } else {
      assert (line + rest)[1..] == line[1..] + rest;
      LineEndIs(line[1..], rest);
    }
  }

  /** What a text begins with after its first line. */
  lemma NoStrayFeed(lines: seq<string>, ends: seq<string>)
    requires Ended(lines, ends) && lines != [] && ends[0] == "\r"
    ensures var rest := Text(lines[1..], ends[1..]); rest == "" || rest[0] != '\n'
  {
    var rest := Text(lines[1..], ends[1..]);
    if |lines| > 1 {
      assert rest == lines[1] + ends[1] + Text(lines[1..][1..], ends[1..][1..]);
      if lines[1] == "" {
        assert rest[0] == ends[1][0];
      }
    }
  }

  lemma BreakAfter(line: string, end: string, rest: string)
    requires NoBreak(line) && (end == "\n" || end == "\r" || end == "\r\n")
    requires end == "\r" ==> rest == "" || rest[0] != '\n'
    ensures var s := line + end + rest; LineEnd(s) == |line| && s[..|line|] == line && AfterBreak(s, |line|) == rest
  {
    var s := line + end + rest;
    assert s == line + (end + rest);
    LineEndIs(line, end + rest);
    assert s[|line| + |end|..] == rest;
  }

  /** The lines of a text put together from lines and their ends. */
  lemma {:induction false} LinesOf(lines: seq<string>, ends: seq<string>)
    requires Ended(lines, ends)
    ensures SplitLines(Text(lines, ends)) == lines
    decreases |lines|
  {
    if lines != [] {
      var rest := Text(lines[1..], ends[1..]);
      if ends[0] == "\r" {
        NoStrayFeed(lines, ends);
      }
      BreakAfter(lines[0], ends[0], rest);
      EndedRest(lines, ends);
      LinesOf(lines[1..], ends[1..]);
      SplitStep(Text(lines, ends));
      assert lines == [lines[0]] + lines[1..];
    }
  }

  lemma EndedMore(line: string, end: string, lines: seq<string>, ends: seq<string>)
    requires Ended(lines, ends) && NoBreak(line) && (end == "\n" || end == "\r" || end == "\r\n")
    requires end == "\r" ==> Text(lines, ends) == "" || Text(lines, ends)[0] != '\n'
    ensures Ended([line] + lines, [end] + ends)
    ensures Text([line] + lines, [end] + ends) == line + end + Text(lines, ends)
  {
    var all, stops := [line] + lines, [end] + ends;
    assert all[1..] == lines && stops[1..] == ends;
    forall i | 0 <= i < |stops| - 1 && stops[i] == "\r" && all[i + 1] == "" ensures stops[i + 1] != "\n" {
      if i == 0 {
        assert Text(lines, ends) == lines[0] + ends[0] + Text(lines[1..], ends[1..]);
        assert Text(lines, ends)[0] == ends[0][0];
      } else {
        assert ends[i - 1] == "\r" && lines[i] == "" && ends[i - 1 + 1] != "\n";
      }
    }
  }

  /** The break after the first line. */
  lemma FirstBreak(s: string) returns (end: string)
    requires s != "" && s[|s| - 1] == '\n'
    ensures var n := LineEnd(s); var rest := AfterBreak(s, n);
            && NoBreak(s[..n]) && (end == "\n" || end == "\r" || end == "\r\n") && s == s[..n] + end + rest
            && (end == "\r" ==> rest == "" || rest[0] != '\n')
  {
    var n := LineEnd(s);
    EndsWithin(s);
    if s[n] == '\r' && n + 1 < |s| && s[n + 1] == '\n' {
      end := "\r\n";
      assert s[n..n + 2] == end && AfterBreak(s, n) == s[n + 2..];
      assert s == s[..n] + s[n..n + 2] + s[n + 2..];
    } else {
      end := [s[n]];
      assert AfterBreak(s, n) == s[n + 1..] && s == s[..n] + end + s[n + 1..];
    }
  }

  /** Every text that ends with LF is put together so. */
  lemma {:induction false} EndsOf(s: string) returns (ends: seq<string>)
    requires s == "" || s[|s| - 1] == '\n'
    ensures Ended(SplitLines(s), ends) && Text(SplitLines(s), ends) == s
    decreases |s|
  {
    ends := [];
    if s != "" {
      var end := FirstBreak(s);
      RestEnds(s);
      var rest := AfterBreak(s, LineEnd(s));
      var more := EndsOf(rest);
      EndedMore(s[..LineEnd(s)], end, SplitLines(rest), more);
      SplitStep(s);
      ends := [end] + more;
    }
  }

  // ---------------------------------------------------------------- the journal

  predicate AllZeros(s: string) {
    |s| == 64 && forall i :: 0 <= i < |s| ==> s[i] == '0'
  }

  lemma {:induction false} ZerosAre(n: nat)
    ensures |Zeros(n)| == n && forall i :: 0 <= i < n ==> Zeros(n)[i] == '0'
  {
    if n > 0 {
      ZerosAre(n - 1);
    }
  }

  /** At most 512 KiB of whole lines, one record each, a chain that starts from zeros with a genesis. */
  ghost predicate IsJournal(host: Host, raw: string, records: seq<Record>) {
    && 0 < |raw| <= 524_288 && raw[|raw| - 1] == '\n'
    && records != [] && records[0].kind == Str("genesis") && AllZeros(records[0].previous)
    && |SplitLines(raw)| == |records|
    && (forall i :: 0 <= i < |records| ==> LineHolds(host, i, SplitLines(raw)[i], records[i]))
    && (forall i :: 0 < i < |records| ==> records[i].previous == records[i - 1].sha256)
  }

  /** The chain of an accepted journal, link by link. */
  lemma ChainApart(host: Host, origin: string, lines: seq<string>, records: seq<Record>)
    requires records != []
    ensures LinesHold(host, 0, origin, lines, records) <==>
              && |lines| == |records| && records[0].previous == origin
              && (forall i :: 0 <= i < |records| ==> LineHolds(host, i, lines[i], records[i]))
              && (forall i :: 0 < i < |records| ==> records[i].previous == records[i - 1].sha256)
  {
    if LinesHold(host, 0, origin, lines, records) {
      forall i | 0 <= i < |records|
        ensures LineHolds(host, i, lines[i], records[i]) && records[i].previous == Before(origin, records, i)
      {
        assert HoldsAt(host, 0, origin, lines, records, i);
      }
    }
  }

  lemma ParseExactly(check: LineCheck, origin: string, raw: string, records: seq<Record>)
    ensures ParseWith(check, origin, raw) == Some(records) <==>
              && 0 < |raw| <= 524_288 && raw[|raw| - 1] == '\n'
              && records != [] && records[0].kind == Str("genesis")
              && ReadLines(check, 0, origin, SplitLines(raw)) == Some(records)
  {
  }

  /** `_parse_journal` accepts exactly the journals, and answers their records. */
  lemma AcceptedExactly(host: Host, raw: string, records: seq<Record>)
    ensures ParseJournal(host, raw) == Some(records) <==> IsJournal(host, raw, records)
  {
    var origin := Zeros(DIGEST_CHARS);
    ZerosAre(DIGEST_CHARS);
    ParseExactly(Checked(host), origin, raw, records);
    LinesExactly(host, 0, origin, SplitLines(raw), records);
    if records != [] {
      ChainApart(host, origin, SplitLines(raw), records);
      assert AllZeros(records[0].previous) <==> records[0].previous == origin;
    }
  }

  /** The record an append makes: the next number, the last digest, the kind and body given, and its own digest. */
  lemma NextExactly(host: Host, records: seq<Record>, kind: Json, body: Json)
    requires records != []
    ensures var r := NextRecord(host, records, kind, body);
            && r.sequence == Num(|records|) && r.previous == records[|records| - 1].sha256
            && r.kind == kind && r.body == body && r.sha256 == host.digest(Signed(|records|, r))
  {
  }

  // ---------------------------------------------------------------- kinds

  /** The code of a lower-case ASCII letter, a digit or a hyphen. */
  predicate KindCode(n: int) {
    97 <= n <= 122 || 48 <= n <= 57 || n == 45
  }

  /** An append gets as far as writing exactly for such a kind, a dictionary and an accepted journal. */
  lemma AppendableExactly(host: Host, raw: string, kind: string, body: Json)
    ensures Appendable(host, raw, kind, body) <==>
              && 1 <= |kind| <= 64 && (forall i :: 0 <= i < |kind| ==> KindCode(kind[i] as int)) && body.Obj?
              && exists records :: IsJournal(host, raw, records)
  {
    if ParseJournal(host, raw).Some? {
      AcceptedExactly(host, raw, ParseJournal(host, raw).value);
    }
    if records :| IsJournal(host, raw, records) {
      AcceptedExactly(host, raw, records);
    }
  }
}
