/**
 * The hash-chained ownership journal. SHA-256 is a parameter `digest`; the decoder also stands for
 * the refusal of NUL bytes.
 */
module Journal {
  import opened Basics
  import opened Json
  import opened JsonClaims
  import opened PyJson

  const MAX_JOURNAL := 512 * 1024
  const DIGEST_CHARS: nat := 64

  function Zeros(n: nat): string {
    if n == 0 then "" else "0" + Zeros(n - 1)
  }

  datatype Record = Record(sequence: Json, previous: string, kind: Json, body: Json, sha256: string)

  /** How bytes become text and how text becomes a digest. */
  datatype Host = Host(decode: Decoder, digest: string -> string)

  ghost predicate PlainDecode(host: Host) {
    Plain(host.decode)
  }

  ghost predicate CollisionFree(host: Host) {
    forall a, b :: host.digest(a) == host.digest(b) ==> a == b
  }

  // ---------------------------------------------------------------- records

  function Unsigned(n: nat, previous: string, kind: Json, body: Json): Json {
    Obj([("sequence", Num(n)), ("previous", Str(previous)), ("kind", kind), ("body", body)])
  }

  function Sign(host: Host, n: nat, previous: string, kind: Json, body: Json): string {
    host.digest(Canonical(true, Unsigned(n, previous, kind, body)))
  }

  /** `_journal_record`. */
  function NewRecord(host: Host, n: nat, previous: string, kind: Json, body: Json): Record {
    Record(Num(n), previous, kind, body, Sign(host, n, previous, kind, body))
  }

  function ToJson(r: Record): Json {
    Obj([("sequence", r.sequence), ("previous", Str(r.previous)), ("kind", r.kind), ("body", r.body),
         ("sha256", Str(r.sha256))])
  }

  /** A dictionary with exactly the five keys, whose digests are strings. */
  function FromJson(v: Json): Option<Record> {
    if !v.Obj? || |v.members| != 5 then None
    else
      var ms := v.members;
      match (Field(ms, "sequence"), Field(ms, "previous"), Field(ms, "kind"), Field(ms, "body"), Field(ms, "sha256"))
      case (Some(sequence), Some(Str(previous)), Some(kind), Some(body), Some(Str(sha256))) =>
        Some(Record(sequence, previous, kind, body, sha256))
      case _ => None
  }

  /** Python's `==` against an integer: `True` is 1 and `False` is 0. */
  predicate Equals(v: Json, n: nat) {
    v == Num(n) || (v == Bool(true) && n == 1) || (v == Bool(false) && n == 0)
  }

  /** One line against the chain so far: the record must equal the one made from its own kind and body. */
  function ReadLine(host: Host, n: nat, previous: string, line: string): Option<Record> {
    match host.decode(line + "\n")
    case None => None
    case Some(text) =>
      match StrictParse(text)
      case None => None
      case Some(v) =>
        match FromJson(v)
        case None => None
        case Some(r) =>
          if Equals(r.sequence, n) && r.previous == previous && r.sha256 == Sign(host, n, previous, r.kind, r.body)
          then Some(r) else None
  }

  /** The check of one line, given its place in the chain. */
  type LineCheck = (nat, string, string) -> Option<Record>

  function Checked(host: Host): LineCheck {
    (n: nat, previous: string, line: string) => ReadLine(host, n, previous, line)
  }

  function ReadLines(check: LineCheck, n: nat, previous: string, lines: seq<string>): Option<seq<Record>>
    decreases |lines|
  {
    if lines == [] then Some([])
    else
      match check(n, previous, lines[0])
      case None => None
      case Some(r) =>
        match ReadLines(check, n + 1, r.sha256, lines[1..])
        case None => None
        case Some(more) => Some([r] + more)
  }

  // ---------------------------------------------------------------- lines

  function LineEnd(s: string): (n: nat)
    ensures n <= |s|
    ensures forall i :: 0 <= i < n ==> s[i] != '\n' && s[i] != '\r'
    ensures n < |s| ==> s[n] == '\n' || s[n] == '\r'
  {
    if s == "" || s[0] == '\n' || s[0] == '\r' then 0 else 1 + LineEnd(s[1..])
  }

  /** `bytes.splitlines`: breaks at LF, CR and CR LF, and no empty piece after a final break. */
  function SplitLines(s: string): seq<string>
    decreases |s|
  {
    if s == "" then []
    else
      var n := LineEnd(s);
      [s[..n]] + SplitLines(AfterBreak(s, n))
  }

  function AfterBreak(s: string, n: nat): (rest: string)
    requires s != "" && n <= |s|
    ensures |rest| < |s|
  {
    if n == |s| then ""
    else if s[n] == '\r' && n + 1 < |s| && s[n + 1] == '\n' then s[n + 2..]
    else s[n + 1..]
  }

  function ParseLines(check: LineCheck, origin: string, lines: seq<string>): Option<seq<Record>> {
    match ReadLines(check, 0, origin, lines)
    case None => None
    case Some(records) => if records != [] && records[0].kind == Str("genesis") then Some(records) else None
  }

  function ParseWith(check: LineCheck, origin: string, raw: string): Option<seq<Record>> {
    if !(0 < |raw| <= MAX_JOURNAL) || raw[|raw| - 1] != '\n' then None
    else ParseLines(check, origin, SplitLines(raw))
  }

  /** `_parse_journal`. */
  function ParseJournal(host: Host, raw: string): Option<seq<Record>> {
    ParseWith(Checked(host), Zeros(DIGEST_CHARS), raw)
  }

  // ---------------------------------------------------------------- one more line

  predicate NoBreak(line: string) {
    forall i :: 0 <= i < |line| ==> line[i] != '\n' && line[i] != '\r'
  }

  lemma {:induction false} LineEndAt(line: string, rest: string)
    requires NoBreak(line)
    ensures LineEnd(line + "\n" + rest) == |line|
  {
    if line != "" {
      assert (line + "\n" + rest)[1..] == line[1..] + "\n" + rest;
      LineEndAt(line[1..], rest);
    }
  }

  lemma SplitOne(line: string)
    requires NoBreak(line)
    ensures SplitLines(line + "\n") == [line]
  {
    var s := line + "\n";
    LineEndAt(line, "");
    assert s + "" == s && s[..|line|] == line && s[|line| + 1..] == "";
  }

  lemma {:induction false} LineEndPrefix(raw: string, more: string)
    requires LineEnd(raw) < |raw|
    ensures LineEnd(raw + more) == LineEnd(raw)
  {
    if !(raw == "" || raw[0] == '\n' || raw[0] == '\r') {
      assert (raw + more)[1..] == raw[1..] + more;
      LineEndPrefix(raw[1..], more);
    }
  }

  lemma EndsWithin(raw: string)
    requires raw != "" && raw[|raw| - 1] == '\n'
    ensures LineEnd(raw) < |raw|
  {
  }

  lemma AfterBreakAppend(raw: string, n: nat, more: string)
    requires n < |raw| && raw[|raw| - 1] == '\n'
    ensures AfterBreak(raw + more, n) == AfterBreak(raw, n) + more
    ensures var rest := AfterBreak(raw, n); rest != "" ==> rest[|rest| - 1] == '\n'
  {
    var both := raw + more;
    assert n + 1 < |raw| ==> both[n + 1] == raw[n + 1];
    assert both[n + 1..] == raw[n + 1..] + more;
    if n + 2 <= |raw| {
      assert both[n + 2..] == raw[n + 2..] + more;
    }
  }

  lemma SplitStep(s: string)
    requires s != ""
    ensures SplitLines(s) == [s[..LineEnd(s)]] + SplitLines(AfterBreak(s, LineEnd(s)))
  {
  }

  /** What follows a text that ends with LF leaves its first line alone. */
  lemma SplitFirst(raw: string, more: string)
    requires raw != "" && raw[|raw| - 1] == '\n'
    ensures SplitLines(raw + more) == [raw[..LineEnd(raw)]] + SplitLines(AfterBreak(raw, LineEnd(raw)) + more)
  {
    EndsWithin(raw);
    LineEndPrefix(raw, more);
    var n := LineEnd(raw);
    assert (raw + more)[..n] == raw[..n];
    AfterBreakAppend(raw, n, more);
    SplitStep(raw + more);
  }

  lemma RestEnds(raw: string)
    requires raw != "" && raw[|raw| - 1] == '\n'
    ensures var rest := AfterBreak(raw, LineEnd(raw)); |rest| < |raw| && (rest != "" ==> rest[|rest| - 1] == '\n')
  {
    EndsWithin(raw);
    AfterBreakAppend(raw, LineEnd(raw), "");
  }

  lemma OneAfter(head: string, tail: seq<string>, line: string)
    ensures [head] + (tail + [line]) == [head] + tail + [line]
  {
  }

  /** A text that ends with LF takes one more line at its end. */
  lemma {:induction false} SplitAppend(raw: string, line: string)
    requires raw != "" && raw[|raw| - 1] == '\n' && NoBreak(line)
    ensures SplitLines(raw + (line + "\n")) == SplitLines(raw) + [line]
    decreases |raw|
  {
    var head, rest := raw[..LineEnd(raw)], AfterBreak(raw, LineEnd(raw));
    SplitFirst(raw, line + "\n");
    SplitStep(raw);
    RestEnds(raw);
    if rest == "" {
      SplitOne(line);
      assert rest + (line + "\n") == line + "\n";
    } else {
      SplitAppend(rest, line);
    }
    OneAfter(head, SplitLines(rest), line);
  }

  /** The chain's position after some records: how many, and the last digest. */
  function LastDigest(previous: string, records: seq<Record>): string {
    if records == [] then previous else records[|records| - 1].sha256
  }

  function Extended(records: seq<Record>, r: Option<Record>): Option<seq<Record>> {
    match r
    case None => None
    case Some(x) => Some(records + [x])
  }

  lemma {:induction false} ReadAppend(check: LineCheck, n: nat, previous: string, lines: seq<string>, line: string,
                                      records: seq<Record>)
    requires ReadLines(check, n, previous, lines) == Some(records)
    ensures |records| == |lines|
    ensures ReadLines(check, n, previous, lines + [line])
         == Extended(records, check(n + |records|, LastDigest(previous, records), line))
    decreases |lines|
  {
    if lines == [] {
      assert lines + [line] == [line] && [line][1..] == [];
      var next := check(n, previous, line);
      if next.Some? {
        assert [next.value] + [] == [] + [next.value];
      }
    } else {
      var r := check(n, previous, lines[0]).value;
      var more := ReadLines(check, n + 1, r.sha256, lines[1..]).value;
      assert (lines + [line])[1..] == lines[1..] + [line];
      ReadAppend(check, n + 1, r.sha256, lines[1..], line, more);
      assert records == [r] + more;
      var next := check(n + |records|, LastDigest(previous, records), line);
      if next.Some? {
        assert [r] + (more + [next.value]) == records + [next.value];
      }
    }
  }

  // ---------------------------------------------------------------- a record read back

  predicate WellKeyedRecord(r: Record) {
    WellKeyed(r.sequence) && WellKeyed(r.kind) && WellKeyed(r.body)
  }

  lemma FiveKeys()
    ensures "sequence" != "previous" && "sequence" != "kind" && "sequence" != "body" && "sequence" != "sha256"
    ensures "previous" != "kind" && "previous" != "body" && "previous" != "sha256"
    ensures "kind" != "body" && "kind" != "sha256" && "body" != "sha256"
  {
    assert "sequence"[0] == 's' && "previous"[0] == 'p' && "kind"[0] == 'k' && "body"[0] == 'b';
    assert "sequence"[1] == 'e' && "sha256"[1] == 'h' && "sha256"[0] == 's';
  }

  lemma RecordKeyed(r: Record)
    requires WellKeyedRecord(r)
    ensures WellKeyed(ToJson(r))
  {
    FiveKeys();
    var ms := ToJson(r).members;
    assert forall i :: 0 <= i < |ms| ==> WellKeyed(ms[i].1);
  }

  lemma UnsignedKeyed(n: nat, previous: string, kind: Json, body: Json)
    requires WellKeyed(kind) && WellKeyed(body)
    ensures WellKeyed(Unsigned(n, previous, kind, body))
  {
    FiveKeys();
    var ms := Unsigned(n, previous, kind, body).members;
    assert forall i :: 0 <= i < |ms| ==> WellKeyed(ms[i].1);
  }

  function NormalRecord(r: Record): Record {
    Record(Normal(r.sequence), r.previous, Normal(r.kind), Normal(r.body), r.sha256)
  }

  lemma RecordBack(r: Record)
    requires WellKeyedRecord(r)
    ensures FromJson(Normal(ToJson(r))) == Some(NormalRecord(r))
  {
    RecordKeyed(r);
    var v := ToJson(r);
    FieldNormal(v, 0);
    FieldNormal(v, 1);
    FieldNormal(v, 2);
    FieldNormal(v, 3);
    FieldNormal(v, 4);
  }

  /** The signature does not depend on the order of keys in the kind or the body. */
  lemma SignNormal(host: Host, n: nat, previous: string, kind: Json, body: Json)
    requires WellKeyed(kind) && WellKeyed(body)
    ensures Sign(host, n, previous, Normal(kind), Normal(body)) == Sign(host, n, previous, kind, body)
  {
    SelfNormal(kind);
    SelfNormal(body);
    NormalKeyed(kind);
    NormalKeyed(body);
    UnsignedKeyed(n, previous, kind, body);
    UnsignedKeyed(n, previous, Normal(kind), Normal(body));
    var a, b := Unsigned(n, previous, kind, body), Unsigned(n, previous, Normal(kind), Normal(body));
    UnsignedSame(n, previous, kind, body, n, previous, Normal(kind), Normal(body));
    CanonicalExact(true, a, b);
  }

  lemma UnsignedMatched(a: Json, b: Json, i: nat)
    requires a.Obj? && b.Obj? && |a.members| == |b.members| && i < |a.members| && DistinctKeys(b.members)
    requires a.members[i].0 == b.members[i].0
    ensures Matched(a, i, b.members) <==> Same(a.members[i].1, b.members[i].1)
  {
    if Matched(a, i, b.members) {
      var j := MatchOf(a, i, b.members);
    }
    if Same(a.members[i].1, b.members[i].1) {
      MatchedAt(a, i, b.members, i);
    }
  }

  lemma UnsignedSame(n: nat, p: string, kind: Json, body: Json, m: nat, q: string, other: Json, content: Json)
    ensures Same(Unsigned(n, p, kind, body), Unsigned(m, q, other, content))
       <==> n == m && p == q && Same(kind, other) && Same(body, content)
  {
    FiveKeys();
    var a, b := Unsigned(n, p, kind, body), Unsigned(m, q, other, content);
    UnsignedMatched(a, b, 0);
    UnsignedMatched(a, b, 1);
    UnsignedMatched(a, b, 2);
    UnsignedMatched(a, b, 3);
  }

  function LineOf(r: Record): string {
    Canonical(true, ToJson(r))
  }

  /** A record's own line is read back at its place in the chain, whichever way its number is written. */
  lemma LineBack(host: Host, n: nat, r: Record)
    requires PlainDecode(host) && WellKeyedRecord(r) && Equals(r.sequence, n)
    requires r.sha256 == Sign(host, n, r.previous, r.kind, r.body)
    ensures ReadLine(host, n, r.previous, LineOf(r)) == Some(NormalRecord(r))
  {
    RecordKeyed(r);
    CanonicalPrintable(ToJson(r));
    ParseCanonical(true, ToJson(r), "\n");
    RecordBack(r);
    SignNormal(host, n, r.previous, r.kind, r.body);
  }

  // ---------------------------------------------------------------- appending

  lemma LinesGrown(check: LineCheck, origin: string, lines: seq<string>, records: seq<Record>, line: string, r: Record)
    requires ParseLines(check, origin, lines) == Some(records)
    requires check(|records|, records[|records| - 1].sha256, line) == Some(r)
    ensures ParseLines(check, origin, lines + [line]) == Some(records + [r])
  {
    ReadAppend(check, 0, origin, lines, line, records);
    assert (records + [r])[0] == records[0];
  }

  lemma ParseGrown(check: LineCheck, origin: string, raw: string, records: seq<Record>, line: string, r: Record)
    requires ParseWith(check, origin, raw) == Some(records) && NoBreak(line)
    requires check(|records|, records[|records| - 1].sha256, line) == Some(r)
    ensures var grown := raw + (line + "\n");
            ParseWith(check, origin, grown) == if |grown| <= MAX_JOURNAL then Some(records + [r]) else None
  {
    SplitAppend(raw, line);
    LinesGrown(check, origin, SplitLines(raw), records, line, r);
    GrownEnds(raw, line);
  }

  lemma GrownEnds(raw: string, line: string)
    ensures var grown := raw + (line + "\n"); |grown| > 0 && grown[|grown| - 1] == '\n'
  {
  }

  /** The record `_append_journal` makes. */
  function NextRecord(host: Host, records: seq<Record>, kind: Json, body: Json): Record
    requires records != []
  {
    NewRecord(host, |records|, records[|records| - 1].sha256, kind, body)
  }

  /** The journal's text with one more line. */
  function Grown(raw: string, r: Record): string {
    raw + (LineOf(r) + "\n")
  }

  /** Appending extends the parse by exactly the new record, if and only if the text stays within its bound. */
  lemma AppendExact(host: Host, raw: string, records: seq<Record>, kind: Json, body: Json)
    requires PlainDecode(host) && records != [] && ParseJournal(host, raw) == Some(records) && WellKeyed(kind)
    requires WellKeyed(body)
    ensures ParseJournal(host, Grown(raw, NextRecord(host, records, kind, body)))
         == if |Grown(raw, NextRecord(host, records, kind, body))| <= MAX_JOURNAL
            then Some(records + [NormalRecord(NextRecord(host, records, kind, body))]) else None
  {
    var r := NextRecord(host, records, kind, body);
    LineBack(host, |records|, r);
    CanonicalPrintable(ToJson(r));
    ParseGrown(Checked(host), Zeros(DIGEST_CHARS), raw, records, LineOf(r), NormalRecord(r));
  }

  // ---------------------------------------------------------------- the chain

  function Before(origin: string, records: seq<Record>, i: nat): string
    requires i <= |records|
  {
    if i == 0 then origin else records[i - 1].sha256
  }

  ghost predicate Link(host: Host, n: nat, r: Record) {
    && Equals(r.sequence, n) && r.sha256 == Sign(host, n, r.previous, r.kind, r.body)
    && WellKeyed(r.kind) && WellKeyed(r.body)
  }

  predicate Follows(origin: string, records: seq<Record>, i: nat)
    requires i < |records|
  {
    records[i].previous == Before(origin, records, i)
  }

  /** Every record is numbered by its place, carries its own digest and names the one before it. */
  ghost predicate Chained(host: Host, origin: string, records: seq<Record>) {
    && (forall i :: 0 <= i < |records| ==> Link(host, i, records[i]))
    && (forall i :: 0 <= i < |records| ==> Follows(origin, records, i))
  }

  lemma {:induction false} EachChecked(check: LineCheck, n: nat, origin: string, lines: seq<string>,
                                       records: seq<Record>, i: nat)
    requires ReadLines(check, n, origin, lines) == Some(records) && i < |records|
    ensures |records| == |lines| && check(n + i, Before(origin, records, i), lines[i]) == Some(records[i])
    decreases |lines|
  {
    if lines != [] {
      var more := ReadLines(check, n + 1, records[0].sha256, lines[1..]).value;
      assert records == [records[0]] + more;
      if i > 0 {
        EachChecked(check, n + 1, records[0].sha256, lines[1..], more, i - 1);
      } else if more != [] {
        EachChecked(check, n + 1, records[0].sha256, lines[1..], more, 0);
      }
    }
  }

  lemma RecordOfKeyed(v: Json)
    requires WellKeyed(v) && FromJson(v).Some?
    ensures WellKeyed(FromJson(v).value.kind) && WellKeyed(FromJson(v).value.body)
  {
    FieldKeyed(v.members, "kind");
    FieldKeyed(v.members, "body");
  }

  lemma LineLinked(host: Host, n: nat, previous: string, line: string)
    requires ReadLine(host, n, previous, line).Some?
    ensures var r := ReadLine(host, n, previous, line).value; Link(host, n, r) && r.previous == previous
  {
    RecordOfKeyed(StrictParse(host.decode(line + "\n").value).value);
  }

  lemma LinesChained(host: Host, origin: string, lines: seq<string>, records: seq<Record>)
    requires ReadLines(Checked(host), 0, origin, lines) == Some(records)
    ensures Chained(host, origin, records)
  {
    forall i | 0 <= i < |records| ensures Link(host, i, records[i]) && Follows(origin, records, i) {
      EachChecked(Checked(host), 0, origin, lines, records, i);
      LineLinked(host, i, Before(origin, records, i), lines[i]);
    }
  }

  lemma JournalChained(host: Host, raw: string)
    requires ParseJournal(host, raw).Some?
    ensures Chained(host, Zeros(DIGEST_CHARS), ParseJournal(host, raw).value) && ParseJournal(host, raw).value != []
  {
    LinesChained(host, Zeros(DIGEST_CHARS), SplitLines(raw), ParseJournal(host, raw).value);
  }

  /** Two records that say the same, dictionaries up to key order and numbers by value. */
  ghost predicate Agree(a: Record, b: Record, n: nat) {
    && a.previous == b.previous && a.sha256 == b.sha256 && Same(a.kind, b.kind) && Same(a.body, b.body)
    && Equals(a.sequence, n) && Equals(b.sequence, n)
  }

  /**
   * The same content, dictionaries up to key order. This is finer than Python's equality, which also
   * takes `True` for 1 and so calls any two records equal that `Agree`.
   */
  predicate SameAs(a: Record, b: Record) {
    && a.sequence == b.sequence
    && a.previous == b.previous
    && a.sha256 == b.sha256
    && Same(a.kind, b.kind)
    && Same(a.body, b.body)
  }

  lemma DigestDecides(host: Host, n: nat, a: Record, b: Record)
    requires CollisionFree(host) && Link(host, n, a) && Link(host, n, b) && a.sha256 == b.sha256
    ensures Agree(a, b, n)
  {
    var u, w := Unsigned(n, a.previous, a.kind, a.body), Unsigned(n, b.previous, b.kind, b.body);
    assert Canonical(true, u) == Canonical(true, w);
    UnsignedKeyed(n, a.previous, a.kind, a.body);
    UnsignedKeyed(n, b.previous, b.kind, b.body);
    CanonicalExact(true, u, w);
    UnsignedSame(n, a.previous, a.kind, a.body, n, b.previous, b.kind, b.body);
  }

  lemma PreviousAgree(host: Host, n: nat, a: Record, b: Record)
    requires CollisionFree(host) && Link(host, n, a) && Link(host, n, b) && a.sha256 == b.sha256
    ensures a.previous == b.previous
  {
    DigestDecides(host, n, a, b);
  }

  ghost predicate AllAgree(a: seq<Record>, b: seq<Record>) {
    |a| == |b| && forall i :: 0 <= i < |a| ==> Agree(a[i], b[i], i)
  }

  /** The digests of two chains that end alike are alike all the way back. */
  lemma {:induction false} DigestsAgree(link: (nat, Record) -> bool, origin: string, a: seq<Record>, b: seq<Record>,
                                        i: nat)
    requires forall n: nat, x, y :: link(n, x) && link(n, y) && x.sha256 == y.sha256 ==> x.previous == y.previous
    requires |a| == |b| && i < |a| && a[|a| - 1].sha256 == b[|b| - 1].sha256
    requires forall k :: 0 <= k < |a| ==> link(k, a[k])
    requires forall k :: 0 <= k < |b| ==> link(k, b[k])
    requires forall k :: 0 <= k < |a| ==> Follows(origin, a, k)
    requires forall k :: 0 <= k < |b| ==> Follows(origin, b, k)
    ensures a[i].sha256 == b[i].sha256
    decreases |a| - i
  {
    if i < |a| - 1 {
      DigestsAgree(link, origin, a, b, i + 1);
      assert link(i + 1, a[i + 1]) && link(i + 1, b[i + 1]);
      assert Follows(origin, a, i + 1) && Follows(origin, b, i + 1);
    }
  }

  lemma RecordsAgree(host: Host, origin: string, a: seq<Record>, b: seq<Record>)
    requires CollisionFree(host) && Chained(host, origin, a) && Chained(host, origin, b)
    requires |a| == |b| > 0 && a[|a| - 1].sha256 == b[|b| - 1].sha256
    ensures AllAgree(a, b)
  {
    var link := (n: nat, r: Record) => Link(host, n, r);
    forall n: nat, x, y | link(n, x) && link(n, y) && x.sha256 == y.sha256 ensures x.previous == y.previous {
      PreviousAgree(host, n, x, y);
    }
    forall i | 0 <= i < |a| ensures Agree(a[i], b[i], i) {
      DigestsAgree(link, origin, a, b, i);
      DigestDecides(host, i, a[i], b[i]);
    }
  }

  /** Under a collision-free digest, length and last digest determine every record. */
  lemma LastDigestDecides(host: Host, raw: string, other: string, a: seq<Record>, b: seq<Record>)
    requires CollisionFree(host) && ParseJournal(host, raw) == Some(a) && ParseJournal(host, other) == Some(b)
    requires |a| == |b| && LastDigest("", a) == LastDigest("", b)
    ensures AllAgree(a, b)
  {
    JournalChained(host, raw);
    JournalChained(host, other);
    RecordsAgree(host, Zeros(DIGEST_CHARS), a, b);
  }

  /**
   * Agreement is not quite identity: the numbers of the first two records may also be written `false`
   * and `true`, and such a record is accepted with the same digests.
   */
  lemma BooleanNumber(host: Host, n: nat, previous: string, kind: Json, body: Json)
    requires PlainDecode(host) && n <= 1 && WellKeyed(kind) && WellKeyed(body)
    ensures var r := NewRecord(host, n, previous, kind, body);
            var s := r.(sequence := Bool(n == 1));
            && ReadLine(host, n, previous, LineOf(r)) == Some(NormalRecord(r))
            && ReadLine(host, n, previous, LineOf(s)) == Some(NormalRecord(s))
            && !SameAs(NormalRecord(r), NormalRecord(s)) && Agree(NormalRecord(r), NormalRecord(s), n)
  {
    var r := NewRecord(host, n, previous, kind, body);
    var s := r.(sequence := Bool(n == 1));
    LineBack(host, n, r);
    LineBack(host, n, s);
    NormalKeyed(kind);
    NormalKeyed(body);
    SameReflexive(Normal(kind));
    SameReflexive(Normal(body));
  }

  lemma SameReflexive(v: Json)
    requires WellKeyed(v)
    ensures Same(v, v)
  {
    NormalSame(v, v);
  }

  /** No record is numbered by a boolean. */
  predicate Numbered(records: seq<Record>) {
    forall i :: 0 <= i < |records| ==> !records[i].sequence.Bool?
  }

  /** The records are the same, dictionaries up to key order, including how they are numbered. */
  ghost predicate AllSame(a: seq<Record>, b: seq<Record>) {
    |a| == |b| && forall i :: 0 <= i < |a| ==> SameAs(a[i], b[i])
  }

  /**
   * Two journals with one length and last digest agree, and are equal to Python. They are the same in
   * content exactly when their first two records are numbered alike, as numbers or as booleans; so they
   * are whenever neither uses a boolean.
   */
  lemma SameExactly(host: Host, raw: string, other: string, a: seq<Record>, b: seq<Record>)
    requires CollisionFree(host) && ParseJournal(host, raw) == Some(a) && ParseJournal(host, other) == Some(b)
    requires |a| == |b| && LastDigest("", a) == LastDigest("", b)
    ensures AllSame(a, b) <==> forall i :: 0 <= i < |a| && i <= 1 ==> (a[i].sequence.Bool? <==> b[i].sequence.Bool?)
    ensures Numbered(a) && Numbered(b) ==> AllSame(a, b)
  {
    LastDigestDecides(host, raw, other, a, b);
    forall i | 0 <= i < |a| ensures SameAs(a[i], b[i]) <==> (a[i].sequence.Bool? <==> b[i].sequence.Bool?) {
      assert Agree(a[i], b[i], i);
    }
    forall i | 1 < i < |a| ensures !a[i].sequence.Bool? && !b[i].sequence.Bool? {
      assert Agree(a[i], b[i], i);
    }
  }

  // ---------------------------------------------------------------- the file

  /** `[a-z0-9-]{1,64}`. */
  predicate KindName(kind: string) {
    1 <= |kind| <= 64 && forall i :: 0 <= i < |kind| ==>
      'a' <= kind[i] <= 'z' || '0' <= kind[i] <= '9' || kind[i] == '-'
  }

  /** The call gets as far as writing. */
  predicate Appendable(host: Host, raw: string, kind: string, body: Json) {
    KindName(kind) && body.Obj? && ParseJournal(host, raw).Some?
  }

  /** The records of a journal that parses, and none otherwise. */
  function RecordsIn(host: Host, raw: string): seq<Record> {
    if ParseJournal(host, raw).Some? then ParseJournal(host, raw).value else []
  }

  /** The line an append to some records writes. */
  function LineFor(host: Host, records: seq<Record>, kind: string, body: Json): string {
    if records == [] then "" else LineOf(NextRecord(host, records, Str(kind), body)) + "\n"
  }

  // ---------------------------------------------------------------- appends cut short

  /** One call of `_append_journal`, of whose line the system writes so many bytes. */
  datatype Write = Write(kind: string, body: Json, written: nat)

  function LineOfWrite(host: Host, raw: string, w: Write): string {
    LineFor(host, RecordsIn(host, raw), w.kind, w.body)
  }

  /** The file after a call: one that does not get as far as writing leaves it alone. */
  function Written(host: Host, raw: string, w: Write): string {
    if !Appendable(host, raw, w.kind, w.body) then raw
    else raw + LineOfWrite(host, raw, w)[..Min(w.written, |LineOfWrite(host, raw, w)|)]
  }

  /** The call leaves a part of its line, or its line in a file that is then too long. */
  predicate Spoils(host: Host, raw: string, w: Write) {
    && Appendable(host, raw, w.kind, w.body) && w.written > 0
    && (w.written < |LineOfWrite(host, raw, w)| || |raw| + |LineOfWrite(host, raw, w)| > MAX_JOURNAL)
  }

  lemma JournalNonempty(host: Host, raw: string)
    requires ParseJournal(host, raw).Some?
    ensures ParseJournal(host, raw).value != []
  {
  }

  /** A part of a line leaves a file that does not end in LF. */
  lemma TornUnreadable(host: Host, raw: string, line: string, n: nat)
    requires NoBreak(line) && 0 < n <= |line|
    ensures ParseJournal(host, raw + (line + "\n")[..n]) == None
  {
    var cut := raw + (line + "\n")[..n];
    assert cut[|cut| - 1] == line[n - 1];
  }

  /** What one call leaves to be read: one record more, the same records, or nothing. */
  lemma WriteExact(host: Host, raw: string, w: Write)
    requires PlainDecode(host) && WellKeyed(w.body) && Appendable(host, raw, w.kind, w.body)
    ensures var records := RecordsIn(host, raw);
            && records != []
            && ParseJournal(host, Written(host, raw, w))
               == if w.written == 0 then Some(records)
                  else if Spoils(host, raw, w) then None
                  else Some(records + [NormalRecord(NextRecord(host, records, Str(w.kind), w.body))])
  {
    JournalNonempty(host, raw);
    var records := RecordsIn(host, raw);
    var r := NextRecord(host, records, Str(w.kind), w.body);
    var line := LineOf(r) + "\n";
    if w.written == 0 {
      assert raw + line[..0] == raw;
    } else if w.written < |line| {
      RecordKeyed(r);
      CanonicalPrintable(ToJson(r));
      TornUnreadable(host, raw, LineOf(r), w.written);
    } else {
      assert line[..|line|] == line;
      AppendExact(host, raw, records, Str(w.kind), w.body);
    }
  }

  function AllWritten(host: Host, raw: string, ws: seq<Write>): string
    decreases |ws|
  {
    if ws == [] then raw else AllWritten(host, Written(host, raw, ws[0]), ws[1..])
  }

  /** No call spoils the file it is made on. */
  predicate NoneSpoils(host: Host, raw: string, ws: seq<Write>)
    decreases |ws|
  {
    ws == [] || (!Spoils(host, raw, ws[0]) && NoneSpoils(host, Written(host, raw, ws[0]), ws[1..]))
  }

  /** A file that cannot be read is never written again. */
  lemma {:induction false} UnreadableStays(host: Host, raw: string, ws: seq<Write>)
    requires ParseJournal(host, raw).None?
    ensures AllWritten(host, raw, ws) == raw && NoneSpoils(host, raw, ws)
    decreases |ws|
  {
    if ws != [] {
      UnreadableStays(host, raw, ws[1..]);
    }
  }

  /**
   * Over every run of appends, each cut off anywhere: a readable journal stays readable exactly when
   * no call leaves a part of a line or exceeds the bound, and a spoiled journal is never mended.
   */
  lemma {:induction false} AppendsReadable(host: Host, raw: string, ws: seq<Write>)
    requires PlainDecode(host) && ParseJournal(host, raw).Some? && forall i :: 0 <= i < |ws| ==> WellKeyed(ws[i].body)
    ensures ParseJournal(host, AllWritten(host, raw, ws)).Some? <==> NoneSpoils(host, raw, ws)
    decreases |ws|
  {
    if ws != [] {
      var next := Written(host, raw, ws[0]);
      if Appendable(host, raw, ws[0].kind, ws[0].body) {
        WriteExact(host, raw, ws[0]);
      }
      if ParseJournal(host, next).Some? {
        AppendsReadable(host, next, ws[1..]);
      } else {
        UnreadableStays(host, next, ws[1..]);
      }
    }
  }

  lemma SameSymmetric(v: Json)
    requires WellKeyed(v)
    ensures Same(Normal(v), v)
  {
    NormalKeyed(v);
    NormalTwice(v);
    NormalSame(Normal(v), v);
  }

  lemma MadeAgain(host: Host, records: seq<Record>, kind: string, body: Json)
    requires records != [] && WellKeyed(body)
    ensures var made := NextRecord(host, records, Str(kind), body); SameAs(NormalRecord(made), made)
  {
    SameSymmetric(body);
  }

  class File {
    var raw: string

    /**
     * `_append_journal`. The system writes the first `written` bytes of the line. The call succeeds
     * exactly when the whole line is written and the journal stays within its bound; when it fails
     * after writing, what was written stays in the file.
     */
    method Append(host: Host, kind: string, body: Json, written: nat) returns (made: Option<Record>)
      requires PlainDecode(host) && WellKeyed(body)
      modifies this
      ensures !Appendable(host, old(raw), kind, body) ==> made.None? && raw == old(raw)
      ensures Appendable(host, old(raw), kind, body) ==>
                var line := LineFor(host, RecordsIn(host, old(raw)), kind, body);
                && raw == old(raw) + line[..Min(written, |line|)]
                && (made.Some? <==> written >= |line| && |old(raw)| + |line| <= MAX_JOURNAL)
      ensures made.Some? ==>
                var records := RecordsIn(host, old(raw));
                && records != [] && made.value == NextRecord(host, records, Str(kind), body)
                && ParseJournal(host, raw) == Some(records + [NormalRecord(made.value)])
    {
      if !KindName(kind) || !body.Obj? {
        return None;
      }
      var parsed := ParseJournal(host, raw);
      if parsed.None? {
        return None;
      }
      var records := parsed.value;
      var record := NextRecord(host, records, Str(kind), body);
      var line := LineOf(record) + "\n";
      AppendExact(host, raw, records, Str(kind), body);
      MadeAgain(host, records, kind, body);
      made := Write(host, line, written, record, records);
    }

    /** The write, and the reading that checks it. */
    method Write(host: Host, line: string, written: nat, record: Record, ghost records: seq<Record>)
      returns (made: Option<Record>)
      requires ParseJournal(host, raw + line)
           == if |raw + line| <= MAX_JOURNAL then Some(records + [NormalRecord(record)]) else None
      requires SameAs(NormalRecord(record), record)
      modifies this
      ensures raw == old(raw) + line[..Min(written, |line|)]
      ensures made == if written >= |line| && |old(raw)| + |line| <= MAX_JOURNAL then Some(record) else None
      ensures made.Some? ==> ParseJournal(host, raw) == Some(records + [NormalRecord(record)])
    {
      raw := raw + line[..Min(written, |line|)];
      if written < |line| {
        return None;
      }
      assert line[..|line|] == line;
      var again := ParseJournal(host, raw);
      if again.None? || !SameAs(again.value[|again.value| - 1], record) {
        return None;
      }
      return Some(record);
    }
  }
}
