/** Structured patches, how Git prints them, and the theorem about reading them back. */
module Patches {
  import opened Basics
  import opened Decimals
  import opened Separated
  import opened Diff

  datatype Kind = Added | Removed | Context

  /** One line of a hunk; `bare` says that the file ends there without a newline. */
  datatype HunkLine = HunkLine(kind: Kind, text: string, bare: bool)

  /** Start lines, whether each count is written out, the free section text, and the content. */
  datatype Hunk = Hunk(oldStart: nat, oldWritten: bool, newStart: nat, newWritten: bool, section: string,
                       lines: seq<HunkLine>)

  datatype FileDiff = FileDiff(headers: seq<string>, hunks: seq<Hunk>)

  /** One numstat record. */
  datatype Stat = Stat(added: nat, removed: nat, path: string)

  // ---------------------------------------------------------------- meaning

  function OldCount(lines: seq<HunkLine>): nat {
    if lines == [] then 0 else (if lines[0].kind == Added then 0 else 1) + OldCount(lines[1..])
  }

  function NewCount(lines: seq<HunkLine>): nat {
    if lines == [] then 0 else (if lines[0].kind == Removed then 0 else 1) + NewCount(lines[1..])
  }

  /** Bytes of an added line, its newline included unless the file ends without one. */
  function LineBytes(l: HunkLine): nat {
    if l.kind == Added then |l.text| + (if l.bare then 0 else 1) else 0
  }

  function HunkBytes(lines: seq<HunkLine>): nat {
    if lines == [] then 0 else LineBytes(lines[0]) + HunkBytes(lines[1..])
  }

  function HunkAdded(lines: seq<HunkLine>): nat {
    if lines == [] then 0 else (if lines[0].kind == Added then 1 else 0) + HunkAdded(lines[1..])
  }

  function HunksBytes(hunks: seq<Hunk>): nat {
    if hunks == [] then 0 else HunkBytes(hunks[0].lines) + HunksBytes(hunks[1..])
  }

  function HunksAdded(hunks: seq<Hunk>): nat {
    if hunks == [] then 0 else HunkAdded(hunks[0].lines) + HunksAdded(hunks[1..])
  }

  function PatchBytes(patch: seq<FileDiff>): nat {
    if patch == [] then 0 else HunksBytes(patch[0].hunks) + PatchBytes(patch[1..])
  }

  function PatchAdded(patch: seq<FileDiff>): nat {
    if patch == [] then 0 else HunksAdded(patch[0].hunks) + PatchAdded(patch[1..])
  }

  function StatAdded(stats: seq<Stat>): nat {
    if stats == [] then 0 else stats[0].added + StatAdded(stats[1..])
  }

  // ---------------------------------------------------------------- printing

  function Prefix(k: Kind): char {
    match k
    case Added => '+'
    case Removed => '-'
    case Context => ' '
  }

  function PrintLine(l: HunkLine): seq<string> {
    [[Prefix(l.kind)] + l.text] + (if l.bare then ["\\ No newline at end of file"] else [])
  }

  function PrintLines(lines: seq<HunkLine>): seq<string> {
    if lines == [] then [] else PrintLine(lines[0]) + PrintLines(lines[1..])
  }

  function PrintRange(start: nat, written: bool, count: nat): string {
    if written then Decimal(start) + "," + Decimal(count) else Decimal(start)
  }

  function PrintHeader(h: Hunk): string {
    "@@ -" + PrintRange(h.oldStart, h.oldWritten, OldCount(h.lines))
    + " +" + PrintRange(h.newStart, h.newWritten, NewCount(h.lines)) + " @@" + h.section
  }

  function PrintHunks(hunks: seq<Hunk>): seq<string> {
    if hunks == [] then [] else [PrintHeader(hunks[0])] + PrintLines(hunks[0].lines) + PrintHunks(hunks[1..])
  }

  function PrintPatch(patch: seq<FileDiff>): seq<string> {
    if patch == [] then [] else patch[0].headers + PrintHunks(patch[0].hunks) + PrintPatch(patch[1..])
  }

  function Terminated(lines: seq<string>): string {
    if lines == [] then "" else lines[0] + "\n" + Terminated(lines[1..])
  }

  function PrintStat(s: Stat): string {
    Decimal(s.added) + "\t" + Decimal(s.removed) + "\t" + s.path
  }

  function PrintStats(stats: seq<Stat>): seq<string> {
    seq(|stats|, i requires 0 <= i < |stats| => PrintStat(stats[i]))
  }

  /** Git's whole output: nothing for an empty difference, else the summary, two NULs, and the patch. */
  function Output(stats: seq<Stat>, patch: seq<FileDiff>): string {
    if stats == [] then "" else Join(PrintStats(stats), '\0') + "\0\0" + Terminated(PrintPatch(patch))
  }

  // ---------------------------------------------------------------- well-formed patches

  predicate PlainHeader(line: string) {
    && '\n' !in line && line != NO_NEWLINE
    && !("@@ " <= line) && !("Binary files " <= line) && !("GIT binary patch" <= line)
  }

  predicate ValidHunk(h: Hunk) {
    && '\n' !in h.section
    && (!h.oldWritten ==> OldCount(h.lines) == 1) && (!h.newWritten ==> NewCount(h.lines) == 1)
    && forall i :: 0 <= i < |h.lines| ==> '\n' !in h.lines[i].text
  }

  predicate ValidFile(f: FileDiff) {
    && (forall i :: 0 <= i < |f.headers| ==> PlainHeader(f.headers[i]))
    && forall i :: 0 <= i < |f.hunks| ==> ValidHunk(f.hunks[i])
  }

  predicate ValidPatch(patch: seq<FileDiff>) {
    forall i :: 0 <= i < |patch| ==> ValidFile(patch[i])
  }

  predicate ValidStats(stats: seq<Stat>) {
    forall i :: 0 <= i < |stats| ==> stats[i].path != "" && '\0' !in stats[i].path
  }

  // ---------------------------------------------------------------- headers read back

  predicate Numeral(digits: string) {
    digits != "" && forall i :: 0 <= i < |digits| ==> IsDigit(digits[i])
  }

  lemma PlainRangeRead(digits: string, rest: string)
    requires Numeral(digits) && rest != "" && rest[0] == ' '
    ensures ReadRange(digits + rest) == Some((None, rest))
  {
    DigitRunOf(digits, rest);
    assert (digits + rest)[|digits|..] == rest;
  }

  lemma WrittenRangeRead(digits: string, numeral: string, rest: string)
    requires Numeral(digits) && Numeral(numeral) && rest != "" && rest[0] == ' '
    ensures ReadRange(digits + ("," + (numeral + rest))) == Some((Some(Number(numeral)), rest))
  {
    var tail := "," + (numeral + rest);
    DigitRunOf(digits, tail);
    assert (digits + tail)[|digits|..] == tail && tail[1..] == numeral + rest;
    DigitRunOf(numeral, rest);
    assert (numeral + rest)[..|numeral|] == numeral && (numeral + rest)[|numeral|..] == rest;
  }

  lemma RangeRead(start: nat, written: bool, count: nat, rest: string)
    requires rest != "" && rest[0] == ' '
    requires !written ==> count == 1
    ensures ReadRange(PrintRange(start, written, count) + rest)
         == Some((if written then Some(count) else None, rest))
  {
    if written {
      assert PrintRange(start, written, count) + rest == Decimal(start) + ("," + (Decimal(count) + rest));
      WrittenRangeRead(Decimal(start), Decimal(count), rest);
      NumberDecimal(count);
    } else {
      PlainRangeRead(Decimal(start), rest);
    }
  }

  lemma NewRangeRead(start: nat, written: bool, count: nat, section: string)
    requires !written ==> count == 1
    ensures ReadNewRange(" +" + PrintRange(start, written, count) + " @@" + section) == Some(count)
  {
    var tail := " @@" + section;
    var part := PrintRange(start, written, count);
    var rest := " +" + part + " @@" + section;
    assert rest == " +" + (part + tail);
    assert rest[2..] == part + tail;
    RangeRead(start, written, count, tail);
  }

  lemma HeaderRead(h: Hunk)
    requires ValidHunk(h)
    ensures ReadHeader(PrintHeader(h)) == Some((OldCount(h.lines), NewCount(h.lines)))
  {
    var part := PrintRange(h.oldStart, h.oldWritten, OldCount(h.lines));
    var rest := " +" + PrintRange(h.newStart, h.newWritten, NewCount(h.lines)) + " @@" + h.section;
    var line := "@@ -" + (part + rest);
    assert PrintHeader(h) == line;
    assert line[4..] == part + rest;
    RangeRead(h.oldStart, h.oldWritten, OldCount(h.lines), rest);
    NewRangeRead(h.newStart, h.newWritten, NewCount(h.lines), h.section);
  }

  // ---------------------------------------------------------------- the scan over printed lines

  lemma {:induction false} ScanAppend(s: Scanner, a: seq<string>, b: seq<string>)
    ensures ScanLines(s, a + b)
         == match ScanLines(s, a) case None => None case Some(t) => ScanLines(t, b)
    decreases |a|
  {
    if a == [] {
      assert a + b == b;
    } else {
      assert (a + b)[0] == a[0] && (a + b)[1..] == a[1..] + b;
      if Step(s, a[0]).Some? {
        ScanAppend(Step(s, a[0]).value, a[1..], b);
      }
    }
  }

  /** The scanner after reading: the charge, and nothing left of a hunk. */
  predicate Reached(t: Option<Scanner>, s: Scanner, bytes: int, lines: nat) {
    t.Some? && t.value.added == s.added + bytes && t.value.lines == s.lines + lines
  }

  lemma ContentIsNoMarker(l: HunkLine)
    ensures [Prefix(l.kind)] + l.text != NO_NEWLINE
  {
    assert NO_NEWLINE[0] == '\\';
  }

  lemma LineScanned(s: Scanner, l: HunkLine)
    requires l.kind != Added ==> s.oldLeft > 0
    requires l.kind != Removed ==> s.newLeft > 0
    ensures var t := ScanLines(s, PrintLine(l));
            && Reached(t, s, LineBytes(l), if l.kind == Added then 1 else 0)
            && t.value.oldLeft == s.oldLeft - (if l.kind == Added then 0 else 1)
            && t.value.newLeft == s.newLeft - (if l.kind == Removed then 0 else 1)
  {
    var line := [Prefix(l.kind)] + l.text;
    ContentIsNoMarker(l);
    var mid := ReadContent(s, line).value;
    assert Step(s, line) == Some(mid);
    if l.bare {
      var printed := [line, NO_NEWLINE];
      assert PrintLine(l) == printed;
      assert printed[1..] == [NO_NEWLINE] && printed[1..][1..] == [];
      var end := mid.(added := if mid.lastAdded then mid.added - 1 else mid.added, lastAdded := false);
      assert Step(mid, NO_NEWLINE) == Some(end);
      assert ScanLines(mid, [NO_NEWLINE]) == Some(end);
    } else {
      assert PrintLine(l) == [line] && PrintLine(l)[1..] == [];
    }
  }

  lemma {:induction false} LinesScanned(s: Scanner, lines: seq<HunkLine>)
    requires s.oldLeft == OldCount(lines) && s.newLeft == NewCount(lines)
    ensures var t := ScanLines(s, PrintLines(lines));
            Reached(t, s, HunkBytes(lines), HunkAdded(lines)) && t.value.oldLeft == 0 && t.value.newLeft == 0
    decreases |lines|
  {
    if lines != [] {
      LineScanned(s, lines[0]);
      var t := ScanLines(s, PrintLine(lines[0])).value;
      LinesScanned(t, lines[1..]);
      ScanAppend(s, PrintLine(lines[0]), PrintLines(lines[1..]));
    }
  }

  /** Between hunks nothing is left to read. */
  predicate Idle(s: Scanner) {
    s.oldLeft == 0 && s.newLeft == 0
  }

  lemma HeaderStep(s: Scanner, h: Hunk)
    requires Idle(s) && ValidHunk(h)
    ensures Step(s, PrintHeader(h))
         == Some(s.(oldLeft := OldCount(h.lines), newLeft := NewCount(h.lines), lastAdded := false))
  {
    HeaderRead(h);
    var line := PrintHeader(h);
    assert line[0] == '@' && NO_NEWLINE[0] == '\\';
    assert line[..4] == "@@ -";
    assert "@@ " <= line;
  }

  lemma HunkScanned(s: Scanner, h: Hunk)
    requires Idle(s) && ValidHunk(h)
    ensures var t := ScanLines(s, [PrintHeader(h)] + PrintLines(h.lines));
            Reached(t, s, HunkBytes(h.lines), HunkAdded(h.lines)) && Idle(t.value)
  {
    HeaderStep(s, h);
    var begun := s.(oldLeft := OldCount(h.lines), newLeft := NewCount(h.lines), lastAdded := false);
    LinesScanned(begun, h.lines);
    var all := [PrintHeader(h)] + PrintLines(h.lines);
    assert all[0] == PrintHeader(h) && all[1..] == PrintLines(h.lines);
  }

  lemma {:induction false} HunksScanned(s: Scanner, hunks: seq<Hunk>)
    requires Idle(s) && forall i :: 0 <= i < |hunks| ==> ValidHunk(hunks[i])
    ensures var t := ScanLines(s, PrintHunks(hunks));
            Reached(t, s, HunksBytes(hunks), HunksAdded(hunks)) && Idle(t.value)
    decreases |hunks|
  {
    if hunks != [] {
      HunkScanned(s, hunks[0]);
      var one := [PrintHeader(hunks[0])] + PrintLines(hunks[0].lines);
      var t := ScanLines(s, one).value;
      HunksScanned(t, hunks[1..]);
      ScanAppend(s, one, PrintHunks(hunks[1..]));
    }
  }

  lemma {:induction false} HeadersScanned(s: Scanner, headers: seq<string>)
    requires Idle(s) && forall i :: 0 <= i < |headers| ==> PlainHeader(headers[i])
    ensures var t := ScanLines(s, headers); Reached(t, s, 0, 0) && Idle(t.value)
    decreases |headers|
  {
    if headers != [] {
      assert Step(s, headers[0]) == Some(s.(lastAdded := false));
      HeadersScanned(s.(lastAdded := false), headers[1..]);
    }
  }

  lemma {:induction false} PatchScanned(s: Scanner, patch: seq<FileDiff>)
    requires Idle(s) && ValidPatch(patch)
    ensures var t := ScanLines(s, PrintPatch(patch));
            Reached(t, s, PatchBytes(patch), PatchAdded(patch)) && Idle(t.value)
    decreases |patch|
  {
    if patch != [] {
      var f := patch[0];
      assert ValidFile(f);
      HeadersScanned(s, f.headers);
      var t := ScanLines(s, f.headers).value;
      HunksScanned(t, f.hunks);
      var u := ScanLines(t, PrintHunks(f.hunks)).value;
      PatchScanned(u, patch[1..]);
      ScanAppend(s, f.headers + PrintHunks(f.hunks), PrintPatch(patch[1..]));
      ScanAppend(s, f.headers, PrintHunks(f.hunks));
    }
  }

  // ---------------------------------------------------------------- bytes

  lemma {:induction false} SplitTerminated(lines: seq<string>)
    requires forall i :: 0 <= i < |lines| ==> '\n' !in lines[i]
    ensures Split(Terminated(lines), '\n') == lines + [""]
  {
    if lines == [] {
      assert lines + [""] == [""];
    } else {
      SplitTerminated(lines[1..]);
      SplitHead(lines[0], Terminated(lines[1..]), '\n');
      assert lines[0] + "\n" + Terminated(lines[1..]) == lines[0] + ['\n'] + Terminated(lines[1..]);
      assert [lines[0]] + (lines[1..] + [""]) == lines + [""];
    }
  }

  lemma {:induction false} DecimalPlain(n: nat)
    ensures '\n' !in Decimal(n) && '\0' !in Decimal(n) && '\t' !in Decimal(n)
  {
    assert !IsDigit('\n') && !IsDigit('\0') && !IsDigit('\t');
  }

  predicate OneLine(lines: seq<string>) {
    forall i :: 0 <= i < |lines| ==> '\n' !in lines[i]
  }

  lemma HeaderOneLine(h: Hunk)
    requires ValidHunk(h)
    ensures '\n' !in PrintHeader(h)
  {
    DecimalPlain(h.oldStart);
    DecimalPlain(h.newStart);
    DecimalPlain(OldCount(h.lines));
    DecimalPlain(NewCount(h.lines));
  }

  lemma {:induction false} LinesOneLine(lines: seq<HunkLine>)
    requires forall i :: 0 <= i < |lines| ==> '\n' !in lines[i].text
    ensures OneLine(PrintLines(lines))
  {
    if lines != [] {
      LinesOneLine(lines[1..]);
      assert '\n' !in NO_NEWLINE;
      assert OneLine(PrintLine(lines[0]));
    }
  }

  lemma {:induction false} HunksOneLine(hunks: seq<Hunk>)
    requires forall i :: 0 <= i < |hunks| ==> ValidHunk(hunks[i])
    ensures OneLine(PrintHunks(hunks))
  {
    if hunks != [] {
      HunksOneLine(hunks[1..]);
      assert ValidHunk(hunks[0]);
      LinesOneLine(hunks[0].lines);
      HeaderOneLine(hunks[0]);
    }
  }

  lemma {:induction false} PatchOneLine(patch: seq<FileDiff>)
    requires ValidPatch(patch)
    ensures OneLine(PrintPatch(patch))
  {
    if patch != [] {
      PatchOneLine(patch[1..]);
      assert ValidFile(patch[0]);
      HunksOneLine(patch[0].hunks);
    }
  }

  // ---------------------------------------------------------------- the summary read back

  lemma ColumnsOf(a: string, b: string, path: string)
    requires '\t' !in a && '\t' !in b
    ensures Columns(a + ['\t'] + (b + ['\t'] + path)) == Some((a, b, path))
  {
    SplitHead(a, b + ['\t'] + path, '\t');
    SplitHead(b, path, '\t');
    var parts := [a] + ([b] + Split(path, '\t'));
    assert parts[2..] == Split(path, '\t');
    JoinSplit(path, '\t');
  }

  lemma StatColumns(s: Stat)
    ensures Columns(PrintStat(s)) == Some((Decimal(s.added), Decimal(s.removed), s.path))
  {
    DecimalPlain(s.added);
    DecimalPlain(s.removed);
    var a, b := Decimal(s.added), Decimal(s.removed);
    assert PrintStat(s) == a + ['\t'] + (b + ['\t'] + s.path);
    ColumnsOf(a, b, s.path);
  }

  lemma {:induction false} SummaryRead(stats: seq<Stat>)
    ensures ReadSummary(PrintStats(stats)) == Some(StatAdded(stats))
  {
    if stats != [] {
      assert PrintStats(stats)[0] == PrintStat(stats[0]);
      assert PrintStats(stats)[1..] == PrintStats(stats[1..]);
      SummaryRead(stats[1..]);
      StatColumns(stats[0]);
      NumberDecimal(stats[0].added);
    }
  }

  /** No two NULs touch, and none stands last. */
  predicate Spaced(head: string) {
    forall i :: 0 <= i < |head| && head[i] == '\0' ==> i + 1 < |head| && head[i + 1] != '\0'
  }

  lemma {:induction false} DoubleNulAfter(head: string, rest: string)
    requires Spaced(head)
    ensures DoubleNul(head + "\0\0" + rest) == Some(|head|)
  {
    var s := head + "\0\0" + rest;
    if head != "" {
      assert s[1..] == head[1..] + "\0\0" + rest;
      assert Spaced(head[1..]) by {
        forall i | 0 <= i < |head[1..]| && head[1..][i] == '\0'
          ensures i + 1 < |head[1..]| && head[1..][i + 1] != '\0'
        {
          assert head[i + 1] == '\0';
        }
      }
      DoubleNulAfter(head[1..], rest);
    }
  }

  lemma {:induction false} JoinSpaced(parts: seq<string>)
    requires |parts| >= 1
    requires forall i :: 0 <= i < |parts| ==> parts[i] != "" && '\0' !in parts[i]
    ensures Spaced(Join(parts, '\0')) && Join(parts, '\0') != "" && Join(parts, '\0')[0] != '\0'
  {
    var joined := Join(parts, '\0');
    assert parts[0][0] in parts[0];
    if |parts| == 1 {
      assert joined == parts[0];
      assert forall i :: 0 <= i < |joined| ==> joined[i] in parts[0];
    } else {
      var rest := Join(parts[1..], '\0');
      JoinSpaced(parts[1..]);
      var n := |parts[0]|;
      assert joined == parts[0] + ['\0'] + rest;
      assert forall i :: 0 <= i < n ==> joined[i] == parts[0][i] && joined[i] in parts[0];
      forall i | 0 <= i < |joined| && joined[i] == '\0'
        ensures i + 1 < |joined| && joined[i + 1] != '\0'
      {
        if i == n {
          assert joined[i + 1] == rest[0];
        } else {
          assert joined[i] == rest[i - n - 1];
          assert i - n < |rest| && joined[i + 1] == rest[i - n];
        }
      }
    }
  }

  lemma OutputUnwrapped(stats: seq<Stat>, patch: seq<FileDiff>)
    requires ValidStats(stats) && stats != []
    ensures Unwrap(Output(stats, patch)) == Some((StatAdded(stats), Terminated(PrintPatch(patch))))
  {
    var records := PrintStats(stats);
    forall i | 0 <= i < |records|
      ensures records[i] != "" && '\0' !in records[i]
    {
      DecimalPlain(stats[i].added);
      DecimalPlain(stats[i].removed);
    }
    var head := Join(records, '\0');
    JoinSpaced(records);
    DoubleNulAfter(head, Terminated(PrintPatch(patch)));
    var output := Output(stats, patch);
    assert output[..|head|] == head && output[|head| + 2..] == Terminated(PrintPatch(patch));
    SplitJoin(records, '\0');
    SummaryRead(stats);
  }

  lemma PatchRead(patch: seq<FileDiff>) returns (t: Scanner)
    requires ValidPatch(patch)
    ensures ScanLines(START, PrintPatch(patch)) == Some(t) && Idle(t)
    ensures t.lines == PatchAdded(patch) && t.added == PatchBytes(patch)
  {
    PatchScanned(START, patch);
    t := ScanLines(START, PrintPatch(patch)).value;
  }

  lemma ChargeTerminated(lines: seq<string>, expected: nat, t: Scanner)
    requires OneLine(lines) && ScanLines(START, lines) == Some(t) && Idle(t)
    ensures Charge(expected, Terminated(lines)) == if expected == t.lines then Some(t.added) else None
  {
    SplitTerminated(lines);
    var records := Split(Terminated(lines), '\n');
    assert records[..|records| - 1] == lines;
  }

  /**
   * For every well-formed multi-file patch, whatever its content lines look like, the reader returns
   * exactly the bytes of the added lines, newlines counted where they exist, when the line count
   * agrees with numstat, and refuses the output when it does not.
   */
  lemma GrossAddedExact(stats: seq<Stat>, patch: seq<FileDiff>)
    requires ValidStats(stats) && ValidPatch(patch) && (stats == [] ==> patch == [])
    ensures GrossAdded(Output(stats, patch))
         == if StatAdded(stats) == PatchAdded(patch) then Some(PatchBytes(patch)) else None
  {
    if stats != [] {
      OutputUnwrapped(stats, patch);
    } else {
      assert Unwrap(Output(stats, patch)) == Some((0, Terminated(PrintPatch(patch))));
    }
    PatchOneLine(patch);
    var t := PatchRead(patch);
    ChargeTerminated(PrintPatch(patch), StatAdded(stats), t);
  }
}
