/** The reader that charges added bytes and lines from `git diff --numstat -z --patch` output. */
module Diff {
  import opened Basics
  import opened Decimals
  import opened Separated

  const NO_NEWLINE := "\\ No newline at end of file"

  // ---------------------------------------------------------------- hunk headers

  /** `\d+(?:,(\d+))?` at the start: the count's numeral, if written, and what follows. */
  function ReadRange(s: string): Option<(Option<nat>, string)> {
    var n := DigitRun(s);
    if n == 0 then None
    else
      var rest := s[n..];
      if "," <= rest && DigitRun(rest[1..]) > 0 then
        var m := DigitRun(rest[1..]);
        Some((Some(Number(rest[1..][..m])), rest[1..][m..]))
      else Some((None, rest))
  }

  function CountOf(written: Option<nat>): nat {
    if written.Some? then written.value else 1
  }

  /** ` \+` and the new range, up to the closing marks; text after them is free. */
  function ReadNewRange(rest: string): Option<nat> {
    if !(" +" <= rest) then None
    else
      match ReadRange(rest[2..])
      case None => None
      case Some((after, tail)) => if " @@" <= tail then Some(CountOf(after)) else None
  }

  /** The hunk header pattern. */
  function ReadHeader(line: string): Option<(nat, nat)> {
    if !("@@ -" <= line) then None
    else
      match ReadRange(line[4..])
      case None => None
      case Some((before, rest)) =>
        match ReadNewRange(rest)
        case None => None
        case Some(after) => Some((CountOf(before), after))
  }

  // ---------------------------------------------------------------- the line scanner

  /** The loop's variables. */
  datatype Scanner = Scanner(added: int, lines: nat, oldLeft: nat, newLeft: nat, lastAdded: bool)

  const START := Scanner(0, 0, 0, 0, false)

  function ReadContent(s: Scanner, line: string): Option<Scanner> {
    if line == "" then None
    else
      var before, after := line[0] == '-' || line[0] == ' ', line[0] == '+' || line[0] == ' ';
      if !(before || after) || (before && s.oldLeft == 0) || (after && s.newLeft == 0) then None
      else
        var plus := line[0] == '+';
        Some(Scanner(if plus then s.added + |line| else s.added, if plus then s.lines + 1 else s.lines,
                     if before then s.oldLeft - 1 else s.oldLeft, if after then s.newLeft - 1 else s.newLeft, plus))
  }

  function Step(s: Scanner, line: string): Option<Scanner> {
    if line == NO_NEWLINE then Some(s.(added := if s.lastAdded then s.added - 1 else s.added, lastAdded := false))
    else if s.oldLeft > 0 || s.newLeft > 0 then ReadContent(s, line)
    else if "@@ " <= line then
      match ReadHeader(line)
      case None => None
      case Some((before, after)) => Some(s.(oldLeft := before, newLeft := after, lastAdded := false))
    else if "Binary files " <= line || "GIT binary patch" <= line then None
    else Some(s.(lastAdded := false))
  }

  function ScanLines(s: Scanner, lines: seq<string>): Option<Scanner>
    decreases |lines|
  {
    if lines == [] then Some(s)
    else
      match Step(s, lines[0])
      case None => None
      case Some(t) => ScanLines(t, lines[1..])
  }

  // ---------------------------------------------------------------- the summary

  /** `split(b"\t", 2)`: three columns, the last one unsplit. */
  function Columns(record: string): Option<(string, string, string)> {
    var parts := Split(record, '\t');
    if |parts| < 3 then None else Some((parts[0], parts[1], Join(parts[2..], '\t')))
  }

  function ReadSummary(records: seq<string>): Option<nat>
    decreases |records|
  {
    if records == [] then Some(0)
    else
      match (Columns(records[0]), ReadSummary(records[1..]))
      case (Some((added, removed, _)), Some(rest)) =>
        if AllDigits(added) && AllDigits(removed) then Some(Number(added) + rest) else None
      case (_, _) => None
  }

  /** The position of the first pair of NULs. */
  function DoubleNul(s: string): Option<nat> {
    if |s| < 2 then None
    else if s[0] == '\0' && s[1] == '\0' then Some(0)
    else
      match DoubleNul(s[1..])
      case None => None
      case Some(n) => Some(n + 1)
  }

  /** The whole reading: the expected line count, and the patch text after the summary. */
  function Unwrap(output: string): Option<(nat, string)> {
    if output == "" then Some((0, ""))
    else
      match DoubleNul(output)
      case None => None
      case Some(n) =>
        if n + 2 > |output| then None
        else
          match ReadSummary(Split(output[..n], '\0'))
          case None => None
          case Some(expected) => Some((expected, output[n + 2..]))
  }

  /** The patch text against the expected number of added lines. */
  function Charge(expected: nat, text: string): Option<int> {
    var records := Split(text, '\n');
    if records[|records| - 1] != "" then None
    else
      match ScanLines(START, records[..|records| - 1])
      case None => None
      case Some(s) => if s.oldLeft == 0 && s.newLeft == 0 && s.lines == expected then Some(s.added) else None
  }

  /** `_gross_added_line_bytes` on Git's output. */
  function GrossAdded(output: string): Option<int> {
    match Unwrap(output)
    case None => None
    case Some((expected, text)) => Charge(expected, text)
  }

  /** What the reader concludes from a finished scan. */
  function Concluded(scanned: Option<Scanner>, expected: nat): Option<int> {
    match scanned
    case None => None
    case Some(s) => if s.oldLeft == 0 && s.newLeft == 0 && s.lines == expected then Some(s.added) else None
  }

  /** A line inside a hunk: the counters go down, and an added line is charged. */
  method TakeContent(line: string, bytes: int, lines: nat, before: nat, after: nat)
    returns (ok: bool, charged: int, counted: int, oldLeft: int, newLeft: int, lastAdded: bool)
    requires before > 0 || after > 0
    ensures forall was :: ReadContent(Scanner(bytes, lines, before, after, was), line)
              == if ok && oldLeft >= 0 && newLeft >= 0 && counted >= 0
                 then Some(Scanner(charged, counted, oldLeft, newLeft, lastAdded)) else None
    ensures ok ==> oldLeft >= 0 && newLeft >= 0 && counted >= 0
  {
    charged, counted, oldLeft, newLeft, lastAdded := bytes, lines, before, after, false;
    if line == "" || (line[0] != '+' && line[0] != '-' && line[0] != ' ') {
      return false, charged, counted, oldLeft, newLeft, lastAdded;
    }
    oldLeft := if line[0] == '-' || line[0] == ' ' then oldLeft - 1 else oldLeft;
    newLeft := if line[0] == '+' || line[0] == ' ' then newLeft - 1 else newLeft;
    if oldLeft < 0 || newLeft < 0 {
      return false, charged, counted, oldLeft, newLeft, lastAdded;
    }
    lastAdded := line[0] == '+';
    if lastAdded {
      counted := counted + 1;
      charged := charged + |line|;
    }
    ok := true;
  }

  /** The patch loop as written: it computes the same scan. */
  method ReadPatch(records: seq<string>, expected: nat) returns (added: Option<int>)
    ensures added == Concluded(ScanLines(START, records), expected)
  {
    var bytes: int, lines: int, oldLeft: int, newLeft: int, lastAdded := 0, 0, 0, 0, false;
    var i := 0;
    assert records[0..] == records;
    while i < |records|
      invariant 0 <= i <= |records| && lines >= 0 && oldLeft >= 0 && newLeft >= 0
      invariant ScanLines(START, records) == ScanLines(Scanner(bytes, lines, oldLeft, newLeft, lastAdded), records[i..])
    {
      var line := records[i];
      ghost var s := Scanner(bytes, lines, oldLeft, newLeft, lastAdded);
      ScanStep(s, records, i);
      i := i + 1;
      if line == NO_NEWLINE {
        if lastAdded {
          bytes := bytes - 1;
        }
        lastAdded := false;
        continue;
      }
      if oldLeft > 0 || newLeft > 0 {
        var ok;
        ok, bytes, lines, oldLeft, newLeft, lastAdded := TakeContent(line, bytes, lines, oldLeft, newLeft);
        assert Step(s, line) == ReadContent(s, line);
        if !ok {
          return None;
        }
        continue;
      }
      lastAdded := false;
      if "@@ " <= line {
        var hunk := ReadHeader(line);
        if hunk.None? {
          return None;
        }
        oldLeft, newLeft := hunk.value.0, hunk.value.1;
      } else if "Binary files " <= line || "GIT binary patch" <= line {
        return None;
      }
    }
    assert records[i..] == [];
    if oldLeft == 0 && newLeft == 0 && lines == expected {
      return Some(bytes);
    }
    return None;
  }

  lemma ScanStep(s: Scanner, records: seq<string>, i: nat)
    requires i < |records|
    ensures ScanLines(s, records[i..])
         == match Step(s, records[i]) case None => None case Some(t) => ScanLines(t, records[i + 1..])
  {
    assert records[i..][0] == records[i] && records[i..][1..] == records[i + 1..];
  }
}
