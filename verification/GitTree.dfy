/**
 * Git tree objects in bytes: the strict reader used for the source plan, the wider reader used for
 * the integrity walk, and the encoder they both undo. A byte string is a string of characters that
 * each stand for one byte; object ids are kept as their twenty bytes, not as hex.
 */
module GitTree {
  import opened Basics
  import opened Order
  import opened Separated

  const MAX_TREE_BYTES := 32 * 1024 * 1024
  const MAX_REACHABLE_OBJECTS := 20_000
  const MAX_ENTRIES := 10_000
  const MAX_PATH_BYTES := 4096
  const MAX_PATH_COMPONENTS := 64
  const MAX_COMPONENT_BYTES := 255

  const FILE := "100644"
  const EXECUTABLE := "100755"
  const TREE := "40000"
  const LINK := "120000"
  const COMMIT := "160000"

  const SENTINEL_NAME := ".cogs-stage2-source-v1"
  const MANIFEST_NAME := ".cogs-stage2-source-manifest-v1.json"
  const STATE_RELATIVE := ["deploy", "aws-feasibility", ".state"]

  datatype Row = Row(mode: string, name: string, id: string)

  // ---------------------------------------------------------------- paths

  predicate ReservedName(part: string) {
    part == "." || part == ".." || part == ".git" || part == "node_modules"
  }

  predicate Controlled(part: string) {
    exists i :: 0 <= i < |part| && (part[i] < ' ' || part[i] as int == 127)
  }

  predicate ValidPart(part: string) {
    part != "" && !ReservedName(part) && |part| <= MAX_COMPONENT_BYTES && !Controlled(part)
  }

  /**
   * `_validated_path`. `text` says which byte strings are strict UTF-8 already in composed normal
   * form; the rest is decided on bytes, where UTF-8 keeps slashes and control characters apart from
   * every longer character.
   */
  predicate ValidPath(text: string -> bool, raw: string) {
    && raw != "" && |raw| <= MAX_PATH_BYTES && '\0' !in raw && text(raw) && raw[0] != '/'
    && ValidParts(Split(raw, '/'))
  }

  predicate ValidParts(parts: seq<string>) {
    && 1 <= |parts| <= MAX_PATH_COMPONENTS
    && (forall i :: 0 <= i < |parts| ==> ValidPart(parts[i]))
    && !(STATE_RELATIVE <= parts)
    && parts[0] != SENTINEL_NAME && parts[0] != MANIFEST_NAME
  }

  // ---------------------------------------------------------------- rows in bytes

  /** `bytes.find`: the first position of `c` at or after `from`, or -1. */
  function Find(raw: string, c: char, from: nat): (k: int)
    requires from <= |raw|
    ensures k == -1 || from <= k < |raw|
    ensures k == -1 ==> c !in raw[from..]
    ensures k != -1 ==> raw[k] == c && c !in raw[from..k]
    decreases |raw| - from
  {
    if from == |raw| then -1
    else if raw[from] == c then from
    else
      var k := Find(raw, c, from + 1);
      assert raw[from..] == [raw[from]] + raw[from + 1..];
      assert k != -1 ==> raw[from..k] == [raw[from]] + raw[from + 1..k];
      k
  }

  /** One row at an offset, and the offset after it. */
  function ReadRow(raw: string, offset: nat): (r: Option<(Row, nat)>)
    requires offset < |raw|
    ensures r.Some? ==> offset < r.value.1 <= |raw|
  {
    var space := Find(raw, ' ', offset);
    var nul := Find(raw, '\0', space + 1);
    if space > offset && nul > space + 1 && nul + 21 <= |raw|
    then Some((Row(raw[offset..space], raw[space + 1..nul], raw[nul + 1..nul + 21]), nul + 21))
    else None
  }

  function ReadRows(raw: string, offset: nat): Option<seq<Row>>
    requires offset <= |raw|
    decreases |raw| - offset
  {
    if offset == |raw| then Some([])
    else
      match ReadRow(raw, offset)
      case None => None
      case Some((row, next)) =>
        match ReadRows(raw, next)
        case None => None
        case Some(rest) => Some([row] + rest)
  }

  function EncodeRow(row: Row): string {
    row.mode + " " + row.name + "\0" + row.id
  }

  function Encode(rows: seq<Row>): string {
    if rows == [] then "" else EncodeRow(rows[0]) + Encode(rows[1..])
  }

  // ---------------------------------------------------------------- which rows are accepted

  function OrderKey(row: Row): string {
    if row.mode == TREE then row.name + "/" else row.name
  }

  predicate StrictName(text: string -> bool, name: string) {
    '/' !in name && !ReservedName(name) && ValidPath(text, name)
  }

  predicate StrictRow(text: string -> bool, row: Row) {
    && (row.mode == FILE || row.mode == EXECUTABLE || row.mode == TREE)
    && StrictName(text, row.name) && |row.id| == 20
  }

  predicate IntegrityRow(row: Row) {
    && (row.mode == FILE || row.mode == EXECUTABLE || row.mode == LINK || row.mode == COMMIT || row.mode == TREE)
    && row.name != "" && row.name != "." && row.name != ".." && '/' !in row.name && '\0' !in row.name
    && |row.id| == 20
  }

  /** Unique names, strictly increasing order keys: a tree's key ends in a slash. */
  predicate Ordered(rows: seq<Row>) {
    && (forall i, j :: 0 <= i < j < |rows| ==> rows[i].name != rows[j].name)
    && (forall i, j :: 0 <= i < j < |rows| ==> Less(OrderKey(rows[i]), OrderKey(rows[j])))
  }

  ghost predicate StrictTree(text: string -> bool, rows: seq<Row>) {
    (forall i :: 0 <= i < |rows| ==> StrictRow(text, rows[i])) && Ordered(rows) && |rows| <= MAX_ENTRIES
  }

  ghost predicate IntegrityTree(rows: seq<Row>) {
    (forall i :: 0 <= i < |rows| ==> IntegrityRow(rows[i])) && Ordered(rows) && |rows| <= MAX_REACHABLE_OBJECTS
  }

  /** What the integrity reader keeps of a row. */
  function Kept(rows: seq<Row>): (kept: seq<(string, string)>)
    ensures |kept| == |rows| && forall i :: 0 <= i < |rows| ==> kept[i] == (rows[i].mode, rows[i].id)
  {
    seq(|rows|, i requires 0 <= i < |rows| => (rows[i].mode, rows[i].id))
  }

  // ---------------------------------------------------------------- reading undoes writing

  /** The shape a row needs for its bytes to be read back. */
  predicate Framed(row: Row) {
    row.mode != "" && ' ' !in row.mode && row.name != "" && '\0' !in row.name && |row.id| == 20
  }

  lemma {:induction false} FindAt(raw: string, c: char, from: nat, k: nat)
    requires from <= k < |raw| && raw[k] == c && c !in raw[from..k]
    ensures Find(raw, c, from) == k
    decreases k - from
  {
    if from < k {
      assert raw[from..k] == [raw[from]] + raw[from + 1..k];
      FindAt(raw, c, from + 1, k);
    }
  }

  lemma SlicedFrom(raw: string, offset: nat, e: string, lo: nat, hi: nat)
    requires offset + |e| <= |raw| && raw[offset..offset + |e|] == e && lo <= hi <= |e|
    ensures raw[offset + lo..offset + hi] == e[lo..hi]
  {
    forall i | 0 <= i < hi - lo
      ensures raw[offset + lo..offset + hi][i] == e[lo..hi][i]
    {
      assert raw[offset..offset + |e|][lo + i] == raw[offset + lo + i];
    }
  }

  lemma SplitAfter(raw: string, offset: nat, head: string, tail: string)
    requires offset <= |raw| && raw[offset..] == head + tail
    ensures offset + |head| <= |raw|
    ensures raw[offset..offset + |head|] == head && raw[offset + |head|..] == tail
  {
    var s := raw[offset..];
    assert |s| == |head| + |tail|;
    assert s[..|head|] == head && s[|head|..] == tail;
    assert raw[offset..offset + |head|] == s[..|head|];
    assert raw[offset + |head|..] == s[|head|..];
  }

  lemma CharFrom(raw: string, offset: nat, e: string, i: nat)
    requires offset + |e| <= |raw| && raw[offset..offset + |e|] == e && i < |e|
    ensures raw[offset + i] == e[i]
  {
    assert raw[offset..offset + |e|][i] == raw[offset + i];
  }

  /** The parts of a row's bytes, by position. */
  predicate Laid(e: string, row: Row) {
    var m, n := |row.mode|, |row.mode| + 1 + |row.name|;
    && |row.id| == 20 && |e| == n + 21 && e[0..m] == row.mode && e[m] == ' '
    && e[m + 1..n] == row.name && e[n] == '\0' && e[n + 1..n + 21] == row.id
  }

  lemma EncodedLaid(row: Row)
    requires |row.id| == 20
    ensures Laid(EncodeRow(row), row)
  {
  }

  lemma RowAt(raw: string, offset: nat, space: nat, nul: nat)
    requires offset < space && space + 1 < nul && nul + 21 <= |raw|
    requires raw[space] == ' ' && ' ' !in raw[offset..space]
    requires raw[nul] == '\0' && '\0' !in raw[space + 1..nul]
    ensures ReadRow(raw, offset)
         == Some((Row(raw[offset..space], raw[space + 1..nul], raw[nul + 1..nul + 21]), nul + 21))
  {
    FindAt(raw, ' ', offset, space);
    FindAt(raw, '\0', space + 1, nul);
  }

  /** A row is read back wherever its bytes stand. */
  lemma LaidReadBack(raw: string, offset: nat, e: string, row: Row)
    requires Framed(row) && Laid(e, row) && offset + |e| <= |raw| && raw[offset..offset + |e|] == e
    ensures ReadRow(raw, offset) == Some((row, offset + |e|))
  {
    var m, n := |row.mode|, |row.mode| + 1 + |row.name|;
    SlicedFrom(raw, offset, e, 0, m);
    CharFrom(raw, offset, e, m);
    SlicedFrom(raw, offset, e, m + 1, n);
    CharFrom(raw, offset, e, n);
    SlicedFrom(raw, offset, e, n + 1, n + 21);
    RowAt(raw, offset, offset + m, offset + n);
  }

  lemma RowReadBack(raw: string, offset: nat, row: Row)
    requires Framed(row) && offset + |EncodeRow(row)| <= |raw|
    requires raw[offset..offset + |EncodeRow(row)|] == EncodeRow(row)
    ensures ReadRow(raw, offset) == Some((row, offset + |EncodeRow(row)|))
  {
    EncodedLaid(row);
    LaidReadBack(raw, offset, EncodeRow(row), row);
  }

  lemma RowWritten(raw: string, offset: nat)
    requires offset < |raw| && ReadRow(raw, offset).Some?
    ensures var (row, next) := ReadRow(raw, offset).value;
            Framed(row) && raw[offset..next] == EncodeRow(row)
  {
    var (row, next) := ReadRow(raw, offset).value;
    var space := Find(raw, ' ', offset);
    var nul := Find(raw, '\0', space + 1);
    assert raw[offset..next]
         == raw[offset..space] + [raw[space]] + raw[space + 1..nul] + [raw[nul]] + raw[nul + 1..next];
  }

  lemma {:induction false} RowsReadBack(raw: string, offset: nat, rows: seq<Row>)
    requires forall i :: 0 <= i < |rows| ==> Framed(rows[i])
    requires offset <= |raw| && raw[offset..] == Encode(rows)
    ensures ReadRows(raw, offset) == Some(rows)
    decreases |rows|
  {
    if rows != [] {
      var head := EncodeRow(rows[0]);
      var next := offset + |head|;
      SplitAfter(raw, offset, head, Encode(rows[1..]));
      RowReadBack(raw, offset, rows[0]);
      RowsReadBack(raw, next, rows[1..]);
      assert [rows[0]] + rows[1..] == rows;
    }
  }

  lemma {:induction false} RowsWritten(raw: string, offset: nat)
    requires offset <= |raw| && ReadRows(raw, offset).Some?
    ensures var rows := ReadRows(raw, offset).value;
            raw[offset..] == Encode(rows) && forall i :: 0 <= i < |rows| ==> Framed(rows[i])
    decreases |raw| - offset
  {
    if offset < |raw| {
      RowWritten(raw, offset);
      var (row, next) := ReadRow(raw, offset).value;
      RowsWritten(raw, next);
      var rest := ReadRows(raw, next).value;
      assert raw[offset..] == raw[offset..next] + raw[next..];
      EncodeFirst(row, rest);
    }
  }

  lemma EncodeFirst(row: Row, rest: seq<Row>)
    ensures Encode([row] + rest) == EncodeRow(row) + Encode(rest)
  {
    assert ([row] + rest)[1..] == rest;
  }

  /** The reader and the encoder undo each other, on any framed rows and any bytes. */
  lemma ReadRowsExact(raw: string, rows: seq<Row>)
    ensures ReadRows(raw, 0) == Some(rows)
       <==> raw == Encode(rows) && forall i :: 0 <= i < |rows| ==> Framed(rows[i])
  {
    if ReadRows(raw, 0) == Some(rows) {
      RowsWritten(raw, 0);
      assert raw[0..] == raw;
    }
    if raw == Encode(rows) && forall i :: 0 <= i < |rows| ==> Framed(rows[i]) {
      assert raw[0..] == raw;
      RowsReadBack(raw, 0, rows);
    }
  }

  // ---------------------------------------------------------------- the two readers

  ghost function StrictEntries(text: string -> bool, raw: string): Option<seq<Row>> {
    if |raw| > MAX_TREE_BYTES then None
    else
      match ReadRows(raw, 0)
      case None => None
      case Some(rows) => if StrictTree(text, rows) then Some(rows) else None
  }

  ghost function IntegrityEntries(raw: string): Option<seq<(string, string)>> {
    if |raw| > MAX_TREE_BYTES then None
    else
      match ReadRows(raw, 0)
      case None => None
      case Some(rows) => if IntegrityTree(rows) then Some(Kept(rows)) else None
  }

  /** The strict reader accepts exactly the encodings of strict trees, and gives their rows back. */
  lemma StrictExact(text: string -> bool, raw: string, rows: seq<Row>)
    ensures StrictEntries(text, raw) == Some(rows)
       <==> |raw| <= MAX_TREE_BYTES && raw == Encode(rows) && StrictTree(text, rows)
  {
    ReadRowsExact(raw, rows);
    if StrictTree(text, rows) {
      forall i | 0 <= i < |rows| ensures Framed(rows[i]) {
        assert StrictRow(text, rows[i]);
      }
    }
  }

  /** The integrity reader accepts exactly the encodings of integrity trees, and keeps modes and ids. */
  lemma IntegrityExact(raw: string, kept: seq<(string, string)>)
    ensures IntegrityEntries(raw) == Some(kept)
       <==> exists rows :: |raw| <= MAX_TREE_BYTES && raw == Encode(rows) && IntegrityTree(rows) && kept == Kept(rows)
  {
    if IntegrityEntries(raw) == Some(kept) {
      ReadRowsExact(raw, ReadRows(raw, 0).value);
    }
    forall rows | |raw| <= MAX_TREE_BYTES && raw == Encode(rows) && IntegrityTree(rows) && kept == Kept(rows)
      ensures IntegrityEntries(raw) == Some(kept)
    {
      forall i | 0 <= i < |rows| ensures Framed(rows[i]) {
        assert IntegrityRow(rows[i]);
      }
      ReadRowsExact(raw, rows);
    }
  }

  /** What the strict reader accepts, the integrity reader accepts with the same modes and ids. */
  lemma StrictWithinIntegrity(text: string -> bool, raw: string)
    requires StrictEntries(text, raw).Some?
    ensures IntegrityEntries(raw) == Some(Kept(StrictEntries(text, raw).value))
  {
    var rows := StrictEntries(text, raw).value;
    forall i | 0 <= i < |rows| ensures IntegrityRow(rows[i]) {
      assert StrictRow(text, rows[i]);
    }
  }

  /** Increasing order keys alone would let a file and a tree share a name. */
  lemma OrderKeysLeaveNamesFree(name: string, id: string)
    ensures var file, tree := Row(FILE, name, id), Row(TREE, name, id);
            Less(OrderKey(file), OrderKey(tree)) && !Ordered([file, tree])
  {
    LessExtended(name, "/");
    var rows := [Row(FILE, name, id), Row(TREE, name, id)];
    assert rows[0].name == rows[1].name;
  }

  lemma {:induction false} LessExtended(a: string, more: string)
    requires more != ""
    ensures Less(a, a + more)
  {
    if a != "" {
      assert (a + more)[1..] == a[1..] + more;
      LessExtended(a[1..], more);
    }
  }

  // ---------------------------------------------------------------- the loops

  function Prepended(rows: seq<Row>, rest: Option<seq<Row>>): Option<seq<Row>> {
    match rest
    case None => None
    case Some(more) => Some(rows + more)
  }

  /** The rows read so far, the names taken, and the last order key. */
  ghost predicate Progress(raw: string, offset: nat, rows: seq<Row>, names: set<string>, previous: Option<string>) {
    && offset <= |raw| && ReadRows(raw, 0) == Prepended(rows, ReadRows(raw, offset))
    && (forall name :: name in names <==> exists i :: 0 <= i < |rows| && rows[i].name == name)
    && (previous.None? <==> rows == [])
    && (previous.Some? ==> rows != [] && previous.value == OrderKey(rows[|rows| - 1]))
    && Ordered(rows)
  }

  lemma ReadOne(raw: string, offset: nat, rows: seq<Row>)
    requires offset < |raw| && ReadRows(raw, 0) == Prepended(rows, ReadRows(raw, offset))
    ensures match ReadRow(raw, offset)
            case None => ReadRows(raw, 0).None?
            case Some((row, next)) => ReadRows(raw, 0) == Prepended(rows + [row], ReadRows(raw, next))
  {
    if ReadRow(raw, offset).Some? {
      var (row, next) := ReadRow(raw, offset).value;
      if ReadRows(raw, next).Some? {
        var more := ReadRows(raw, next).value;
        assert rows + ([row] + more) == (rows + [row]) + more;
      }
    }
  }

  predicate Fits(row: Row, names: set<string>, previous: Option<string>) {
    row.name !in names && (previous.None? || Less(previous.value, OrderKey(row)))
  }

  /** The two incremental checks are the order of the whole list. */
  lemma OrderedByOne(raw: string, offset: nat, rows: seq<Row>, names: set<string>, previous: Option<string>, row: Row)
    requires Progress(raw, offset, rows, names, previous)
    ensures Ordered(rows + [row]) <==> Fits(row, names, previous)
  {
    if Ordered(rows + [row]) {
      OrderedFits(raw, offset, rows, names, previous, row);
    }
    if Fits(row, names, previous) {
      FitsOrdered(raw, offset, rows, names, previous, row);
    }
  }

  lemma OrderedFits(raw: string, offset: nat, rows: seq<Row>, names: set<string>, previous: Option<string>, row: Row)
    requires Progress(raw, offset, rows, names, previous) && Ordered(rows + [row])
    ensures Fits(row, names, previous)
  {
    var all := rows + [row];
    var n := |rows|;
    assert forall i :: 0 <= i < n ==> all[i].name != all[n].name && all[i].name == rows[i].name;
    if n > 0 {
      assert Less(OrderKey(all[n - 1]), OrderKey(all[n]));
    }
  }

  lemma FitsOrdered(raw: string, offset: nat, rows: seq<Row>, names: set<string>, previous: Option<string>, row: Row)
    requires Progress(raw, offset, rows, names, previous) && Fits(row, names, previous)
    ensures Ordered(rows + [row])
  {
    forall i | 0 <= i < |rows| ensures Less(OrderKey(rows[i]), OrderKey(row)) && rows[i].name != row.name {
      if i < |rows| - 1 {
        LessTransitive(OrderKey(rows[i]), OrderKey(rows[|rows| - 1]), OrderKey(row));
      }
    }
  }

  /** Order is checked prefix by prefix. */
  lemma OrderedPrefix(rows: seq<Row>, more: seq<Row>)
    requires Ordered(rows + more)
    ensures Ordered(rows)
  {
    forall i, j | 0 <= i < j < |rows|
      ensures rows[i].name != rows[j].name && Less(OrderKey(rows[i]), OrderKey(rows[j]))
    {
      assert (rows + more)[i] == rows[i] && (rows + more)[j] == rows[j];
    }
  }

  /** A row that no accepting list may hold settles the whole reading. */
  lemma Refused(raw: string, rows: seq<Row>, row: Row, next: nat)
    requires next <= |raw| && ReadRows(raw, 0) == Prepended(rows + [row], ReadRows(raw, next))
    ensures ReadRows(raw, 0).Some? ==> exists k :: 0 <= k < |ReadRows(raw, 0).value| && ReadRows(raw, 0).value[k] == row
    ensures ReadRows(raw, 0).Some? && Ordered(ReadRows(raw, 0).value) ==> Ordered(rows + [row])
  {
    if ReadRows(raw, 0).Some? {
      var more := ReadRows(raw, next).value;
      var all := rows + [row] + more;
      assert all[|rows|] == row;
      if Ordered(all) {
        OrderedPrefix(rows + [row], more);
      }
    }
  }

  lemma Started(raw: string)
    ensures Progress(raw, 0, [], {}, None)
  {
    if ReadRows(raw, 0).Some? {
      assert [] + ReadRows(raw, 0).value == ReadRows(raw, 0).value;
    }
  }

  /** A row that fits extends the reading; one that does not fit, or is not allowed, ends it. */
  lemma Advanced(raw: string, offset: nat, rows: seq<Row>, names: set<string>, previous: Option<string>)
    requires offset < |raw| && Progress(raw, offset, rows, names, previous)
    ensures match ReadRow(raw, offset)
            case None => ReadRows(raw, 0).None?
            case Some((row, next)) =>
              && (Fits(row, names, previous) ==>
                    Progress(raw, next, rows + [row], names + {row.name}, Some(OrderKey(row))))
              && (!Fits(row, names, previous) ==> ReadRows(raw, 0).None? || !Ordered(ReadRows(raw, 0).value))
              && (ReadRows(raw, 0).Some? ==>
                    exists k :: 0 <= k < |ReadRows(raw, 0).value| && ReadRows(raw, 0).value[k] == row)
  {
    ReadOne(raw, offset, rows);
    if ReadRow(raw, offset).Some? {
      var (row, next) := ReadRow(raw, offset).value;
      Refused(raw, rows, row, next);
      OrderedByOne(raw, offset, rows, names, previous, row);
      var all := rows + [row];
      assert forall i :: 0 <= i < |rows| ==> all[i] == rows[i];
      assert all[|rows|] == row;
    }
  }

  ghost predicate AllStrict(text: string -> bool, rows: seq<Row>) {
    forall i :: 0 <= i < |rows| ==> StrictRow(text, rows[i])
  }

  ghost predicate AllIntegrity(rows: seq<Row>) {
    forall i :: 0 <= i < |rows| ==> IntegrityRow(rows[i])
  }

  lemma StrictAdvanced(text: string -> bool, raw: string, offset: nat, rows: seq<Row>, names: set<string>,
                       previous: Option<string>)
    requires offset < |raw| && Progress(raw, offset, rows, names, previous) && AllStrict(text, rows)
    ensures match ReadRow(raw, offset)
            case None => StrictEntries(text, raw).None?
            case Some((row, next)) =>
              if StrictRow(text, row) && Fits(row, names, previous)
              then Progress(raw, next, rows + [row], names + {row.name}, Some(OrderKey(row)))
                   && AllStrict(text, rows + [row])
              else StrictEntries(text, raw).None?
  {
    Advanced(raw, offset, rows, names, previous);
  }

  lemma IntegrityAdvanced(raw: string, offset: nat, rows: seq<Row>, names: set<string>, previous: Option<string>)
    requires offset < |raw| && Progress(raw, offset, rows, names, previous) && AllIntegrity(rows)
    ensures match ReadRow(raw, offset)
            case None => IntegrityEntries(raw).None?
            case Some((row, next)) =>
              if IntegrityRow(row) && Fits(row, names, previous)
              then Progress(raw, next, rows + [row], names + {row.name}, Some(OrderKey(row)))
                   && AllIntegrity(rows + [row])
              else IntegrityEntries(raw).None?
  {
    Advanced(raw, offset, rows, names, previous);
  }

  lemma StrictFinished(text: string -> bool, raw: string, rows: seq<Row>, names: set<string>, previous: Option<string>)
    requires |raw| <= MAX_TREE_BYTES && Progress(raw, |raw|, rows, names, previous) && AllStrict(text, rows)
    ensures StrictEntries(text, raw) == if |rows| <= MAX_ENTRIES then Some(rows) else None
  {
    assert rows + [] == rows;
  }

  lemma IntegrityFinished(raw: string, rows: seq<Row>, names: set<string>, previous: Option<string>)
    requires |raw| <= MAX_TREE_BYTES && Progress(raw, |raw|, rows, names, previous) && AllIntegrity(rows)
    ensures IntegrityEntries(raw) == if |rows| <= MAX_REACHABLE_OBJECTS then Some(Kept(rows)) else None
  {
    assert rows + [] == rows;
  }

  /** One turn of the strict loop, up to its updates. */
  method NextStrict(text: string -> bool, raw: string, offset: nat, names: set<string>, previous: Option<string>)
    returns (row: Row, next: nat, ok: bool)
    requires offset < |raw|
    ensures ok == (ReadRow(raw, offset).Some? && StrictRow(text, ReadRow(raw, offset).value.0)
                   && Fits(ReadRow(raw, offset).value.0, names, previous))
    ensures ok ==> ReadRow(raw, offset) == Some((row, next))
  {
    row, next, ok := Row("", "", ""), 0, false;
    var space := Find(raw, ' ', offset);
    var nul := Find(raw, '\0', space + 1);
    if !(space > offset && nul > space + 1 && nul + 21 <= |raw|) {
      return;
    }
    row, next := Row(raw[offset..space], raw[space + 1..nul], raw[nul + 1..nul + 21]), nul + 21;
    if (row.mode != FILE && row.mode != EXECUTABLE && row.mode != TREE) || row.name in names {
      return;
    }
    if !StrictName(text, row.name) {
      return;
    }
    ok := previous.None? || Less(previous.value, OrderKey(row));
  }

  /** One turn of the integrity loop, up to its updates. */
  method NextIntegrity(raw: string, offset: nat, names: set<string>, previous: Option<string>)
    returns (row: Row, next: nat, ok: bool)
    requires offset < |raw|
    ensures ok == (ReadRow(raw, offset).Some? && IntegrityRow(ReadRow(raw, offset).value.0)
                   && Fits(ReadRow(raw, offset).value.0, names, previous))
    ensures ok ==> ReadRow(raw, offset) == Some((row, next))
  {
    row, next, ok := Row("", "", ""), 0, false;
    var space := Find(raw, ' ', offset);
    var nul := Find(raw, '\0', space + 1);
    if !(space > offset && nul > space + 1 && nul + 21 <= |raw|) {
      return;
    }
    row, next := Row(raw[offset..space], raw[space + 1..nul], raw[nul + 1..nul + 21]), nul + 21;
    if row.mode != FILE && row.mode != EXECUTABLE && row.mode != LINK && row.mode != COMMIT && row.mode != TREE {
      return;
    }
    if row.name == "." || row.name == ".." || '/' in row.name || '\0' in row.name || row.name in names {
      return;
    }
    ok := previous.None? || Less(previous.value, OrderKey(row));
  }

  /** `_tree_entries` as written. */
  method TreeEntries(text: string -> bool, raw: string) returns (entries: Option<seq<Row>>)
    ensures entries == StrictEntries(text, raw)
  {
    if |raw| > MAX_TREE_BYTES {
      return None;
    }
    var rows: seq<Row>, offset, names: set<string>, previous: Option<string> := [], 0, {}, None;
    Started(raw);
    while offset < |raw|
      invariant Progress(raw, offset, rows, names, previous) && AllStrict(text, rows)
    {
      StrictAdvanced(text, raw, offset, rows, names, previous);
      var row, next, ok := NextStrict(text, raw, offset, names, previous);
      if !ok {
        return None;
      }
      rows, offset, names, previous := rows + [row], next, names + {row.name}, Some(OrderKey(row));
    }
    StrictFinished(text, raw, rows, names, previous);
    return if |rows| <= MAX_ENTRIES then Some(rows) else None;
  }

  /** `_integrity_tree_entries` as written. */
  method IntegrityTreeEntries(raw: string) returns (entries: Option<seq<(string, string)>>)
    ensures entries == IntegrityEntries(raw)
  {
    if |raw| > MAX_TREE_BYTES {
      return None;
    }
    var kept: seq<(string, string)>, offset, names: set<string>, previous: Option<string> := [], 0, {}, None;
    ghost var rows: seq<Row> := [];
    Started(raw);
    while offset < |raw|
      invariant Progress(raw, offset, rows, names, previous) && AllIntegrity(rows)
      invariant kept == Kept(rows)
    {
      IntegrityAdvanced(raw, offset, rows, names, previous);
      var row, next, ok := NextIntegrity(raw, offset, names, previous);
      if !ok {
        return None;
      }
      kept := kept + [(row.mode, row.id)];
      rows, offset, names, previous := rows + [row], next, names + {row.name}, Some(OrderKey(row));
    }
    IntegrityFinished(raw, rows, names, previous);
    return if |kept| <= MAX_REACHABLE_OBJECTS then Some(kept) else None;
  }
}
