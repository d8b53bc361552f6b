/**
 * JSON strings over scalar values (sections 7 and 8 of RFC 8259). One printer serves both languages:
 * JavaScript's `JSON.stringify`, and with `ascii` Python's `json.dumps`, which escapes all but
 * printable ASCII.
 */
module JsonStrings {
  import opened Basics

  // ---------------------------------------------------------------- hexadecimal

  function HexValue(c: char): Option<nat> {
    if '0' <= c <= '9' then Some((c - '0') as nat)
    else if 'a' <= c <= 'f' then Some((c - 'a') as nat + 10)
    else if 'A' <= c <= 'F' then Some((c - 'A') as nat + 10)
    else None
  }

  function HexDigit(n: nat): (c: char)
    requires n < 16
    ensures HexValue(c) == Some(n)
  {
    if n < 10 then '0' + n as char else 'a' + (n - 10) as char
  }

  function Hex4(n: nat): string
    requires n < 0x1_0000
  {
    [HexDigit(n / 4096), HexDigit(n / 256 % 16), HexDigit(n / 16 % 16), HexDigit(n % 16)]
  }

  function Read4(s: string): Option<nat> {
    if |s| < 4 then None
    else
      match (HexValue(s[0]), HexValue(s[1]), HexValue(s[2]), HexValue(s[3]))
      case (Some(a), Some(b), Some(c), Some(d)) => Some(4096 * a + 256 * b + 16 * c + d)
      case _ => None
  }

  lemma FourDigits(n: nat)
    ensures 4096 * (n / 4096) + 256 * (n / 256 % 16) + 16 * (n / 16 % 16) + n % 16 == n
  {
    assert n / 256 / 16 == n / 4096;
    assert n / 16 / 16 == n / 256;
  }

  lemma Read4Back(n: nat, rest: string)
    requires n < 0x1_0000
    ensures Read4(Hex4(n) + rest) == Some(n) && (Hex4(n) + rest)[4..] == rest
  {
    FourDigits(n);
  }

  // ---------------------------------------------------------------- characters

  function Unicode(n: nat): string
    requires n < 0x1_0000
  {
    "\\u" + Hex4(n)
  }

  /** One character as it stands between quotes. */
  function PrintChar(ascii: bool, c: char): string {
    if c == '"' then "\\\""
    else if c == '\\' then "\\\\"
    else if c as int == 8 then "\\b"
    else if c as int == 9 then "\\t"
    else if c as int == 10 then "\\n"
    else if c as int == 12 then "\\f"
    else if c as int == 13 then "\\r"
    else if c < ' ' then Unicode(c as nat)
    else if !ascii || c <= '~' then [c]
    else if c as int < 0x1_0000 then Unicode(c as nat)
    else
      var n := c as nat - 0x1_0000;
      Unicode(0xD800 + n / 1024) + Unicode(0xDC00 + n % 1024)
  }

  function PrintChars(ascii: bool, s: string): string {
    if s == "" then "" else PrintChar(ascii, s[0]) + PrintChars(ascii, s[1..])
  }

  function PrintString(ascii: bool, s: string): string {
    "\"" + PrintChars(ascii, s) + "\""
  }

  /** What follows a backslash, and the text after it. A surrogate escape must come in a pair. */
  function ReadEscape(s: string): (r: Option<(char, string)>)
    ensures r.Some? ==> |r.value.1| < |s|
  {
    if s == "" then None
    else if s[0] == '"' || s[0] == '\\' || s[0] == '/' then Some((s[0], s[1..]))
    else if s[0] == 'b' then Some((8 as char, s[1..]))
    else if s[0] == 't' then Some((9 as char, s[1..]))
    else if s[0] == 'n' then Some((10 as char, s[1..]))
    else if s[0] == 'f' then Some((12 as char, s[1..]))
    else if s[0] == 'r' then Some((13 as char, s[1..]))
    else if s[0] == 'u' then ReadUnicode(s[1..])
    else None
  }

  function ReadUnicode(s: string): (r: Option<(char, string)>)
    ensures r.Some? ==> |r.value.1| < |s|
  {
    match Read4(s)
    case None => None
    case Some(n) =>
      if n < 0xD800 || 0xE000 <= n then
        if n < 0x1_0000 then Some((n as char, s[4..])) else None
      else if n < 0xDC00 && "\\u" <= s[4..] then
        match Read4(s[6..])
        case None => None
        case Some(m) =>
          if 0xDC00 <= m < 0xE000 then Some(((0x1_0000 + (n - 0xD800) * 1024 + (m - 0xDC00)) as char, s[10..]))
          else None
      else None
  }

  /** The characters up to the closing quote, and the text after it. */
  function ReadChars(s: string): (r: Option<(string, string)>)
    ensures r.Some? ==> |r.value.1| < |s|
    decreases |s|
  {
    if s == "" || s[0] < ' ' then None
    else if s[0] == '"' then Some(("", s[1..]))
    else if s[0] != '\\' then
      match ReadChars(s[1..])
      case None => None
      case Some((more, rest)) => Some(([s[0]] + more, rest))
    else
      match ReadEscape(s[1..])
      case None => None
      case Some((c, after)) =>
        match ReadChars(after)
        case None => None
        case Some((more, rest)) => Some(([c] + more, rest))
  }

  // ---------------------------------------------------------------- reading undoes printing

  lemma UnicodeBack(n: nat, rest: string)
    requires n < 0xD800 || 0xE000 <= n < 0x1_0000
    ensures ReadEscape((Unicode(n) + rest)[1..]) == Some((n as char, rest))
  {
    Read4Back(n, rest);
    var s := Unicode(n) + rest;
    assert s[1..][1..] == Hex4(n) + rest;
    assert (Hex4(n) + rest)[4..] == rest;
  }

  /** A surrogate pair written out. */
  lemma SurrogatesBack(high: nat, low: nat, rest: string)
    requires 0xD800 <= high < 0xDC00 <= low < 0xE000
    ensures ReadEscape((Unicode(high) + Unicode(low) + rest)[1..])
         == Some(((0x1_0000 + (high - 0xD800) * 1024 + (low - 0xDC00)) as char, rest))
  {
    var tail := Unicode(low) + rest;
    var t := Hex4(high) + tail;
    assert (Unicode(high) + Unicode(low) + rest)[1..] == "u" + t;
    Read4Back(high, tail);
    Read4Back(low, rest);
    assert tail[2..] == Hex4(low) + rest;
    assert t[6..] == t[4..][2..] && t[10..] == t[6..][4..];
  }

  lemma PairBack(c: char, rest: string)
    requires c as int >= 0x1_0000
    ensures var n := c as nat - 0x1_0000;
            ReadEscape((Unicode(0xD800 + n / 1024) + Unicode(0xDC00 + n % 1024) + rest)[1..]) == Some((c, rest))
  {
    var n := c as nat - 0x1_0000;
    SurrogatesBack(0xD800 + n / 1024, 0xDC00 + n % 1024, rest);
    assert n / 1024 * 1024 + n % 1024 == n;
  }

  /** A printed character is read as itself, whatever follows. */
  lemma CharBack(ascii: bool, c: char, rest: string)
    ensures var s := PrintChar(ascii, c) + rest;
            if PrintChar(ascii, c) == [c] && c != '\\' then s[0] == c && c >= ' ' && c != '"' && s[1..] == rest
            else s[0] == '\\' && ReadEscape(s[1..]) == Some((c, rest))
  {
    var p := PrintChar(ascii, c);
    var s := p + rest;
    if |p| == 1 {
      assert p == [c];
    } else if |p| == 2 {
      assert s[1..][1..] == rest;
    } else if c as int < 0x1_0000 {
      UnicodeBack(c as nat, rest);
    } else {
      PairBack(c, rest);
    }
  }

  lemma {:induction false} CharsBack(ascii: bool, text: string, rest: string)
    ensures ReadChars(PrintChars(ascii, text) + "\"" + rest) == Some((text, rest))
  {
    var s := PrintChars(ascii, text) + "\"" + rest;
    if text != "" {
      var tail := PrintChars(ascii, text[1..]) + "\"" + rest;
      assert s == PrintChar(ascii, text[0]) + tail;
      CharBack(ascii, text[0], tail);
      CharsBack(ascii, text[1..], rest);
      assert [text[0]] + text[1..] == text;
    }
  }

  /** A printed string is read back from any text that starts with it. */
  lemma StringBack(ascii: bool, text: string, rest: string)
    ensures var s := PrintString(ascii, text) + rest;
            s[0] == '"' && ReadChars(s[1..]) == Some((text, rest))
  {
    assert (PrintString(ascii, text) + rest)[1..] == PrintChars(ascii, text) + "\"" + rest;
    CharsBack(ascii, text, rest);
  }
}
