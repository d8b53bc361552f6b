/** UTF-8 as `TextEncoder` writes it and as a fatal `TextDecoder` reads it (RFC 3629, section 4). */
module Utf8 {
  import opened Basics

  function EncodeChar(c: char): Bytes {
    var n := c as int;
    if n < 0x80 then [n]
    else if n < 0x800 then [0xC0 + n / 64, 0x80 + n % 64]
    else if n < 0x1_0000 then [0xE0 + n / 4096, 0x80 + n / 64 % 64, 0x80 + n % 64]
    else [0xF0 + n / 262144, 0x80 + n / 4096 % 64, 0x80 + n / 64 % 64, 0x80 + n % 64]
  }

  function Encode(s: string): Bytes {
    if s == "" then [] else EncodeChar(s[0]) + Encode(s[1..])
  }

  predicate Continues(b: Bytes, i: nat) {
    i < |b| && 0x80 <= b[i] < 0xC0
  }

  /** The scalar value a number stands for: no surrogate, nothing above the last plane. */
  function Scalar(n: int, least: int): Option<char> {
    if least <= n && (n < 0xD800 || 0xE000 <= n < 0x11_0000) && 0 <= n then Some(n as char) else None
  }

  /** The first character and its length; overlong forms and surrogates are refused. */
  function DecodeChar(b: Bytes): (r: Option<(char, nat)>)
    ensures r.Some? ==> 1 <= r.value.1 <= |b|
  {
    if b == [] then None
    else
      var first: int := b[0];
      if first < 0x80 then Some((first as char, 1))
      else if 0xC0 <= first < 0xE0 && Continues(b, 1) then
        var second: int := b[1];
        Sized(Scalar((first - 0xC0) * 64 + (second - 0x80), 0x80), 2)
      else if 0xE0 <= first < 0xF0 && Continues(b, 1) && Continues(b, 2) then
        var second: int, third: int := b[1], b[2];
        Sized(Scalar((first - 0xE0) * 4096 + (second - 0x80) * 64 + (third - 0x80), 0x800), 3)
      else if 0xF0 <= first < 0xF8 && Continues(b, 1) && Continues(b, 2) && Continues(b, 3) then
        var second: int, third: int, fourth: int := b[1], b[2], b[3];
        Sized(Scalar((first - 0xF0) * 262144 + (second - 0x80) * 4096 + (third - 0x80) * 64 + (fourth - 0x80),
                     0x1_0000), 4)
      else None
  }

  function Sized(c: Option<char>, n: nat): Option<(char, nat)> {
    match c
    case None => None
    case Some(x) => Some((x, n))
  }

  function Decode(b: Bytes): Option<string>
    decreases |b|
  {
    if b == [] then Some("")
    else
      match DecodeChar(b)
      case None => None
      case Some((c, n)) =>
        match Decode(b[n..])
        case None => None
        case Some(more) => Some([c] + more)
  }

  /** `new TextDecoder("utf-8", { fatal: true })`: a leading byte order mark is dropped. */
  function DecodeText(b: Bytes): Option<string> {
    if |b| >= 3 && b[0] == 0xEF && b[1] == 0xBB && b[2] == 0xBF then Decode(b[3..]) else Decode(b)
  }

  lemma Sextets(n: nat)
    ensures n == n / 64 * 64 + n % 64
    ensures n == n / 4096 * 4096 + n / 64 % 64 * 64 + n % 64
    ensures n == n / 262144 * 262144 + n / 4096 % 64 * 4096 + n / 64 % 64 * 64 + n % 64
  {
    assert n / 64 / 64 == n / 4096;
    assert n / 4096 / 64 == n / 262144;
  }

  lemma CharBack(c: char, rest: Bytes)
    ensures DecodeChar(EncodeChar(c) + rest) == Some((c, |EncodeChar(c)|))
  {
    var n, b := c as int, EncodeChar(c) + rest;
    Sextets(n);
    if n < 0x80 {
      assert b[0] == n;
    } else if n < 0x800 {
      assert b[0] == 0xC0 + n / 64 && b[1] == 0x80 + n % 64;
      assert Continues(b, 1);
    } else if n < 0x1_0000 {
      assert b[0] == 0xE0 + n / 4096 && b[1] == 0x80 + n / 64 % 64 && b[2] == 0x80 + n % 64;
      assert Continues(b, 1) && Continues(b, 2);
    } else {
      assert b[0] == 0xF0 + n / 262144 && b[1] == 0x80 + n / 4096 % 64 && b[2] == 0x80 + n / 64 % 64;
      assert b[3] == 0x80 + n % 64;
      assert Continues(b, 1) && Continues(b, 2) && Continues(b, 3);
    }
  }

  lemma {:induction false} DecodeEncode(s: string)
    ensures Decode(Encode(s)) == Some(s)
  {
    if s != "" {
      var head := EncodeChar(s[0]);
      CharBack(s[0], Encode(s[1..]));
      DecodeEncode(s[1..]);
      assert Encode(s)[|head|..] == Encode(s[1..]);
      assert [s[0]] + s[1..] == s;
    }
  }

  lemma DecodeTextEncode(s: string)
    requires s != "" && s[0] as int < 128
    ensures DecodeText(Encode(s)) == Some(s)
  {
    DecodeEncode(s);
    assert Encode(s)[0] == s[0] as int;
  }

  lemma EncodeInjective(a: string, b: string)
    requires Encode(a) == Encode(b)
    ensures a == b
  {
    DecodeEncode(a);
    DecodeEncode(b);
  }
}
