/** The length-prefixed frame that carries the transaction's result over the result pipe. */
module Frames {
  import opened Basics

  const MAX_RESULT_BYTES := 4096
  const MAX_PROTOCOL_BYTES := MAX_RESULT_BYTES + 128
  const SUCCESS_KIND: Byte := 83 // 'S'
  const ERROR_KIND: Byte := 69 // 'E'
  const COLON: Byte := 58

  datatype Frame =
    | Payload(payload: Bytes)
    | ChildFailure(stage: Bytes, category: Bytes)
    | Malformed

  predicate IsTokenByte(b: Byte) {
    65 <= b <= 90 || 97 <= b <= 122 || 48 <= b <= 57 || b == 95 || b == 45
  }

  /** The diagnostic token alphabet, 1 to 64 of `[A-Za-z0-9_-]`. */
  predicate IsToken(t: Bytes) {
    1 <= |t| <= 64 && forall i :: 0 <= i < |t| ==> IsTokenByte(t[i])
  }

  function BigEndian(n: nat): (r: Bytes)
    requires n < 0x1_0000_0000
    ensures |r| == 4
  {
    [n / 256 / 256 / 256, n / 256 / 256 % 256, n / 256 % 256, n % 256]
  }

  function FromBigEndian(b: Bytes): nat
    requires |b| == 4
  {
    var b0: int, b1: int, b2: int, b3: int := b[0], b[1], b[2], b[3];
    ((b0 * 256 + b1) * 256 + b2) * 256 + b3
  }

  /** The writer refuses unknown kinds and bodies above the protocol bound. */
  function WriteFrame(kind: Byte, payload: Bytes): Option<Bytes> {
    if (kind == SUCCESS_KIND || kind == ERROR_KIND) && 1 + |payload| <= MAX_PROTOCOL_BYTES then
      Some(BigEndian(1 + |payload|) + [kind] + payload)
    else None
  }

  function FirstColon(b: Bytes): (i: nat)
    ensures i <= |b|
    ensures COLON !in b[..i]
    ensures i < |b| ==> b[i] == COLON
  {
    if b == [] || b[0] == COLON then 0 else 1 + FirstColon(b[1..])
  }

  function ParseFailure(payload: Bytes): Frame {
    var at := FirstColon(payload);
    if at < |payload| && IsToken(payload[..at]) && IsToken(payload[at + 1..]) then
      ChildFailure(payload[..at], payload[at + 1..])
    else Malformed
  }

  function ParseFrame(raw: Bytes): Frame {
    if |raw| < 5 then Malformed
    else
      var length := FromBigEndian(raw[..4]);
      if length != |raw| - 4 || length > MAX_PROTOCOL_BYTES then Malformed
      else
        var payload := raw[5..];
        if raw[4] == SUCCESS_KIND then
          if 0 < |payload| <= MAX_RESULT_BYTES then Payload(payload) else Malformed
        else if raw[4] == ERROR_KIND then ParseFailure(payload)
        else Malformed
  }

  lemma LowByte(q: nat, r: nat, n: nat)
    requires r < 256
    ensures q * 256 + r == n <==> q == n / 256 && r == n % 256
  {
  }

  lemma BigEndianExact(b: Bytes, n: nat)
    requires |b| == 4 && n < 0x1_0000_0000
    ensures FromBigEndian(b) == n <==> b == BigEndian(n)
  {
    var b0: int, b1: int, b2: int, b3: int := b[0], b[1], b[2], b[3];
    LowByte((b0 * 256 + b1) * 256 + b2, b3, n);
    LowByte(b0 * 256 + b1, b2, n / 256);
    LowByte(b0, b1, n / 256 / 256);
    assert b == [b[0], b[1], b[2], b[3]];
  }

  /** A byte string parses to a success payload exactly when it is the frame written for it. */
  lemma SuccessFrameExact(raw: Bytes, payload: Bytes)
    ensures ParseFrame(raw) == Payload(payload) <==>
            0 < |payload| <= MAX_RESULT_BYTES && WriteFrame(SUCCESS_KIND, payload) == Some(raw)
  {
    if |raw| >= 5 && 1 + |payload| <= MAX_PROTOCOL_BYTES {
      BigEndianExact(raw[..4], 1 + |payload|);
      assert raw == raw[..4] + [raw[4]] + raw[5..];
      var written := BigEndian(1 + |payload|) + [SUCCESS_KIND] + payload;
      assert written[..4] == BigEndian(1 + |payload|) && written[5..] == payload;
    }
  }

  lemma {:induction false} FirstColonAt(token: Bytes, rest: Bytes)
    requires COLON !in token
    ensures FirstColon(token + [COLON] + rest) == |token|
  {
    var s := token + [COLON] + rest;
    if token != [] {
      assert s[0] == token[0] && s[0] in token;
      assert s[1..] == token[1..] + [COLON] + rest;
      FirstColonAt(token[1..], rest);
    }
  }

  lemma FailureFrameRead(raw: Bytes, stage: Bytes, category: Bytes)
    requires IsToken(stage) && IsToken(category) && WriteFrame(ERROR_KIND, stage + [COLON] + category) == Some(raw)
    ensures ParseFrame(raw) == ChildFailure(stage, category)
  {
    var payload := stage + [COLON] + category;
    assert !IsTokenByte(COLON);
    FirstColonAt(stage, category);
    BigEndianExact(raw[..4], 1 + |payload|);
    assert raw[..4] == BigEndian(1 + |payload|) && raw[5..] == payload;
    assert payload[..|stage|] == stage && payload[|stage| + 1..] == category;
  }

  lemma FailureFrameWritten(raw: Bytes, stage: Bytes, category: Bytes)
    requires ParseFrame(raw) == ChildFailure(stage, category)
    ensures IsToken(stage) && IsToken(category) && WriteFrame(ERROR_KIND, stage + [COLON] + category) == Some(raw)
  {
    var payload := stage + [COLON] + category;
    var at := FirstColon(raw[5..]);
    assert raw[5..] == raw[5..][..at] + [COLON] + raw[5..][at + 1..];
    assert raw[5..] == payload;
    BigEndianExact(raw[..4], 1 + |payload|);
    assert raw == raw[..4] + [raw[4]] + raw[5..];
  }

  /** A failure frame parses exactly when it was written from two tokens joined by a colon. */
  lemma FailureFrameExact(raw: Bytes, stage: Bytes, category: Bytes)
    ensures ParseFrame(raw) == ChildFailure(stage, category) <==>
            IsToken(stage) && IsToken(category) &&
            WriteFrame(ERROR_KIND, stage + [COLON] + category) == Some(raw)
  {
    if IsToken(stage) && IsToken(category) && WriteFrame(ERROR_KIND, stage + [COLON] + category) == Some(raw) {
      FailureFrameRead(raw, stage, category);
    }
    if ParseFrame(raw) == ChildFailure(stage, category) {
      FailureFrameWritten(raw, stage, category);
    }
  }
}
