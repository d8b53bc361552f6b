/** What each packet of the control channel means, spelled out. */
module ControlExact {
  import opened Basics
  import opened Decimals
  import opened Separated
  import opened Control

  /** A status a wait can report: an exit with a byte, or a death by one of the signals. */
  predicate WaitStatus(s: Status) {
    (s.code == 1 && s.value <= 255) || ((s.code == 2 || s.code == 3) && 1 <= s.value <= 64)
  }

  predicate ExitPacket(packet: string, code: string, value: string, s: Status) {
    && AllDigits(code) && AllDigits(value) && packet == "PID1-EXIT:" + code + ":" + value
    && s == Status(Number(code), Number(value)) && WaitStatus(s)
  }

  /** A word of letters, digits, underscores and hyphens. */
  predicate Word(t: string) {
    1 <= |t| <= 64 && forall i :: 0 <= i < |t| ==>
      || 'A' <= t[i] <= 'Z' || 'a' <= t[i] <= 'z' || '0' <= t[i] <= '9' || t[i] == '_' || t[i] == '-'
  }

  lemma WordExactly(t: string)
    ensures IsToken(t) <==> Word(t)
  {
  }

  lemma Three(packet: string, a: string, b: string, c: string)
    requires ':' !in a && ':' !in b && ':' !in c
    ensures Split(packet, ':') == [a, b, c] <==> packet == a + ":" + b + ":" + c
  {
    ThreeParts(a, b, c);
    if Split(packet, ':') == [a, b, c] {
      JoinSplit(packet, ':');
      var parts := [a, b, c];
      assert parts[1..] == [b, c] && parts[1..][1..] == [c];
      assert Join(parts[1..], ':') == b + ":" + c;
      assert packet == a + ":" + (b + ":" + c);
    }
  }

  lemma DigitsPlain(s: string)
    requires AllDigits(s)
    ensures IsAscii(s) && ':' !in s
  {
  }

  lemma StartsWith(packet: string, a: string, rest: string)
    requires packet == a + ":" + rest
    ensures a + ":" <= packet
  {
    assert packet == (a + ":") + rest;
  }

  lemma HeadIs(packet: string, a: string)
    requires a + ":" <= packet && ':' !in a
    ensures Split(packet, ':')[0] == a
  {
    var rest := packet[|a| + 1..];
    assert packet == a + ":" + rest;
    SplitHead(a, rest, ':');
  }

  lemma ExitParts(packet: string, s: Status) returns (code: string, value: string)
    requires PID1_EXIT + ":" <= packet && ExitStatus(packet) == Some(s)
    ensures ExitPacket(packet, code, value, s)
  {
    var parts := Split(packet, ':');
    HeadIs(packet, PID1_EXIT);
    code, value := parts[1], parts[2];
    assert parts == [PID1_EXIT, code, value];
    DigitsPlain(code);
    DigitsPlain(value);
    Three(packet, PID1_EXIT, code, value);
    assert PID1_EXIT + ":" == "PID1-EXIT:";
  }

  lemma ExitRead(packet: string, code: string, value: string, s: Status)
    requires ExitPacket(packet, code, value, s)
    ensures PID1_EXIT + ":" <= packet && ExitStatus(packet) == Some(s)
  {
    assert "PID1-EXIT:" == PID1_EXIT + ":";
    DigitsPlain(code);
    DigitsPlain(value);
    Three(packet, PID1_EXIT, code, value);
    StartsWith(packet, PID1_EXIT, code + ":" + value);
    assert IsAscii(packet);
  }

  /** An exit report with a status is three parts: the word, and two numerals. */
  lemma ExitExactly(packet: string, s: Status)
    ensures PID1_EXIT + ":" <= packet && ExitStatus(packet) == Some(s) <==>
              exists code, value :: ExitPacket(packet, code, value, s)
  {
    if PID1_EXIT + ":" <= packet && ExitStatus(packet) == Some(s) {
      var code, value := ExitParts(packet, s);
    }
    if code, value :| ExitPacket(packet, code, value, s) {
      ExitRead(packet, code, value, s);
    }
  }

  /** An error report is three parts: the word it starts with, and two words. */
  lemma TokensExactly(packet: string, prefix: string, stage: string, reason: string)
    requires IsAscii(prefix) && ':' !in prefix
    ensures ErrorTokens(packet, prefix) == Some((stage, reason)) <==>
              Word(stage) && Word(reason) && packet == prefix + ":" + stage + ":" + reason
  {
    WordExactly(stage);
    WordExactly(reason);
    if ErrorTokens(packet, prefix) == Some((stage, reason)) {
      TokenIsPlain(stage);
      TokenIsPlain(reason);
      assert Split(packet, ':') == [prefix, stage, reason];
      Three(packet, prefix, stage, reason);
    }
    if Word(stage) && Word(reason) && packet == prefix + ":" + stage + ":" + reason {
      ErrorTokensRead(prefix, stage, reason);
    }
  }

  // ---------------------------------------------------------------- packets apart

  /** No packet starts with two of the four words. */
  lemma WordsApart(packet: string)
    ensures !("PID1-FD:" <= packet && "PID1-EXIT:" <= packet)
    ensures !("HELPER-NO-PID1-ERROR:" <= packet && "HELPER-ERROR:" <= packet)
    ensures "PID1-FD:" <= packet || "PID1-EXIT:" <= packet ==>
              !("HELPER-NO-PID1-ERROR:" <= packet) && !("HELPER-ERROR:" <= packet)
  {
    if "PID1-FD:" <= packet {
      assert packet[5] == 'F' && packet[0] == 'P';
    }
    if "PID1-EXIT:" <= packet {
      assert packet[5] == 'E' && packet[0] == 'P';
    }
    if "HELPER-NO-PID1-ERROR:" <= packet {
      assert packet[7] == 'N' && packet[0] == 'H';
    }
    if "HELPER-ERROR:" <= packet {
      assert packet[7] == 'E' && packet[0] == 'H';
    }
  }

  /** The words as the model joins them. */
  lemma Words()
    ensures PID1_FD == "PID1-FD:" && PID1_EXIT + ":" == "PID1-EXIT:"
    ensures NO_PID1 + ":" == "HELPER-NO-PID1-ERROR:" && HELPER_ERROR + ":" == "HELPER-ERROR:"
    ensures IsAscii(NO_PID1) && ':' !in NO_PID1 && IsAscii(HELPER_ERROR) && ':' !in HELPER_ERROR
  {
  }

  // ---------------------------------------------------------------- what is accepted

  /** A pidfd is taken exactly with its report, a right, no pidfd held yet, and a check that agrees. */
  lemma Pid1FdExactly(packet: string, right: Option<nat>, valid: bool, available: bool, fd: nat)
    ensures Classify(packet, right, valid, available) == GotPid1(fd) <==>
              && "PID1-FD:" <= packet && AllDigits(packet[8..]) && right == Some(fd) && valid && available
    ensures Classify(packet, right, valid, available) == Eof <==> packet == "" && right == None
  {
    Words();
  }

  lemma Pid1ExitExactly(packet: string, right: Option<nat>, valid: bool, available: bool, s: Status)
    ensures Classify(packet, right, valid, available) == Pid1Exit(s) <==>
              right == None && exists code, value :: ExitPacket(packet, code, value, s)
  {
    Words();
    WordsApart(packet);
    ExitExactly(packet, s);
  }

  lemma NoPid1Exactly(packet: string, right: Option<nat>, valid: bool, available: bool, stage: string, reason: string)
    ensures Classify(packet, right, valid, available) == NoPid1(stage, reason) <==>
              && right == None && Word(stage) && Word(reason)
              && packet == "HELPER-NO-PID1-ERROR:" + stage + ":" + reason
  {
    Words();
    WordsApart(packet);
    TokensExactly(packet, NO_PID1, stage, reason);
    if packet == "HELPER-NO-PID1-ERROR:" + stage + ":" + reason {
      StartsWith(packet, NO_PID1, stage + ":" + reason);
    }
  }

  lemma HelperFaultExactly(packet: string, right: Option<nat>, valid: bool, available: bool, stage: string,
                           reason: string)
    ensures Classify(packet, right, valid, available) == HelperFault(stage, reason) <==>
              && right == None && Word(stage) && Word(reason) && packet == "HELPER-ERROR:" + stage + ":" + reason
  {
    Words();
    WordsApart(packet);
    TokensExactly(packet, HELPER_ERROR, stage, reason);
    if packet == "HELPER-ERROR:" + stage + ":" + reason {
      StartsWith(packet, HELPER_ERROR, stage + ":" + reason);
    }
  }

  // ---------------------------------------------------------------- what is refused

  predicate Reports(packet: string) {
    "PID1-EXIT:" <= packet || "HELPER-NO-PID1-ERROR:" <= packet || "HELPER-ERROR:" <= packet
  }

  /** Why a packet is refused. */
  lemma RefusedExactly(packet: string, right: Option<nat>, valid: bool, available: bool)
    ensures var a := Classify(packet, right, valid, available);
            && (a == Reject(Native(MalformedPid1Report)) <==> "PID1-FD:" <= packet && !AllDigits(packet[8..]))
            && (a == Reject(Native(Pid1FdMissingOrDuplicate)) <==>
                  "PID1-FD:" <= packet && AllDigits(packet[8..]) && (right == None || !available))
            && (a == Reject(Native(WrongPidfd)) <==>
                  "PID1-FD:" <= packet && AllDigits(packet[8..]) && right != None && available && !valid)
            && (a == Reject(Native(EofCarriedRight)) <==> packet == "" && right != None)
            && (a == Reject(Native(ReportCarriedRight)) <==> Reports(packet) && right != None)
            && (a == Reject(Native(MalformedExitReport)) <==>
                  "PID1-EXIT:" <= packet && right == None && !a.Pid1Exit?)
            && (a == Reject(Native(MalformedHelperError)) <==>
                  && ("HELPER-NO-PID1-ERROR:" <= packet || "HELPER-ERROR:" <= packet)
                  && right == None && !a.NoPid1? && !a.HelperFault?)
            && (a == Reject(Native(UnexpectedPacket)) <==>
                  packet != "" && !("PID1-FD:" <= packet) && !Reports(packet))
  {
    Words();
    WordsApart(packet);
  }
}
