/**
 * One pass of the supervisor's loop as a table: what each observation of the pass changes, said for
 * the whole pass at once, wherever an exception cuts it short.
 */
module SupervisorPass {
  import opened Basics
  import opened Control
  import opened Supervisor
  import opened SupervisorReach

  // ---------------------------------------------------------------- how far a pass gets

  /** The pass goes beyond its opening tests: time is left, and not everything is over. */
  predicate Entered(s: State, p: Pass) {
    p.clock < s.err.settlement && !(Quiet(s) && p.topDrain.empty)
  }

  /** The section after which an exception escapes; 7 when none does. */
  function CutAt(p: Pass): nat {
    if p.fault.Some? && 1 <= p.fault.value.0 <= 6 then p.fault.value.0 else 7
  }

  /** The loop ends in a pass exactly when it is not entered or an exception escapes. */
  lemma PassLeaves(s: State, c: Config, p: Pass)
    ensures Round(s, c, p).Leave? <==> !Entered(s, p) || CutAt(p) < 7
  {
  }

  lemma RoundHears(s: State, c: Config, p: Pass)
    requires Entered(s, p) && CutAt(p) > 3
    ensures Round(s, c, p) == Hearing(Heard(s, c, p), c, p)
  {
  }

  // ---------------------------------------------------------------- what a pass observes

  /** A failed poll takes every descriptor as ready. */
  predicate ResultReady(p: Pass) {
    p.poll.PollFailed? || p.poll.result
  }

  predicate ControlReady(p: Pass) {
    p.poll.PollFailed? || p.poll.control
  }

  /** The bytes read from the result pipe in this pass; none at all mean its end. */
  function BytesRead(s: State, p: Pass): Option<Bytes> {
    if Entered(s, p) && CutAt(p) > 2 && !s.pipe.eof && ResultReady(p) && p.pipe.Chunk? then Some(p.pipe.bytes) else None
  }

  /** The packet looked at in this pass. */
  function PacketSeen(s: State, p: Pass): Packet {
    if Entered(s, p) && CutAt(p) > 3 && !s.proc.controlEof && ControlReady(p) then p.packet else NoPacket
  }

  /** The action of a packet that was received whole. */
  function Meaning(packet: Packet, available: bool): Option<Action> {
    match packet
    case Arrived(d) =>
      (match Receive(d)
       case Refused(_, _) => None
       case Accepted(raw, right) => Some(Classify(raw, right, d.valid, available)))
    case _ => None
  }

  function ActionOf(s: State, p: Pass): Option<Action> {
    Meaning(PacketSeen(s, p), s.rights.pid1Fd.None?)
  }

  predicate Ends(s: State, p: Pass) {
    ActionOf(s, p) == Some(Eof)
  }

  predicate Denies(s: State, p: Pass) {
    ActionOf(s, p).Some? && ActionOf(s, p).value.NoPid1?
  }

  predicate Reports(s: State, p: Pass) {
    ActionOf(s, p).Some? && ActionOf(s, p).value.Pid1Exit?
  }

  predicate Hands(s: State, p: Pass) {
    ActionOf(s, p).Some? && ActionOf(s, p).value.GotPid1?
  }

  /** PID 1 is found readable, or taken for it after a failed poll. */
  predicate FindsPid1(s: State, p: Pass) {
    && Entered(s, p) && CutAt(p) > 3
    && if p.poll.PollFailed? then !Hands(s, p) else s.rights.pid1Fd.Some? && p.poll.pid1
  }

  /** The helper, if it can still be waited for, and what waiting gives. */
  function HelperWait(s: State, c: Config, p: Pass): Wait {
    if Entered(s, p) && CutAt(p) > 4 && !s.proc.helperReaped && (c.helperFd.Some? || c.helperPid > 0) then p.helperWait
    else Pending
  }

  predicate GoneBy(s: State, c: Config, p: Pass) {
    s.proc.helperReaped || HelperWait(s, c, p).Ended? || HelperWait(s, c, p).NoChild?
  }

  predicate TerminalBy(s: State, p: Pass) {
    s.proc.pid1Terminal || FindsPid1(s, p)
  }

  /** The status of PID 1 that the opening drain leaves. */
  function Collected(s: State, p: Pass): Option<Status> {
    if p.clock < s.err.settlement && Quiet(s) && p.topDrain.status.Some? then p.topDrain.status else s.proc.adoptedPid1
  }

  /** Waiting for PID 1 itself, once the helper is gone and PID 1 is terminal. */
  function Pid1Wait(s: State, c: Config, p: Pass): Wait {
    if Entered(s, p) && CutAt(p) > 5 && GoneBy(s, c, p) && TerminalBy(s, p) && Collected(s, p).None? then p.pid1Wait
    else Pending
  }

  /** At the end of a whole pass the helper is gone and its channel closed, without a word on PID 1. */
  predicate Silent(s: State, c: Config, p: Pass) {
    && Entered(s, p) && CutAt(p) == 7 && GoneBy(s, c, p) && (s.proc.controlEof || Ends(s, p))
    && !(s.proc.noPid1 || Denies(s, p)) && s.proc.pid1Report.None? && !Reports(s, p)
    && Collected(s, p).None? && !Pid1Wait(s, c, p).Ended?
  }

  /** Then the adopted processes are drained, unless a pidfd of PID 1 is held. */
  predicate LateDrain(s: State, c: Config, p: Pass) {
    Silent(s, c, p) && s.rights.pid1Fd.None? && !Hands(s, p)
  }

  // ---------------------------------------------------------------- what a pass changes

  /** The pipe after a pass: every byte read is kept in the stream, and an empty read is the end. */
  lemma PassPipe(s: State, c: Config, p: Pass)
    ensures var i, read := Round(s, c, p).state.pipe, BytesRead(s, p);
            && i.stream == s.pipe.stream + (if read.Some? then read.value else [])
            && (i.eof <==> s.pipe.eof || read == Some([]))
            && (i.oversize <==>
                  s.pipe.oversize || (read.Some? && read.value != [] && |s.pipe.raw| + |read.value| > 4228))
  {
    PipeOnly(s, c, p);
  }

  lemma PipeOnly(s: State, c: Config, p: Pass)
    ensures Round(s, c, p).state.pipe
         == if Entered(s, p) && CutAt(p) > 2 then ReadPipe(s, p).pipe else s.pipe
  {
    var s2 := Deadlines(Settle(s, p), c, p);
    assert s2.pipe == s.pipe;
    var h := ReadPipe(Polled(s2, p), p);
    assert h.pipe == ReadPipe(s, p).pipe;
    HearingPipe(h, c, p);
  }

  lemma HearingPipe(s: State, c: Config, p: Pass)
    ensures Hearing(s, c, p).state.pipe == s.pipe
  {
    var t := MarkPid1(ReadControl(s, p), s.rights.pid1Fd, p);
    assert t.pipe == s.pipe;
    ReapingPipe(t, c, p);
  }

  lemma ReapingPipe(s: State, c: Config, p: Pass)
    ensures Reaping(s, c, p).state.pipe == s.pipe
  {
    assert ReapHelper(s, c, p).pipe == s.pipe;
    assert ReapPid1(ReapHelper(s, c, p), p).pipe == s.pipe;
  }

  // ---------------------------------------------------------------- the sections, one by one

  /** Up to the control channel only PID 1's collected status, the drain's finding and the signals change. */
  predicate SameBut(s: State, t: State) {
    && t.rights == s.rights
    && t.proc.(adoptedPid1 := s.proc.adoptedPid1, descendantsEmpty := s.proc.descendantsEmpty, events := s.proc.events)
       == s.proc
  }

  lemma HeardSame(s: State, c: Config, p: Pass)
    requires p.clock < s.err.settlement
    ensures SameBut(s, Settle(s, p)) && SameBut(s, Deadlines(Settle(s, p), c, p)) && SameBut(s, Heard(s, c, p))
    ensures forall t :: t in [Settle(s, p), Deadlines(Settle(s, p), c, p), Heard(s, c, p)] ==>
              && t.proc.adoptedPid1 == Collected(s, p)
              && t.proc.descendantsEmpty == if Quiet(s) then p.topDrain.empty else s.proc.descendantsEmpty
  {
    var s1 := Settle(s, p);
    var s2 := Deadlines(s1, c, p);
    assert SameBut(s1, s2) && s2.proc.adoptedPid1 == s1.proc.adoptedPid1;
    assert s2.proc.descendantsEmpty == s1.proc.descendantsEmpty;
    var s3 := Polled(s2, p);
    assert s3.proc == s2.proc && s3.rights == s2.rights;
    assert ReadPipe(s3, p).proc == s3.proc && ReadPipe(s3, p).rights == s3.rights;
  }

  /** What a packet's action changes. */
  lemma ActKnown(s: State, d: Datagram, right: Option<nat>, a: Action, at: int)
    ensures var t := Act(s, d, right, a, at);
            && t.proc == s.proc.(controlEof := s.proc.controlEof || a.Eof?, noPid1 := s.proc.noPid1 || a.NoPid1?,
                                 pid1Report := if a.Pid1Exit? then Some(a.status) else s.proc.pid1Report)
            && t.rights.pid1Fd == if a.GotPid1? then Some(a.fd) else s.rights.pid1Fd
  {
  }

  lemma ControlKnown(s: State, p: Pass, packet: Packet)
    requires packet == if !s.proc.controlEof && ControlReady(p) then p.packet else NoPacket
    ensures var t, a := ReadControl(s, p), Meaning(packet, s.rights.pid1Fd.None?);
            && t.proc == s.proc.(controlEof := s.proc.controlEof || a == Some(Eof),
                                 noPid1 := s.proc.noPid1 || (a.Some? && a.value.NoPid1?),
                                 pid1Report := if a.Some? && a.value.Pid1Exit? then Some(a.value.status)
                                               else s.proc.pid1Report)
            && t.rights.pid1Fd == if a.Some? && a.value.GotPid1? then Some(a.value.fd) else s.rights.pid1Fd
  {
    if packet.Arrived? && Receive(packet.datagram).Accepted? {
      var d := packet.datagram;
      var right := Receive(d).right;
      ActKnown(s, d, right, Classify(d.raw, right, d.valid, s.rights.pid1Fd.None?), p.at);
    }
  }

  lemma HelperKnown(s: State, c: Config, p: Pass)
    ensures var wait := if !s.proc.helperReaped && (c.helperFd.Some? || c.helperPid > 0) then p.helperWait else Pending;
            var t := ReapHelper(s, c, p);
            && t.rights == s.rights
            && t.proc.(events := s.proc.events)
               == s.proc.(helperReaped := s.proc.helperReaped || wait.Ended? || wait.NoChild?,
                          helperInfo := if wait.Ended? then Some(wait.status) else if wait.NoChild? then None
                                        else s.proc.helperInfo)
  {
  }

  lemma Pid1Known(s: State, p: Pass)
    ensures var wait := if s.proc.helperReaped && s.proc.pid1Terminal && s.proc.adoptedPid1.None? then p.pid1Wait
                        else Pending;
            var t := ReapPid1(s, p);
            && t.rights == s.rights
            && t.proc == s.proc.(adoptedPid1 := if wait.Ended? then Some(wait.status) else s.proc.adoptedPid1)
  {
  }

  lemma MissingKnown(s: State, p: Pass)
    ensures var late := s.proc.helperReaped && s.proc.controlEof && !s.proc.noPid1 && s.proc.pid1Report.None?
                        && s.proc.adoptedPid1.None? && s.rights.pid1Fd.None?;
            var t := MissingReport(s, p);
            && t.rights == s.rights
            && t.proc == if late then s.proc.(adoptedPid1 := p.lateDrain.status, descendantsEmpty := p.lateDrain.empty,
                                              pid1Terminal := s.proc.pid1Terminal || p.lateDrain.status.Some?)
                         else s.proc
  {
  }

  // ---------------------------------------------------------------- the processes after a pass

  /** What is known of the processes after a pass, apart from the order of signals. */
  function Known(s: State, c: Config, p: Pass): Processes {
    var k, wait, late := s.proc, HelperWait(s, c, p), LateDrain(s, c, p);
    Processes(
      k.controlEof || Ends(s, p),
      TerminalBy(s, p) || (late && p.lateDrain.status.Some?),
      GoneBy(s, c, p),
      k.noPid1 || Denies(s, p),
      if wait.Ended? then Some(wait.status) else if wait.NoChild? then None else k.helperInfo,
      if Reports(s, p) then Some(ActionOf(s, p).value.status) else k.pid1Report,
      if late then p.lateDrain.status
      else if Pid1Wait(s, c, p).Ended? then Some(Pid1Wait(s, c, p).status)
      else Collected(s, p),
      if late then p.lateDrain.empty
      else if p.clock < s.err.settlement && Quiet(s) then p.topDrain.empty
      else k.descendantsEmpty,
      k.events)
  }

  function HeldAfter(s: State, p: Pass): Option<nat> {
    if Hands(s, p) then Some(ActionOf(s, p).value.fd) else s.rights.pid1Fd
  }

  /** Everything about two states except signals, errors, the pipe and the accounts of rights. */
  predicate Agrees(t: State, k: Processes, held: Option<nat>) {
    t.proc.(events := k.events) == k && t.rights.pid1Fd == held
  }

  /** What is known once the control channel was heard and PID 1 marked. */
  function Marked(s: State, p: Pass): Processes {
    var k := s.proc;
    Processes(
      k.controlEof || Ends(s, p), TerminalBy(s, p), k.helperReaped, k.noPid1 || Denies(s, p), k.helperInfo,
      if Reports(s, p) then Some(ActionOf(s, p).value.status) else k.pid1Report, Collected(s, p),
      if Quiet(s) then p.topDrain.empty else k.descendantsEmpty, k.events)
  }

  lemma MarkKnown(s: State, h: State, p: Pass)
    requires Entered(s, p) && CutAt(p) > 3 && SameBut(s, h) && h.proc.adoptedPid1 == Collected(s, p)
    requires h.proc.descendantsEmpty == if Quiet(s) then p.topDrain.empty else s.proc.descendantsEmpty
    ensures Agrees(MarkPid1(ReadControl(h, p), h.rights.pid1Fd, p), Marked(s, p), HeldAfter(s, p))
  {
    ControlKnown(h, p, PacketSeen(s, p));
    HandsOnce(s, p);
  }

  /** A pidfd is handed over only while none is held. */
  lemma HandsOnce(s: State, p: Pass)
    ensures Hands(s, p) ==> s.rights.pid1Fd.None?
  {
  }

  /** What is known once both processes were waited for, as far as the pass gets. */
  function Reaped(s: State, c: Config, p: Pass): Processes {
    var wait := HelperWait(s, c, p);
    Marked(s, p).(helperReaped := GoneBy(s, c, p),
                  helperInfo := if wait.Ended? then Some(wait.status) else if wait.NoChild? then None
                                else s.proc.helperInfo,
                  adoptedPid1 := if Pid1Wait(s, c, p).Ended? then Some(Pid1Wait(s, c, p).status) else Collected(s, p))
  }

  lemma ReapKnown(s: State, c: Config, m: State, p: Pass)
    requires Entered(s, p) && CutAt(p) > 4 && Agrees(m, Marked(s, p), HeldAfter(s, p))
    ensures CutAt(p) == 5 ==> Agrees(ReapHelper(m, c, p), Reaped(s, c, p), HeldAfter(s, p))
    ensures CutAt(p) > 5 ==> Agrees(ReapPid1(ReapHelper(m, c, p), p), Reaped(s, c, p), HeldAfter(s, p))
  {
    HelperKnown(m, c, p);
    Pid1Known(ReapHelper(m, c, p), p);
  }

  lemma KnownEarly(s: State, c: Config, p: Pass)
    requires Entered(s, p) && 3 < CutAt(p) < 7
    ensures Known(s, c, p) == if CutAt(p) == 4 then Marked(s, p) else Reaped(s, c, p)
  {
  }

  lemma SettledKnown(s: State, c: Config, u: State, p: Pass)
    requires Entered(s, p) && CutAt(p) == 7 && Agrees(u, Reaped(s, c, p), HeldAfter(s, p))
    ensures Agrees(MissingReport(u, p), Known(s, c, p), HeldAfter(s, p))
  {
    MissingKnown(u, p);
  }

  /** The end of a pass that hears the control channel. */
  lemma HearingKnown(s: State, c: Config, h: State, p: Pass)
    requires Entered(s, p) && CutAt(p) > 3 && SameBut(s, h) && h.proc.adoptedPid1 == Collected(s, p)
    requires h.proc.descendantsEmpty == if Quiet(s) then p.topDrain.empty else s.proc.descendantsEmpty
    ensures Agrees(Hearing(h, c, p).state, Known(s, c, p), HeldAfter(s, p))
  {
    var m := MarkPid1(ReadControl(h, p), h.rights.pid1Fd, p);
    MarkKnown(s, h, p);
    if CutAt(p) == 4 {
      KnownEarly(s, c, p);
    } else {
      ReapingKnown(s, c, m, p);
    }
  }

  lemma ReapingKnown(s: State, c: Config, m: State, p: Pass)
    requires Entered(s, p) && CutAt(p) > 4 && Agrees(m, Marked(s, p), HeldAfter(s, p))
    ensures Agrees(Reaping(m, c, p).state, Known(s, c, p), HeldAfter(s, p))
  {
    ReapKnown(s, c, m, p);
    if CutAt(p) < 7 {
      KnownEarly(s, c, p);
    } else {
      SettledKnown(s, c, ReapPid1(ReapHelper(m, c, p), p), p);
    }
  }

  /** One pass, cut short anywhere, leaves what is known of the processes exactly as the table says. */
  lemma PassKnown(s: State, c: Config, p: Pass)
    ensures Agrees(Round(s, c, p).state, Known(s, c, p), HeldAfter(s, p))
  {
    if p.clock < s.err.settlement {
      HeardSame(s, c, p);
      if Entered(s, p) && CutAt(p) > 3 {
        HearingKnown(s, c, Heard(s, c, p), p);
        RoundHears(s, c, p);
      }
    }
  }
}
