/** What a whole run answers: its payload, the error judged after the loop, and what it lists at the end. */
module SupervisorOutcome {
  import opened Basics
  import opened Control
  import opened Supervisor
  import opened SupervisorSafety
  import opened SupervisorClaims
  import opened SupervisorReach
  import opened SupervisorPass
  import opened SupervisorLog
  import opened SupervisorErrors
  import Frames

  // ---------------------------------------------------------------- the bytes of a run

  function ReadIn(s: State, p: Pass): Bytes {
    if BytesRead(s, p).Some? then BytesRead(s, p).value else []
  }

  /** Every byte read from the result pipe by the passes the loop reaches. */
  function Transcript(s: State, c: Config, script: seq<Pass>): Bytes
    decreases |script|
  {
    if script == [] then []
    else
      match Round(s, c, script[0])
      case Leave(_) => ReadIn(s, script[0])
      case Continue(t) => ReadIn(s, script[0]) + Transcript(t, c, script[1..])
  }

  /** What is kept is the whole stream, unless the stream is longer than the largest frame. */
  predicate Kept(i: Intake) {
    if i.oversize then |i.stream| > 4228 else i.raw == i.stream
  }

  lemma PassKept(s: State, c: Config, p: Pass)
    requires Kept(s.pipe)
    ensures Kept(Round(s, c, p).state.pipe)
  {
    PipeOnly(s, c, p);
  }

  lemma {:induction false} RoundsKept(s: State, c: Config, script: seq<Pass>)
    requires Kept(s.pipe)
    ensures Kept(Rounds(s, c, script).pipe)
    decreases |script|
  {
    if script != [] {
      PassKept(s, c, script[0]);
      var next := Round(s, c, script[0]);
      if next.Continue? {
        RoundsKept(next.state, c, script[1..]);
      }
    }
  }

  lemma TranscriptStep(s: State, c: Config, script: seq<Pass>, next: Next)
    requires script != [] && Round(s, c, script[0]) == next
    ensures next.state.pipe.stream == s.pipe.stream + ReadIn(s, script[0])
    ensures next.Leave? ==>
              Rounds(s, c, script).pipe == next.state.pipe && Transcript(s, c, script) == ReadIn(s, script[0])
    ensures next.Continue? ==>
              && Rounds(s, c, script).pipe == Rounds(next.state, c, script[1..]).pipe
              && Transcript(s, c, script) == ReadIn(s, script[0]) + Transcript(next.state, c, script[1..])
  {
    PassPipe(s, c, script[0]);
  }

  lemma {:induction false} RoundsTranscript(s: State, c: Config, script: seq<Pass>)
    ensures Rounds(s, c, script).pipe.stream == s.pipe.stream + Transcript(s, c, script)
    decreases |script|
  {
    if script != [] {
      var next := Round(s, c, script[0]);
      TranscriptStep(s, c, script, next);
      if next.Continue? {
        RoundsTranscript(next.state, c, script[1..]);
      }
    }
  }

  lemma {:induction false} BlockingPipe(s: State, errors: seq<PlainError>, at: int)
    ensures Blocking(s, errors, at).pipe == s.pipe && Blocking(s, errors, at).err.cleanup == s.err.cleanup
    decreases |errors|
  {
    if errors != [] {
      BlockingPipe(Work(s, errors[0], at), errors[1..], at);
    }
  }

  lemma StartPipe(c: Config)
    ensures Start(c).pipe == Intake([], [], false, false) && Start(c).err.cleanup == []
  {
    var s := State(
      Intake([], [], false, false),
      Processes(false, false, false, c.initialNoPid1, None, None, None, false, []),
      Rights(c.pid1Fd, One(c.pid1Fd), multiset{}, Carried(c.initialError), 0),
      StartErrors(c));
    BlockingPipe(s, c.blocking, c.startClock);
  }

  lemma FinalPipe(c: Config, script: seq<Pass>, f: Closing)
    ensures Final(c, script, f).pipe.stream == Transcript(Start(c), c, script) && Kept(Final(c, script, f).pipe)
  {
    StartPipe(c);
    RoundsTranscript(Start(c), c, script);
    RoundsKept(Start(c), c, script);
    WindUpPipe(Rounds(Start(c), c, script), c, f);
  }

  lemma WindUpPipe(s: State, c: Config, f: Closing)
    ensures WindUp(s, c, f).pipe == s.pipe
  {
  }

  /** The bytes are the success frame of the payload. */
  predicate SuccessBytes(raw: Bytes, payload: Bytes) {
    0 < |payload| <= 4096 && Frames.WriteFrame(Frames.SUCCESS_KIND, payload) == Some(raw)
  }

  predicate FailureBytes(raw: Bytes, stage: Bytes, category: Bytes) {
    && Frames.IsToken(stage) && Frames.IsToken(category)
    && Frames.WriteFrame(Frames.ERROR_KIND, stage + [Frames.COLON] + category) == Some(raw)
  }

  ghost predicate IsSuccess(raw: Bytes) {
    exists payload :: SuccessBytes(raw, payload)
  }

  ghost predicate IsFailure(raw: Bytes) {
    exists stage, category :: FailureBytes(raw, stage, category)
  }

  /** What the bytes of the run parse to. */
  function FrameOf(i: Intake): Option<Frames.Frame> {
    if i.raw != [] && !i.oversize then Some(Frames.ParseFrame(i.raw)) else None
  }

  lemma FrameMeans(i: Intake)
    requires Kept(i)
    ensures forall payload :: FrameOf(i) == Some(Frames.Payload(payload)) <==> SuccessBytes(i.stream, payload)
    ensures forall stage, category ::
              FrameOf(i) == Some(Frames.ChildFailure(stage, category)) <==> FailureBytes(i.stream, stage, category)
    ensures FrameOf(i).None? ==> i.oversize || i.stream == []
  {
    forall payload ensures FrameOf(i) == Some(Frames.Payload(payload)) <==> SuccessBytes(i.stream, payload) {
      Frames.SuccessFrameExact(i.stream, payload);
    }
    forall stage, category
      ensures FrameOf(i) == Some(Frames.ChildFailure(stage, category)) <==> FailureBytes(i.stream, stage, category)
    {
      Frames.FailureFrameExact(i.stream, stage, category);
    }
  }

  /** The payload of a run, whatever its errors: the bytes read are its success frame, and nothing more. */
  lemma ResultExact(c: Config, script: seq<Pass>, f: Closing, payload: Bytes)
    ensures Judge(Final(c, script, f)).result == Some(payload) <==>
              SuccessBytes(Transcript(Start(c), c, script), payload)
  {
    FinalPipe(c, script, f);
    var i := Final(c, script, f).pipe;
    FrameMeans(i);
    assert Judge(Final(c, script, f)).result
        == if FrameOf(i).Some? && FrameOf(i).value.Payload? then Some(FrameOf(i).value.payload) else None;
  }

  // ---------------------------------------------------------------- the error judged after the loop

  /** The word on PID 1 that counts: the helper's report, else the status collected. */
  function WordOf(k: Processes): Option<Status> {
    if k.pid1Report.Some? then k.pid1Report else k.adoptedPid1
  }

  /**
   * The table after the loop, over the bytes read, the helper's status and the word on PID 1: a bad
   * helper status first; a failure frame counts only with PID 1 ended as (exited, 1).
   */
  ghost predicate Judged(e: Option<Error>, raw: Bytes, helper: Option<Status>, word: Option<Status>) {
    var fine := word.None? || word == Some(Status(1, 0));
    if helper.Some? && helper != Some(Status(1, 0)) then e == Some(Native(HelperStatus))
    else
      && (forall stage, category :: FailureBytes(raw, stage, category) && word == Some(Status(1, 1)) ==>
            e == Some(ChildFailed(stage, category)))
      && (!fine && !(IsFailure(raw) && word == Some(Status(1, 1))) ==> e == Some(Native(Pid1Status)))
      && (IsFailure(raw) && word == Some(Status(1, 0)) ==> e == Some(Native(ErrorFrameZeroStatus)))
      && (IsFailure(raw) && word.None? ==> e == Some(Native(ErrorFrameMissingStatus)))
      && (fine && raw == [] ==> e == Some(Native(MissingFrame)))
      && (fine && raw != [] && !IsFailure(raw) && !IsSuccess(raw) ==> e == Some(Native(MalformedResult)))
      && (fine && IsSuccess(raw) ==> e.None?)
  }

  lemma VerdictJudged(s: State)
    requires s.err.work.None? && Kept(s.pipe) && !s.pipe.oversize
    ensures Judged(Judge(s).workError, s.pipe.stream, s.proc.helperInfo, WordOf(s.proc))
  {
    FrameMeans(s.pipe);
    var frame := FrameOf(s.pipe);
    assert Judge(s).workError == Verdict(s, frame);
    NotBoth(s.pipe.stream);
    if frame.Some? {
      match frame.value
      case Payload(payload) => assert SuccessBytes(s.pipe.stream, payload);
      case ChildFailure(stage, category) => assert FailureBytes(s.pipe.stream, stage, category);
      case Malformed => assert !IsFailure(s.pipe.stream) && !IsSuccess(s.pipe.stream);
    }
  }

  lemma NotBoth(raw: Bytes)
    ensures !(IsSuccess(raw) && IsFailure(raw)) && (IsSuccess(raw) || IsFailure(raw) ==> raw != [])
  {
    if IsSuccess(raw) {
      var payload :| SuccessBytes(raw, payload);
      assert raw[4] == Frames.SUCCESS_KIND;
    }
    if IsFailure(raw) {
      var stage, category :| FailureBytes(raw, stage, category);
      assert raw[4] == Frames.ERROR_KIND;
    }
  }

  /** A run in which nothing was met that is wrong is judged by this table, and so reports. */
  lemma JudgedExactly(c: Config, script: seq<Pass>, f: Closing)
    requires ValidConfig(c) && Blameless(c, script)
    ensures var s := Final(c, script, f);
            Judged(Judge(s).workError, Transcript(Start(c), c, script), s.proc.helperInfo, WordOf(s.proc))
  {
    var r := Rounds(Start(c), c, script);
    LoopExplained(c, script, Start(c), r.err.work);
    StartKeeps(c);
    RoundsKeep(Start(c), c, script);
    WindUpState(r, c, f);
    WindUpPipe(r, c, f);
    FinalPipe(c, script, f);
    VerdictJudged(Final(c, script, f));
  }

  /** A child that fails in its own words is reported in them. */
  lemma ChildFailureReported(c: Config, script: seq<Pass>, f: Closing, stage: Bytes, category: Bytes)
    requires ValidConfig(c) && Blameless(c, script)
    requires FailureBytes(Transcript(Start(c), c, script), stage, category)
    requires var k := Final(c, script, f).proc;
             && (k.helperInfo.None? || k.helperInfo == Some(Status(1, 0))) && WordOf(k) == Some(Status(1, 1))
    ensures Judge(Final(c, script, f)).workError == Some(ChildFailed(stage, category))
  {
    JudgedExactly(c, script, f);
  }

  /** Exactly when a run reports no work error. */
  lemma ErrorFreeExactly(c: Config, script: seq<Pass>, f: Closing)
    requires ValidConfig(c)
    ensures var s, raw := Final(c, script, f), Transcript(Start(c), c, script);
            Judge(s).workError.None? <==>
              && Blameless(c, script) && IsSuccess(raw)
              && (s.proc.helperInfo.None? || s.proc.helperInfo == Some(Status(1, 0)))
              && (WordOf(s.proc).None? || WordOf(s.proc) == Some(Status(1, 0)))
  {
    if Blameless(c, script) {
      JudgedExactly(c, script, f);
      JudgedNone(Judge(Final(c, script, f)).workError, Transcript(Start(c), c, script),
                 Final(c, script, f).proc.helperInfo, WordOf(Final(c, script, f).proc));
    } else {
      LoopExplained(c, script, Start(c), Rounds(Start(c), c, script).err.work);
      LoopErrorReported(c, script, f);
    }
  }

  lemma JudgedNone(e: Option<Error>, raw: Bytes, helper: Option<Status>, word: Option<Status>)
    requires Judged(e, raw, helper, word)
    ensures e.None? <==>
              && IsSuccess(raw) && (helper.None? || helper == Some(Status(1, 0)))
              && (word.None? || word == Some(Status(1, 0)))
  {
    NotBoth(raw);
    if IsFailure(raw) {
      var stage, category :| FailureBytes(raw, stage, category);
    }
  }

  // ---------------------------------------------------------------- what a run lists

  /** Every cleanup error listed by the passes the loop reaches, in order. */
  function RunListing(s: State, c: Config, script: seq<Pass>): seq<CleanupError>
    decreases |script|
  {
    if script == [] then []
    else
      match Round(s, c, script[0])
      case Leave(_) => Listing(s, c, script[0])
      case Continue(t) => Listing(s, c, script[0]) + RunListing(t, c, script[1..])
  }

  lemma ListingStep(s: State, c: Config, script: seq<Pass>, next: Next)
    requires script != [] && Round(s, c, script[0]) == next
    ensures next.state.err.cleanup == s.err.cleanup + Listing(s, c, script[0])
    ensures next.Leave? ==>
              && Rounds(s, c, script).err.cleanup == next.state.err.cleanup
              && RunListing(s, c, script) == Listing(s, c, script[0])
    ensures next.Continue? ==>
              && Rounds(s, c, script).err.cleanup == Rounds(next.state, c, script[1..]).err.cleanup
              && RunListing(s, c, script) == Listing(s, c, script[0]) + RunListing(next.state, c, script[1..])
  {
    PassLogged(s, c, script[0]);
  }

  lemma {:induction false} RoundsListed(s: State, c: Config, script: seq<Pass>)
    ensures Rounds(s, c, script).err.cleanup == s.err.cleanup + RunListing(s, c, script)
    decreases |script|
  {
    if script != [] {
      var next := Round(s, c, script[0]);
      ListingStep(s, c, script, next);
      if next.Continue? {
        RoundsListed(next.state, c, script[1..]);
      }
    }
  }

  /** Nothing is left to do at the end. */
  predicate Over(r: State) {
    Quiet(r) && r.proc.descendantsEmpty
  }

  /** The last attempt on a run that is not over: signals while there is time, then a drain. */
  function LastListing(r: State, c: Config, f: Closing): seq<CleanupError> {
    if Over(r) then []
    else
      var pid1 := f.now <= r.err.until && !r.proc.pid1Terminal && r.proc.adoptedPid1.None? && !r.proc.noPid1
                  && r.rights.pid1Fd.Some?;
      var helper := f.now <= r.err.until && HelperAlive(r, c);
      (if pid1 then Failures(Pid1Signal, f.pid1Kill) else [])
      + (if helper then Failures(HelperSignal, f.helperKill) else []) + f.drain.errors
  }

  /** An unproved end, by what is missing. */
  predicate Missing(s: State, e: CleanupError) {
    || (e == CleanupError(HelperNotReaped, Native(NotReaped)) && !s.proc.helperReaped)
    || (e == CleanupError(DescendantsRemain, Native(DescendantsLeft)) && !s.proc.descendantsEmpty)
    || (e == CleanupError(PipeOpen, Native(PipeNotClosed)) && !s.pipe.eof)
    || (e == CleanupError(ControlOpen, Native(ControlNotClosed)) && !s.proc.controlEof)
    || (e == CleanupError(Pid1Unsettled, Native(TeardownUnproved))
        && !s.proc.noPid1 && s.proc.adoptedPid1.None?
        && !(s.proc.pid1Report.Some? && (s.proc.pid1Terminal || s.rights.pid1Fd.None?))
        && !(s.proc.pid1Terminal && s.proc.helperReaped && s.proc.controlEof))
  }

  /** A descriptor that could not be closed at the end; the pidfds only if they are held. */
  predicate Unclosed(s: State, c: Config, f: Closing, e: CleanupError) {
    || (e.stage == ResultClose && f.result == Some(e.error))
    || (e.stage == ControlClose && f.control == Some(e.error))
    || (e.stage == Pid1Close && s.rights.pid1Fd.Some? && f.pid1 == Some(e.error))
    || (e.stage == HelperClose && c.helperFd.Some? && f.helper == Some(e.error))
  }

  /** What stays unproved is listed, one error for each. */
  lemma ResidueMeans(s: State, e: CleanupError)
    ensures e in Residue(s) <==> Missing(s, e)
  {
  }

  /** So is every descriptor that could not be closed. */
  lemma ClosesMean(s: State, c: Config, f: Closing, e: CleanupError)
    ensures e in CloseFailures(s.rights, c, f) <==> Unclosed(s, c, f, e)
  {
  }

  /**
   * Every cleanup error of a run: those of the passes, then of the last attempt, then one for each
   * thing that stays unproved, then one for each descriptor that could not be closed.
   */
  lemma ListedExactly(c: Config, script: seq<Pass>, f: Closing, r: State, u: State)
    requires r == Rounds(Start(c), c, script) && u == LastResort(r, c, f)
    ensures Judge(Final(c, script, f)).cleanup
         == RunListing(Start(c), c, script) + LastListing(r, c, f) + Residue(u) + CloseFailures(u.rights, c, f)
  {
    StartPipe(c);
    RoundsListed(Start(c), c, script);
    WindUpState(r, c, f);
    LastListed(r, c, f);
    assert r.err.cleanup == RunListing(Start(c), c, script);
  }

  /** What the last attempt changes: only what its drain finds. */
  lemma LastKnown(r: State, c: Config, f: Closing)
    ensures var u := LastResort(r, c, f);
            && u.pipe == r.pipe && u.rights == r.rights && u.err.work == r.err.work
            && u.proc.(events := r.proc.events)
               == if Over(r) then r.proc
                  else r.proc.(descendantsEmpty := f.drain.empty,
                               adoptedPid1 := if f.drain.status.Some? then f.drain.status else r.proc.adoptedPid1,
                               pid1Terminal := r.proc.pid1Terminal || f.drain.status.Some?)
  {
  }

  lemma LastListed(r: State, c: Config, f: Closing)
    ensures LastResort(r, c, f).err.cleanup == r.err.cleanup + LastListing(r, c, f)
  {
  }
}
