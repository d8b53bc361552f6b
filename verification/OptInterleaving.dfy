/**
 * Any number of `normalize` and `restore` processes over one /opt, their steps interleaved in any
 * order. Each step may raise or be killed, before or after its effect, and a process may be killed
 * between any two steps.
 */
module OptInterleaving {
  import opened Basics
  import opened OptMode

  // ---------------------------------------------------------------- processes

  /**
   * Where a process stands and what it holds: the receipt it writes or has read, the file's number, the mode on
   * entry.
   */
  datatype Phase =
    | Opened(receipt: Receipt)
    | Created(receipt: Receipt, id: nat)
    | Written(receipt: Receipt, id: nat)
    | Changed(receipt: Receipt, id: nat)
    | Undoing(receipt: Receipt)
    | Held(receipt: Receipt, id: nat)
    | Entered(receipt: Receipt, id: nat, entry: nat)
    | Replaced(receipt: Receipt, id: nat, entry: nat)
    | Checked(receipt: Receipt, id: nat, entry: nat)
    | Named(receipt: Receipt, id: nat, entry: nat)
    | Reverting(receipt: Receipt, entry: nat)
  {
    predicate Restores() { Held? || Entered? || Replaced? || Checked? || Named? || Reverting? }
  }

  /** The steps of `normalize` from `Look` to `Undo`, and those of `restore` from `Read` to `Revert`. */
  datatype Act =
    | Look(runId: string, attempt: string) | Create | Fill(torn: bool) | Change | Confirm | Undo
    | Read(runId: string, attempt: string) | Enter | Replace | Check | Name | Unlink | Revert
    | Kill

  datatype Event = Event(p: nat, act: Act, fault: Fault)

  datatype State = State(world: World, running: map<nat, Phase>)

  predicate Due(phase: Phase, act: Act) {
    match act
    case Create => phase.Opened?
    case Fill(_) => phase.Created?
    case Change => phase.Written?
    case Confirm => phase.Changed?
    case Undo => phase.Undoing?
    case Enter => phase.Held?
    case Replace => phase.Entered?
    case Check => phase.Replaced?
    case Name => phase.Checked?
    case Unlink => phase.Named?
    case Revert => phase.Reverting?
    case Kill => true
    case _ => false
  }

  /** The mode a step would leave. */
  function Sets(w: World, phase: Phase, act: Act): nat
    requires Due(phase, act)
  {
    match act
    case Change => CLOSED_MODE
    case Undo => phase.receipt.originalMode
    case Replace => phase.receipt.originalMode
    case Revert => phase.entry
    case _ => w.mode
  }

  /** `fchmod` is skipped when the mode found is already the one wanted. */
  predicate Skips(phase: Phase, act: Act)
    requires Due(phase, act)
  {
    || (act.Change? && phase.receipt.originalMode == CLOSED_MODE)
    || (act.Replace? && phase.entry == phase.receipt.originalMode)
  }

  predicate Fills(w: World, phase: Phase, act: Act, fault: Fault)
    requires Due(phase, act)
  {
    act.Fill? && w.slot == Torn(phase.id) && (fault.Fine? || !act.torn)
  }

  function Effect(w: World, phase: Phase, act: Act, fault: Fault): World
    requires Due(phase, act)
  {
    if act.Kill? || !fault.Happens() || Skips(phase, act) then w
    else if act.Create? then (if w.slot == Absent then World(w.mode, Torn(w.made), w.made + 1) else w)
    else if act.Fill? then (if Fills(w, phase, act, fault) then w.(slot := Intact(phase.id, phase.receipt)) else w)
    else if act.Unlink? then w.(slot := Absent)
    else w.(mode := Sets(w, phase, act))
  }

  function Go(fine: bool, next: Phase, failed: Phase): Option<Phase> {
    Some(if fine then next else failed)
  }

  /** Where the process stands next, if it goes on. Exceptions lead to the handler once there is one. */
  function Then(w: World, phase: Phase, act: Act, fault: Fault): Option<Phase>
    requires Due(phase, act)
  {
    if act.Kill? || fault.Kills() then None
    else
      match act
      case Create => if fault.Fine? && w.slot == Absent then Some(Created(phase.receipt, w.made)) else None
      case Fill(_) => if fault.Fine? then Some(Written(phase.receipt, phase.id)) else None
      case Change => Go(fault.Fine?, Changed(phase.receipt, phase.id), Undoing(phase.receipt))
      case Confirm => if fault.Fine? && w.mode == CLOSED_MODE then None else Some(Undoing(phase.receipt))
      case Enter =>
        if fault.Fine? && Enterable(w.mode, phase.receipt) then Some(Entered(phase.receipt, phase.id, w.mode)) else None
      case Replace =>
        Go(fault.Fine?, Replaced(phase.receipt, phase.id, phase.entry), Reverting(phase.receipt, phase.entry))
      case Check =>
        Go(fault.Fine? && w.mode == phase.receipt.originalMode, Checked(phase.receipt, phase.id, phase.entry),
           Reverting(phase.receipt, phase.entry))
      case Name =>
        Go(fault.Fine? && w.slot != Absent && w.slot.id == phase.id, Named(phase.receipt, phase.id, phase.entry),
           Reverting(phase.receipt, phase.entry))
      case Unlink => if fault.Fine? && w.slot != Absent then None else Some(Reverting(phase.receipt, phase.entry))
      case _ => None
  }

  function Settle(running: map<nat, Phase>, p: nat, next: Option<Phase>): map<nat, Phase> {
    match next
    case None => running - {p}
    case Some(phase) => running[p := phase]
  }

  /** The first step of a process; one that is refused leaves no process and no effect. */
  function First(w: World, act: Act): Option<Phase> {
    match act
    case Look(runId, attempt) =>
      if Positive(runId) && Positive(attempt) && Accepted(w.mode) then Some(Opened(Receipt(runId, attempt, w.mode)))
      else None
    case Read(runId, attempt) =>
      if Claimable(w, runId, attempt) then Some(Held(w.slot.receipt, w.slot.id)) else None
    case _ => None
  }

  function Next(s: State, e: Event): Option<State> {
    if e.p !in s.running then
      match First(s.world, e.act)
      case None => None
      case Some(phase) => Some(s.(running := s.running[e.p := phase]))
    else
      var phase := s.running[e.p];
      if !Due(phase, e.act) then None
      else Some(State(Effect(s.world, phase, e.act, e.fault),
                      Settle(s.running, e.p, Then(s.world, phase, e.act, e.fault))))
  }

  function Run(s: State, events: seq<Event>): Option<State>
    decreases |events|
  {
    if events == [] then Some(s)
    else
      match Next(s, events[0])
      case None => None
      case Some(t) => Run(t, events[1..])
  }

  // ---------------------------------------------------------------- every interleaving

  /**
   * A step that harms: it changes the mode with no receipt to witness it, records a mode other than
   * the one in force, or removes a receipt while the mode it records is not in force.
   */
  predicate Harms(s: State, e: Event) {
    && e.p in s.running && Due(s.running[e.p], e.act) && e.fault.Happens()
    && var w, phase := s.world, s.running[e.p];
       || (!w.slot.Intact? && !Skips(phase, e.act) && Sets(w, phase, e.act) != w.mode)
       || (Fills(w, phase, e.act, e.fault) && phase.receipt.originalMode != w.mode)
       || (e.act.Unlink? && w.slot.Intact? && w.slot.receipt.originalMode != w.mode)
  }

  lemma StepSafe(s: State, e: Event, original: nat)
    requires Safe(s.world, original) && Next(s, e).Some?
    ensures Safe(Next(s, e).value.world, original) <==> !Harms(s, e)
  {
  }

  /** Every state the run goes through is safe. */
  predicate SafeThroughout(s: State, events: seq<Event>, original: nat)
    decreases |events|
  {
    && Safe(s.world, original)
    && (events != [] && Next(s, events[0]).Some? ==> SafeThroughout(Next(s, events[0]).value, events[1..], original))
  }

  /** No step of the run harms in the state it is taken in. */
  predicate Harmless(s: State, events: seq<Event>)
    decreases |events|
  {
    || events == []
    || (!Harms(s, events[0]) && (Next(s, events[0]).Some? ==> Harmless(Next(s, events[0]).value, events[1..])))
  }

  /** Over every interleaving: safe all along exactly when no step harms. */
  lemma {:induction false} SafeExactly(s: State, events: seq<Event>, original: nat)
    requires Safe(s.world, original) && Run(s, events).Some?
    ensures SafeThroughout(s, events, original) <==> Harmless(s, events)
    decreases |events|
  {
    if events != [] {
      var t := Next(s, events[0]).value;
      StepSafe(s, events[0], original);
      if Safe(t.world, original) {
        SafeExactly(t, events[1..], original);
      }
    }
  }

  /** No step of any process replaces a receipt: it stays as it is until it is unlinked. */
  lemma {:induction false} ReceiptStays(s: State, events: seq<Event>)
    requires Run(s, events).Some? && s.world.slot.Intact?
    requires forall e :: e in events ==> !e.act.Unlink?
    ensures Run(s, events).value.world.slot == s.world.slot
    decreases |events|
  {
    if events != [] {
      assert events[0] in events;
      ReceiptStays(Next(s, events[0]).value, events[1..]);
    }
  }

  // ---------------------------------------------------------------- restores apart

  predicate Alone(s: State, p: nat) {
    s.running.Keys <= {p}
  }

  /** A restore takes its steps, and is in flight, only while no other process is in flight. */
  predicate Apart(s: State, e: Event) {
    (e.act.Read? || exists p :: p in s.running && s.running[p].Restores()) ==> Alone(s, e.p)
  }

  predicate AllApart(s: State, events: seq<Event>)
    decreases |events|
  {
    || events == []
    || (Apart(s, events[0]) && (Next(s, events[0]).Some? ==> AllApart(Next(s, events[0]).value, events[1..])))
  }

  /** What a process in flight may rely on when restores keep apart. */
  predicate Known(w: World, phase: Phase, original: nat) {
    match phase
    case Opened(r) => w.slot == Absent ==> r.originalMode == original
    case Created(r, id) => w.slot == Torn(id) && r.originalMode == original
    case Written(r, id) => w.slot == Intact(id, r)
    case Changed(r, id) => w.slot == Intact(id, r)
    case Undoing(r) => w.slot.Intact? && r.originalMode == original
    case Held(r, id) => w.slot == Intact(id, r)
    case Entered(r, id, entry) => w.slot == Intact(id, r) && Enterable(entry, r) && entry == w.mode
    case Replaced(r, id, entry) => w.slot == Intact(id, r) && Enterable(entry, r) && w.mode == original
    case Checked(r, id, entry) => w.slot == Intact(id, r) && Enterable(entry, r) && w.mode == original
    case Named(r, id, entry) => w.slot == Intact(id, r) && Enterable(entry, r) && w.mode == original
    case Reverting(r, entry) => Enterable(entry, r) && r.originalMode == original && !w.slot.Torn?
  }

  ghost predicate Sound(s: State, original: nat) {
    && Safe(s.world, original)
    && (forall p :: p in s.running ==> Known(s.world, s.running[p], original))
    && forall p, q :: p in s.running && q in s.running && s.running[p].Created? && s.running[q].Created? ==> p == q
  }

  /** The handler of a restore puts the closed mode back although the receipt is gone. */
  predicate Missed(s: State, e: Event) {
    && e.p in s.running && s.running[e.p].Reverting? && e.act.Revert? && e.fault.Happens()
    && s.world.slot == Absent && s.running[e.p].entry != s.running[e.p].receipt.originalMode
  }

  lemma ApartHarm(s: State, e: Event, original: nat)
    requires Sound(s, original) && Next(s, e).Some? && Apart(s, e)
    ensures Harms(s, e) <==> Missed(s, e)
  {
    if e.p in s.running {
      assert Known(s.world, s.running[e.p], original);
    }
  }

  lemma OtherKnown(s: State, e: Event, q: nat, original: nat)
    requires Sound(s, original) && Next(s, e).Some? && Apart(s, e) && !Missed(s, e)
    requires q in s.running && q != e.p && e.p in s.running
    ensures Known(Next(s, e).value.world, s.running[q], original)
  {
    assert Known(s.world, s.running[q], original) && Known(s.world, s.running[e.p], original);
    assert !Alone(s, e.p);
    assert !s.running[q].Restores() && !s.running[e.p].Restores();
  }

  /** A process that goes on knows what its next phase asks. */
  lemma ThenKnown(w: World, phase: Phase, act: Act, fault: Fault, original: nat)
    requires Due(phase, act) && Safe(w, original) && Known(w, phase, original) && Then(w, phase, act, fault).Some?
    ensures Known(Effect(w, phase, act, fault), Then(w, phase, act, fault).value, original)
  {
    match act {
      case Create =>
      case Fill(_) =>
      case Change =>
      case Confirm =>
      case Enter =>
      case Replace =>
      case Check =>
      case Name =>
      case Unlink =>
    }
  }

  lemma FirstKnown(w: World, act: Act, original: nat)
    requires Safe(w, original) && First(w, act).Some?
    ensures Known(w, First(w, act).value, original)
  {
  }

  lemma StepSound(s: State, e: Event, original: nat)
    requires Sound(s, original) && Next(s, e).Some? && Apart(s, e) && !Missed(s, e)
    ensures Sound(Next(s, e).value, original)
  {
    var t := Next(s, e).value;
    ApartHarm(s, e, original);
    StepSafe(s, e, original);
    forall q | q in t.running ensures Known(t.world, t.running[q], original) {
      if q == e.p && q in s.running {
        ThenKnown(s.world, s.running[q], e.act, e.fault, original);
      } else if q == e.p {
        FirstKnown(s.world, e.act, original);
      } else if e.p in s.running {
        OtherKnown(s, e, q, original);
      } else {
        assert Known(s.world, s.running[q], original);
      }
    }
  }

  // ---------------------------------------------------------------- what is lost stays lost

  /** Nothing in the world or in any process remembers a mode other than the closed one. */
  ghost predicate Forgotten(s: State) {
    && s.world.mode == CLOSED_MODE && (s.world.slot.Intact? ==> s.world.slot.receipt.originalMode == CLOSED_MODE)
    && forall p :: p in s.running ==> OnlyClosed(s.running[p])
  }

  predicate OnlyClosed(phase: Phase) {
    && phase.receipt.originalMode == CLOSED_MODE
    && (phase.Entered? || phase.Replaced? || phase.Checked? || phase.Named? || phase.Reverting? ==>
          phase.entry == CLOSED_MODE)
  }

  lemma StaysForgotten(s: State, e: Event)
    requires Forgotten(s) && Next(s, e).Some?
    ensures Forgotten(Next(s, e).value)
  {
    if e.p in s.running {
      assert OnlyClosed(s.running[e.p]);
    }
  }

  lemma {:induction false} NeverRecalled(s: State, events: seq<Event>, original: nat)
    requires Forgotten(s) && Run(s, events).Some? && original != CLOSED_MODE
    ensures !Safe(Run(s, events).value.world, original)
    decreases |events|
  {
    if events != [] {
      StaysForgotten(s, events[0]);
      NeverRecalled(Next(s, events[0]).value, events[1..], original);
    }
  }

  lemma MissedForgets(s: State, e: Event, original: nat)
    requires Sound(s, original) && Next(s, e).Some? && Apart(s, e) && Missed(s, e)
    ensures Forgotten(Next(s, e).value) && original != CLOSED_MODE
  {
    assert Known(s.world, s.running[e.p], original);
    assert s.running[e.p].Restores();
  }

  predicate NoMiss(s: State, events: seq<Event>)
    decreases |events|
  {
    || events == []
    || (!Missed(s, events[0]) && (Next(s, events[0]).Some? ==> NoMiss(Next(s, events[0]).value, events[1..])))
  }

  /**
   * When restores keep apart, the final state is safe exactly when no handler put the closed mode back
   * after an unlink it did not notice: such a loss is never made good by any later step.
   */
  lemma {:induction false} RunSound(s: State, events: seq<Event>, original: nat)
    requires Sound(s, original) && AllApart(s, events) && Run(s, events).Some?
    ensures Safe(Run(s, events).value.world, original) <==> NoMiss(s, events)
    ensures NoMiss(s, events) ==> Sound(Run(s, events).value, original)
    decreases |events|
  {
    if events != [] {
      var t := Next(s, events[0]).value;
      if Missed(s, events[0]) {
        MissedForgets(s, events[0], original);
        NeverRecalled(t, events[1..], original);
      } else {
        StepSound(s, events[0], original);
        RunSound(t, events[1..], original);
      }
    }
  }

  function Fresh(mode: nat): State {
    State(World(mode, Absent, 0), map[])
  }

  /** From a directory without receipt, that is the promise about its mode. */
  lemma OriginalKept(mode: nat, events: seq<Event>)
    requires AllApart(Fresh(mode), events) && Run(Fresh(mode), events).Some?
    ensures var w := Run(Fresh(mode), events).value.world;
            NoMiss(Fresh(mode), events) <==> Safe(w, mode)
  {
    RunSound(Fresh(mode), events, mode);
  }

  /** A restore that keeps apart and completes leaves the original mode and no receipt. */
  lemma RestoreCompletes(s: State, e: Event, original: nat)
    requires Sound(s, original) && Next(s, e).Some? && Apart(s, e) && e.act.Unlink? && e.fault.Fine?
    ensures var t := Next(s, e).value; t.world.mode == original && t.world.slot == Absent && t.running == map[]
  {
    assert Known(s.world, s.running[e.p], original);
    assert s.running[e.p].Restores();
  }
}
