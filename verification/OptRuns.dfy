/**
 * Whole calls as runs of their steps, and the runs in which calls that overlap lose the original mode.
 */
module OptRuns {
  import opened Basics
  import opened OptMode
  import opened OptInterleaving

  // ---------------------------------------------------------------- scripts

  /** A step, then what follows it: the rest, nothing once killed, or the handler. */
  function Handled(p: nat, act: Act, fault: Fault, handler: seq<Event>, rest: seq<Event>): seq<Event> {
    [Event(p, act, fault)] + (if fault.Fine? then rest else if fault.Kills() then [] else handler)
  }

  function RestoreScript(p: nat, w: World, runId: string, attempt: string, f: RestoreFaults): seq<Event> {
    if !f.read.Fine? || !Claimable(w, runId, attempt) then []
    else
      [Event(p, Read(runId, attempt), Fine)] +
      Handled(p, Enter, f.look, [], if Enterable(w.mode, w.slot.receipt) then ReplaceScript(p, f) else [])
  }

  function ReplaceScript(p: nat, f: RestoreFaults): seq<Event> {
    Handled(p, Replace, f.change, [Event(p, Revert, f.rollback)],
      Handled(p, Check, f.check, [Event(p, Revert, f.rollback)], ConsumeScript(p, f)))
  }

  function ConsumeScript(p: nat, f: RestoreFaults): seq<Event> {
    Handled(p, Name, f.name, [Event(p, Revert, f.rollback)],
      Handled(p, Unlink, f.unlink, [Event(p, Revert, f.rollback)], []))
  }

  function NormalizeScript(p: nat, w: World, runId: string, attempt: string, f: NormalizeFaults): seq<Event> {
    if !f.look.Fine? || !Positive(runId) || !Positive(attempt) || !Accepted(w.mode) then []
    else
      [Event(p, Look(runId, attempt), Fine)] +
      Handled(p, Create, f.create, [], if w.slot == Absent then FillScript(p, f) else [])
  }

  function FillScript(p: nat, f: NormalizeFaults): seq<Event> {
    Handled(p, Fill(f.torn), f.write, [], ChangeScript(p, f))
  }

  // ---------------------------------------------------------------- calls are runs

  lemma {:induction false} RunAppend(s: State, a: seq<Event>, b: seq<Event>)
    requires Run(s, a).Some?
    ensures Run(s, a + b) == Run(Run(s, a).value, b)
    decreases |a|
  {
    if a == [] {
      assert a + b == b;
    } else {
      assert (a + b)[1..] == a[1..] + b;
      RunAppend(Next(s, a[0]).value, a[1..], b);
    }
  }

  lemma RunCons(s: State, e: Event, rest: seq<Event>)
    requires Next(s, e).Some?
    ensures Run(s, [e] + rest) == Run(Next(s, e).value, rest)
  {
    assert ([e] + rest)[1..] == rest;
  }

  lemma RunOne(s: State, e: Event)
    requires Next(s, e).Some?
    ensures Run(s, [e]) == Next(s, e)
  {
    assert [e][1..] == [];
  }

  lemma HandledRun(s: State, p: nat, act: Act, fault: Fault, handler: seq<Event>, rest: seq<Event>)
    requires p in s.running && Due(s.running[p], act)
    ensures Run(s, Handled(p, act, fault, handler, rest))
         == Run(Next(s, Event(p, act, fault)).value,
                if fault.Fine? then rest else if fault.Kills() then [] else handler)
  {
    RunCons(s, Event(p, act, fault), if fault.Fine? then rest else if fault.Kills() then [] else handler);
  }

  /** The state with process `p` at a phase. */
  function With(w: World, others: map<nat, Phase>, p: nat, phase: Phase): State {
    State(w, others[p := phase])
  }

  lemma Leaves(w: World, others: map<nat, Phase>, p: nat, phase: Phase, act: Act, fault: Fault)
    requires p !in others && Due(phase, act)
    ensures Next(With(w, others, p, phase), Event(p, act, fault))
         == Some(match Then(w, phase, act, fault)
                 case None => State(Effect(w, phase, act, fault), others)
                 case Some(next) => With(Effect(w, phase, act, fault), others, p, next))
  {
    assert others[p := phase] - {p} == others;
    if Then(w, phase, act, fault).Some? {
      var next := Then(w, phase, act, fault).value;
      assert others[p := phase][p := next] == others[p := next];
    }
  }

  lemma ReverseRun(w: World, others: map<nat, Phase>, p: nat, r: Receipt, entry: nat, fault: Fault)
    requires p !in others
    ensures Run(With(w, others, p, Reverting(r, entry)), [Event(p, Revert, fault)])
         == Some(State(if fault.Happens() then w.(mode := entry) else w, others))
  {
    Leaves(w, others, p, Reverting(r, entry), Revert, fault);
    RunOne(With(w, others, p, Reverting(r, entry)), Event(p, Revert, fault));
  }

  lemma ConsumeRun(w: World, others: map<nat, Phase>, p: nat, r: Receipt, id: nat, entry: nat, f: RestoreFaults)
    requires p !in others && w.slot == Intact(id, r)
    ensures var back := if f.rollback.Happens() then w.(mode := entry) else w;
            Run(With(w, others, p, Checked(r, id, entry)), ConsumeScript(p, f))
              == Some(State(
                   if !f.name.Fine? then (if f.name.Kills() then w else back)
                   else if f.unlink.Fine? then w.(slot := Absent)
                   else (if f.unlink.Kills() then w else back).(slot := if f.unlink.Happens() then Absent else w.slot),
                   others))
  {
    var handler := [Event(p, Revert, f.rollback)];
    HandledRun(With(w, others, p, Checked(r, id, entry)), p, Name, f.name, handler,
               Handled(p, Unlink, f.unlink, handler, []));
    Leaves(w, others, p, Checked(r, id, entry), Name, f.name);
    if !f.name.Fine? {
      ReverseRun(w, others, p, r, entry, f.rollback);
    } else {
      HandledRun(With(w, others, p, Named(r, id, entry)), p, Unlink, f.unlink, handler, []);
      Leaves(w, others, p, Named(r, id, entry), Unlink, f.unlink);
      ReverseRun(if f.unlink.Happens() then w.(slot := Absent) else w, others, p, r, entry, f.rollback);
    }
  }

  lemma ReplaceRun(w: World, others: map<nat, Phase>, p: nat, r: Receipt, id: nat, f: RestoreFaults)
    requires p !in others && w.slot == Intact(id, r)
    ensures var put := w.(mode := r.originalMode);
            var back := if f.rollback.Happens() then w else put;
            Run(With(w, others, p, Entered(r, id, w.mode)), ReplaceScript(p, f))
              == if !f.change.Fine? then
              Some(State(if f.change.Happens() && (f.change.Kills() || !f.rollback.Happens()) then put else w, others))
            else if !f.check.Fine? then Some(State(if f.check.Kills() then put else back, others))
            else Run(With(put, others, p, Checked(r, id, w.mode)), ConsumeScript(p, f))
  {
    var handler := [Event(p, Revert, f.rollback)];
    var put := w.(mode := r.originalMode);
    var changed := if f.change.Happens() then put else w;
    HandledRun(With(w, others, p, Entered(r, id, w.mode)), p, Replace, f.change, handler,
               Handled(p, Check, f.check, handler, ConsumeScript(p, f)));
    Leaves(w, others, p, Entered(r, id, w.mode), Replace, f.change);
    if !f.change.Fine? {
      ReverseRun(changed, others, p, r, w.mode, f.rollback);
    } else {
      HandledRun(With(put, others, p, Replaced(r, id, w.mode)), p, Check, f.check, handler, ConsumeScript(p, f));
      Leaves(put, others, p, Replaced(r, id, w.mode), Check, f.check);
      ReverseRun(put, others, p, r, w.mode, f.rollback);
    }
  }

  /** A restore whose steps no other step comes between leaves what the call leaves. */
  lemma RestoreIsRun(w: World, others: map<nat, Phase>, p: nat, runId: string, attempt: string, f: RestoreFaults)
    requires p !in others
    ensures Run(State(w, others), RestoreScript(p, w, runId, attempt, f))
         == Some(State(Restored(w, runId, attempt, f), others))
  {
    if f.read.Fine? && Claimable(w, runId, attempt) {
      var r, id := w.slot.receipt, w.slot.id;
      var rest := if Enterable(w.mode, r) then ReplaceScript(p, f) else [];
      RunCons(State(w, others), Event(p, Read(runId, attempt), Fine), Handled(p, Enter, f.look, [], rest));
      HandledRun(With(w, others, p, Held(r, id)), p, Enter, f.look, [], rest);
      Leaves(w, others, p, Held(r, id), Enter, f.look);
      if f.look.Fine? && Enterable(w.mode, r) {
        ReplaceRun(w, others, p, r, id, f);
        ConsumeRun(w.(mode := r.originalMode), others, p, r, id, w.mode, f);
      }
    }
  }

  lemma UndoRun(w: World, others: map<nat, Phase>, p: nat, r: Receipt, fault: Fault)
    requires p !in others
    ensures Run(With(w, others, p, Undoing(r)), [Event(p, Undo, fault)])
         == Some(State(if fault.Happens() then w.(mode := r.originalMode) else w, others))
  {
    Leaves(w, others, p, Undoing(r), Undo, fault);
    RunOne(With(w, others, p, Undoing(r)), Event(p, Undo, fault));
  }

  function ChangeScript(p: nat, f: NormalizeFaults): seq<Event> {
    Handled(p, Change, f.change, [Event(p, Undo, f.rollback)],
            Handled(p, Confirm, f.check, [Event(p, Undo, f.rollback)], []))
  }

  lemma ChangeRun(w: World, others: map<nat, Phase>, p: nat, r: Receipt, id: nat, f: NormalizeFaults)
    requires p !in others && w.mode == r.originalMode
    ensures Run(With(w, others, p, Written(r, id)), ChangeScript(p, f)) == Some(State(ModeChanged(w, f), others))
  {
    var handler := [Event(p, Undo, f.rollback)];
    var closed := w.(mode := CLOSED_MODE);
    HandledRun(With(w, others, p, Written(r, id)), p, Change, f.change, handler,
               Handled(p, Confirm, f.check, handler, []));
    Leaves(w, others, p, Written(r, id), Change, f.change);
    if !f.change.Fine? {
      UndoRun(if f.change.Happens() then closed else w, others, p, r, f.rollback);
    } else {
      HandledRun(With(closed, others, p, Changed(r, id)), p, Confirm, f.check, handler, []);
      Leaves(closed, others, p, Changed(r, id), Confirm, f.check);
      UndoRun(closed, others, p, r, f.rollback);
    }
  }

  lemma FillRun(w: World, others: map<nat, Phase>, p: nat, r: Receipt, f: NormalizeFaults)
    requires p !in others && w.mode == r.originalMode && w.slot == Absent && f.create.Fine?
    ensures var written := StateWritten(w, r, f.create, f.write, f.torn);
            Run(With(World(w.mode, Torn(w.made), w.made + 1), others, p, Created(r, w.made)), FillScript(p, f))
              == Some(State(if f.write.Fine? then ModeChanged(written, f) else written, others))
  {
    var torn := World(w.mode, Torn(w.made), w.made + 1);
    HandledRun(With(torn, others, p, Created(r, w.made)), p, Fill(f.torn), f.write, [], ChangeScript(p, f));
    Leaves(torn, others, p, Created(r, w.made), Fill(f.torn), f.write);
    if f.write.Fine? {
      ChangeRun(World(w.mode, Intact(w.made, r), w.made + 1), others, p, r, w.made, f);
    }
  }

  lemma CreateRun(w: World, others: map<nat, Phase>, p: nat, r: Receipt, f: NormalizeFaults, rest: seq<Event>)
    requires p !in others
    ensures Run(With(w, others, p, Opened(r)), Handled(p, Create, f.create, [], if w.slot == Absent then rest else []))
         == if w.slot != Absent then Some(State(w, others))
            else if f.create.Fine? then Run(With(World(w.mode, Torn(w.made), w.made + 1), others, p,
                                                 Created(r, w.made)), rest)
            else Some(State(if f.create.Happens() then World(w.mode, Torn(w.made), w.made + 1) else w, others))
  {
    HandledRun(With(w, others, p, Opened(r)), p, Create, f.create, [], if w.slot == Absent then rest else []);
    Leaves(w, others, p, Opened(r), Create, f.create);
  }

  /** From the look on. */
  lemma LookedRun(w: World, others: map<nat, Phase>, p: nat, r: Receipt, f: NormalizeFaults)
    requires p !in others && w.mode == r.originalMode && w.slot == Absent
    ensures var written := StateWritten(w, r, f.create, f.write, f.torn);
            Run(With(w, others, p, Opened(r)), Handled(p, Create, f.create, [], FillScript(p, f)))
              == Some(State(if f.create.Fine? && f.write.Fine? then ModeChanged(written, f) else written, others))
  {
    CreateRun(w, others, p, r, f, FillScript(p, f));
    if f.create.Fine? {
      FillRun(w, others, p, r, f);
    }
  }

  /** A normalize whose steps no other step comes between leaves what the call leaves. */
  lemma NormalizeIsRun(w: World, others: map<nat, Phase>, p: nat, runId: string, attempt: string, f: NormalizeFaults)
    requires p !in others
    ensures Run(State(w, others), NormalizeScript(p, w, runId, attempt, f))
         == Some(State(Normalized(w, runId, attempt, f), others))
  {
    if f.look.Fine? && Positive(runId) && Positive(attempt) && Accepted(w.mode) {
      var r := Receipt(runId, attempt, w.mode);
      RunCons(State(w, others), Event(p, Look(runId, attempt), Fine),
        Handled(p, Create, f.create, [], if w.slot == Absent then FillScript(p, f) else []));
      if w.slot == Absent {
        LookedRun(w, others, p, r, f);
      } else {
        CreateRun(w, others, p, r, f, []);
      }
    }
  }

  // ---------------------------------------------------------------- overlaps that lose the original

  const CALM := RestoreFaults(Fine, Fine, Fine, Fine, Fine, Fine, Fine, Fine)
  const EASY := NormalizeFaults(Fine, Fine, Fine, false, Fine, Fine, Fine)

  function Step(p: nat, act: Act): seq<Event> {
    [Event(p, act, Fine)]
  }

  /** A run that leads from one state to another. */
  predicate Leads(s: State, events: seq<Event>, t: State) {
    Run(s, events) == Some(t)
  }

  lemma Join(s: State, a: seq<Event>, t: State, b: seq<Event>, u: State)
    requires Leads(s, a, t) && Leads(t, b, u)
    ensures Leads(s, a + b, u)
  {
    RunAppend(s, a, b);
  }

  lemma Begins(w: World, others: map<nat, Phase>, p: nat, act: Act)
    requires p !in others && First(w, act).Some?
    ensures Leads(State(w, others), Step(p, act), With(w, others, p, First(w, act).value))
  {
    RunOne(State(w, others), Event(p, act, Fine));
  }

  /** One fault-free step of a process that goes on. */
  lemma Moves(w: World, others: map<nat, Phase>, p: nat, phase: Phase, act: Act)
    requires p !in others && Due(phase, act) && Then(w, phase, act, Fine).Some?
    ensures Leads(With(w, others, p, phase), Step(p, act),
                  With(Effect(w, phase, act, Fine), others, p, Then(w, phase, act, Fine).value))
  {
    Leaves(w, others, p, phase, act, Fine);
    RunOne(With(w, others, p, phase), Event(p, act, Fine));
  }

  /** One fault-free step of a process that ends with it. */
  lemma Ends(w: World, others: map<nat, Phase>, p: nat, phase: Phase, act: Act)
    requires p !in others && Due(phase, act) && Then(w, phase, act, Fine).None?
    ensures Leads(With(w, others, p, phase), Step(p, act), State(Effect(w, phase, act, Fine), others))
  {
    Leaves(w, others, p, phase, act, Fine);
    RunOne(With(w, others, p, phase), Event(p, act, Fine));
  }

  function Open(run: string): World {
    World(OPEN_MODE, Intact(0, Receipt(run, run, OPEN_MODE)), 1)
  }

  function Closed(run: string): World {
    World(CLOSED_MODE, Intact(0, Receipt(run, run, OPEN_MODE)), 1)
  }

  /** The receipt is written; the mode is not changed yet. */
  function UpToReceipt(run: string): seq<Event> {
    Step(0, Look(run, run)) + Step(0, Create) + Step(0, Fill(false))
  }

  lemma UpToReceiptLeads(others: map<nat, Phase>, run: string)
    requires Positive(run) && 0 !in others
    ensures Leads(State(World(OPEN_MODE, Absent, 0), others), UpToReceipt(run),
                  With(Open(run), others, 0, Written(Receipt(run, run, OPEN_MODE), 0)))
  {
    var w, r := World(OPEN_MODE, Absent, 0), Receipt(run, run, OPEN_MODE);
    var torn := World(OPEN_MODE, Torn(0), 1);
    Begins(w, others, 0, Look(run, run));
    Moves(w, others, 0, Opened(r), Create);
    Join(State(w, others), Step(0, Look(run, run)), With(w, others, 0, Opened(r)), Step(0, Create),
         With(torn, others, 0, Created(r, 0)));
    Moves(torn, others, 0, Created(r, 0), Fill(false));
    Join(State(w, others), Step(0, Look(run, run)) + Step(0, Create), With(torn, others, 0, Created(r, 0)),
         Step(0, Fill(false)), With(Open(run), others, 0, Written(r, 0)));
  }

  /** A whole restore between the receipt and the change of a normalize. */
  function RestoreInside(run: string): seq<Event> {
    UpToReceipt(run) + RestoreScript(1, Open(run), run, run, CALM) + Step(0, Change)
  }

  lemma RestoreInsideLeads(others: map<nat, Phase>, run: string)
    requires Positive(run) && 0 !in others && 1 !in others
    ensures Leads(State(World(OPEN_MODE, Absent, 0), others), RestoreInside(run),
                  With(World(CLOSED_MODE, Absent, 1), others, 0, Changed(Receipt(run, run, OPEN_MODE), 0)))
  {
    var s, r := State(World(OPEN_MODE, Absent, 0), others), Receipt(run, run, OPEN_MODE);
    var gone := World(OPEN_MODE, Absent, 1);
    UpToReceiptLeads(others, run);
    RestoreIsRun(Open(run), others[0 := Written(r, 0)], 1, run, run, CALM);
    Join(s, UpToReceipt(run), With(Open(run), others, 0, Written(r, 0)), RestoreScript(1, Open(run), run, run, CALM),
         With(gone, others, 0, Written(r, 0)));
    Moves(gone, others, 0, Written(r, 0), Change);
    Join(s, UpToReceipt(run) + RestoreScript(1, Open(run), run, run, CALM), With(gone, others, 0, Written(r, 0)),
         Step(0, Change), With(World(CLOSED_MODE, Absent, 1), others, 0, Changed(r, 0)));
  }

  /** A restore that runs between the receipt and the change of a normalize loses the original; both calls succeed. */
  lemma OverlapLosesOriginal(run: string) returns (events: seq<Event>)
    requires Positive(run)
    ensures Leads(Fresh(OPEN_MODE), events, State(World(CLOSED_MODE, Absent, 1), map[]))
    ensures !Safe(World(CLOSED_MODE, Absent, 1), OPEN_MODE)
  {
    var lost, r := World(CLOSED_MODE, Absent, 1), Receipt(run, run, OPEN_MODE);
    RestoreInsideLeads(map[], run);
    Ends(lost, map[], 0, Changed(r, 0), Confirm);
    Join(Fresh(OPEN_MODE), RestoreInside(run), With(lost, map[], 0, Changed(r, 0)), Step(0, Confirm),
         State(lost, map[]));
    events := RestoreInside(run) + Step(0, Confirm);
  }

  /** A loss may be made good by chance, when a normalize that looked before it writes its receipt after it. */
  lemma OverlapMayRecover(run: string) returns (events: seq<Event>, t: State)
    requires Positive(run)
    ensures Leads(Fresh(OPEN_MODE), events, t) && Safe(t.world, OPEN_MODE) && !Harmless(Fresh(OPEN_MODE), events)
  {
    var r, lost := Receipt(run, run, OPEN_MODE), World(CLOSED_MODE, Absent, 1);
    var start, waiting := Fresh(OPEN_MODE), map[2 := Opened(r)];
    Begins(start.world, map[], 2, Look(run, run));
    assert With(start.world, map[], 2, Opened(r)) == State(start.world, waiting);
    RestoreInsideLeads(waiting, run);
    var before := Step(2, Look(run, run)) + RestoreInside(run);
    var mid := With(lost, waiting, 0, Changed(r, 0));
    Join(start, Step(2, Look(run, run)), State(start.world, waiting), RestoreInside(run), mid);
    var rest := map[0 := Changed(r, 0)];
    assert mid == With(lost, rest, 2, Opened(r));
    Moves(lost, rest, 2, Opened(r), Create);
    var torn := World(CLOSED_MODE, Torn(1), 2);
    Join(start, before, mid, Step(2, Create), With(torn, rest, 2, Created(r, 1)));
    Moves(torn, rest, 2, Created(r, 1), Fill(false));
    t := With(World(CLOSED_MODE, Intact(1, r), 2), rest, 2, Written(r, 1));
    Join(start, before + Step(2, Create), With(torn, rest, 2, Created(r, 1)), Step(2, Fill(false)), t);
    events := before + Step(2, Create) + Step(2, Fill(false));
    assert events == before + (Step(2, Create) + Step(2, Fill(false)));
    LostIsHarm(start, before, mid, Step(2, Create) + Step(2, Fill(false)), OPEN_MODE);
  }

  /** A run through an unsafe state has a step that harms. */
  lemma {:induction false} LostIsHarm(s: State, before: seq<Event>, t: State, after: seq<Event>, original: nat)
    requires Safe(s.world, original) && Leads(s, before, t) && !Safe(t.world, original)
    ensures !Harmless(s, before + after)
    decreases |before|
  {
    if before != [] {
      var u := Next(s, before[0]).value;
      StepSafe(s, before[0], original);
      assert (before + after)[0] == before[0] && (before + after)[1..] == before[1..] + after;
      if Safe(u.world, original) {
        LostIsHarm(u, before[1..], t, after, original);
      }
    }
  }

  lemma NormalizeLeads(w: World, others: map<nat, Phase>, p: nat, run: string)
    requires p !in others && Positive(run) && w.mode == OPEN_MODE && w.slot == Absent
    ensures Leads(State(w, others), NormalizeScript(p, w, run, run, EASY),
                  State(World(CLOSED_MODE, Intact(w.made, Receipt(run, run, OPEN_MODE)), w.made + 1), others))
  {
    NormalizeIsRun(w, others, p, run, run, EASY);
  }

  /** Two steps of a restore: it holds the receipt and has seen the closed mode. */
  lemma EnterLeads(w: World, others: map<nat, Phase>, p: nat, run: string)
    requires p !in others && Claimable(w, run, run) && Enterable(w.mode, w.slot.receipt)
    ensures Leads(State(w, others), Step(p, Read(run, run)) + Step(p, Enter),
                  With(w, others, p, Entered(w.slot.receipt, w.slot.id, w.mode)))
  {
    var r, id := w.slot.receipt, w.slot.id;
    Begins(w, others, p, Read(run, run));
    Moves(w, others, p, Held(r, id), Enter);
    Join(State(w, others), Step(p, Read(run, run)), With(w, others, p, Held(r, id)), Step(p, Enter),
         With(w, others, p, Entered(r, id, w.mode)));
  }

  lemma CheckLeads(w: World, others: map<nat, Phase>, p: nat, r: Receipt, id: nat, entry: nat)
    requires p !in others && (entry == r.originalMode ==> w.mode == entry)
    ensures Leads(With(w, others, p, Entered(r, id, entry)), Step(p, Replace) + Step(p, Check),
                  With(w.(mode := r.originalMode), others, p, Checked(r, id, entry)))
  {
    var put := w.(mode := r.originalMode);
    Moves(w, others, p, Entered(r, id, entry), Replace);
    Moves(put, others, p, Replaced(r, id, entry), Check);
    Join(With(w, others, p, Entered(r, id, entry)), Step(p, Replace), With(put, others, p, Replaced(r, id, entry)),
         Step(p, Check),
         With(put, others, p, Checked(r, id, entry)));
  }

  /** Two restores overlap: the second finds the receipt gone and puts the closed mode back. */
  lemma RestoresLoseOriginal(run: string) returns (events: seq<Event>)
    requires Positive(run)
    ensures Leads(Fresh(OPEN_MODE), events, State(World(CLOSED_MODE, Absent, 1), map[]))
    ensures !Safe(World(CLOSED_MODE, Absent, 1), OPEN_MODE)
  {
    var start, r, w := Fresh(OPEN_MODE), Receipt(run, run, OPEN_MODE), Closed(run);
    var gone, lost := World(OPEN_MODE, Absent, 1), World(CLOSED_MODE, Absent, 1);
    var a := NormalizeScript(0, start.world, run, run, EASY);
    NormalizeLeads(start.world, map[], 0, run);
    EnterLeads(w, map[], 1, run);
    var b := a + (Step(1, Read(run, run)) + Step(1, Enter));
    Join(start, a, State(w, map[]), Step(1, Read(run, run)) + Step(1, Enter),
         With(w, map[], 1, Entered(r, 0, CLOSED_MODE)));
    RestoreIsRun(w, map[1 := Entered(r, 0, CLOSED_MODE)], 2, run, run, CALM);
    var c := b + RestoreScript(2, w, run, run, CALM);
    Join(start, b, With(w, map[], 1, Entered(r, 0, CLOSED_MODE)), RestoreScript(2, w, run, run, CALM),
         With(gone, map[], 1, Entered(r, 0, CLOSED_MODE)));
    CheckLeads(gone, map[], 1, r, 0, CLOSED_MODE);
    var d := c + (Step(1, Replace) + Step(1, Check));
    Join(start, c, With(gone, map[], 1, Entered(r, 0, CLOSED_MODE)), Step(1, Replace) + Step(1, Check),
         With(gone, map[], 1, Checked(r, 0, CLOSED_MODE)));
    Moves(gone, map[], 1, Checked(r, 0, CLOSED_MODE), Name);
    Join(start, d, With(gone, map[], 1, Checked(r, 0, CLOSED_MODE)), Step(1, Name),
         With(gone, map[], 1, Reverting(r, CLOSED_MODE)));
    Ends(gone, map[], 1, Reverting(r, CLOSED_MODE), Revert);
    Join(start, d + Step(1, Name), With(gone, map[], 1, Reverting(r, CLOSED_MODE)), Step(1, Revert),
         State(lost, map[]));
    events := d + Step(1, Name) + Step(1, Revert);
  }

  /** A normalize that looked before a restore and writes after it records the closed mode as the original. */
  lemma StaleLookLosesOriginal(run: string) returns (events: seq<Event>, t: State)
    requires Positive(run)
    ensures Leads(Fresh(OPEN_MODE), events, t) && !Safe(t.world, OPEN_MODE)
    ensures t.world.slot.Intact? && t.world.slot.receipt.originalMode == CLOSED_MODE
  {
    var start, w := Fresh(OPEN_MODE), Closed(run);
    var gone, stale := World(OPEN_MODE, Absent, 1), Receipt(run, run, CLOSED_MODE);
    var a := NormalizeScript(0, start.world, run, run, EASY);
    NormalizeLeads(start.world, map[], 0, run);
    Begins(w, map[], 1, Look(run, run));
    var b := a + Step(1, Look(run, run));
    Join(start, a, State(w, map[]), Step(1, Look(run, run)), With(w, map[], 1, Opened(stale)));
    RestoreIsRun(w, map[1 := Opened(stale)], 2, run, run, CALM);
    var c := b + RestoreScript(2, w, run, run, CALM);
    Join(start, b, With(w, map[], 1, Opened(stale)), RestoreScript(2, w, run, run, CALM),
         With(gone, map[], 1, Opened(stale)));
    Moves(gone, map[], 1, Opened(stale), Create);
    var torn := World(OPEN_MODE, Torn(1), 2);
    Join(start, c, With(gone, map[], 1, Opened(stale)), Step(1, Create), With(torn, map[], 1, Created(stale, 1)));
    Moves(torn, map[], 1, Created(stale, 1), Fill(false));
    t := With(World(OPEN_MODE, Intact(1, stale), 2), map[], 1, Written(stale, 1));
    Join(start, c + Step(1, Create), With(torn, map[], 1, Created(stale, 1)), Step(1, Fill(false)), t);
    events := c + Step(1, Create) + Step(1, Fill(false));
  }

  /** A restore unlinks the receipt of a later normalize: it completes, and the original is lost. */
  lemma WrongReceiptUnlinked(run: string) returns (events: seq<Event>)
    requires Positive(run)
    ensures Leads(Fresh(OPEN_MODE), events, State(World(CLOSED_MODE, Absent, 2), map[]))
    ensures !Safe(World(CLOSED_MODE, Absent, 2), OPEN_MODE)
  {
    var start, r, w := Fresh(OPEN_MODE), Receipt(run, run, OPEN_MODE), Closed(run);
    var gone, put := World(OPEN_MODE, Absent, 1), Open(run);
    var named := map[1 := Named(r, 0, CLOSED_MODE)];
    var a := NormalizeScript(0, start.world, run, run, EASY);
    NormalizeLeads(start.world, map[], 0, run);
    EnterLeads(w, map[], 1, run);
    var b := a + (Step(1, Read(run, run)) + Step(1, Enter));
    Join(start, a, State(w, map[]), Step(1, Read(run, run)) + Step(1, Enter),
         With(w, map[], 1, Entered(r, 0, CLOSED_MODE)));
    CheckLeads(w, map[], 1, r, 0, CLOSED_MODE);
    var c := b + (Step(1, Replace) + Step(1, Check));
    Join(start, b, With(w, map[], 1, Entered(r, 0, CLOSED_MODE)), Step(1, Replace) + Step(1, Check),
         With(put, map[], 1, Checked(r, 0, CLOSED_MODE)));
    Moves(put, map[], 1, Checked(r, 0, CLOSED_MODE), Name);
    Join(start, c, With(put, map[], 1, Checked(r, 0, CLOSED_MODE)), Step(1, Name), State(put, named));
    RestoreIsRun(put, named, 2, run, run, CALM);
    var d := c + Step(1, Name);
    var e := d + RestoreScript(2, put, run, run, CALM);
    Join(start, d, State(put, named), RestoreScript(2, put, run, run, CALM), State(gone, named));
    NormalizeLeads(gone, named, 3, run);
    var again := World(CLOSED_MODE, Intact(1, r), 2);
    Join(start, e, State(gone, named), NormalizeScript(3, gone, run, run, EASY), State(again, named));
    Ends(again, map[], 1, Named(r, 0, CLOSED_MODE), Unlink);
    Join(start, e + NormalizeScript(3, gone, run, run, EASY), State(again, named), Step(1, Unlink),
         State(World(CLOSED_MODE, Absent, 2), map[]));
    events := e + NormalizeScript(3, gone, run, run, EASY) + Step(1, Unlink);
  }
}
