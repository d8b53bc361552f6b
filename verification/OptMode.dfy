/**
 * Custody of the mode of /opt: a receipt with the original mode is written before the mode changes,
 * and consumed after it is restored. Any step may raise or be killed, before or after its effect.
 */
module OptMode {

  const OPEN_MODE: nat := 511    // 0o777
  const CLOSED_MODE: nat := 493  // 0o755

  datatype Receipt = Receipt(runId: string, attempt: string, originalMode: nat)

  /** The receipt's path: nothing, a file that cannot be read as a receipt, or a receipt. A file keeps its number. */
  datatype Slot = Absent | Torn(id: nat) | Intact(id: nat, receipt: Receipt)

  /** `made` counts the files created at the path so far and numbers the next one. */
  datatype World = World(mode: nat, slot: Slot, made: nat)

  /** How a step ends: as wanted, with an exception, or with the process killed. */
  datatype Fault = Fine | RaiseBefore | RaiseAfter | KillBefore | KillAfter {
    predicate Happens() { this != RaiseBefore && this != KillBefore }
    predicate Kills() { this == KillBefore || this == KillAfter }
  }

  predicate Accepted(mode: nat) {
    mode == OPEN_MODE || mode == CLOSED_MODE
  }

  /** `[1-9][0-9]*`, at most 32 characters. */
  predicate Positive(s: string) {
    1 <= |s| <= 32 && '1' <= s[0] <= '9' && forall i :: 0 <= i < |s| ==> '0' <= s[i] <= '9'
  }

  // ---------------------------------------------------------------- the invariant

  /** While the mode differs from the original, an intact receipt records the original. */
  predicate Safe(w: World, original: nat) {
    && (w.mode != original ==> w.slot.Intact?)
    && (w.slot.Intact? ==> w.slot.receipt.originalMode == original)
  }

  // ---------------------------------------------------------------- normalize and restore

  datatype NormalizeFaults = NormalizeFaults(look: Fault, create: Fault, write: Fault, torn: bool, change: Fault,
                                             check: Fault, rollback: Fault) {
    predicate Harmless() { look.Fine? && create.Fine? && write.Fine? && change.Fine? && check.Fine? }
  }

  datatype RestoreFaults = RestoreFaults(read: Fault, look: Fault, change: Fault, check: Fault, name: Fault,
                                         unlink: Fault, sync: Fault, rollback: Fault) {
    predicate Harmless() {
      read.Fine? && look.Fine? && change.Fine? && check.Fine? && name.Fine? && unlink.Fine? && sync.Fine?
    }
  }

  class Custody {
    var mode: nat
    var slot: Slot
    var made: nat

    constructor (mode: nat)
      ensures Seen() == World(mode, Absent, 0)
    {
      this.mode, slot, made := mode, Absent, 0;
    }

    function Seen(): World
      reads this
    {
      World(mode, slot, made)
    }

    /**
     * `normalize`. A receipt already there is never replaced; a completed call leaves the closed mode
     * and a receipt of the mode found.
     */
    method Normalize(runId: string, attempt: string, f: NormalizeFaults, ghost original: nat) returns (ok: bool)
      requires Safe(Seen(), original)
      modifies this
      ensures Safe(Seen(), original)
      ensures old(slot) != Absent ==> !ok && Seen() == old(Seen())
      ensures ok ==>
                && mode == CLOSED_MODE
                && slot == Intact(old(made), Receipt(runId, attempt, original))
                && old(slot) == Absent
      ensures ok <==>
                Positive(runId) && Positive(attempt) && Accepted(old(mode)) && old(slot) == Absent && f.Harmless()
      ensures mode == old(mode) || mode == CLOSED_MODE
      ensures Seen() == Normalized(old(Seen()), runId, attempt, f)
    {
      if !Positive(runId) || !Positive(attempt) || !Accepted(mode) || !f.look.Fine? {
        return false;
      }
      var found := mode;
      ok := WriteState(Receipt(runId, attempt, found), f.create, f.write, f.torn);
      if !ok {
        return;
      }
      if f.change.Happens() && found != CLOSED_MODE {
        mode := CLOSED_MODE;
      }
      ok := f.change.Fine? && f.check.Fine?;
      var killed := if f.change.Fine? then f.check.Kills() else f.change.Kills();
      if !ok && !killed && f.rollback.Happens() {
        mode := found;
      }
    }

    /** `_write_state`: exclusive creation, so a path that exists is left alone. */
    method WriteState(receipt: Receipt, create: Fault, write: Fault, torn: bool) returns (ok: bool)
      modifies this`slot, this`made
      ensures old(slot) != Absent ==> !ok && Seen() == old(Seen())
      ensures old(slot) == Absent ==> ok == (create.Fine? && write.Fine?)
      ensures old(slot) == Absent ==> Seen() == StateWritten(old(Seen()), receipt, create, write, torn)
    {
      if slot != Absent {
        return false;
      }
      var id := made;
      if create.Happens() {
        slot, made := Torn(id), made + 1;
      }
      if !create.Fine? {
        return false;
      }
      if write.Happens() && (write.Fine? || !torn) {
        slot := Intact(id, receipt);
      }
      return write.Fine?;
    }

    /**
     * `restore`. A completed call leaves the original mode and no receipt. Safety is kept unless the
     * unlink takes effect and raises all the same: then the handler, not knowing the receipt is gone,
     * puts back the mode found, and that is harmless only if it is the original.
     */
    method Restore(runId: string, attempt: string, f: RestoreFaults, ghost original: nat) returns (ok: bool)
      requires Safe(Seen(), original)
      modifies this
      ensures Safe(Seen(), original) <==> !Unnoticed(old(Seen()), runId, attempt, f)
      ensures ok ==> mode == original && slot == Absent && old(slot).Intact?
      ensures slot == old(slot) || (slot == Absent && old(slot).Intact?)
      ensures ok <==> Restorable(old(Seen()), runId, attempt) && f.Harmless()
      ensures Seen() == Restored(old(Seen()), runId, attempt, f)
    {
      if !Positive(runId) || !Positive(attempt) || !f.read.Fine? || !slot.Intact? {
        return false;
      }
      var receipt := slot.receipt;
      if receipt.runId != runId || receipt.attempt != attempt || !Accepted(receipt.originalMode) {
        return false;
      }
      var entry := mode;
      if !Accepted(entry) || !f.look.Fine? || (entry != CLOSED_MODE && entry != receipt.originalMode) {
        return false;
      }
      if f.change.Happens() && entry != receipt.originalMode {
        mode := receipt.originalMode;
      }
      var consumed := false;
      var raised := !f.change.Fine?;
      var killed := f.change.Kills();
      if !raised {
        raised, killed := !f.check.Fine?, f.check.Kills();
      }
      if !raised {
        raised, killed := !f.name.Fine?, f.name.Kills();
      }
      if !raised {
        if f.unlink.Happens() {
          slot := Absent;
        }
        raised, killed := !f.unlink.Fine?, f.unlink.Kills();
        consumed := f.unlink.Fine?;
      }
      if !raised {
        raised, killed := !f.sync.Fine?, f.sync.Kills();
      }
      if raised && !killed && !consumed && f.rollback.Happens() {
        mode := entry;
      }
      ok := !raised;
    }
  }

  /** What `_write_state` leaves at a path that held nothing. */
  function StateWritten(w: World, receipt: Receipt, create: Fault, write: Fault, torn: bool): World {
    if !create.Happens() then w
    else if !create.Fine? || !write.Happens() || (torn && !write.Fine?) then World(w.mode, Torn(w.made), w.made + 1)
    else World(w.mode, Intact(w.made, receipt), w.made + 1)
  }

  /** The world a normalize leaves, with the step it stopped at decided by the faults. */
  function Normalized(w: World, runId: string, attempt: string, f: NormalizeFaults): World {
    if !Positive(runId) || !Positive(attempt) || !Accepted(w.mode) || !f.look.Fine? || w.slot != Absent then w
    else
      var written := StateWritten(w, Receipt(runId, attempt, w.mode), f.create, f.write, f.torn);
      if !f.create.Fine? || !f.write.Fine? then written else ModeChanged(written, f)
  }

  /** The mode of a written receipt's directory, closed and perhaps put back. */
  function ModeChanged(w: World, f: NormalizeFaults): World {
    var closed := w.(mode := CLOSED_MODE);
    if f.change.Fine? then (if f.check.Fine? || f.check.Kills() || !f.rollback.Happens() then closed else w)
    else if f.change.Happens() && (f.change.Kills() || !f.rollback.Happens()) then closed
    else w
  }

  /** The receipt belongs to the run, and the directory's mode is one restore works from. */
  predicate Restorable(w: World, runId: string, attempt: string) {
    Claimable(w, runId, attempt) && Enterable(w.mode, w.slot.receipt)
  }

  predicate Claimable(w: World, runId: string, attempt: string) {
    && Positive(runId) && Positive(attempt) && w.slot.Intact? && w.slot.receipt.runId == runId
    && w.slot.receipt.attempt == attempt
    && Accepted(w.slot.receipt.originalMode)
  }

  predicate Enterable(mode: nat, receipt: Receipt) {
    Accepted(mode) && (mode == CLOSED_MODE || mode == receipt.originalMode)
  }

  /** The world a restore leaves, with the step it stopped at decided by the faults. */
  function Restored(w: World, runId: string, attempt: string, f: RestoreFaults): World {
    if !Restorable(w, runId, attempt) || !f.read.Fine? || !f.look.Fine? then w
    else
      var original := w.slot.receipt.originalMode;
      var put := w.(mode := original);
      var back := if f.rollback.Happens() then w else put;
      if !f.change.Fine? then
        if f.change.Happens() && (f.change.Kills() || !f.rollback.Happens()) then put else w
      else if !f.check.Fine? then (if f.check.Kills() then put else back)
      else if !f.name.Fine? then (if f.name.Kills() then put else back)
      else if !f.unlink.Fine? then
        (if f.unlink.Kills() then put else back).(slot := if f.unlink.Happens() then Absent else w.slot)
      else put.(slot := Absent)
  }

  /** The unlink raised after its effect, and the handler changed the mode back. */
  predicate Unnoticed(w: World, runId: string, attempt: string, f: RestoreFaults) {
    && Restorable(w, runId, attempt) && f.read.Fine? && f.look.Fine? && f.change.Fine? && f.check.Fine? && f.name.Fine?
    && f.unlink == RaiseAfter && f.rollback.Happens() && w.mode != w.slot.receipt.originalMode
  }

  /** The receipt unlinked, the exception taken for a failure, the mode found put back: the original is lost. */
  lemma UnlinkUnnoticed(runId: string, attempt: string, id: nat)
    requires Positive(runId) && Positive(attempt)
    ensures var w := World(CLOSED_MODE, Intact(id, Receipt(runId, attempt, OPEN_MODE)), id + 1);
            var after := Restored(w, runId, attempt,
                                  RestoreFaults(Fine, Fine, Fine, Fine, Fine, RaiseAfter, Fine, Fine));
            Safe(w, OPEN_MODE) && after == World(CLOSED_MODE, Absent, id + 1) && !Safe(after, OPEN_MODE)
  {
  }
}
