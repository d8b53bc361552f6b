/** What custody of /opt asks of its arguments and of the receipt, in numbers. */
module OptExact {
  import opened Decimals
  import opened OptMode
  import opened OptRuns

  /** A run or attempt is the numeral of a positive number, of at most 32 digits. */
  lemma PositiveExactly(s: string)
    ensures Positive(s) <==> |s| <= 32 && exists n: nat :: n > 0 && Decimal(n) == s
  {
    if Positive(s) {
      DecimalNumber(s);
      assert Decimal(Number(s)) == s;
    }
    if n: nat :| n > 0 && Decimal(n) == s {
      assert AllDigits(s) && s[0] != '0';
      forall i | 0 <= i < |s| ensures '0' <= s[i] <= '9' {
        assert IsDigit(s[i]);
      }
    }
  }

  /** Permission bits as three octal digits. */
  function Octal(owner: nat, group: nat, others: nat): nat {
    64 * owner + 8 * group + others
  }

  /** A receipt of this very run and attempt, of a mode 0777 or 0755, with the directory at 0755 or at that mode. */
  lemma RestorableExactly(w: World, runId: string, attempt: string)
    ensures Restorable(w, runId, attempt) <==>
              && Positive(runId) && Positive(attempt)
              && exists id, mode ::
                   && w.slot == Intact(id, Receipt(runId, attempt, mode))
                   && (mode == Octal(7, 7, 7) || mode == Octal(7, 5, 5))
                   && (w.mode == Octal(7, 5, 5) || w.mode == mode)
  {
    if Restorable(w, runId, attempt) {
      assert w.slot == Intact(w.slot.id, Receipt(runId, attempt, w.slot.receipt.originalMode));
    }
  }

  /** What normalize and restore leave when no step fails. */
  lemma UndisturbedExactly(w: World, runId: string, attempt: string)
    requires Positive(runId) && Positive(attempt)
    ensures Normalized(w, runId, attempt, EASY)
         == if w.slot == Absent && (w.mode == Octal(7, 7, 7) || w.mode == Octal(7, 5, 5))
            then World(Octal(7, 5, 5), Intact(w.made, Receipt(runId, attempt, w.mode)), w.made + 1)
            else w
    ensures Restored(w, runId, attempt, CALM)
         == if Restorable(w, runId, attempt) then World(w.slot.receipt.originalMode, Absent, w.made) else w
  {
  }

  /** Normalize and then restore, undisturbed, in one run: the directory is as it was, and no receipt is left. */
  lemma ThereAndBack(w: World, runId: string, attempt: string)
    requires Positive(runId) && Positive(attempt) && w.slot == Absent
    requires w.mode == Octal(7, 7, 7) || w.mode == Octal(7, 5, 5)
    ensures Restored(Normalized(w, runId, attempt, EASY), runId, attempt, CALM)
         == World(w.mode, Absent, w.made + 1)
  {
    UndisturbedExactly(w, runId, attempt);
  }
}
