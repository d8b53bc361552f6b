/** The order of a download's steps and of its records, each told in one place. */
module AssetsExact {
  import opened Basics
  import opened Assets
  import opened AssetsCleanup

  // ---------------------------------------------------------------- the steps of a download

  /** The things a download needs to go well, numbered in the order in which they happen. */
  predicate GoesWell(sys: System, size: nat, n: nat) {
    match n
    case 0 => sys.line(IntentEntry).Kept?
    case 1 => sys.fault(OpenDirectory).Fine?
    case 2 => sys.fault(CheckAbsent).Fine?
    case 3 => sys.fault(OpenPartial).Fine?
    case 4 => sys.fault(Identify).Fine?
    case 5 => sys.line(PartialEntry).Kept?
    case 6 => sys.fault(Transfer).Fine?
    case 7 => sys.fault(Freeze).Fine?
    case 8 => sys.fault(CloseWriter).Fine?
    case 9 => sys.fault(ProveName).Fine?
    case 10 => sys.held.policy == Policy("file", 256, 0, 0, 1, size)
    case 11 => sys.line(FrozenEntry).Kept?
    case 12 => sys.fault(LeaveFreeze).Fine?
    case 13 => sys.fault(BeforeLink).Fine?
    case 14 => sys.fault(Link).Fine?
    case 15 => sys.fault(CheckLink).Fine?
    case 16 => sys.fault(UnlinkPartial).Fine?
    case 17 => sys.fault(CheckFinal).Fine?
    case 18 => sys.line(FinalEntry).Kept?
    case 19 => sys.fault(Finish).Fine?
    case 20 => sys.fault(CloseConnection).Fine?
    case 21 => sys.fault(CloseAll).Fine?
    case _ => true
  }

  predicate WellUpTo(sys: System, size: nat, n: nat) {
    forall k :: 0 <= k < n ==> GoesWell(sys, size, k)
  }

  lemma WellNext(sys: System, size: nat, n: nat)
    ensures WellUpTo(sys, size, n + 1) <==> WellUpTo(sys, size, n) && GoesWell(sys, size, n)
  {
  }

  /** How far a download goes well before its transfer. */
  lemma WellFirst(sys: System, size: nat)
    ensures WellUpTo(sys, size, 3) <==>
              sys.line(IntentEntry).Kept? && sys.fault(OpenDirectory).Fine? && sys.fault(CheckAbsent).Fine?
    ensures WellUpTo(sys, size, 4) <==> Opens(sys)
    ensures WellUpTo(sys, size, 5) <==> Opens(sys) && sys.fault(Identify).Fine?
    ensures WellUpTo(sys, size, 6) <==> Connects(sys)
  {
    WellNext(sys, size, 0);
    WellNext(sys, size, 1);
    WellNext(sys, size, 2);
    WellNext(sys, size, 3);
    WellNext(sys, size, 4);
    WellNext(sys, size, 5);
  }

  /** How far it goes well up to the link. */
  lemma WellFrozen(sys: System, size: nat)
    ensures WellUpTo(sys, size, 11) <==> Connects(sys) && sys.fault(Transfer).Fine? && FreezeProved(sys, size)
    ensures WellUpTo(sys, size, 13) <==> Freezes(sys, size)
  {
    WellFirst(sys, size);
    WellNext(sys, size, 6);
    WellNext(sys, size, 7);
    WellNext(sys, size, 8);
    WellNext(sys, size, 9);
    WellNext(sys, size, 10);
    WellNext(sys, size, 11);
    WellNext(sys, size, 12);
  }

  /** How far it goes well from the link on. */
  lemma WellLinked(sys: System, size: nat)
    ensures WellUpTo(sys, size, 14) <==> Freezes(sys, size) && sys.fault(BeforeLink).Fine?
    ensures WellUpTo(sys, size, 15) <==> Freezes(sys, size) && LinkKnown(sys)
    ensures WellUpTo(sys, size, 16) <==> Freezes(sys, size) && UnlinkTried(sys)
  {
    WellFrozen(sys, size);
    WellNext(sys, size, 13);
    WellNext(sys, size, 14);
    WellNext(sys, size, 15);
  }

  /** How far it goes well once the partial name is to go. */
  lemma WellPublished(sys: System, size: nat)
    ensures WellUpTo(sys, size, 18) <==> Freezes(sys, size) && FinalProved(sys)
    ensures WellUpTo(sys, size, 20) <==> Publishes(sys, size)
  {
    WellLinked(sys, size);
    WellNext(sys, size, 16);
    WellNext(sys, size, 17);
    WellNext(sys, size, 18);
    WellNext(sys, size, 19);
  }

  /** How far it goes well when everything is closed. */
  lemma WellClosed(sys: System, size: nat)
    ensures WellUpTo(sys, size, 22) <==> Completes(sys, size)
  {
    WellFirst(sys, size);
    WellPublished(sys, size);
    WellNext(sys, size, 20);
    WellNext(sys, size, 21);
    assert Publishes(sys, size) ==> Connects(sys);
  }

  /**
   * What a download does, by how far it goes well: when the partial file is made, when each record is
   * appended, when the final name is made and the partial one unlinked, and when it returns normally.
   */
  lemma OrderExactly(sys: System, size: nat)
    ensures Creates(sys) <==> WellUpTo(sys, size, 3) && !sys.fault(OpenPartial).Before?
    ensures Reaches(sys, size, PartialEntry) <==> WellUpTo(sys, size, 5)
    ensures Reaches(sys, size, FrozenEntry) <==> WellUpTo(sys, size, 11)
    ensures Reaches(sys, size, FinalEntry) <==> WellUpTo(sys, size, 18)
    ensures FinalLeft(sys, size) <==> WellUpTo(sys, size, 14) && !sys.fault(Link).Before?
    ensures Freezes(sys, size) && UnlinkMade(sys) <==> WellUpTo(sys, size, 16) && !sys.fault(UnlinkPartial).Before?
    ensures ConnectionFails(sys) <==> WellUpTo(sys, size, 6) && !sys.fault(CloseConnection).Fine?
    ensures Completes(sys, size) <==> WellUpTo(sys, size, 22)
  {
    WellFirst(sys, size);
    WellFrozen(sys, size);
    WellLinked(sys, size);
    WellPublished(sys, size);
    WellClosed(sys, size);
  }

  /** The outcome recorded for a download, by how far it went well; one whose connection cannot be closed has none. */
  lemma OutcomeExactly(sys: System, size: nat)
    ensures !WellUpTo(sys, size, 4) || ConnectionFails(sys) ==> OutcomeOf(sys, size) == NotRequired
    ensures !ConnectionFails(sys) && WellUpTo(sys, size, 4) && !WellUpTo(sys, size, 13) ==>
              OutcomeOf(sys, size) == Preserved
    ensures !ConnectionFails(sys) && WellUpTo(sys, size, 15) && !WellUpTo(sys, size, 16) ==>
              OutcomeOf(sys, size) == Preserved
    ensures !ConnectionFails(sys) && WellUpTo(sys, size, 16) && !WellUpTo(sys, size, 20) ==>
              OutcomeOf(sys, size) == PostUnlinkUncertainty
    ensures !ConnectionFails(sys) && WellUpTo(sys, size, 20) ==>
              OutcomeOf(sys, size) == if sys.fault(CloseAll).Fine? then NotRequired else PostUnlinkUncertainty
  {
    WellFirst(sys, size);
    WellFrozen(sys, size);
    WellLinked(sys, size);
    WellPublished(sys, size);
  }

  /** The outcome of a download that froze its file and does not know a link to be made. */
  lemma WithdrawalExactly(sys: System, size: nat)
    requires !ConnectionFails(sys) && WellUpTo(sys, size, 13) && !WellUpTo(sys, size, 15)
    ensures OutcomeOf(sys, size) ==
              if !sys.fault(ReopenPartial).Fine? then NotRequired
              else if sys.again(sys.fault(BeforeLink).Fine? && !sys.fault(Link).Before?) != sys.held then Preserved
              else if && sys.fault(CleanupUnlink).Fine? && sys.fault(CleanupSync).Fine?
                      && sys.fault(CloseReopened).Fine? && sys.fault(CloseAll).Fine? then Success
              else PostUnlinkUncertainty
    ensures PartialLeft(sys, size) <==>
              || !sys.fault(ReopenPartial).Fine?
              || sys.again(sys.fault(BeforeLink).Fine? && !sys.fault(Link).Before?) != sys.held
              || sys.fault(CleanupUnlink).Before?
  {
    WellFirst(sys, size);
    WellFrozen(sys, size);
    WellLinked(sys, size);
  }

  // ---------------------------------------------------------------- the order of records

  predicate HasPartial(records: seq<Record>, n: nat, key: string)
    requires n <= |records|
  {
    exists i :: 0 <= i < n && records[i].PartialOwned? && records[i].component == key
  }

  predicate HasFrozen(records: seq<Record>, n: nat, key: string)
    requires n <= |records|
  {
    exists i :: 0 <= i < n && records[i].PartialFinal? && records[i].component == key
  }

  predicate HasFinal(records: seq<Record>, n: nat, key: string)
    requires n <= |records|
  {
    exists i :: 0 <= i < n && records[i].FinalOwned? && records[i].component == key
  }

  /** A record stands where it may: after the one it builds on, once, with its own name and policy. */
  predicate InPlace(fixed: Fixed, records: seq<Record>, n: nat)
    requires n < |records|
  {
    match records[n]
    case Unrelated => true
    case PartialOwned(key, name) => key in fixed && name == Partial(key) && !HasPartial(records, n, key)
    case PartialFinal(key, name, g) =>
      && HasPartial(records, n, key) && !HasFrozen(records, n, key) && !HasFinal(records, n, key)
      && name == Partial(key) && key in fixed && g.policy == Policy("file", 256, 0, 0, 1, fixed[key])
      && g.place.mountId > 0 && g.place.dev >= 0 && g.place.ino > 0 && g.times.mtime >= 0 && g.times.ctime >= 0
    case FinalOwned(key, name) =>
      HasFrozen(records, n, key) && !HasFinal(records, n, key) && name == Final(key)
  }

  /** The reader's three collections after some records. */
  ghost predicate Scanned(s: Scan, records: seq<Record>, n: nat)
    requires n <= |records|
  {
    && (forall key :: key in s.initial <==> HasPartial(records, n, key))
    && (forall key :: key in s.final <==> HasFrozen(records, n, key))
    && (forall key :: key in s.sealed <==> HasFinal(records, n, key))
  }

  lemma ScannedStep(fixed: Fixed, s: Scan, records: seq<Record>, n: nat)
    requires n < |records| && Scanned(s, records, n)
    ensures Advance(fixed, s, records[n]).Some? <==> InPlace(fixed, records, n)
    ensures Advance(fixed, s, records[n]).Some? ==> Scanned(Advance(fixed, s, records[n]).value, records, n + 1)
  {
    var r := records[n];
    forall key
      ensures HasPartial(records, n + 1, key) <==>
                HasPartial(records, n, key) || (r.PartialOwned? && r.component == key)
      ensures HasFrozen(records, n + 1, key) <==> HasFrozen(records, n, key) || (r.PartialFinal? && r.component == key)
      ensures HasFinal(records, n + 1, key) <==> HasFinal(records, n, key) || (r.FinalOwned? && r.component == key)
    {
      if r.PartialOwned? && r.component == key {
        assert records[n].PartialOwned?;
      }
      if r.PartialFinal? && r.component == key {
        assert records[n].PartialFinal?;
      }
      if r.FinalOwned? && r.component == key {
        assert records[n].FinalOwned?;
      }
    }
  }

  lemma {:induction false} PrefixAccepted(fixed: Fixed, records: seq<Record>, n: nat)
    requires n <= |records|
    ensures AssetRecords(fixed, records[..n]).Some? <==> forall i :: 0 <= i < n ==> InPlace(fixed, records, i)
    ensures AssetRecords(fixed, records[..n]).Some? ==> Scanned(AssetRecords(fixed, records[..n]).value, records, n)
  {
    if n == 0 {
      assert records[..0] == [];
    } else {
      PrefixAccepted(fixed, records, n - 1);
      FoldSnoc(fixed, NOTHING, records[..n - 1], records[n - 1]);
      assert records[..n] == records[..n - 1] + [records[n - 1]];
      if AssetRecords(fixed, records[..n - 1]).Some? {
        ScannedStep(fixed, AssetRecords(fixed, records[..n - 1]).value, records, n - 1);
      }
    }
  }

  /** The journal reader accepts exactly the records each of which stands where it may. */
  lemma RecordsAccepted(fixed: Fixed, records: seq<Record>)
    ensures AssetRecords(fixed, records).Some? <==> forall i :: 0 <= i < |records| ==> InPlace(fixed, records, i)
    ensures AssetRecords(fixed, records).Some? ==> Scanned(AssetRecords(fixed, records).value, records, |records|)
  {
    PrefixAccepted(fixed, records, |records|);
    assert records[..|records|] == records;
  }

  // ---------------------------------------------------------------- later cleanup

  /** A name cleanup may find: a final name with its record, or a partial one frozen and never finished. */
  predicate NameOwned(records: seq<Record>, name: Name) {
    match name
    case Final(c) => HasFinal(records, |records|, c)
    case Partial(c) => HasFrozen(records, |records|, c) && !HasFinal(records, |records|, c)
    case Foreign(_) => false
  }

  /** Later cleanup admits a directory exactly when the journal's records account for it. */
  lemma AdmittedExactly(fixed: Fixed, records: seq<Record>, s: Scan, present: set<Name>,
                        immediate: map<string, Outcome>)
    requires AssetRecords(fixed, records) == Some(s)
    ensures Admitted(s, present, immediate) <==>
              && (forall name :: name in present ==> NameOwned(records, name))
              && forall c :: HasFrozen(records, |records|, c) ==>
                   || HasFinal(records, |records|, c) || Partial(c) in present
                   || (c in immediate && immediate[c] == Success)
  {
    RecordsAccepted(fixed, records);
    forall name ensures name in Owned(s) <==> NameOwned(records, name) {
    }
  }
}
