/**
 * Publication of runtime assets: a partial file is frozen, linked to its final name and unlinked,
 * with a journal record for each stage, and any step may fail. A failing step raises either before
 * or after its effect; an append to the journal may also leave a line that makes the journal
 * unreadable. Downloading, hashing and deadlines are steps without a visible effect.
 */
module Assets {
  import opened Basics

  // ---------------------------------------------------------------- names, generations, records

  datatype Name = Partial(component: string) | Final(component: string) | Foreign(text: string)

  datatype Place = Place(mountId: int, dev: int, ino: int)

  datatype Policy = Policy(kind: string, mode: int, uid: int, gid: int, nlink: int, size: int)

  datatype Times = Times(mtime: int, ctime: int)

  /** `FULL_GENERATION`. */
  datatype Generation = Generation(place: Place, policy: Policy, times: Times)

  datatype Record =
    | PartialOwned(component: string, name: Name)
    | PartialFinal(component: string, name: Name, generation: Generation)
    | FinalOwned(component: string, name: Name)
    | Unrelated

  /** The fixed assets: the size of each component. */
  type Fixed = map<string, nat>

  function FrozenPolicy(size: nat): Policy {
    Policy("file", 0x100, 0, 0, 1, size)
  }

  /** The signs the journal reader asks for beyond the policy. */
  predicate Counted(g: Generation) {
    && g.place.mountId > 0 && g.place.dev >= 0 && g.place.ino > 0
    && g.times.mtime >= 0 && g.times.ctime >= 0
  }

  // ---------------------------------------------------------------- the journal automaton

  datatype Scan = Scan(initial: set<string>, final: map<string, Generation>, sealed: set<string>)

  const NOTHING := Scan({}, map[], {})

  function Advance(fixed: Fixed, s: Scan, r: Record): Option<Scan> {
    match r
    case PartialOwned(key, name) =>
      if key in fixed && name == Partial(key) && key !in s.initial then Some(s.(initial := s.initial + {key})) else None
    case PartialFinal(key, name, g) =>
      if key in s.initial && key !in s.final && key !in s.sealed && name == Partial(key)
         && key in fixed && g.policy == FrozenPolicy(fixed[key]) && Counted(g)
      then Some(s.(final := s.final[key := g])) else None
    case FinalOwned(key, name) =>
      if key in s.final && key !in s.sealed && name == Final(key) then Some(s.(sealed := s.sealed + {key})) else None
    case Unrelated => Some(s)
  }

  function Fold(fixed: Fixed, s: Scan, records: seq<Record>): Option<Scan>
    decreases |records|
  {
    if records == [] then Some(s)
    else
      match Advance(fixed, s, records[0])
      case None => None
      case Some(t) => Fold(fixed, t, records[1..])
  }

  /** `_asset_records`. */
  function AssetRecords(fixed: Fixed, records: seq<Record>): Option<Scan> {
    Fold(fixed, NOTHING, records)
  }

  lemma {:induction false} FoldSnoc(fixed: Fixed, s: Scan, records: seq<Record>, r: Record)
    ensures Fold(fixed, s, records + [r])
         == match Fold(fixed, s, records) case None => None case Some(t) => Advance(fixed, t, r)
    decreases |records|
  {
    if records == [] {
      assert records + [r] == [r] && [r][1..] == [];
    } else {
      assert (records + [r])[0] == records[0] && (records + [r])[1..] == records[1..] + [r];
      if Advance(fixed, s, records[0]).Some? {
        FoldSnoc(fixed, Advance(fixed, s, records[0]).value, records[1..], r);
      }
    }
  }

  // ---------------------------------------------------------------- faults

  datatype Fault = Fine | Before | After

  datatype Step =
    | OpenDirectory | CheckAbsent | OpenPartial | Identify | Transfer
    | Freeze | CloseWriter | ProveName | LeaveFreeze
    | BeforeLink | Link | CheckLink | UnlinkPartial | CheckFinal | Finish
    | CloseConnection | ReopenPartial | CleanupUnlink | CleanupSync | CloseReopened | CloseAll

  /** The four records of a download. */
  datatype Entry = IntentEntry | PartialEntry | FrozenEntry | FinalEntry

  /**
   * What an append leaves of its line: all of it, nothing, all of it although the call raised, a part
   * of it, or all of it in a journal that is then too long. The last two raise as well.
   */
  datatype Line = Kept | Unwritten | KeptRaised | Torn | Oversized {
    predicate Whole() { Kept? || KeptRaised? }
    predicate Spoils() { Torn? || Oversized? }
  }

  /**
   * What the system does: a fault per step, a line per record, the generation found when freezing,
   * and the one found again.
   */
  datatype System = System(fault: Step -> Fault, line: Entry -> Line, held: Generation, again: bool -> Generation)

  /** The kernel counts links truthfully: the same inode shows two links once the final name exists. */
  ghost predicate Truthful(sys: System) {
    forall linked ::
      sys.again(linked).place == sys.held.place ==> sys.again(linked).policy.nlink == if linked then 2 else 1
  }

  datatype Outcome = NotRequired | Preserved | Success | PostUnlinkUncertainty

  // ---------------------------------------------------------------- publication

  /** The records one download appends, in order; a run that fails has appended the first few. */
  function Script(c: string, held: Generation): seq<Record> {
    [Unrelated, PartialOwned(c, Partial(c)), PartialFinal(c, Partial(c), held), FinalOwned(c, Final(c))]
  }

  // ---------------------------------------------------------------- what the faults decide

  /** The partial file is created; the call may raise all the same. */
  predicate Creates(sys: System) {
    && sys.line(IntentEntry).Kept? && sys.fault(OpenDirectory).Fine? && sys.fault(CheckAbsent).Fine?
    && !sys.fault(OpenPartial).Before?
  }

  predicate Opens(sys: System) {
    Creates(sys) && sys.fault(OpenPartial).Fine?
  }

  /** The transfer starts, so that there may be a connection to close. */
  predicate Connects(sys: System) {
    Opens(sys) && sys.fault(Identify).Fine? && sys.line(PartialEntry).Kept?
  }

  predicate ConnectionFails(sys: System) {
    Connects(sys) && !sys.fault(CloseConnection).Fine?
  }

  /** The frozen file is proved, and its record is about to be appended. */
  predicate FreezeProved(sys: System, size: nat) {
    && sys.fault(Freeze).Fine? && sys.fault(CloseWriter).Fine? && sys.fault(ProveName).Fine?
    && sys.held.policy == FrozenPolicy(size)
  }

  predicate FreezeFine(sys: System, size: nat) {
    FreezeProved(sys, size) && sys.line(FrozenEntry).Kept? && sys.fault(LeaveFreeze).Fine?
  }

  predicate Freezes(sys: System, size: nat) {
    Connects(sys) && sys.fault(Transfer).Fine? && FreezeFine(sys, size)
  }

  /** The final name is made, whether or not the call says so. */
  predicate LinkMade(sys: System) {
    sys.fault(BeforeLink).Fine? && !sys.fault(Link).Before?
  }

  /** The link is known to be made. */
  predicate LinkKnown(sys: System) {
    LinkMade(sys) && sys.fault(Link).Fine?
  }

  /** Publication goes on to unlink the partial name. */
  predicate UnlinkTried(sys: System) {
    LinkKnown(sys) && sys.fault(CheckLink).Fine?
  }

  predicate UnlinkMade(sys: System) {
    UnlinkTried(sys) && !sys.fault(UnlinkPartial).Before?
  }

  /** The final file is checked, and its record is about to be appended. */
  predicate FinalProved(sys: System) {
    UnlinkTried(sys) && sys.fault(UnlinkPartial).Fine? && sys.fault(CheckFinal).Fine?
  }

  predicate PublishFine(sys: System) {
    FinalProved(sys) && sys.line(FinalEntry).Kept? && sys.fault(Finish).Fine?
  }

  predicate Publishes(sys: System, size: nat) {
    Freezes(sys, size) && PublishFine(sys)
  }

  /** A frozen, unlinked partial file is withdrawn if it is found again as it was frozen. */
  predicate WithdrawTried(sys: System, size: nat) {
    && Freezes(sys, size) && !LinkKnown(sys) && !ConnectionFails(sys)
    && sys.fault(ReopenPartial).Fine? && sys.again(LinkMade(sys)) == sys.held
  }

  predicate WithdrawFine(sys: System) {
    && sys.fault(CleanupUnlink).Fine? && sys.fault(CleanupSync).Fine?
    && sys.fault(CloseReopened).Fine? && sys.fault(CloseAll).Fine?
  }

  /** The partial name is there at the end of a download that found neither name. */
  predicate PartialLeft(sys: System, size: nat) {
    && Creates(sys) && !(Freezes(sys, size) && UnlinkMade(sys))
    && !(WithdrawTried(sys, size) && !sys.fault(CleanupUnlink).Before?)
  }

  predicate FinalLeft(sys: System, size: nat) {
    Freezes(sys, size) && LinkMade(sys)
  }

  /** The outcome recorded for a download that found neither name. */
  function OutcomeOf(sys: System, size: nat): Outcome {
    if !Opens(sys) || ConnectionFails(sys) then NotRequired
    else if Publishes(sys, size) then (if sys.fault(CloseAll).Fine? then NotRequired else PostUnlinkUncertainty)
    else if !Freezes(sys, size) then Preserved
    else if UnlinkTried(sys) then PostUnlinkUncertainty
    else if LinkKnown(sys) then Preserved
    else if !sys.fault(ReopenPartial).Fine? then NotRequired
    else if !WithdrawTried(sys, size) then Preserved
    else if WithdrawFine(sys) then Success
    else PostUnlinkUncertainty
  }

  predicate Completes(sys: System, size: nat) {
    Publishes(sys, size) && !ConnectionFails(sys) && sys.fault(CloseAll).Fine?
  }

  /** The download gets as far as appending a record. */
  predicate Reaches(sys: System, size: nat, e: Entry) {
    match e
    case IntentEntry => true
    case PartialEntry => Opens(sys) && sys.fault(Identify).Fine?
    case FrozenEntry => Connects(sys) && sys.fault(Transfer).Fine? && FreezeProved(sys, size)
    case FinalEntry => Freezes(sys, size) && FinalProved(sys)
  }

  predicate Records(sys: System, size: nat, e: Entry) {
    Reaches(sys, size, e) && sys.line(e).Whole()
  }

  /** A reached append leaves a line that makes the journal unreadable. */
  predicate SpoilsJournal(sys: System, size: nat) {
    exists e :: Reaches(sys, size, e) && sys.line(e).Spoils()
  }

  /** How many records a download appends. */
  function Appended(sys: System, size: nat): nat {
    if Records(sys, size, FinalEntry) then 4
    else if Records(sys, size, FrozenEntry) then 3
    else if Records(sys, size, PartialEntry) then 2
    else if Records(sys, size, IntentEntry) then 1
    else 0
  }

  /**
   * A partial file stays behind the outcome `not-required` exactly in three cases: its creation
   * raised after the effect; closing the connection raised while publication had not unlinked it; or
   * it was frozen, not known to be linked, and could not be opened again.
   */
  lemma PartialUnrecorded(sys: System, size: nat)
    requires Truthful(sys)
    ensures OutcomeOf(sys, size) == NotRequired && PartialLeft(sys, size) <==>
              || (Creates(sys) && !Opens(sys))
              || (ConnectionFails(sys) && !(Freezes(sys, size) && UnlinkMade(sys)))
              || (Freezes(sys, size) && !LinkKnown(sys) && !ConnectionFails(sys) && !sys.fault(ReopenPartial).Fine?)
  {
  }

  /**
   * A final name stands behind `not-required` without a normal return exactly when closing the
   * connection raised, or the link raised after its effect and the partial could not be opened again.
   */
  lemma FinalUnrecorded(sys: System, size: nat)
    requires Truthful(sys)
    ensures OutcomeOf(sys, size) == NotRequired && FinalLeft(sys, size) && !Completes(sys, size) <==>
              FinalLeft(sys, size) && (ConnectionFails(sys) || (!LinkKnown(sys) && !sys.fault(ReopenPartial).Fine?))
  {
  }

  /** What each other outcome says of the two names. */
  lemma OutcomeTells(sys: System, size: nat)
    requires Truthful(sys)
    ensures OutcomeOf(sys, size) == Success ==> !PartialLeft(sys, size) && !FinalLeft(sys, size)
    ensures OutcomeOf(sys, size) == Preserved ==> PartialLeft(sys, size)
    ensures Completes(sys, size) ==>
              FinalLeft(sys, size) && !PartialLeft(sys, size) && OutcomeOf(sys, size) == NotRequired
  {
    assert sys.again(true).place == sys.held.place ==> sys.again(true).policy.nlink == 2;
  }

  /** Two outcome tables that differ at most at one component. */
  ghost predicate OnlyAt(c: string, before: map<string, Outcome>, after: map<string, Outcome>) {
    forall d :: d != c ==> (d in after <==> d in before) && (d in after ==> after[d] == before[d])
  }

  /** The state a download starts from. */
  datatype Origin = Origin(journal: seq<Record>, names: set<Name>, unlinked: set<Name>)

  predicate Vacant(c: string, names: set<Name>) {
    Partial(c) !in names && Final(c) !in names
  }

  class Publisher {
    /** The whole records of the journal, and whether the file can still be read as a journal. */
    var journal: seq<Record>
    var readable: bool
    var names: set<Name>
    var unlinked: set<Name>
    var immediate: map<string, Outcome>

    // the publication dictionary
    var journaled: bool
    var writerCloseAttempted: bool
    var partialFinal: Option<Generation>
    var linked: bool
    var partialUnlinked: bool
    var writerCloses: nat

    constructor (journal: seq<Record>)
      ensures this.journal == journal && readable && names == {} && unlinked == {} && immediate == map[]
    {
      this.journal, readable := journal, true;
      names, unlinked, immediate := {}, {}, map[];
      journaled, writerCloseAttempted, partialFinal, linked, partialUnlinked := false, false, None, false, false;
      writerCloses := 0;
    }

    /** `_append_journal` as a step: it reads the journal first, so a journal once spoiled is left alone. */
    method Append(line: Line, r: Record) returns (ok: bool)
      modifies this`journal, this`readable
      ensures ok == (old(readable) && line.Kept?)
      ensures readable == (old(readable) && !line.Spoils())
      ensures journal == if old(readable) && line.Whole() then old(journal) + [r] else old(journal)
    {
      if !readable {
        return false;
      }
      if line.Whole() {
        journal := journal + [r];
      }
      readable := !line.Spoils();
      return line.Kept?;
    }

    /** What holds of the publication dictionary and the directory at every step of a download. */
    ghost predicate Inv(c: string, size: nat, sys: System, k: nat, from: Origin)
      reads this
    {
      && k <= 4 && journal == from.journal + Script(c, sys.held)[..k]
      && (k >= 3 ==> sys.held.policy == FrozenPolicy(size))
      && (linked ==> Final(c) in names) && (Final(c) in names ==> partialFinal.Some?)
      && (partialFinal.Some? ==> partialFinal.value == sys.held && k >= 3)
      && (journaled ==> partialUnlinked) && (k == 4 ==> partialUnlinked)
      && (!partialUnlinked ==> unlinked == from.unlinked)
      && names - {Partial(c), Final(c)} == from.names - {Partial(c), Final(c)}
      && from.unlinked <= unlinked <= from.unlinked + {Partial(c)}
    }

    /** The writer is closed where the dictionary says so, and nowhere else yet. */
    ghost predicate ClosedOnce()
      reads this`writerCloses, this`writerCloseAttempted
    {
      writerCloses == if writerCloseAttempted then 1 else 0
    }

    /** Nothing is published yet. */
    ghost predicate Unpublished()
      reads this
    {
      !journaled && !writerCloseAttempted && partialFinal.None? && !linked && !partialUnlinked && ClosedOnce()
    }

    /** `_freeze_partial`. */
    method FreezePartial(c: string, size: nat, sys: System, ghost from: Origin) returns (ok: bool, ghost k: nat)
      requires Inv(c, size, sys, 2, from) && Unpublished() && readable
      modifies this`journal, this`readable, this`writerCloseAttempted, this`writerCloses, this`partialFinal
      ensures Inv(c, size, sys, k, from) && ClosedOnce()
      ensures (ok <==> FreezeFine(sys, size)) && (ok <==> partialFinal.Some?)
      ensures k == if FreezeProved(sys, size) && sys.line(FrozenEntry).Whole() then 3 else 2
      ensures readable <==> !(FreezeProved(sys, size) && sys.line(FrozenEntry).Spoils())
    {
      k := 2;
      ok := false;
      if !sys.fault(Freeze).Fine? {
        return;
      }
      writerCloseAttempted := true;
      writerCloses := writerCloses + 1;
      if !sys.fault(CloseWriter).Fine? {
        return;
      }
      if !sys.fault(ProveName).Fine? || sys.held.policy != FrozenPolicy(size) {
        return;
      }
      var done := Append(sys.line(FrozenEntry), PartialFinal(c, Partial(c), sys.held));
      k := if sys.line(FrozenEntry).Whole() then 3 else 2;
      assert Script(c, sys.held)[..3] == Script(c, sys.held)[..2] + [PartialFinal(c, Partial(c), sys.held)];
      if !done || !sys.fault(LeaveFreeze).Fine? {
        return;
      }
      partialFinal := Some(sys.held);
      ok := true;
    }

    /** `_publish_asset` and `_finish_asset_publication`. */
    method Publish(c: string, size: nat, sys: System, ghost from: Origin) returns (ok: bool, ghost k: nat)
      requires Inv(c, size, sys, 2, from) && Unpublished() && readable
      modifies this
      ensures immediate == old(immediate) && Inv(c, size, sys, k, from) && ClosedOnce()
      ensures var frozen := FreezeFine(sys, size);
              && (ok <==> frozen && PublishFine(sys)) && (partialFinal.Some? <==> frozen)
              && (Final(c) in names <==> frozen && LinkMade(sys)) && (linked <==> frozen && LinkKnown(sys))
              && (partialUnlinked <==> frozen && UnlinkTried(sys))
              && (Partial(c) in names <==> old(Partial(c) in names) && !(frozen && UnlinkMade(sys)))
      ensures k == if FreezeFine(sys, size) && FinalProved(sys) && sys.line(FinalEntry).Whole() then 4
                   else if FreezeProved(sys, size) && sys.line(FrozenEntry).Whole() then 3 else 2
      ensures readable <==> && !(FreezeProved(sys, size) && sys.line(FrozenEntry).Spoils())
                            && !(FreezeFine(sys, size) && FinalProved(sys) && sys.line(FinalEntry).Spoils())
    {
      ok, k := FreezePartial(c, size, sys, from);
      if ok {
        ok, k := Relink(c, size, sys, from);
      }
    }

    /** `_publish_asset` once the partial file is frozen. */
    method Relink(c: string, size: nat, sys: System, ghost from: Origin) returns (ok: bool, ghost k: nat)
      requires Inv(c, size, sys, 3, from) && readable
      requires partialFinal.Some? && !linked && !partialUnlinked && Final(c) !in names
      modifies this`journal, this`readable, this`names, this`unlinked, this`linked, this`partialUnlinked, this`journaled
      ensures Inv(c, size, sys, k, from)
      ensures ok <==> PublishFine(sys)
      ensures k == if FinalProved(sys) && sys.line(FinalEntry).Whole() then 4 else 3
      ensures readable <==> !(FinalProved(sys) && sys.line(FinalEntry).Spoils())
      ensures (Final(c) in names <==> LinkMade(sys)) && (linked <==> LinkKnown(sys))
      ensures partialUnlinked <==> UnlinkTried(sys)
      ensures Partial(c) in names <==> old(Partial(c) in names) && !UnlinkMade(sys)
    {
      ok, k := false, 3;
      if !sys.fault(BeforeLink).Fine? || sys.fault(Link).Before? {
        return;
      }
      names := names + {Final(c)};
      if sys.fault(Link).After? {
        return;
      }
      linked := true;
      if !sys.fault(CheckLink).Fine? {
        return;
      }
      partialUnlinked := true;
      if sys.fault(UnlinkPartial).Before? {
        return;
      }
      names, unlinked := names - {Partial(c)}, unlinked + {Partial(c)};
      if sys.fault(UnlinkPartial).After? || !sys.fault(CheckFinal).Fine? {
        return;
      }
      ok := Append(sys.line(FinalEntry), FinalOwned(c, Final(c)));
      k := if sys.line(FinalEntry).Whole() then 4 else 3;
      assert Script(c, sys.held)[..4] == Script(c, sys.held)[..3] + [FinalOwned(c, Final(c))];
      if !ok {
        return;
      }
      journaled := true;
      ok := sys.fault(Finish).Fine?;
    }

    /** The partial file, frozen and not known to be linked, is found again as it was frozen. */
    ghost predicate Withdraws(sys: System, c: string, present: set<Name>)
      reads this`partialFinal, this`linked
    {
      && partialFinal.Some? && !linked && sys.fault(ReopenPartial).Fine? && partialFinal.value.policy.nlink == 1
      && sys.again(Final(c) in present) == partialFinal.value
    }

    /** `_cleanup_failed_asset_publication`. The branch for a journaled asset is never taken. */
    method CleanupFailed(c: string, size: nat, sys: System, ghost k: nat, ghost from: Origin) returns (ok: bool)
      requires Inv(c, size, sys, k, from) && Truthful(sys)
      modifies this`names, this`unlinked, this`immediate, this`partialUnlinked
      ensures Inv(c, size, sys, k, from)
      ensures OnlyAt(c, old(immediate), immediate) && (c in old(immediate) ==> c in immediate)
      ensures c in immediate && immediate[c] == Success ==>
                || old(c in immediate && immediate[c] == Success)
                || (partialUnlinked && k == 3 && Vacant(c, names))
      ensures c in immediate && immediate[c] == Preserved ==>
                old(c in immediate && immediate[c] == Preserved) || !partialUnlinked
      ensures Final(c) in names <==> old(Final(c) in names)
      ensures old(partialUnlinked) ==>
                partialUnlinked && immediate == old(immediate)[c := PostUnlinkUncertainty] && names == old(names)
      ensures !old(partialUnlinked) && !Withdraws(sys, c, old(names)) ==>
                && !partialUnlinked && names == old(names)
                && immediate == if partialFinal.Some? && !linked && !sys.fault(ReopenPartial).Fine? then old(immediate)
                                else old(immediate)[c := Preserved]
      ensures !old(partialUnlinked) && Withdraws(sys, c, old(names)) ==>
                && partialUnlinked
                && names == (if sys.fault(CleanupUnlink).Before? then old(names) else old(names) - {Partial(c)})
                && immediate == old(immediate)[c := if sys.fault(CleanupUnlink).Fine? && sys.fault(CleanupSync).Fine?
                                                       && sys.fault(CloseReopened).Fine?
                                                    then Success else PostUnlinkUncertainty]
    {
      if partialUnlinked {
        immediate := immediate[c := PostUnlinkUncertainty];
        return false;
      }
      if journaled {
        assert false;
      }
      if partialFinal.None? || linked {
        immediate := immediate[c := Preserved];
        return true;
      }
      if !sys.fault(ReopenPartial).Fine? {
        return false;
      }
      var found := sys.again(Final(c) in names);
      if found != partialFinal.value || partialFinal.value.policy.nlink != 1 {
        immediate := immediate[c := Preserved];
        return false;
      }
      partialUnlinked := true;
      if sys.fault(CleanupUnlink).Before? {
        immediate := immediate[c := PostUnlinkUncertainty];
        return false;
      }
      names, unlinked := names - {Partial(c)}, unlinked + {Partial(c)};
      if sys.fault(CleanupUnlink).After? || !sys.fault(CleanupSync).Fine? || !sys.fault(CloseReopened).Fine? {
        immediate := immediate[c := PostUnlinkUncertainty];
        return false;
      }
      immediate := immediate[c := Success];
      return true;
    }

    /**
     * `_download_asset`. Whatever fails, the journal has grown by a prefix of the script, and it stays
     * readable exactly when no reached append spoils it; `Success` means neither name remains,
     * `Preserved` that nothing was unlinked, and a normal return that exactly the final name is there,
     * journaled. With an unreadable journal nothing happens at all.
     */
    method Download(c: string, size: nat, sys: System) returns (ok: bool, ghost k: nat)
      requires Truthful(sys) && c in immediate && immediate[c] == NotRequired
      modifies this
      ensures k <= 4 && journal == old(journal) + Script(c, sys.held)[..k]
      ensures k >= 3 ==> sys.held.policy == FrozenPolicy(size)
      ensures c in immediate && OnlyAt(c, old(immediate), immediate)
      ensures immediate[c] == Success ==> !ok && k == 3 && Vacant(c, names)
      ensures immediate[c] == Preserved ==> !ok && unlinked == old(unlinked)
      ensures ok ==> k == 4 && Final(c) in names && Partial(c) !in names && immediate[c] == NotRequired
      ensures names - {Partial(c), Final(c)} == old(names) - {Partial(c), Final(c)}
      ensures old(unlinked) <= unlinked <= old(unlinked) + {Partial(c)}
      ensures writerCloses <= 1
      ensures old(readable && Vacant(c, names)) ==>
                && (ok <==> Completes(sys, size)) && immediate[c] == OutcomeOf(sys, size)
                && (Partial(c) in names <==> PartialLeft(sys, size)) && (Final(c) in names <==> FinalLeft(sys, size))
                && k == Appended(sys, size) && (readable <==> !SpoilsJournal(sys, size))
      ensures old(!Vacant(c, names)) ==> !ok && names == old(names) && immediate == old(immediate)
      ensures !old(readable) ==> !ok && !readable && k == 0 && names == old(names) && immediate == old(immediate)
    {
      ghost var from := Origin(journal, names, unlinked);
      ok, k := Create(c, size, sys);
      if ok {
        ok, k := Opened(c, size, sys, from);
      }
    }

    /** `_download_asset` up to the open partial file. */
    method Create(c: string, size: nat, sys: System) returns (ok: bool, ghost k: nat)
      modifies this
      ensures immediate == old(immediate) && unlinked == old(unlinked) && writerCloses == 0 && Unpublished()
      ensures k == (if old(readable) && sys.line(IntentEntry).Whole() then 1 else 0)
      ensures journal == old(journal) + Script(c, sys.held)[..k]
      ensures readable <==> old(readable) && !sys.line(IntentEntry).Spoils()
      ensures names == if old(readable && Vacant(c, names)) && Creates(sys) then old(names) + {Partial(c)}
                       else old(names)
      ensures ok <==> old(readable && Vacant(c, names)) && Opens(sys)
    {
      ok, k := false, 0;
      journaled, writerCloseAttempted, partialFinal, linked, partialUnlinked := false, false, None, false, false;
      writerCloses := 0;
      assert Script(c, sys.held)[..0] == [] && journal + [] == journal;
      assert Script(c, sys.held)[..1] == [Unrelated];
      k := if readable && sys.line(IntentEntry).Whole() then 1 else 0;
      var intent := Append(sys.line(IntentEntry), Unrelated);
      if !intent || !sys.fault(OpenDirectory).Fine? {
        return;
      }
      if !sys.fault(CheckAbsent).Fine? || Partial(c) in names || Final(c) in names {
        return;
      }
      if sys.fault(OpenPartial).Before? {
        return;
      }
      names := names + {Partial(c)};
      ok := sys.fault(OpenPartial).Fine?;
    }

    /** The rest of `_download_asset`, once the partial file is open. */
    method Opened(c: string, size: nat, sys: System, ghost from: Origin) returns (ok: bool, ghost k: nat)
      requires Inv(c, size, sys, 1, from) && Truthful(sys) && Unpublished() && readable && Opens(sys)
      requires Partial(c) in names && Final(c) !in names && c in immediate && immediate[c] == NotRequired
      modifies this
      ensures Inv(c, size, sys, k, from) && writerCloses <= 1
      ensures c in immediate && OnlyAt(c, old(immediate), immediate)
      ensures immediate[c] == Success ==> !ok && k == 3 && Vacant(c, names)
      ensures immediate[c] == Preserved ==> !ok && unlinked == from.unlinked
      ensures ok ==> k == 4 && Final(c) in names && Partial(c) !in names && immediate[c] == NotRequired
      ensures (ok <==> Completes(sys, size)) && immediate[c] == OutcomeOf(sys, size)
      ensures (Partial(c) in names <==> PartialLeft(sys, size)) && (Final(c) in names <==> FinalLeft(sys, size))
      ensures k == Appended(sys, size) && (readable <==> !SpoilsJournal(sys, size))
    {
      var identified, connected;
      ok, identified, connected, k := Fetch(c, size, sys, from);
      if connected && !sys.fault(CloseConnection).Fine? {
        ok := false;
        return;
      }
      ok := Leave(c, size, sys, ok, identified, k, from);
    }

    /** The body of the outer `try`. */
    method Fetch(c: string, size: nat, sys: System, ghost from: Origin)
      returns (ok: bool, identified: bool, connected: bool, ghost k: nat)
      requires Inv(c, size, sys, 1, from) && Opens(sys) && Unpublished() && readable
      requires Partial(c) in names && Final(c) !in names
      modifies this
      ensures immediate == old(immediate) && Inv(c, size, sys, k, from) && ClosedOnce()
      ensures identified == sys.fault(Identify).Fine? && connected == Connects(sys)
      ensures (ok <==> Publishes(sys, size)) && (partialFinal.Some? <==> Freezes(sys, size))
      ensures (Final(c) in names <==> FinalLeft(sys, size)) && (linked <==> Freezes(sys, size) && LinkKnown(sys))
      ensures partialUnlinked <==> Freezes(sys, size) && UnlinkTried(sys)
      ensures Partial(c) in names <==> !(Freezes(sys, size) && UnlinkMade(sys))
      ensures k == Appended(sys, size) && (readable <==> !SpoilsJournal(sys, size))
    {
      k := 1;
      ok, connected := false, false;
      identified := sys.fault(Identify).Fine?;
      if identified {
        connected := Append(sys.line(PartialEntry), PartialOwned(c, Partial(c)));
        k := if sys.line(PartialEntry).Whole() then 2 else 1;
        assert Script(c, sys.held)[..2] == Script(c, sys.held)[..1] + [PartialOwned(c, Partial(c))];
        if connected && sys.fault(Transfer).Fine? {
          ok, k := Publish(c, size, sys, from);
        }
      }
      SpoilsAre(sys, size);
    }

    /** The outer `finally` once the connection is closed. */
    method Leave(c: string, size: nat, sys: System, published: bool, identified: bool, ghost k: nat, ghost from: Origin)
      returns (ok: bool)
      requires Inv(c, size, sys, k, from) && Truthful(sys) && ClosedOnce() && Opens(sys) && !ConnectionFails(sys)
      requires identified == sys.fault(Identify).Fine? && published == Publishes(sys, size) && (published ==> k == 4)
      requires (partialFinal.Some? <==> Freezes(sys, size)) && (linked <==> Freezes(sys, size) && LinkKnown(sys))
      requires Final(c) in names <==> FinalLeft(sys, size)
      requires partialUnlinked <==> Freezes(sys, size) && UnlinkTried(sys)
      requires Partial(c) in names <==> !(Freezes(sys, size) && UnlinkMade(sys))
      requires c in immediate && immediate[c] == NotRequired
      modifies this`names, this`unlinked, this`immediate, this`partialUnlinked, this`writerCloses
      ensures Inv(c, size, sys, k, from) && writerCloses <= 1
      ensures c in immediate && OnlyAt(c, old(immediate), immediate)
      ensures immediate[c] == Success ==> k == 3
      ensures immediate[c] == Preserved ==> unlinked == from.unlinked
      ensures (ok <==> Completes(sys, size)) && immediate[c] == OutcomeOf(sys, size)
      ensures (Partial(c) in names <==> PartialLeft(sys, size)) && (Final(c) in names <==> FinalLeft(sys, size))
    {
      ok := published;
      if !ok {
        if !identified {
          immediate := immediate[c := Preserved];
        } else {
          var cleaned := CleanupFailed(c, size, sys, k, from);
        }
      }
      if !writerCloseAttempted {
        writerCloses := writerCloses + 1;
      }
      if !sys.fault(CloseAll).Fine? {
        if partialUnlinked {
          immediate := immediate[c := PostUnlinkUncertainty];
        }
        ok := false;
      }
    }
  }

  lemma SpoilsAre(sys: System, size: nat)
    ensures SpoilsJournal(sys, size) <==>
              || sys.line(IntentEntry).Spoils()
              || (Reaches(sys, size, PartialEntry) && sys.line(PartialEntry).Spoils())
              || (Reaches(sys, size, FrozenEntry) && sys.line(FrozenEntry).Spoils())
              || (Reaches(sys, size, FinalEntry) && sys.line(FinalEntry).Spoils())
  {
    forall e | Reaches(sys, size, e) && sys.line(e).Spoils()
      ensures e == IntentEntry || e == PartialEntry || e == FrozenEntry || e == FinalEntry
    {
      match e
      case IntentEntry =>
      case PartialEntry =>
      case FrozenEntry =>
      case FinalEntry =>
    }
    assert Reaches(sys, size, IntentEntry);
  }
}
