/** The publisher's appends as writes to the journal file, byte by byte. */
module AssetsJournal {
  import opened Basics
  import opened Json
  import Assets
  import Journal

  /** What a call of `_append_journal` leaves of its line, and whether a later step of it raised. */
  function LineLeft(host: Journal.Host, raw: string, w: Journal.Write, raised: bool): Assets.Line {
    var line := Journal.LineOfWrite(host, raw, w);
    if w.written == 0 then Assets.Unwritten
    else if w.written < |line| then Assets.Torn
    else if |raw| + |line| > Journal.MAX_JOURNAL then Assets.Oversized
    else if raised then Assets.KeptRaised
    else Assets.Kept
  }

  /** The record a call adds, as it is read back. */
  function Added(host: Journal.Host, raw: string, w: Journal.Write): seq<Journal.Record> {
    var records := Journal.RecordsIn(host, raw);
    if records == [] then []
    else [Journal.NormalRecord(Journal.NextRecord(host, records, Str(w.kind), w.body))]
  }

  /**
   * The publisher's append says of records and readability what the bytes of the file say, for a line
   * cut off anywhere and a file of any length.
   */
  lemma AppendRefines(host: Journal.Host, raw: string, w: Journal.Write, raised: bool)
    requires Journal.PlainDecode(host) && WellKeyed(w.body) && Journal.KindName(w.kind) && w.body.Obj?
    ensures var line, readable := LineLeft(host, raw, w, raised), Journal.ParseJournal(host, raw).Some?;
            var after := Journal.Written(host, raw, w);
            && (Journal.ParseJournal(host, after).Some? <==> readable && !line.Spoils())
            && (readable && !line.Spoils() ==>
                  Journal.RecordsIn(host, after)
                  == Journal.RecordsIn(host, raw) + if line.Whole() then Added(host, raw, w) else [])
            && (!readable ==> after == raw)
  {
    if Journal.ParseJournal(host, raw).Some? {
      Journal.WriteExact(host, raw, w);
      assert Journal.RecordsIn(host, raw) + [] == Journal.RecordsIn(host, raw);
    }
  }

  // ---------------------------------------------------------------- a download whose record is cut short

  const HELD := Assets.Generation(Assets.Place(1, 0, 1), Assets.FrozenPolicy(7), Assets.Times(0, 0))

  function Relinked(linked: bool): Assets.Generation {
    HELD.(policy := HELD.policy.(nlink := if linked then 2 else 1))
  }

  /** Nothing fails but one append. */
  function OnlyLine(spoiled: Assets.Entry, line: Assets.Line): Assets.System {
    Assets.System(_ => Assets.Fine, (e: Assets.Entry) => if e == spoiled then line else Assets.Kept, HELD, Relinked)
  }

  /** A download with one spoiled append, all counts positive: the file stays and the journal is lost. */
  lemma SpoiledDownload(line: Assets.Line)
    requires line.Spoils()
    ensures var sys := OnlyLine(Assets.FrozenEntry, line);
            && Assets.Truthful(sys) && Assets.Counted(sys.held) && Assets.SpoilsJournal(sys, 7)
            && Assets.PartialLeft(sys, 7) && Assets.OutcomeOf(sys, 7) == Assets.Preserved
    ensures var sys := OnlyLine(Assets.FinalEntry, line);
            && Assets.Truthful(sys) && Assets.Counted(sys.held) && Assets.SpoilsJournal(sys, 7)
            && Assets.FinalLeft(sys, 7) && Assets.OutcomeOf(sys, 7) == Assets.PostUnlinkUncertainty
  {
    Assets.SpoilsAre(OnlyLine(Assets.FrozenEntry, line), 7);
    Assets.SpoilsAre(OnlyLine(Assets.FinalEntry, line), 7);
  }
}
