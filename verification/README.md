# Stage 2 native candidate, release ledger and custody: a verified model

A Dafny model of the parts of the repository that decide outcomes through loops, accumulated state and
agreement between separately written programs, with proofs of what they promise. System calls, clocks,
subprocesses and hashes are parameters: a run is driven by a script of what the system answers at each
step, and the theorems quantify over all scripts.

| modules | what they model |
|---|---|
| `Frames`, `Control`, `ControlExact`, `Supervisor`, `SupervisorSafety`, `SupervisorTiming`, `SupervisorClaims`, `SupervisorReach`, `SupervisorLimits` | the child supervisor: result frames, control packets, the event loop over helper and PID 1 |
| `SupervisorPass`, `SupervisorLog`, `SupervisorErrors`, `SupervisorOutcome` | what each pass and each whole run of it answers, from tables: knowledge, signals, clocks, errors, outcome |
| `Launcher`, `LauncherExact` | the launch gate, the child run, and the cleanup gate of `run` |
| `Timing`, `PhaseA`, `Evidence`, `Observer`, `ObserverRows`, `ObserverExact`, `ObserverClaims` | the two-build observer with its clocks and counters, its phase record, and the report validator written apart from it |
| `Journal`, `JournalExact`, `PyJson` | the hash-chained ownership journal |
| `Assets`, `AssetsExact`, `AssetsCleanup`, `AssetsJournal` | asset publication by link and unlink with failure at every step, the journal automaton, later cleanup, the same appends in bytes |
| `Census`, `Inspections` | the coverage-counter loop over process generations, for settlement and for alias proof |
| `Diff`, `Patches` | the reader that charges added bytes from `git diff` output, against printed patches |
| `GitTree`, `ObjectWalk`, `SourcePlan`, `SourceFits`, `SourceVisit`, `SourceLayout`, `SourcePlanning`, `SourceExact` | Git tree objects in bytes, the memoised walk, path lookup and listings, the path-expanding visit, the plan, its creation, and which sources have one |
| `JsonStrings`, `Json`, `JsonClaims`, `JsonText`, `Utf8`, `Assertion` | canonical JSON, a reader for RFC 8259 over integers, the release image-set assertion |
| `Timestamp` | strict UTC timestamps through ECMAScript dates |
| `Ledger`, `LedgerOrder`, `LedgerJson`, `LedgerBook`, `LedgerGroups`, `LedgerClaims`, `LedgerLists`, `LedgerReport` | the vulnerability ledger |
| `OptMode`, `OptExact`, `OptInterleaving`, `OptRuns` | custody of the mode of /opt: single calls, their steps in any interleaving, and runs that lose the original |
| `Aggregate`, `ArtifactCustody`, `CustodyRecord`, `CustodyLength` | the seven-cycle aggregation and the artifact custody record |
| `Hcl` | the delimiter check over HCL sources |
| `Basics`, `Order` | shared values, splitting and joining, numerals, code-point order |

## Reading the model

A loop in the source is a method with a loop, proved against a function of its inputs; an object whose
fields change is a class. What the source promises is then proved about that function or state. A byte
string is a string of characters that each stand for one byte, except in `Frames` and `Utf8`, where bytes
are numbers. A fault either raises before its effect or after it; where it matters it may also kill the
process, so that no handler runs. An append to the journal may besides be cut off inside
its line, or exceed the journal's bound, and both leave a journal that can no longer be read.

What an operation answers is stated a second time, apart from the functions that compute it: as a table or
a relation over what the system answered, with the constants written out, and proved to agree. These
statements are in the modules named `Exact`, in the four after `Supervisor`, and in `JsonText`,
`ObserverRows` and `LedgerReport`.

## Where a promise has a condition

Some promises hold only under a condition. It is proved exact, and a run or input that breaks the promise is given.

- A failed close of a received right is lost exactly when a reached pass refuses its packet in `_control_receive` after a first work error (`SupervisorReach.DroppedExactly`, `SupervisorLimits.RefusedRightCloseUnreported`); the same over gate and supervision together (`Launcher.RunRightsClosedOnce`).
- After a failed poll the supervisor takes every descriptor as ready, so PID 1 may count as terminal unseen: a run settles without any word on PID 1 exactly when a reached failed poll alone stands for it (`SupervisorReach.SettledExactly`, `SupervisorLimits.PollFailureSettlesUnseen`).
- The helper's report of PID 1 outranks the status collected from PID 1 itself: a successful run has (exited, 0) by the report if there is one, whatever was collected, and by the collected status otherwise (`SupervisorReach.SuccessByReport`, `SupervisorLimits.ReportOutranksCollectedStatus`).
- The report validator refuses an observer run that had two successful outermost cleanups in a build, an unknown work outcome, a clock or counter fault, a stage longer than its bound, a stage left by a foreign exception, or a failed recovery after a foreign exception before the first stage; it accepts every other (`ObserverClaims.ReportAgreement`, `ObserverClaims.FailedRecoveryRefused`). Rendering lets through, with empty phases, a disorderly run that never materialised (`ObserverClaims.RenderAgreement`). An operation begun again after materialisation started needs no condition of its own.
- An append to the journal that exceeds the size bound fails after the file was extended, and what was written stays (`Journal.AppendExact`, `Journal.File.Append`). A run of appends leaves a readable journal exactly when none is cut short or too long (`Journal.AppendsReadable`). Accepted journals with one length and last digest agree in every record (`Journal.LastDigestDecides`), which is all that Python's equality asks. Their content is the same exactly when their first two records are numbered alike, as numbers or as booleans (`Journal.SameExactly`, `Journal.BooleanNumber`); a number written as a fraction, such as `2.0`, is a further way for Python to write the same number, which the model's reader refuses.
- After any downloads the journal is accepted exactly when it could be read before, no reached append was cut short or too long, and every recorded generation has positive counts, which the reader asks for and the writer does not check (`AssetsCleanup.DownloadAll`, `AssetsCleanup.ScriptAccepted`, `AssetsJournal.SpoiledDownload`). A partial file stays behind the outcome `not-required` in exactly three cases, a final name in two (`Assets.PartialUnrecorded`, `Assets.FinalUnrecorded`).
- A single `restore` loses the original mode exactly when its unlink takes effect and raises all the same and the mode is put back (`OptMode.Custody.Restore`, `OptMode.UnlinkUnnoticed`). While restores overlap no other call, that is the only loss, and it is final (`OptInterleaving.RunSound`). With overlaps, a run is safe all along exactly when no step harms in the state it is taken in (`OptInterleaving.SafeExactly`); four ways to lose the original, and one to regain it by chance, are runs in `OptRuns`.
- `parseTimestamp` refuses real dates in years below 100 (`Timestamp.EarlyYearRefused`).
- A custody record revalidates exactly when its run id and artifact ids are short enough for 16 KiB, and run ids of up to 4300 digits are taken (`CustodyLength.RevalidatesExactly`, `CustodyLength.RunLengthDecides`, `CustodyLength.LongRunRefused`).

## Model

| member | source | states |
|---|---|---|
| `Frames.BigEndianExact` | scripts/run-stage2-package-native-candidate.py:472-475 | four bytes read as a big-endian number give n exactly when they are the bytes written for n |
| `Frames.SuccessFrameExact` | scripts/run-stage2-package-native-candidate.py:900-915 | a byte string parses to a success payload exactly when it is the frame written for that payload, within the result bound |
| `Frames.FailureFrameExact` | scripts/run-stage2-package-native-candidate.py:900-915 | a byte string parses to a child failure exactly when it is the frame written from two tokens joined by a colon |
| `Control.ExitReportUnderstood` | scripts/run-stage2-package-native-candidate.py:596-623 | an exit report written by the helper is classified as the very status it reports |
| `Control.NoPid1ReportUnderstood` | scripts/run-stage2-package-native-candidate.py:596-623 | a report that PID 1 was never created is classified with its stage and reason |
| `Control.HelperErrorReportUnderstood` | scripts/run-stage2-package-native-candidate.py:596-623 | a helper error report is classified with its stage and reason |
| `ControlExact.Pid1FdExactly` | scripts/run-stage2-package-native-candidate.py:596-605 | a descriptor is taken exactly with a PID1-FD report of digits, one right, none held before and a check that agrees; an end of the channel is an empty packet without a right |
| `ControlExact.Pid1ExitExactly` | scripts/run-stage2-package-native-candidate.py:606-616 | a packet reports PID 1's exit exactly when it is `PID1-EXIT:` and two numerals without a right, and the status is an exit of at most 255 or a death by signal 1 to 64 |
| `ControlExact.NoPid1Exactly` | scripts/run-stage2-package-native-candidate.py:617-619 | a packet says that PID 1 was never made exactly when it is `HELPER-NO-PID1-ERROR:` and two words, without a right |
| `ControlExact.HelperFaultExactly` | scripts/run-stage2-package-native-candidate.py:620-622 | a packet is a helper error exactly when it is `HELPER-ERROR:` and two words, without a right |
| `ControlExact.RefusedExactly` | scripts/run-stage2-package-native-candidate.py:596-623 | each refusal with exactly the packets that meet it |
| `Supervisor.Supervise` | scripts/run-stage2-package-native-candidate.py:978-1168 | the event loop computes the outcome of `Final` and `Judge`, for every sequence of events; what those answer is stated exactly, error by error and list by list, in the rows of `SupervisorErrors` and `SupervisorOutcome` below |
| `SupervisorClaims.SuccessIsProved` | scripts/run-stage2-package-native-candidate.py:978-1168 | no work error and no cleanup error imply: the result is the payload of the one success frame that the whole stream is, helper and PID 1 ended as (exited, 0), everything settled |
| `SupervisorClaims.FirstErrorReported` | scripts/run-stage2-package-native-candidate.py:1000-1007 | a work error present after any prefix of the run is the one reported at its end |
| `SupervisorClaims.InitialErrorReported` | scripts/run-stage2-package-native-candidate.py:978-999 | an error handed to supervision is the one it reports |
| `SupervisorClaims.RightsClosedOnce` | scripts/run-stage2-package-native-candidate.py:1057-1141 | at the end of every run the rights received and the rights closed are the same multiset, and every failed close is listed, carried by the work error, or counted as dropped |
| `SupervisorReach.DroppedExactly` | scripts/run-stage2-package-native-candidate.py:1057-1076 | over every whole run: no failed close of a received right is lost exactly when no pass the loop reaches refuses a packet after a first work error and fails to close one of its rights |
| `SupervisorReach.RightsReported` | scripts/run-stage2-package-native-candidate.py:1057-1141 | over every whole run: received and closed rights are one multiset, and every failed close is listed or carried by the work error exactly when no reached pass loses one |
| `SupervisorClaims.NoSignalAfterReap` | scripts/run-stage2-package-native-candidate.py:1024-1035 | in every run no signal goes to the helper after it was reaped |
| `SupervisorReach.SettledExactly` | scripts/run-stage2-package-native-candidate.py:1044-1085 | a run is settled exactly when helper, channels and descendants are wound up and PID 1 is accounted for, or some reached pass polled blind; it is settled without any word on PID 1 exactly when a reached failed poll alone stands for it |
| `SupervisorReach.SuccessByReport` | scripts/run-stage2-package-native-candidate.py:1150-1165 | in a successful run without a report the collected status is (exited, 0); with a report the report is |
| `SupervisorTiming.RoundsTimed` | scripts/run-stage2-package-native-candidate.py:986-1035 | along every run each signal of the loop follows the first work error and falls within the signal window, two signals to one process are a tenth of a second apart, and the window leaves time to reap |
| `SupervisorTiming.SignalsTimed` | scripts/run-stage2-package-native-candidate.py:978-1035 | the same for a whole supervision from its start |
| `SupervisorPass.PassKnown` | scripts/run-stage2-package-native-candidate.py:1036-1108 | one pass, cut short by an exception anywhere: what is known of helper, PID 1 and descendants afterwards, from the packet, the polls, the waits and the drains of that pass |
| `SupervisorPass.PassPipe` | scripts/run-stage2-package-native-candidate.py:1046-1056 | one pass adds to the stream exactly the bytes it read; the end is an empty read, and the stream is oversize once more than 4228 bytes are held |
| `SupervisorPass.PassLeaves` | scripts/run-stage2-package-native-candidate.py:1013-1020 | the loop ends exactly when the settlement deadline is past, everything is settled and drained, or an exception escapes |
| `SupervisorLog.PassLogged` | scripts/run-stage2-package-native-candidate.py:1021-1108 | one pass sends exactly the signals due and lists exactly its cleanup errors, in order |
| `SupervisorLog.PassClocked` | scripts/run-stage2-package-native-candidate.py:1000-1035 | after a pass the deadlines are unchanged, or hastened by the first error as the source hastens them; a pass that signals puts the next signal off by a tenth of a second |
| `SupervisorLog.StartClocked` | scripts/run-stage2-package-native-candidate.py:986-999 | the clocks a run starts with, in nanoseconds |
| `SupervisorErrors.OffenceExact` | scripts/run-stage2-package-native-candidate.py:1013-1112 | a pass that meets no earlier error leaves exactly the first entry of a table of offences: child deadline, settlement deadline, failed poll, failed read, oversize result, refused packet, helper report, failed wait, missing settlement report, escaped exception |
| `SupervisorErrors.ReportedExactly` | scripts/run-stage2-package-native-candidate.py:978-1112 | the work error of every run: one handed in, else the first descriptor that could not be set up, else the offence of the first offending pass; only a run without any of these is judged after the loop |
| `SupervisorErrors.ChildDeadlineReported` | scripts/run-stage2-package-native-candidate.py:1021-1022 | if a reached pass looks at the clock at or after the work deadline and no error came before, the run reports the child deadline |
| `SupervisorErrors.SettlementDeadlineReported` | scripts/run-stage2-package-native-candidate.py:1023-1025 | likewise the settlement deadline, from the forcing time on, when the child's deadline is later |
| `SupervisorErrors.OverdueNeverSucceeds` | scripts/run-stage2-package-native-candidate.py:1021-1025 | no run with a pass that looks at the clock after the work deadline ends without a work error |
| `SupervisorOutcome.ResultExact` | scripts/run-stage2-package-native-candidate.py:1142-1149 | a run has a payload exactly when all the bytes it read are the success frame of that payload |
| `SupervisorOutcome.JudgedExactly` | scripts/run-stage2-package-native-candidate.py:1137-1164 | a run in which nothing was wrong before is judged by a table over the bytes read, the helper's status and the word on PID 1 |
| `SupervisorOutcome.ChildFailureReported` | scripts/run-stage2-package-native-candidate.py:1151-1154 | a failure frame with a helper that ended well and PID 1 at (exited, 1) is reported in the child's own words |
| `SupervisorOutcome.ErrorFreeExactly` | scripts/run-stage2-package-native-candidate.py:978-1164 | a run reports no work error exactly when nothing was wrong in any pass, the bytes read are a success frame, and each status known is (exited, 0) |
| `SupervisorOutcome.ListedExactly` | scripts/run-stage2-package-native-candidate.py:1021-1136 | the cleanup errors of every run: those of the passes in order, of the last attempt, of what stays unproved, and of the closes |
| `SupervisorOutcome.ResidueMeans` | scripts/run-stage2-package-native-candidate.py:1127-1132 | what stays unproved is listed, one error for each, and nothing else |
| `SupervisorOutcome.ClosesMean` | scripts/run-stage2-package-native-candidate.py:1133-1136 | every descriptor held that could not be closed is listed, and nothing else |
| `SupervisorOutcome.LastKnown` | scripts/run-stage2-package-native-candidate.py:1113-1126 | the attempt after the loop changes only what its drain finds |
| `SupervisorSafety.RoundsKeep` | scripts/run-stage2-package-native-candidate.py:1013-1112 | every round keeps the pipe's bounds, the one-way flags, the recorded facts and the first work error |
| `SupervisorSafety.RoundsOrdered` | scripts/run-stage2-package-native-candidate.py:1024-1101 | the order of signal and reap events is kept by every round |
| `SupervisorSafety.RoundsCustody` | scripts/run-stage2-package-native-candidate.py:1057-1084 | the balance of received, closed, failed and reported rights is kept by every round |
| `SupervisorLimits.PollFailureSettlesUnseen` | scripts/run-stage2-package-native-candidate.py:1044-1085 | a concrete run: after a failed poll everything counts as settled although nothing was ever heard of PID 1 |
| `SupervisorLimits.RefusedRightCloseUnreported` | scripts/run-stage2-package-native-candidate.py:1057-1060 | a concrete run: a failed close of a refused right appears nowhere in the outcome |
| `SupervisorLimits.ReportOutranksCollectedStatus` | scripts/run-stage2-package-native-candidate.py:1150-1156 | for every status there is a run without any error in which PID 1 was collected with it: the helper's report outranks it |
| `Launcher.GateRoundsSound` | scripts/run-stage2-package-native-candidate.py:1222-1250 | every round of the launch gate keeps each right held or closed once, each failed close listed or carried, and at most one PID 1 descriptor |
| `Launcher.PassGateSound` | scripts/run-stage2-package-native-candidate.py:1215-1258 | a gate that ends without error has sent GO and holds PID 1's descriptor |
| `Launcher.CallSiteValid` | scripts/run-stage2-package-native-candidate.py:1257-1265 | the call of supervision always meets its precondition: a missing helper descriptor or PID 1 comes with an error |
| `Launcher.RunCandidate` | scripts/run-stage2-package-native-candidate.py:1170-1289 | the child run as loops computes the specified outcome |
| `Launcher.Run` | scripts/run-stage2-package-native-candidate.py:1519-1623 | a result is returned exactly when nothing failed on the way and the child run, if any, succeeded with that payload; the work error is the preparation error, else the child's, else the missing result; the cleanup list is the child's and then the outer steps'; retained root and cache are touched exactly if held and either no helper ran or its absence is proved |
| `LauncherExact.OuterMeans` | scripts/run-stage2-package-native-candidate.py:1594-1623 | which errors the outer steps add: a failed cleanup of what is held and may be touched, its suppression, or residue |
| `LauncherExact.GateAnswered` | scripts/run-stage2-package-native-candidate.py:1215-1258 | the launch gate ends with exactly the error of its first failing step, from a table of its steps |
| `LauncherExact.ChildErrorExactly` | scripts/run-stage2-package-native-candidate.py:1201-1270 | the error of a child run is that of the launch, else of the closes before the gate, else of the gate, else of supervision |
| `LauncherExact.ChildListed` | scripts/run-stage2-package-native-candidate.py:1202-1288 | the cleanup list of a child run: parent closes, gate, supervision, leftover closes and the subreaper, each exactly what failed |
| `Launcher.ChildSettled` | scripts/run-stage2-package-native-candidate.py:1170-1289 | a child run is settled exactly when the absence of its helper is proved: nothing escaped, no close failed of a descriptor that the parent holds or that is left over at the end, the launch gate is certain, supervision wound up, and PID 1 is accounted for or a reached poll failed; a close that fails inside supervision is reported and leaves the run settled |
| `Launcher.RunRightsClosedOnce` | scripts/run-stage2-package-native-candidate.py:522-1289 | over a whole child run, gate and supervision together, every right is closed exactly once, and every failed close is reported exactly when no reached pass loses one |
| `Launcher.RunAndRecord` | scripts/run-stage2-package-native-candidate.py:1584-1593 | what the child run adds to the aggregate: its error if there was none, its cleanup errors appended, its result; settled exactly when the roots may be touched |
| `Launcher.Tally.Work` | scripts/run-stage2-package-native-candidate.py:166-168 | the first work error stays |
| `Launcher.Tally.CleanupAll` | scripts/run-stage2-package-native-candidate.py:170-171 | cleanup errors are appended in order |
| `Evidence.FaultExact` | scripts/run-stage2-phase-a-candidate.py:1230-1329 | a build's evidence is spoiled exactly when a clock or counter reading failed or the cleanups claim more than was read for the whole; the bounds checked while adding up never decide |
| `Evidence.EvidenceConserved` | scripts/run-stage2-phase-a-candidate.py:1278-1345 | counters of work and of cleanups add up to what was read for the build, and the recorded times to its duration |
| `Observer.SummaryValid` | scripts/run-stage2-phase-a-candidate.py:1168-1178 | whatever the clocks and counters answer, recorded times and counters are within the validator's bounds |
| `Observer.Record.Cleanups` | scripts/run-stage2-phase-a-candidate.py:1237-1292 | each outermost cleanup is charged by its own clock and counters, and the first fault poisons both rows |
| `Observer.Record.CandidateBuild` | scripts/run-stage2-phase-a-candidate.py:1202-1352 | one build leaves a work row and a cleanup row told by its own clocks, counters and exceptions: status, reason, elapsed milliseconds and counters of each; other rows are unchanged, and it completes exactly when no step failed |
| `Observer.RowsTold` | scripts/run-stage2-phase-a-candidate.py:1202-1352 | for every answer of clocks, counters and build, the rows computed are those told by the readings |
| `ObserverRows.CostExactly` | scripts/run-stage2-phase-a-candidate.py:1237-1292 | an outermost cleanup is charged exactly when every reading came within its bounds and it took no longer than its span, and then with the time elapsed and the counters read |
| `ObserverExact.RowsExactly` | scripts/run-stage2-phase-a-candidate.py:1463-1542 | every row of the final record is told by the readings of its own phase: what came before it decides only whether it was reached |
| `ObserverExact.StagesExactly` | scripts/run-stage2-phase-a-candidate.py:1545-1608 | setup, both stages and the asset count of the final record, and when a whole observation completes |
| `Observer.Record.TimedPhase` | scripts/run-stage2-phase-a-candidate.py:1355-1389 | a timed check's row is poisoned exactly when a reading around it failed; else it holds the result, the elapsed time and the counters read, and the call completes exactly on success |
| `Observer.Record.Candidates` | scripts/run-stage2-phase-a-candidate.py:1463-1542 | the two builds and four checks leave exactly the specified rows |
| `Observer.Record.Observe` | scripts/run-stage2-phase-a-candidate.py:1545-1608 | a whole observation leaves exactly the specified rows, setup, stages and asset count |
| `ObserverClaims.VectorAllowed` | scripts/run-stage2-phase-a-candidate.py:1972-1995 | the status vector of a run is in the allowed set exactly when the run is orderly, and settlement succeeds exactly when a rootfs value is returned |
| `ObserverClaims.PhaseGraphExact` | scripts/run-stage2-phase-a-candidate.py:2001-2028 | the phase graph validates exactly when the run is orderly: no clock or counter fault, a known work outcome, and not two successful outermost cleanups |
| `ObserverClaims.ReportAgreement` | scripts/run-stage2-phase-a-candidate.py:2059-2086 | with any recovery row merged, the report validator accepts the observer's record exactly when phases and stages are orderly and the recovery did not fail after a foreign exception before the first stage |
| `ObserverClaims.FailedRecoveryRefused` | scripts/run-stage2-phase-a-candidate.py:2070-2084 | the input: an orderly run accepted as it is and refused once its failed recovery is merged |
| `ObserverClaims.RenderAgreement` | scripts/run-stage2-phase-a-candidate.py:2134-2256 | what rendering accepts, for every run and recovery attempt: the orderly ones under the same condition, and those disorderly ones that never got as far as materialising, with their phases emptied |
| `ObserverClaims.OrderlyIsAllowed` | scripts/run-stage2-phase-a-candidate.py:1972-1995 | every orderly vector is one of the enumerated patterns |
| `ObserverClaims.AllowedIsOrderly` | scripts/run-stage2-phase-a-candidate.py:1972-1995 | every enumerated pattern is orderly |
| `Journal.AppendExact` | scripts/run-stage2-phase-a-candidate.py:293-311 | appending to an accepted journal extends its parse by exactly the new record if and only if the text stays within its bound |
| `Journal.LineBack` | scripts/run-stage2-phase-a-candidate.py:293-296 | a record's own line is read back at its place in the chain |
| `Journal.LastDigestDecides` | scripts/run-stage2-phase-a-candidate.py:299-311 | under a collision-free digest, accepted journals with one length and last digest agree in every record |
| `Journal.JournalChained` | scripts/run-stage2-phase-a-candidate.py:299-311 | an accepted journal is a chain: numbers, previous digests and own digests all fit |
| `Journal.BooleanNumber` | scripts/run-stage2-phase-a-candidate.py:305-308 | the first two records may be numbered `false` and `true` and are accepted with the same digests |
| `Journal.SameExactly` | scripts/run-stage2-phase-a-candidate.py:299-311 | under a collision-free digest, journals with one length and last digest have the same content exactly when their first two records are numbered alike, as numbers or as booleans |
| `Journal.WriteExact` | scripts/run-stage2-phase-a-candidate.py:426-446 | one call of the appender, cut off after any number of bytes: afterwards the journal parses to the same records, to one more, or not at all, and which is decided by what was written |
| `Journal.AppendsReadable` | scripts/run-stage2-phase-a-candidate.py:426-446 | over any run of appends the journal stays readable if and only if no append leaves part of a line or exceeds the size bound |
| `Journal.File.Append` | scripts/run-stage2-phase-a-candidate.py:426-446 | the call succeeds exactly when the line is written whole and fits; otherwise what was written stays in the file |
| `JournalExact.AcceptedExactly` | scripts/run-stage2-phase-a-candidate.py:299-311 | a text is accepted with given records exactly when it is at most 512 KiB, ends in LF, and its lines are these records one by one: five members each, numbered by place, chained from 64 zeros, rightly signed, the first of kind genesis |
| `JournalExact.LinesOf` | scripts/run-stage2-phase-a-candidate.py:303 | a text put together from lines ended by LF, CR or CR LF is split into these lines |
| `JournalExact.EndsOf` | scripts/run-stage2-phase-a-candidate.py:303 | every text that ends in LF is put together so |
| `JournalExact.NextExactly` | scripts/run-stage2-phase-a-candidate.py:293-296 | the record an append makes: next number, last digest, kind and body as given, its own digest |
| `JournalExact.AppendableExactly` | scripts/run-stage2-phase-a-candidate.py:426-428 | an append gets as far as writing exactly for a kind of 1 to 64 lower-case letters, digits and hyphens, a dictionary, and an accepted journal |
| `Assets.Publisher.FreezePartial` | scripts/run-stage2-phase-a-candidate.py:812-841 | the frozen record is journaled exactly when the generation was proved and its line was written whole, the dictionary learns of it exactly when no step fails, and the journal stays readable exactly when that line is not cut short or too long |
| `Assets.Publisher.Publish` | scripts/run-stage2-phase-a-candidate.py:844-881 | which names exist and what the dictionary says after any fault; a completed publication leaves the final name alone, journaled |
| `Assets.Publisher.CleanupFailed` | scripts/run-stage2-phase-a-candidate.py:884-910 | a success leaves neither name, a preserved outcome unlinks nothing, and the branch for a journaled asset is never taken |
| `Assets.Publisher.Download` | scripts/run-stage2-phase-a-candidate.py:913-998 | whatever step fails, before or after its effect: the journal grew by a prefix of the script and stays readable exactly when no reached append spoils it, the writer is closed at most once, and result, outcome and both names are exactly what the faults decide; an unreadable journal stops the download before anything happens |
| `Assets.PartialUnrecorded` | scripts/run-stage2-phase-a-candidate.py:930-998 | a partial file stays behind `not-required` exactly if its creation raised after the effect, closing the connection raised before it was unlinked, or it was frozen, not known to be linked, and could not be reopened |
| `Assets.FinalUnrecorded` | scripts/run-stage2-phase-a-candidate.py:930-998 | a final name stands behind `not-required` without a normal return exactly if closing the connection raised, or the link raised after its effect and the partial could not be reopened |
| `AssetsExact.OrderExactly` | scripts/run-stage2-phase-a-candidate.py:812-975 | when the partial file is made, each record appended, the final name linked and the partial one unlinked, and when a download returns: each exactly when a numbered beginning of its steps went well |
| `AssetsExact.OutcomeExactly` | scripts/run-stage2-phase-a-candidate.py:884-975 | the outcome recorded, by how far the download went well |
| `AssetsExact.WithdrawalExactly` | scripts/run-stage2-phase-a-candidate.py:884-915 | outcome and partial name of a download that froze its file and knows of no link |
| `AssetsExact.RecordsAccepted` | scripts/run-stage2-phase-a-candidate.py:1672-1695 | the journal reader accepts exactly the records each of which comes after the one it builds on, once, under its own name, and with the frozen policy |
| `AssetsExact.AdmittedExactly` | scripts/run-stage2-phase-a-candidate.py:1698-1735 | later cleanup admits a directory exactly when the journal's records account for every name in it and for every frozen asset |
| `Assets.OutcomeTells` | scripts/run-stage2-phase-a-candidate.py:884-910 | success means neither name remains, preserved that the partial does, a normal return exactly the final name |
| `AssetsCleanup.ScriptAccepted` | scripts/run-stage2-phase-a-candidate.py:1672-1695 | the journal reader accepts a download cut off anywhere if and only if a recorded generation has the policy and positive counts |
| `AssetsCleanup.DownloadAll` | scripts/run-stage2-phase-a-candidate.py:1572-1578 | over all assets every outcome is honest; the journal is accepted afterwards if and only if it could be read before, no reached append leaves part of a line or a journal too long, and every recorded generation has positive counts; success exactly when every download completes |
| `AssetsCleanup.CleanupDirectory` | scripts/run-stage2-phase-a-candidate.py:1714-1739 | no unlink before every present name is verified; a directory that is not admitted is not touched; success exactly when every check passes, and then nothing remains |
| `AssetsCleanup.CleanupAssets` | scripts/run-stage2-phase-a-candidate.py:1698-1743 | success exactly when the journal is accepted and the directory is absent with nothing missing, or is the recorded one, is emptied and removed; it is removed only when emptied; without an accepted journal, or in another directory, nothing is touched |
| `AssetsJournal.AppendRefines` | scripts/run-stage2-phase-a-candidate.py:426-446 | the publisher's append says of records and readability what the bytes of the journal file say, for a line cut off anywhere and a file of any length |
| `AssetsJournal.SpoiledDownload` | scripts/run-stage2-phase-a-candidate.py:812-881 | a concrete download whose frozen or final record is cut short or too long: the file stays and the journal can no longer be read |
| `AssetsCleanup.LinkedIsRefused` | scripts/run-stage2-phase-a-candidate.py:1711-1722 | an asset left under both names is refused |
| `AssetsCleanup.SettledIsAdmitted` | scripts/run-stage2-phase-a-candidate.py:1711-1722 | finished and successfully withdrawn assets are admitted |
| `Census.CountersDecide` | scripts/stage2-native-settlement.py:259-298 | for any K the bounded counters accept exactly when the specification over the whole history of passes holds |
| `Census.StableIsFull` | scripts/stage2-native-settlement.py:259-298 | acceptance means K complete passes at the end, each with every generation of the final census inspected clean, or K empty ones |
| `Census.Scan` | scripts/stage2-native-settlement.py:248-298 | the loop accepts at the first pass at which the history is stable, and at no other |
| `Inspections.SettlementSound` | scripts/stage2-native-settlement.py:186-233 | a clean settlement verdict means the process holds no reference to what is settled, the candidate marker being asked of all but the observer's lineage |
| `Inspections.AliasSound` | scripts/stage2-native-publication.py:178-236 | a clean alias verdict means the process has no writable alias |
| `Inspections.SettlementVerdictExact` | scripts/stage2-native-settlement.py:186-233 | an inspection refuses a process exactly when it was the listed one and hides something while still there or refers to a target; it is clean exactly when the process was there throughout, all was read and nothing refers to a target |
| `Inspections.AliasVerdictExact` | scripts/stage2-native-publication.py:178-236 | an alias inspection refuses exactly for a shared mapping or a writable descriptor of the file, and is clean exactly when the process was there throughout and all that was read is harmless |
| `Inspections.SettlementScan` | scripts/stage2-native-settlement.py:248-298 | the scan accepts at a pass exactly when the last three passes were stable there, at no earlier pass were they, and no pass so far met a refusal |
| `Inspections.AliasScan` | scripts/stage2-native-publication.py:239-267 | likewise with two passes, and only if the file itself did not change meanwhile |
| `Inspections.UncleanNeverAccepted` | scripts/stage2-native-publication.py:239-267 | a listed generation that every inspection rejects is never accepted |
| `Diff.ReadPatch` | scripts/check-stage2-retained-lines.py:425-452 | the line loop computes the scan of the whole patch |
| `Patches.GrossAddedExact` | scripts/check-stage2-retained-lines.py:405-452 | for every well-formed multi-file patch, whatever its content lines look like, the result is the byte total of the added lines with LF unless marked, provided the line count agrees with numstat, and a refusal otherwise |
| `Patches.HeaderRead` | scripts/check-stage2-retained-lines.py:446-449 | a printed hunk header is read back as its two counts |
| `Patches.PatchScanned` | scripts/check-stage2-retained-lines.py:425-452 | the scan of a printed patch ends outside every hunk with the patch's bytes and lines |
| `GitTree.ReadRowsExact` | scripts/prepare-stage2-fixed-source.py:423-441 | rows and bytes determine each other, on any framed rows and any bytes |
| `GitTree.StrictExact` | scripts/prepare-stage2-fixed-source.py:418-441 | the strict reader accepts exactly the encodings of strict trees and returns their rows |
| `GitTree.IntegrityExact` | scripts/prepare-stage2-fixed-source.py:444-467 | the integrity reader accepts exactly the encodings of integrity trees and keeps modes and ids |
| `GitTree.StrictWithinIntegrity` | scripts/prepare-stage2-fixed-source.py:418-467 | what the strict reader accepts the integrity reader accepts with the same modes and ids |
| `GitTree.OrderKeysLeaveNamesFree` | scripts/prepare-stage2-fixed-source.py:430-437 | increasing order keys alone let a file and a tree share a name |
| `GitTree.TreeEntries` | scripts/prepare-stage2-fixed-source.py:418-441 | the strict loop computes the strict reading |
| `GitTree.IntegrityTreeEntries` | scripts/prepare-stage2-fixed-source.py:444-467 | the integrity loop computes the integrity reading |
| `ObjectWalk.Reader.Object` | scripts/prepare-stage2-fixed-source.py:377-398 | a returned object is cached, genuine and within bounds; totals are the cache's; inside a good world the call succeeds |
| `ObjectWalk.Walk.VisitTree` | scripts/prepare-stage2-fixed-source.py:479-489 | the memoised visit settles every tree it leaves, finishes subtrees first, terminates on any graph, and succeeds in a good world |
| `ObjectWalk.Walk.Verify` | scripts/prepare-stage2-fixed-source.py:470-492 | on success every tree at the end of any chain from the root, and every blob it names, is cached and hash-checked, and no chain comes back to the root; it succeeds whenever the root lies in a good world |
| `ObjectWalk.ReachableVerified` | scripts/prepare-stage2-fixed-source.py:470-492 | from a settled set: every tree at the end of any chain from the root, and every blob it names, was fetched and hash-checked |
| `ObjectWalk.NoCycle` | scripts/prepare-stage2-fixed-source.py:479-482 | no chain of tree entries from a finished tree comes back to its start |
| `SourceVisit.Planner.Visit` | scripts/prepare-stage2-fixed-source.py:516-536 | below its prefix the visit lists exactly what path lookup through the stored trees finds, and changes nothing else; after the graph check it succeeds, fetching nothing new, on every tree of a source whose entries and totals fit |
| `SourcePlan.TreeListed` | scripts/prepare-stage2-fixed-source.py:524-527 | listing a subtree completes the listing for its entry |
| `SourcePlan.FileListed` | scripts/prepare-stage2-fixed-source.py:528-536 | listing a file completes the listing for its entry |
| `SourceLayout.Directories` | scripts/prepare-stage2-fixed-source.py:495-501 | the set of directories some file path passes through |
| `SourceLayout.DerivedWithin` | scripts/prepare-stage2-fixed-source.py:543-546 | every directory a file passes through was listed as a tree |
| `SourceLayout.Arrange` | scripts/prepare-stage2-fixed-source.py:538-547 | files strictly sorted and distinct, directories equal to the strict prefixes and shallow first; refused exactly when a tree has no file below it or there are too many entries |
| `SourcePlanning.ObjectPlan` | scripts/prepare-stage2-fixed-source.py:504-547 | an accepted plan is the stored tree, each file and directory what lookup finds, each once, with the sentinel, made of the verified graph alone; a source whose graph check passed has a plan if and only if what lookup finds fits its bounds, no tree is without a file, and there are not too many entries |
| `SourceExact.PlannedExactly` | scripts/prepare-stage2-fixed-source.py:504-547 | a source has a plan exactly when what lookup finds in it fits: safe paths, readable trees of depth below 64, files of at most 16 MiB, no tree without a file, and totals of entries, objects and bytes |
| `SourceExact.PlanSafe` | scripts/prepare-stage2-fixed-source.py:504-547 | every file of a plan but the sentinel is at a safe path, executable exactly for mode 100755; so is every directory; there are at most 10,000 in all |
| `SourceExact.PathExactly` | scripts/prepare-stage2-fixed-source.py:401-417 | the path check on bytes, said of components: at most 64 of at most 255 bytes, no control characters, no reserved name, outside the state directory |
| `SourceExact.TreeExactly` | scripts/prepare-stage2-fixed-source.py:418-441 | the strict reader accepts exactly the bytes of source rows in order, at most 10,000 and 32 MiB of them |
| `SourceExact.WorldExactly` | scripts/prepare-stage2-fixed-source.py:377-399 | the bounds of the graph check: one MiB for a commit, 32 MiB for other objects, 20,000 objects and 256 MiB in all |
| `SourcePlanning.VisitDecides` | scripts/prepare-stage2-fixed-source.py:543-547 | what the end of the planner asks of files and directories is the condition on the stored tree, in both directions |
| `SourcePlanning.OneListing` | scripts/prepare-stage2-fixed-source.py:516-536 | a stored tree that fits has one listing |
| `SourcePlanning.EntriesCounted` | scripts/prepare-stage2-fixed-source.py:516-547 | files and directories together are as many as the entries listed |
| `SourceFits.LeadsOn` | scripts/prepare-stage2-fixed-source.py:516-527 | an entry of a tree the visit has reached is what lookup finds from the root |
| `SourceFits.AheadOn` | scripts/prepare-stage2-fixed-source.py:516-527 | below a finished tree every subtree stands in an earlier layer than all its ancestors, so the visit meets no cycle |
| `SourceLayout.ReservedApart` | scripts/prepare-stage2-fixed-source.py:413-414 | no stored path is the sentinel's or the manifest's |
| `SourceLayout.FilesAreNoDirectories` | scripts/prepare-stage2-fixed-source.py:504-547 | no path is both a file and a directory |
| `SourceLayout.AncestorsEarlier` | scripts/prepare-stage2-fixed-source.py:547 | in the plan's order every ancestor of a directory stands before it |
| `SourceLayout.OpenRelative` | scripts/prepare-stage2-fixed-source.py:745-764 | the walk opens exactly when every ancestor has an identity |
| `SourceLayout.Materialize` | scripts/prepare-stage2-fixed-source.py:881-900 | creation never misses a parent's identity; it completes exactly when the system refuses nothing |
| `JsonStrings.StringBack` | scripts/release-image-set-assertion.ts:42-44 | a printed string is read back, from either language's escapes |
| `JsonClaims.ValueBack` | scripts/release-image-set-assertion.ts:34-45 | a canonical text is read back as its value in key order, wherever it stands |
| `JsonClaims.ParseCanonical` | scripts/release-image-set-assertion.ts:34-49 | reading a canonical text gives the value up to key order, under either rule about repeated keys |
| `JsonClaims.CanonicalExact` | scripts/release-image-set-assertion.ts:34-45 | two values share canonical text exactly when they are the same up to key order |
| `JsonText.CharacterExactly` | scripts/release-image-set-assertion.ts:34-45 | how each character is printed: short escapes, lower-case Unicode escapes, surrogate pairs for Python, itself otherwise |
| `JsonText.NumberExactly` | scripts/release-image-set-assertion.ts:34-45 | a number is printed as its numeral, without leading zeros and with a sign only below zero |
| `JsonText.ListText` | scripts/release-image-set-assertion.ts:34-36 | a list is its items' texts between brackets, joined by commas |
| `JsonText.ObjectText` | scripts/release-image-set-assertion.ts:36-42 | an object is its members in key order, joined by commas without blanks, whatever order they were given in |
| `Order.OrderExactly` | scripts/release-image-set-assertion.ts:23-32 | one text comes before another exactly when it is the shorter beginning, or smaller where they first differ |
| `JsonClaims.SameNormal` | scripts/release-image-set-assertion.ts:36-40 | the same values have one normal form |
| `Utf8.DecodeEncode` | scripts/release-image-set-assertion.ts:47-49 | UTF-8 encoding is undone by the strict decoder |
| `Assertion.ClassifyCanonical` | scripts/release-image-set-assertion.ts:243-263 | canonical bytes within the bound are judged on the value's semantics alone |
| `Assertion.FinalizedIsValid` | scripts/release-image-set-assertion.ts:238-263 | finalising an accepted assertion within the bound classifies as valid |
| `Assertion.ClassifyExact` | scripts/release-image-set-assertion.ts:243-263 | the valid records are exactly the finalised ones within the bound |
| `Assertion.FinalizedApart` | scripts/release-image-set-assertion.ts:238-241 | finalised records have equal bytes exactly when they are the same up to key order |
| `Timestamp.AcceptedExactly` | scripts/release-local-preflight.ts:133-173 | accepted are exactly the texts of the profile that name a real Gregorian date and time in a year from 100 on |
| `Timestamp.EarlyYearRefused` | scripts/release-local-preflight.ts:156-168 | a real date in a year below 100 does not come back |
| `Timestamp.NanosecondOrder` | scripts/release-local-preflight.ts:170-173 | nanoseconds order any two accepted texts as their fields do, and are equal exactly for equal fields |
| `Timestamp.InspectionExact` | scripts/release-local-preflight.ts:203-232 | a database is accepted exactly when updated not after the evaluation, before it expires and not after its download, and outliving a minimum validity time, which forces it to be current |
| `Timestamp.DateBack` | scripts/release-local-preflight.ts:155-163 | a real date comes back from its day number |
| `LedgerClaims.OrderFree` | scripts/release-local-preflight.ts:346-526 | permuting results, packages and vulnerabilities changes neither acceptance nor findings, counts, categories or source packages |
| `LedgerClaims.Conserved` | scripts/release-local-preflight.ts:459-526 | severity, fixedness, class, category and source-package counts each sum to the findings, and the gate is HIGH plus CRITICAL |
| `LedgerClaims.LedgerFaithful` | scripts/release-local-preflight.ts:377-448 | one row per reported finding, and the gate counts the reported HIGH and CRITICAL ones; the counts, lists and members are told from the report in the rows of `LedgerReport` |
| `LedgerReport.ReportExactly` | scripts/release-local-preflight.ts:364-449 | a report is read exactly within its bounds: text lengths, 1024 results, 500,000 packages, 250,000 findings, and an OS result |
| `LedgerReport.SourceExactly` | scripts/release-local-preflight.ts:265-296 | the source package of a finding, told from the packages of its result: named by the scanner, the binary package itself, or the language package |
| `LedgerReport.CountsTold` | scripts/release-local-preflight.ts:457-516 | severity, fixedness and class counts are those of the reported findings |
| `LedgerReport.GateTold` | scripts/release-local-preflight.ts:523-526 | the gate is the number of findings reported HIGH plus those reported CRITICAL |
| `LedgerReport.CategoriesTold` | scripts/release-local-preflight.ts:464-516 | a category is listed with a number exactly when that many findings, and at least one, were reported in it |
| `LedgerReport.SourcesTold` | scripts/release-local-preflight.ts:464-522 | likewise for source packages |
| `LedgerReport.VulnerabilitiesTold` | scripts/release-local-preflight.ts:464-522 | a source row lists, in ascending order, exactly the vulnerabilities reported against it |
| `LedgerReport.IdentifiersTold` | scripts/release-local-preflight.ts:464-516 | the numbers of vulnerability ids and of advisories are those of the report |
| `LedgerReport.RowShows` | scripts/release-local-preflight.ts:418-444 | the members of a written row that say where a finding was reported and what it is |
| `LedgerReport.RowGrades` | scripts/release-local-preflight.ts:418-444 | its grade, fixedness, status and link |
| `LedgerReport.RowRecords` | scripts/release-local-preflight.ts:418-444 | its vendors, data source, source package and key digest |
| `LedgerReport.IdentityShows` | scripts/release-local-preflight.ts:323-336 | the members the key digest is taken of |
| `LedgerReport.FindingsTold` | scripts/release-local-preflight.ts:418-456 | each written row stands as often in the ledger as the report has findings written so |
| `LedgerLists.CategoriesExact` | scripts/release-local-preflight.ts:489-515 | the ledger lists a category with a count exactly when that many findings, and at least one, have its fields, and lists none twice |
| `LedgerLists.SourcesExact` | scripts/release-local-preflight.ts:478-487 | the ledger lists a source package exactly when it has findings, once, with their number and their vulnerabilities, each once in code-point order |
| `LedgerLists.AdvisoriesExact` | scripts/release-local-preflight.ts:470-478 | the advisory count is the number of pairs of source package and vulnerability, the other that of vulnerabilities |
| `LedgerClaims.Collect` | scripts/release-local-preflight.ts:470-516 | the counting loop computes the counts, groups and sets of the sorted rows |
| `LedgerClaims.Summarise` | scripts/release-local-preflight.ts:459-526 | the ledger made from the loop's totals |
| `LedgerGroups.CategoryKeyExact` | scripts/release-local-preflight.ts:489-500 | the NUL-joined category key is injective on the grouped fields, absent fields included |
| `LedgerGroups.OriginKeyExact` | scripts/release-local-preflight.ts:477 | the NUL-joined source key is injective on the grouped fields |
| `LedgerGroups.AdvisoryKeyExact` | scripts/release-local-preflight.ts:478 | the advisory key is injective on source package and vulnerability |
| `LedgerGroups.GroupsExact` | scripts/release-local-preflight.ts:477-515 | insertion into the map gathers exactly the rows of each key, each row once |
| `LedgerOrder.InventorySame` | scripts/release-local-preflight.ts:390-406 | which of two agreeing packages comes first does not matter |
| `LedgerOrder.RowsShuffled` | scripts/release-local-preflight.ts:377-445 | shuffled reports have the same rows |
| `LedgerOrder.ReportShuffled` | scripts/release-local-preflight.ts:370-449 | a shuffled report is accepted as the report is |
| `LedgerJson.TextDetermines` | scripts/release-local-preflight.ts:419-444 | rows with one canonical text agree in everything that is counted or grouped |
| `LedgerBook.SortedKeys` | scripts/release-local-preflight.ts:451-456 | the same rows in any order are sorted to the same keys |
| `OptMode.Custody.Normalize` | scripts/stage2-hosted-opt-mode.py:186-216 | safety is kept under any fault; an existing receipt is never replaced; a call completes exactly for positive ids, an accepted mode, no receipt and no fault, and then leaves the closed mode and a receipt of the mode found |
| `OptMode.Custody.WriteState` | scripts/stage2-hosted-opt-mode.py:94-117 | exclusive creation |
| `OptMode.Custody.Restore` | scripts/stage2-hosted-opt-mode.py:219-266 | a call completes exactly when the receipt can be restored and no step fails, and then leaves the original mode and no receipt; safety is kept exactly unless the unlink raised after its effect and the mode was put back |
| `OptInterleaving.SafeExactly` | scripts/stage2-hosted-opt-mode.py:94-266 | over every interleaving of the steps of any number of normalizes and restores, with a fault at any step: safe all along exactly when no step changes the mode without a receipt, records a mode not in force, or removes a receipt whose mode is not in force |
| `OptInterleaving.RunSound` | scripts/stage2-hosted-opt-mode.py:186-266 | when no restore overlaps another call, the final state is safe exactly when no handler put the closed mode back after an unlink it had not noticed; such a loss is never made good |
| `OptInterleaving.NeverRecalled` | scripts/stage2-hosted-opt-mode.py:186-266 | once nothing remembers the original mode, no later step of any process brings it back |
| `OptInterleaving.RestoreCompletes` | scripts/stage2-hosted-opt-mode.py:240-252 | a restore that overlaps no other call and unlinks leaves the original mode and no receipt |
| `OptInterleaving.OriginalKept` | scripts/stage2-hosted-opt-mode.py:186-266 | the same from a directory without receipt |
| `OptInterleaving.ReceiptStays` | scripts/stage2-hosted-opt-mode.py:94-117 | over any run of steps other than unlinking, a receipt stays as it is: no normalize replaces it |
| `OptRuns.RestoreIsRun` | scripts/stage2-hosted-opt-mode.py:219-266 | the steps of a restore, with nothing between them, leave what the call leaves, under every fault |
| `OptRuns.NormalizeIsRun` | scripts/stage2-hosted-opt-mode.py:186-216 | the same for a normalize |
| `OptMode.UnlinkUnnoticed` | scripts/stage2-hosted-opt-mode.py:247-259 | a concrete restore that loses the original mode |
| `OptExact.PositiveExactly` | scripts/stage2-hosted-opt-mode.py:187-189 | a run or attempt id is accepted exactly when it is the numeral of a positive number, of at most 32 digits |
| `OptExact.RestorableExactly` | scripts/stage2-hosted-opt-mode.py:219-240 | a receipt is restored exactly for its own run and attempt, a recorded mode of 0777 or 0755, and the directory at 0755 or at the recorded mode |
| `OptExact.UndisturbedExactly` | scripts/stage2-hosted-opt-mode.py:186-266 | what each call leaves when no step fails |
| `OptExact.ThereAndBack` | scripts/stage2-hosted-opt-mode.py:186-266 | normalize and then restore leave the mode found and no receipt |
| `OptRuns.OverlapLosesOriginal` | scripts/stage2-hosted-opt-mode.py:195-260 | a run: a restore inside a normalize, both successful, loses the original mode |
| `OptRuns.RestoresLoseOriginal` | scripts/stage2-hosted-opt-mode.py:240-262 | a run: of two overlapping restores the second finds the receipt gone and puts the closed mode back |
| `OptRuns.StaleLookLosesOriginal` | scripts/stage2-hosted-opt-mode.py:191-200 | a run: a normalize that looked before a restore records the closed mode as the original |
| `OptRuns.WrongReceiptUnlinked` | scripts/stage2-hosted-opt-mode.py:248-252 | a run: a restore unlinks the receipt of a later normalize |
| `OptRuns.OverlapMayRecover` | scripts/stage2-hosted-opt-mode.py:186-266 | a run: a loss made good by chance, so that overlapping calls can be judged only step by step |
| `Aggregate.AggregateCycles` | scripts/stage2-formal-local-qualification.py:612-658 | acceptance is exactly: seven uniform cycles with pairwise distinct identities, operations apart from rootfs, client keys apart from host keys, six readiness routes that moved on, twenty-one measurements |
| `Aggregate.ThirteenFacts` | scripts/stage2-formal-local-qualification.py:626-634 | with distinct boots the thirteen observations before and after SSH are distinct exactly when no cycle repeats its own |
| `Aggregate.UnionSize` | scripts/stage2-formal-local-qualification.py:655-656 | a union of fourteen means two disjoint columns of seven |
| `Aggregate.UnseenExact` | scripts/stage2-formal-local-qualification.py:622-633 | with a new boot only a repeated own observation can fail the checks in processing order |
| `ArtifactCustody.CustodyFromApi` | scripts/stage2-formal-local-qualification.py:428-469 | the inventory is accepted exactly when complete, and then cycles and artifacts correspond one to one |
| `ArtifactCustody.PrefixApart` | scripts/stage2-formal-local-qualification.py:419 | a name carries the prefix of at most one cycle |
| `ArtifactCustody.NamedExactly` | scripts/stage2-formal-local-qualification.py:419-427 | an artifact name belongs to a cycle exactly when it is the family, the cycle, both commits, the run and a digest of 64 hexadecimal digits |
| `ArtifactCustody.CompleteCounts` | scripts/stage2-formal-local-qualification.py:455-458 | in a complete inventory each cycle has exactly one artifact |
| `CustodyRecord.ValidateExact` | scripts/stage2-formal-local-qualification.py:470-491 | the validator accepts exactly the canonical texts of good custody within its bound and returns their rows |
| `CustodyRecord.ExtractedRevalidates` | scripts/stage2-formal-local-qualification.py:428-491 | the record of an extracted custody revalidates if and only if it fits the bound |
| `CustodyLength.TextLength` | scripts/stage2-formal-local-qualification.py:461-469 | the record's length: a constant, eight times the run id's and the digits of the artifact ids |
| `CustodyLength.RevalidatesExactly` | scripts/stage2-formal-local-qualification.py:428-491 | a custody revalidates exactly when eight times the run id's length and the digits of the artifact ids stay within 13980 |
| `CustodyLength.RunLengthDecides` | scripts/stage2-formal-local-qualification.py:188-190 | by the run id alone: up to 1733 digits every custody revalidates, from 1747 on none does |
| `CustodyLength.LongRunRefused` | scripts/stage2-formal-local-qualification.py:188-190 | a run id that `int` still takes and a complete inventory whose record is refused |
| `Hcl.CheckStructure` | scripts/check-feasibility-source.ts:66-104 | the check passes exactly when the text ends outside strings and block comments and its delimiters form a balanced word |
| `Hcl.RunExact` | scripts/check-feasibility-source.ts:99-102 | the stack automaton accepts exactly the balanced words of the three-bracket grammar |

## Left out

- System calls, mounts, namespaces, `/proc` formats, HTTP and TLS, Docker and Git subprocesses: only their results and failures appear, as parameters.
- SHA-1 and SHA-256: parameters; collision freedom is asked only of the journal's digest, a length of 64 only of the ledger's.
- Clock readings that follow each other directly in the supervisor, as in one call of `work` or before its loop, are one reading.
- Errors of the operating system inside process inspections other than vanished and unreadable entries.
- Untracked files charged after the patch (`check-stage2-retained-lines.py`, lines 453 to 459): sizes read from the file system.
- Extraction of the root tree id from commit bytes: the walk and the plan start from the id.
- Unicode decoding and normal form of Git paths: a parameter; the checks on bytes are modelled.
- Object ids and digests are kept as byte strings or given texts; their hexadecimal spelling is not modelled.
- JSON numbers are integers: fractions and exponents are refused by the model's reader, and integers beyond what a double holds exactly are outside it. Strings hold scalar values only, so an unpaired surrogate escape is refused.
- Lengths in `boundedString` count characters, not UTF-16 units.
- Schema checks and `assertImageSetAssertionSemantics`: a parameter that does not look at key order.
- Ledger status counts, report headers, scanner policy, tool pins and claims: formatting, or plain-object keys over arbitrary strings.
- The strict-JSON and version checks of the database metadata: only its timestamps are modelled.
- Receipts, grants, host closures and their validators in the qualification cycles: a cycle is given as what aggregation takes from them.
- The closing patterns of the HCL check (block keyword, trailing whitespace): regular expressions over the same text.
- `_product_test_linear_commits`, `_product_test_segment`, `_enforce_product_test_consumption`: comprehensions over Git output that would only add easy members.
- Literal pin checkers, licence and audit checks, report renderers, command-line parsing: no state and no hard property.
- `private-bytes.ts`: behaviour of the JavaScript object model.
- SupervisorClaims.RightsClosedOnce: a failed close may also be dropped, which the source does; `SupervisorReach.DroppedExactly` says when.
- SupervisorTiming.RoundsTimed: the last signals after the loop, which are not spaced, are outside it.
- Journal.SameExactly: a sequence number written as a decimal fraction, which Python also takes as equal, is refused by the model's JSON reader.
- CustodyLength.LongRunRefused: the limit of 4300 digits is the default of Python's `int`.
- ObjectWalk.Walk.Verify: success is promised for roots inside a closed set of good objects with ranks below the depth bound, which is what the memoised walk can tell; deeper paths through trees seen before are left to the plan's own visit.
- SourceVisit.Planner.Visit: success is characterised after the graph check, which `_object_plan` runs first; a visit without it may fail at any fetch.
- Journal.File.Append: the identity of the opened file and its directory is not modelled.
