# PowerTutor power estimator, modelled in Dafny

PowerTutor estimates the power each Android application draws. The loop in
`PowerEstimator.run` works in one-second passes. Each pass:

- computes the iteration to process;
- collects one reading per component (CPU, screen, radios, …) and per uid;
- credits the `ALL` readings to the total power;
- hands every reading to that component's history;
- updates the registry `uidAppIds`, which maps each uid to its application
  name, and logs an `associate` line when a name changes;
- appends one block of lines to the trace log;
- flushes the log every 30 iterations.

Query methods answer the user interface from the histories: component names,
the mask of components without per-uid data, history series, totals, runtime,
means and per-uid summaries.

The project has eight modules, one file each:

- `wrappers.dfy` (`Option`) and `constants.dfy` (the constants the estimator
  uses).
- `log_text.dfy`: the text of every log line. It holds Java's int-to-string
  rendering with its parser, and a parser for component lines, so the lines
  are proved to read back to what was written.
- `registry.dfy`: the uid registry update as a fold over the visited uids,
  ascending key listing, and the header's `associate` lines.
- `aggregation.dfy`: one pass as functions of its inputs. These give the next
  iteration, the power sums, the samples added to the histories, and the lines
  of the log block.
- `queries.dfy`: the read side. A history is seen only through `get`,
  `getTotal` and `getCount`. The file also holds the masked sums, the no-uid
  bit mask, column sums, maximum count, and Java's truncating division.
- `sequences.dfy`: small facts about concatenation and slicing that the
  proofs share.
- `estimator.dfy`: `class PowerEstimator`. Its fields are the estimator's
  state, plus the loop locals `iter`, `firstLogIteration` and `lastCurrent`.
  `Step` is one pass of the loop. The query methods loop the way the Java
  does. Every method is proved against the functions above.

The outside world is passed in as parameters:

- the elapsed time, in milliseconds;
- each component's data for the iteration, as uid, integer power and the
  component's extra log lines;
- the name resolver `SystemInfo.getAppId`, as `resolve`;
- `SystemInfo.getUidName`, as `uidName`;
- the battery, settings and clock values, as an `Environment`;
- the readers of the component histories.

The log stream is a sequence of lines (`log`) and a count of flushed lines
(`flushed`). When the log file could not be opened, `logOpen` is false.

## Behaviour of the code that the model keeps

- **Associate lines.** An `associate` line is also written when the
  previous name was `null` (line 278). This covers the first sighting of an
  application on any pass after the first logged one, and any pass after a
  resolution that gave `null`. `Registry.Announces` and
  `Registry.FoldAnnounces` state this rule.
- **Repeated `null` names.** A pass visits a uid once for each component
  that reports it (lines 259-266). When `getAppId` returns `null`, line
  276 stores that `null` and the next visit's check at line 278 sees it as
  "no name yet". So k reporting components give k identical
  `associate+<uid>+null` lines in one pass (`Registry.NullNameRepeats`). A
  resolved name is announced once per pass however often it is visited
  (`Registry.FoldCountsAnnouncement`).
- **Negative counts.** `getComponentHistory` with `ALL_COMPONENTS` and a
  negative count throws at the allocation `new int[count]` (line 571). The
  model answers `NegativeSize` for this case. A component id out of range
  answers `Null` (line 580).
- **Write failures.** A failed write only logs a warning (lines 281-283,
  442-444, 519-521), and the stream stays in use. A failure inside the
  body's single `try` (lines 381-444) skips the rest of that iteration's
  block, the end marker included. The model has no failing writes (see
  "Left out").

## Model

The table lists the members that state a property of the model, and the methods proved against the specification functions. The specification functions themselves have no row, whether or not they carry a size or shape `ensures` of their own. The lemmas in the table and the methods proved against them describe these functions. Among them:

- `Registry.Visit`, `Fold`, `Expected`, `Announces` and `CountAbout` (lines 266-286);
- `Registry.SortedKeys`, `AppFilter`, `AssociationsOf` and `HeaderAssociations` (lines 399-406 and 623);
- `Aggregation.TotalPower`, `Adds` and `DataUids` (lines 190-287);
- `Aggregation.CurrentLines`, `NextLastCurrent`, `BatteryLines`, `SettingsLines` and `EnvLines` (lines 329-367);
- `Aggregation.HeaderInfo`, `HeaderLines`, `EntryLog`, `EntriesLog`, `ComponentLog`, `ComponentsLog`, `BodyLines` and `IterationBlock` (lines 324-441);
- `LogText.NatToString` and `IntToString` (the decimal text of every number written);
- `Queries.NoUidMask` (lines 545-554), `Queries.Rows`, `AddRow` and `ColumnSums` (lines 570-578), and `Queries.ComponentHistory` (lines 565-582);
- `Queries.Totals`, `HistoryTotals`, `Runtime` and `Means` (lines 584-612);
- `Queries.MaskedSum` (lines 642-650), and `Queries.LatestValues`, `UidInfoOf` and `UidInfos` (lines 614-640).

| member | source | states |
|---|---|---|
| Aggregation.NextIteration | app/src/main/java/fabiogentile/powertutor/service/PowerEstimator.java:181 | the next iteration is above the previous one and at least the elapsed-time tick, and it is one of the two |
| Aggregation.SleepIsPositive | app/src/main/java/fabiogentile/powertutor/service/PowerEstimator.java:181-185 | the sleep until the end of the chosen iteration is always positive |
| Aggregation.IterationsIncrease | app/src/main/java/fabiogentile/powertutor/service/PowerEstimator.java:174-181 | over any run of passes the iterations strictly increase, so none is processed twice, and each is at least its pass's elapsed tick |
| Aggregation.PowerIsPartitioned | app/src/main/java/fabiogentile/powertutor/service/PowerEstimator.java:209-236 | every reading of a component goes either to the total (uid `ALL`) or to the per-uid sum, never both and never neither |
| Aggregation.TotalPowerAppend | app/src/main/java/fabiogentile/powertutor/service/PowerEstimator.java:190-236 | total power over a split list of components is the sum of the two parts' totals |
| Aggregation.AddsCarryAllPower | app/src/main/java/fabiogentile/powertutor/service/PowerEstimator.java:230-233 | the `ALL` samples handed to a history carry exactly the `ALL` power credited to the total |
| Aggregation.DataUidsAppend | app/src/main/java/fabiogentile/powertutor/service/PowerEstimator.java:259-267 | the uids visited by the registry update for a split list of components are the two parts' uids in order |
| Aggregation.MissingComponentIsSkipped | app/src/main/java/fabiogentile/powertutor/service/PowerEstimator.java:195-201 | a component without data adds no power, no history samples, no registry visits (lines 259-263) and no log lines (lines 418-420): the result is as if it were absent |
| Aggregation.ComponentsLogAppend | app/src/main/java/fabiogentile/powertutor/service/PowerEstimator.java:416-440 | the component lines of a split list of components are the two parts' lines in order |
| Aggregation.EntryLogReadsBack | app/src/main/java/fabiogentile/powertutor/service/PowerEstimator.java:429-436 | a reading without extra log lines gives one line, which parses back to its component, its uid (none for `ALL`) and its power |
| Aggregation.EntriesLogReadsBack | app/src/main/java/fabiogentile/powertutor/service/PowerEstimator.java:425-437 | when no reading carries extra log lines, a component's lines parse back, one for one and in order, to the readings that produced them |
| Aggregation.EntryLogLastReadsBack | app/src/main/java/fabiogentile/powertutor/service/PowerEstimator.java:429-436 | whatever extra lines a reading carries, its last line is its component line and parses back to the component, the uid (none for `ALL`) and the power |
| Aggregation.EnvLinesAvoidEndMarker | app/src/main/java/fabiogentile/powertutor/service/PowerEstimator.java:329-367 | no battery or settings line is the end-of-iteration marker |
| Aggregation.HeaderAvoidsEndMarker | app/src/main/java/fabiogentile/powertutor/service/PowerEstimator.java:385-405 | no header line is the end-of-iteration marker |
| Aggregation.ComponentsLogAvoidsEndMarker | app/src/main/java/fabiogentile/powertutor/service/PowerEstimator.java:416-440 | no component line is the end marker, given that no component's extra log lines contain it |
| Aggregation.BlockIsFramed | app/src/main/java/fabiogentile/powertutor/service/PowerEstimator.java:324-441 | provided no component's extra log lines (the `writeLogDataInfo` text) contain the end marker, an iteration block starts with `begin+<iter>`, ends with the end marker, and holds no other end marker, so blocks can be told apart in the sequence of logged lines |
| Aggregation.HeaderAtMostOnce | app/src/main/java/fabiogentile/powertutor/service/PowerEstimator.java:382-384 | over any run of passes, the header flag clears on the first pass that logs: with the log open the header can be written on the first pass only, and with it closed the flag never changes. `Step` clears the flag the same way |
| Aggregation.ComponentsLogReadsBack | app/src/main/java/fabiogentile/powertutor/service/PowerEstimator.java:416-440 | for component names without `+` and readings without extra log lines, all the component lines of a block parse back, in component order, to one record per reading of every component that had data |
| LogText.NatToStringRoundTrip | app/src/main/java/fabiogentile/powertutor/service/PowerEstimator.java:324 | a non-negative number's decimal text parses back to the number |
| LogText.IntToStringRoundTrip | app/src/main/java/fabiogentile/powertutor/service/PowerEstimator.java:324 | every integer's Java rendering parses back to the integer, negative numbers included |
| LogText.KeyedLineRoundTrip | app/src/main/java/fabiogentile/powertutor/service/PowerEstimator.java:385-390 | a `key+<int>` line reads back to its value |
| LogText.AssociateLineRoundTrip | app/src/main/java/fabiogentile/powertutor/service/PowerEstimator.java:280 | an `associate+<uid>+<name>` line reads back to its uid, whatever the name holds (including `null` or `+`) |
| LogText.AssociateLinesDiffer | app/src/main/java/fabiogentile/powertutor/service/PowerEstimator.java:404 | associate lines for different uids are different lines |
| LogText.AllLineRoundTrip | app/src/main/java/fabiogentile/powertutor/service/PowerEstimator.java:432 | for a component name without `+`, `name+ALL++<power>` parses back to the component, no uid, and the power |
| LogText.UidLineRoundTrip | app/src/main/java/fabiogentile/powertutor/service/PowerEstimator.java:434-435 | for a component name without `+`, `name+<uid>+<uidName>+<power>` parses back to the component, the uid and the power, even when the uid name holds `+` |
| Registry.FoldNames | app/src/main/java/fabiogentile/powertutor/service/PowerEstimator.java:266-277 | after the update every visited uid below `AID_APP` maps to null, every other visited uid to its newly resolved name, unvisited entries are unchanged, and no entry is removed |
| Registry.FoldSuppressed | app/src/main/java/fabiogentile/powertutor/service/PowerEstimator.java:278 | on the first log iteration, or without a log, the update writes no line |
| Registry.FoldLinesAreAssociations | app/src/main/java/fabiogentile/powertutor/service/PowerEstimator.java:278-280 | every line the update writes is `associate+uid+name` for a visited application uid and its resolved name |
| Registry.FoldAnnounces | app/src/main/java/fabiogentile/powertutor/service/PowerEstimator.java:274-284 | a line about a uid is written if and only if the uid was visited, it is an application, logging is not suppressed, and its name before this pass was null or differs from the resolved one |
| Registry.NoChangeNoAssociation | app/src/main/java/fabiogentile/powertutor/service/PowerEstimator.java:278 | when every application already has its resolved (non-null) name, nothing is written |
| Registry.FirstSightingThenRename | app/src/main/java/fabiogentile/powertutor/service/PowerEstimator.java:268-284 | a one-visit example: an application first seen on the first log iteration is recorded silently, and one later visit that resolves a different name writes exactly one associate line |
| Registry.VisitCount | app/src/main/java/fabiogentile/powertutor/service/PowerEstimator.java:274-284 | one visit adds one line about a uid when it announces that uid, and none otherwise |
| Registry.CountAboutAppend | app/src/main/java/fabiogentile/powertutor/service/PowerEstimator.java:278-280 | the lines about a uid in two stretches of log count up separately |
| Registry.FoldCountsAnnouncement | app/src/main/java/fabiogentile/powertutor/service/PowerEstimator.java:259-286 | in a pass that visits a uid once per reporting component, a uid with a resolved name gets exactly one associate line when the pass announces it and none otherwise, however often it is visited |
| Registry.RenameAnnouncedOnce | app/src/main/java/fabiogentile/powertutor/service/PowerEstimator.java:259-286 | after a silent first sighting, any later pass that visits the application and resolves a different name writes exactly one associate line about it |
| Registry.NullNameRepeats | app/src/main/java/fabiogentile/powertutor/service/PowerEstimator.java:274-284 | in a pass that is not held back, an application whose name resolves to null gets one associate line per visit, since each visit finds the null the previous one stored |
| Registry.NullNameTwice | app/src/main/java/fabiogentile/powertutor/service/PowerEstimator.java:274-284 | two visits of such an application write `associate+<uid>+null` twice |
| Registry.SortedKeysSpec | app/src/main/java/fabiogentile/powertutor/service/PowerEstimator.java:623 | the listing of the registry's keys holds every key exactly once, in ascending order |
| Registry.AppFilterMembers | app/src/main/java/fabiogentile/powertutor/service/PowerEstimator.java:400-403 | skipping system uids keeps exactly the keys at or above `AID_APP` |
| Registry.AppFilterIncreasing | app/src/main/java/fabiogentile/powertutor/service/PowerEstimator.java:400-403 | skipping system uids keeps the listing ascending |
| Registry.AppUids | app/src/main/java/fabiogentile/powertutor/service/PowerEstimator.java:400-403 | the header visits exactly the registry's application uids, each once, ascending |
| Registry.AssociationsFollowFilter | app/src/main/java/fabiogentile/powertutor/service/PowerEstimator.java:400-405 | the header writes one associate line per application uid, in listing order, with the name the registry holds |
| Registry.HeaderListsApplications | app/src/main/java/fabiogentile/powertutor/service/PowerEstimator.java:399-406 | every header associate line names a registered application uid with its registered name, every registered application has one, and no uid has two |
| Queries.JavaDiv | app/src/main/java/fabiogentile/powertutor/service/PowerEstimator.java:588-589 | Java's `/` on longs: the quotient truncates toward zero for either sign |
| Queries.JavaDivSign | app/src/main/java/fabiogentile/powertutor/service/PowerEstimator.java:609 | the quotient has the dividend's sign, and division by 1 (the zero-runtime guard) returns the dividend |
| Queries.ScalingIsIdentity | app/src/main/java/fabiogentile/powertutor/service/PowerEstimator.java:588-589 | over unbounded integers, `x * ITERATION_INTERVAL / 1000` is `x` for every x (Java's `long` overflow is left out) |
| Queries.MaskedSumOfEmptyMask | app/src/main/java/fabiogentile/powertutor/service/PowerEstimator.java:642-650 | with an empty mask `sumArray` is the plain sum |
| Queries.MaskedSumPartition | app/src/main/java/fabiogentile/powertutor/service/PowerEstimator.java:642-650 | the entries kept by the mask and the entries it ignores add up to the whole array |
| Queries.MaskedSumUpdate | app/src/main/java/fabiogentile/powertutor/service/PowerEstimator.java:644-647 | changing an ignored entry leaves `sumArray` unchanged; changing a kept entry shifts it by the difference |
| Queries.BitsAreDistinct | app/src/main/java/fabiogentile/powertutor/service/PowerEstimator.java:550 | `1 << i` and `1 << j` share no bit for distinct i, j below 32 |
| Queries.NoUidMaskBits | app/src/main/java/fabiogentile/powertutor/service/PowerEstimator.java:545-554 | for up to 32 components, bit i of the mask is set if and only if component i exists and has no per-uid information |
| Queries.ColumnSumsAreColumnTotals | app/src/main/java/fabiogentile/powertutor/service/PowerEstimator.java:570-578 | entry j of the accumulated array is the sum over components of their j-th history value |
| Queries.ComponentHistoryCases | app/src/main/java/fabiogentile/powertutor/service/PowerEstimator.java:565-582 | iteration -1 means the last written one; `ALL_COMPONENTS` gives `count` column sums (negative count: the allocation fails); an id out of range gives null; otherwise the component's own history |
| Queries.TotalsAreHistoryTotals | app/src/main/java/fabiogentile/powertutor/service/PowerEstimator.java:584-592 | `getTotals` returns each component's history total unchanged, since the scaling is the identity |
| Queries.MaxCount | app/src/main/java/fabiogentile/powertutor/service/PowerEstimator.java:594-600 | the running maximum is not negative, bounds every component's count, and is 0 or one of them |
| Queries.RuntimeIsLargestCount | app/src/main/java/fabiogentile/powertutor/service/PowerEstimator.java:594-602 | the runtime is the largest component count (at least 0), unchanged by the scaling |
| Queries.MeansAreAverages | app/src/main/java/fabiogentile/powertutor/service/PowerEstimator.java:604-612 | the divisor is never zero, each mean is the total divided by max(runtime, 1) truncated toward zero (for negative totals too), and a zero runtime leaves the total as its own mean |
| Queries.UidInfoMeaning | app/src/main/java/fabiogentile/powertutor/service/PowerEstimator.java:624-636 | a uid's summary holds the uid, the masked sum of its latest history values, the masked sum of its totals, and its runtime |
| Queries.UidInfosListRegistry | app/src/main/java/fabiogentile/powertutor/service/PowerEstimator.java:620-638 | `getUidInfo` reports each registered uid exactly once, and no other, in ascending uid order |
| Estimator.PowerEstimator.constructor | app/src/main/java/fabiogentile/powertutor/service/PowerEstimator.java:93-105 | one empty history per component and an empty registry; the loop state as `run` starts it (iter -1, first log iteration, last current -1) |
| Estimator.PowerEstimator.Write | app/src/main/java/fabiogentile/powertutor/service/PowerEstimator.java:385-386 | one `logStream.write` of a line: the line is appended to the log and nothing else changes |
| Estimator.PowerEstimator.WriteLines | app/src/main/java/fabiogentile/powertutor/service/PowerEstimator.java:385-397 | writes a run of lines: they are appended in order |
| Estimator.PowerEstimator.WriteToLog | app/src/main/java/fabiogentile/powertutor/service/PowerEstimator.java:513-523 | appends the message when the log is open, and does nothing otherwise |
| Estimator.PowerEstimator.Flush | app/src/main/java/fabiogentile/powertutor/service/PowerEstimator.java:451-460 | everything written so far counts as flushed when the log is open; nothing changes otherwise |
| Estimator.PowerEstimator.Step | app/src/main/java/fabiogentile/powertutor/service/PowerEstimator.java:174-460 | one pass: the next iteration, recorded as last written; each history gets its component's samples; the registry update and its associate lines; the iteration block when the log is open; the new `lastCurrent`; the header flag cleared once a block is logged (the recurrence `Aggregation.HeaderAtMostOnce` follows, so the header is written at most once); a flush exactly when `iter % 30 == 0` |
| Estimator.PowerEstimator.Advance | app/src/main/java/fabiogentile/powertutor/service/PowerEstimator.java:181-294 | advances the iteration, returns the total power of the `ALL` readings, records the history samples, updates the registry and sets `lastWrittenIteration` |
| Estimator.PowerEstimator.AccumulatePower | app/src/main/java/fabiogentile/powertutor/service/PowerEstimator.java:190-236 | returns the summed `ALL` power over all components; component i's history gets exactly its readings' samples, in order, and a component without data gets none |
| Estimator.PowerEstimator.AddReadings | app/src/main/java/fabiogentile/powertutor/service/PowerEstimator.java:203-236 | returns the `ALL` and per-uid sums of one component's readings and adds one sample per reading to that component's history only |
| Estimator.PowerEstimator.UpdateUidSet | app/src/main/java/fabiogentile/powertutor/service/PowerEstimator.java:259-287 | the registry and the log become the registry fold over every visited uid, and the fold's associate lines are appended |
| Estimator.PowerEstimator.VisitComponent | app/src/main/java/fabiogentile/powertutor/service/PowerEstimator.java:260-264 | continues the registry fold over one component's uids, or over none when it has no data |
| Estimator.PowerEstimator.VisitEntries | app/src/main/java/fabiogentile/powertutor/service/PowerEstimator.java:265-286 | continues the registry fold over one component's uids in order |
| Estimator.PowerEstimator.VisitEntry | app/src/main/java/fabiogentile/powertutor/service/PowerEstimator.java:266-285 | extends the registry fold by the component's next uid |
| Estimator.PowerEstimator.VisitUid | app/src/main/java/fabiogentile/powertutor/service/PowerEstimator.java:267-285 | one registry visit: the entry is set and the associate line is written exactly as the fold's step prescribes |
| Estimator.PowerEstimator.WriteIteration | app/src/main/java/fabiogentile/powertutor/service/PowerEstimator.java:324-441 | appends the whole iteration block when the log is open, and updates `lastCurrent` and the header flag |
| Estimator.PowerEstimator.WriteOpening | app/src/main/java/fabiogentile/powertutor/service/PowerEstimator.java:324-367 | appends `begin+<iter>` and the environment snapshot |
| Estimator.PowerEstimator.WriteEnvironment | app/src/main/java/fabiogentile/powertutor/service/PowerEstimator.java:329-367 | appends the current, battery and settings lines due this iteration |
| Estimator.PowerEstimator.WriteCurrent | app/src/main/java/fabiogentile/powertutor/service/PowerEstimator.java:329-336 | every 60 iterations, a changed battery current is logged and remembered |
| Estimator.PowerEstimator.WriteBattery | app/src/main/java/fabiogentile/powertutor/service/PowerEstimator.java:337-342 | every 300 iterations, the temperature and charge the battery reports |
| Estimator.PowerEstimator.WriteSettings | app/src/main/java/fabiogentile/powertutor/service/PowerEstimator.java:343-367 | every 1800 iterations, the brightness (automatic or a level), screen timeout and proxy lines, each only when set |
| Estimator.PowerEstimator.WriteBody | app/src/main/java/fabiogentile/powertutor/service/PowerEstimator.java:379-446 | with the log open: the header on the first logged iteration only, then the report; the header flag is then cleared |
| Estimator.PowerEstimator.WriteHeader | app/src/main/java/fabiogentile/powertutor/service/PowerEstimator.java:382-407 | appends the run description and the registry's application associations |
| Estimator.PowerEstimator.WriteHeaderInfo | app/src/main/java/fabiogentile/powertutor/service/PowerEstimator.java:385-397 | appends interval, time, time zone offset, model, notification and capacity lines |
| Estimator.PowerEstimator.WriteAssociations | app/src/main/java/fabiogentile/powertutor/service/PowerEstimator.java:399-406 | appends the associate line of every registered application |
| Estimator.PowerEstimator.WriteAssociationsOf | app/src/main/java/fabiogentile/powertutor/service/PowerEstimator.java:400-405 | appends, in key order, an associate line per application key and skips system uids |
| Estimator.PowerEstimator.WriteReport | app/src/main/java/fabiogentile/powertutor/service/PowerEstimator.java:409-441 | appends `total power+…`, the component lines and the end marker |
| Estimator.PowerEstimator.WriteComponents | app/src/main/java/fabiogentile/powertutor/service/PowerEstimator.java:416-440 | appends every component's lines in component order |
| Estimator.PowerEstimator.WriteComponent | app/src/main/java/fabiogentile/powertutor/service/PowerEstimator.java:418-439 | appends one component's lines, or nothing without data |
| Estimator.PowerEstimator.WriteEntries | app/src/main/java/fabiogentile/powertutor/service/PowerEstimator.java:425-437 | appends the lines of each uid reading in order |
| Estimator.PowerEstimator.WriteEntry | app/src/main/java/fabiogentile/powertutor/service/PowerEstimator.java:429-436 | `ALL`: the component's extra lines then `name+ALL++p`; otherwise `name+uid+uidName+p` |
| Estimator.PowerEstimator.GetComponents | app/src/main/java/fabiogentile/powertutor/service/PowerEstimator.java:525-532 | one name per component, in order |
| Estimator.PowerEstimator.GetNoUidMask | app/src/main/java/fabiogentile/powertutor/service/PowerEstimator.java:545-554 | the loop's mask equals the no-uid mask function whose bits `Queries.NoUidMaskBits` characterises |
| Estimator.PowerEstimator.GetComponentHistory | app/src/main/java/fabiogentile/powertutor/service/PowerEstimator.java:565-582 | answers as the history function whose cases `Queries.ComponentHistoryCases` states, reading `lastWrittenIteration` for -1 |
| Estimator.PowerEstimator.SumHistories | app/src/main/java/fabiogentile/powertutor/service/PowerEstimator.java:570-578 | the accumulated array is the column sums of the components' histories |
| Estimator.PowerEstimator.AddInto | app/src/main/java/fabiogentile/powertutor/service/PowerEstimator.java:574-576 | adds one component's history values into the result array, entry by entry |
| Estimator.PowerEstimator.GetTotals | app/src/main/java/fabiogentile/powertutor/service/PowerEstimator.java:584-592 | the scaled totals of every component |
| Estimator.PowerEstimator.GetRuntime | app/src/main/java/fabiogentile/powertutor/service/PowerEstimator.java:594-602 | the scaled maximum count over components |
| Estimator.PowerEstimator.GetMeans | app/src/main/java/fabiogentile/powertutor/service/PowerEstimator.java:604-612 | each total divided by the runtime, or by 1 when the runtime is 0 |
| Estimator.PowerEstimator.SumArray | app/src/main/java/fabiogentile/powertutor/service/PowerEstimator.java:642-650 | the sum of the entries whose mask bit is clear |
| Estimator.PowerEstimator.GetUidInfo | app/src/main/java/fabiogentile/powertutor/service/PowerEstimator.java:614-640 | one summary per registered uid at the last written iteration, in the order `Queries.UidInfosListRegistry` proves ascending and complete |
| Estimator.PowerEstimator.GetOneUidInfo | app/src/main/java/fabiogentile/powertutor/service/PowerEstimator.java:624-636 | one uid's summary: current power, masked totals and runtime |
| Estimator.PowerEstimator.CurrentPower | app/src/main/java/fabiogentile/powertutor/service/PowerEstimator.java:625-630 | the sum over components not ignored by the mask of the uid's latest history value |

## Left out

- Thread management is left out because it is concurrency, not logic: starting, interrupting and joining the component threads and the log uploader, the three `synchronized` locks, and the end of the loop on interruption. `Step` is one sequential pass.
- `Thread.sleep` is left out. Only its duration is modelled (`Aggregation.SleepMillis`).
- The notification smoother (lines 296-321) is left out because it is floating point: the weighted average, `Math.pow` and the level computation.
- `getUidExtra` and `oledScoreHistory` are left out: the OLED score is floating point, and the accumulation that fed it is commented out in the source.
- `getComponentsMaxPower` only reads phone constants, and `plug` only forwards to the uploader, so both are left out.
- The battery current is a double in the source. Here it is a `Reading`: an integer compared with `lastCurrent`, plus the text the `%.2f` formatting produced.
- The CPU time sums `totTime` and `totTimeAll`, and the `Log.d`/`Log.w` calls, are left out because they do not affect state or the log.
- `powerFunctions.calculate`, the `(int)` cast of its result, and the `setUidAll` calls of lines 215 and 220 that change the CPU readings before that calculation are left out: the power arrives as an integer.
- `setCachedPower` and the `Math.round` of the cached power are left out: the logged power is the reading's power.
- `openLog`, the Deflater, the upload on start and `close` on exit are I/O. The log is only open (`logOpen`) or not.
- The `IOException` paths are left out: the model has no failing writes or flushes, so it never loses the rest of a block after a failed write.
- `writeLogDataInfo` is left out: a component's extra log lines arrive as the reading's `logInfo`.
- The `meminfo` line is left out: it is dead code (`hasMem` is always false).
- `data.recycle()` is left out because it releases memory only.
- `HistoryBuffer` is left out. The writes are recorded as the list of `add` calls per component. The reads are a `Queries.HistoryReader`, whose only assumption is that `get` returns `count` values. The model does not connect the recorded samples to what the readers answer.
- `SystemInfo`, `BatteryStats`, `Settings`, the clock and the package manager are parameters: `resolve`, `uidName`, `Environment`, `elapsed`.
- `SystemInfo` is not part of this model. Its two constants get the values PowerTutor gives them: `AID_ALL` is -1, and `AID_APP` is 10000, Android's first application uid.
- Aggregation.EntriesLogReadsBack: stated only for readings without extra log lines, since the `writeLogDataInfo` text has no fixed shape. Aggregation.EntryLogReadsBack is limited in the same way. For a single reading with extra lines, Aggregation.EntryLogLastReadsBack still proves that its last line parses back.
- Aggregation.ComponentsLogReadsBack: stated only for readings without extra log lines, for the same reason.
- The read-back lemmas require component names without `+`.
- HashMap iteration order is unspecified in Java. The model lists registry keys in ascending order, both in the header and in `getUidInfo`.
- `SparseArray` holds uids in ascending order with each uid once. The model takes the readings in the order given and does not require them to be sorted or distinct.
- Java `int`/`long` overflow in the power sums is left out: the integers are unbounded.
- `Math.round(totalPower)` (line 409) takes an `int`, so Java picks `Math.round(float)`, which is exact only up to 2^24. The model writes `totalPower` exactly.
- Queries.ScalingIsIdentity: the `long` products `* ITERATION_INTERVAL` (lines 588-589, 601, 633-635) can overflow in Java. The model's integers are unbounded, so the scaling is the identity for every value.
- Aggregation.BlockIsFramed: holds only when no component's extra log lines contain the end marker. `writeLogDataInfo` is not part of this model, so nothing rules that out.
- Aggregation.BlockIsFramed: log lines are atomic strings in the model. Java writes one character stream and ends each write with `"\n"` (for example lines 364-365 and 385-392). A `'\n'` inside a free-text field would split one model line into several lines of the file. The fields are `httpProxy`, `modelName`, the battery temperature, charge and capacity, a resolved application name, `uidName`, and the extra log lines. BlockIsFramed, ComponentsLogReadsBack, EntriesLogReadsBack, EntryLogReadsBack, AllLineRoundTrip and UidLineRoundTrip all speak of the sequence of lines, not of the file's text split at newlines.
- Queries.NoUidMaskBits: the mask is characterised only for up to 32 components. Beyond that, Java's `1 << i` wraps the shift amount; `Queries.Bit` models the wrap but no lemma describes its effect.
- `SapphirePowerCalculator` is left out: it only forwards to a calculator that is not part of this model.
- The object pooling of `UidInfo.obtain` is left out: each summary is a value.
