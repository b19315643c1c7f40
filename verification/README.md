# JSON-SCADA: failover, point processing, calculation, browsing, tag creation and I104M

JSON-SCADA is a set of drivers and services around one MongoDB database. This project models the
parts of it that hold state or do arithmetic of their own, and proves what they keep over whole runs.

| file | what it models |
|---|---|
| `Failover.dfy`, `FailoverTiming.dfy`, `FailoverVariants.dfy` | hot standby: nodes poll one instance document and decide who is active |
| `PointProcessor.dfy` | the change-stream handler for analog points: limits, hysteresis, dead band, alarms |
| `UpdateQueue.dfy`, `SqlText.dfy` | the two queues behind the handler: an unordered bulk write and an SQL statement |
| `Formulas.dfy`, `FormulaLaws.dfy`, `Calculations.dfy` | the formulas, what each of them computes, and the cyclic calculation process, a Jacobi iteration over a dependency graph |
| `Browse.dfy` | the batched browse of an OPC-UA address space |
| `KeyAllocation.dfy`, `AutoCreate.dfy` | keys and documents of tags created by the OPC-UA and OPC-DA clients |
| `I104mFrames.dfy`, `I104mCommands.dfy` | the I104M datagrams and the life of a command |
| `FolderIndex.dfy` | folders recreated from browse paths by the OPC-UA server |
| `Paths.dfy`, `Options.dfy` | slash-separated paths and an optional value, used by the others |

Code that changes state is a class or a loop, proved equal to a function of the old state; the
properties are lemmas about those functions and about runs of them. What is outside a module (the
database's answer, the network, the clock, another process's edits) is a parameter or a step of its own.

Assumptions that hold throughout a module:

- Failover: reading the document and deciding are one step, so polls of one process do not overlap;
  writing is a step of its own, because the program does not await it; a write is applied whole. The index on process name and number is unique
  (`mongo_seed/b_create-db.js:689`), so a second insert is refused.
- FailoverTiming: each write is applied before the next event.
- FailoverVariants: no variant's initial tag equals a tag that is read.
- PointProcessor: a queued update is applied before the next change of that point is looked up; the
  source value is a number; values are reals.
- Calculations: the data processor applies written values unconverted between two cycles.
- AutoCreate: an insert fails only on the unique indexes of key and tag (`mongo_seed/b_create-db.js:706`).
- I104mCommands: status updates succeed.
- FolderIndex: no group is named like a built-in property of a JavaScript object.

Results that show where the code falls short of its purpose, each with the exact condition:

- The C# and Go variants of the failover never reset their counter on a fresh keep-alive, so they
  also replace an owner that renews it regularly: five repeats in one wait are enough, whatever lies between
  them (`CumulativeTakesOverIff`, `CumulativeReplacesALiveOwner`).
- The bulk write is sent unordered; it means the queued updates under every order exactly when no two
  of them set one field of one document to different values (`UnorderedBatchIsSafeIff`).
- The first key of a connection is new only if the range is not occupied at its base alone
  (`FirstKeyIsFreshIff`); ranges are whole exactly for the numbers -2147 to 2146 (`RangeIsWholeIff`).
- The tag creation loop of the OPC-DA client never ends when another connection has the tag (`LoopEndsIff`).
- I104M types 2 and 4 read their time from the next slot (`SlotIsolatedIff`); a frame that announces more
  objects than the buffer holds crashes the driver (`CrashesIff`); times with a weekday or the summer-time
  bit are misread (`StandardTimeReadsBackIff`), and so are negative step positions (`StepPositionReadsBackIff`).
- Once the I104M driver is found inactive, the command stream is left for good, and later commands get
  neither outcome (`EveryCommandSettles`).
- Tags of different groups share folders when one group is the other with further names behind slashes, such as
  A and A/B, and only then (`GroupsMeetIff`, with the condition for two tags in `TagsMeetIff`).
- Of two updates of one tag in one millisecond the realtime table may keep the older: it is certain to keep the
  last one exactly when every other row of its tag is strictly older or says the same (`LastRowWinsIff`).
- A point that is the root of a negative number, or the power factor of nothing, is NaN and written in every
  cycle (`NotANumberIff`, `Cycle`).
- Historical backfill that crosses a limit is reported at every delivery (`RedeliveryIsSilent`).
- The row of the realtime table shows the alarm range from before the update (`RowShowsRangeIff`).

Where the code and its comments or names differ, the code is followed: formulas 50 and 51 choose the
last valid parcel, not the first; formulas 13 and 5022 have the coefficients of their expressions; with
no operation limit the browse keeps its work list and sends the maximum number of requests.

## Model

| member | source | states |
|---|---|---|
| Failover.InstanceCollection.Commit | src/cs_data_processor/redundancy.js:73-81 | applying one pending write: an insert only into an empty collection, an update of name and keep-alive only of an existing document; the other pending writes stay |
| Failover.RedundancyProcess.ProcessRedundancy | src/cs_data_processor/redundancy.js:44-158 | one poll changes the process and issues a write exactly as the decision function says, including the exits for disabled or excluded nodes and the errors that end a poll early |
| Failover.RedundancyProcess.Tick | src/cs_data_processor/redundancy.js:29-41 | a timer tick without connection makes the process inactive and issues nothing; otherwise it is one poll, with its state and its write |
| Failover.RedundancyProcess.Exit | src/cs_data_processor/redundancy.js:89-98 | an exit leaves a stopped, inactive process |
| Failover.ClaimSurvives | src/cs_data_processor/redundancy.js:138-152 | a pending claim of a node survives the commit of any other write |
| Failover.ReadKeepsInv | src/cs_data_processor/redundancy.js:44-158 | a poll by any node keeps the invariant about nodes that are active without being named |
| Failover.CommitKeepsInv | src/cs_data_processor/redundancy.js:138-152 | so does the late arrival of any write |
| Failover.StepKeepsInv | src/cs_data_processor/redundancy.js:29-158 | so do crashes, restarts, lost connections and edits of the document |
| Failover.RunKeepsInv | src/cs_data_processor/redundancy.js:29-158 | the invariant holds after every interleaving of steps of any number of nodes |
| Failover.UnnamedActiveHasNotPolled | src/cs_data_processor/redundancy.js:99-152 | in every reachable state a node that is active but not named has not completed a poll since ownership changed, unless its own claim is still in flight |
| Failover.AtMostOneActive | src/cs_data_processor/redundancy.js:99-152 | once every active node has polled since the last change and no write is pending, at most one node is active and the document names it |
| Failover.DisplacedOwnerYields | src/cs_data_processor/redundancy.js:104-134 | a displaced owner goes inactive at its next poll, writes nothing and cannot retake the role in that poll |
| Failover.OwnerStaysOwner | src/cs_data_processor/redundancy.js:99-103 | a named node that polls alone stays active and named |
| Failover.FrozenOwnerIsReplaced | src/cs_data_processor/redundancy.js:103-152 | with the keep-alive frozen under another name, a standby is named after exactly the number of polls its counter state calls for, not one earlier |
| Failover.TakeoverBySixthPoll | src/cs_data_processor/redundancy.js:103-152 | from any counter state it is active and named by its sixth poll |
| Failover.FreshStandbyDelay | src/cs_data_processor/redundancy.js:103-152 | a fresh standby needs exactly six polls of a frozen date, and five of a missing one |
| Failover.TakeoverStartsOver | src/cs_data_processor/redundancy.js:127-135 | a takeover ends the wait: a new owner that loses its connection before its claim is stored needs exactly five more polls |
| Failover.PollStopsIff | src/cs_data_processor/redundancy.js:89-98 | a poll stops the process exactly when the instance is disabled or its list of names is not empty and does not hold this node; any other poll leaves it running |
| Failover.FailedPollHasNoEffect | src/cs_data_processor/redundancy.js:81-98 | a poll fails exactly on a null date or a missing list of names, and then changes and writes nothing |
| Failover.WritesOwnName | src/cs_data_processor/redundancy.js:138-152 | a completed poll writes exactly when the process is active after it, and then its own name and the present time |
| Failover.FirstPollCreates | src/cs_data_processor/redundancy.js:62-81 | the first poll creates a document that names this node and shuts nobody out |
| Failover.ApplyKeepsAdmission | src/cs_data_processor/redundancy.js:73-152 | no write changes whether the instance is disabled or which names are allowed |
| Failover.StepKeepsSilent | src/cs_data_processor/redundancy.js:44-158 | a node that is shut out, not active and without pending writes stays so in every step but an edit |
| Failover.RunKeepsSilent | src/cs_data_processor/redundancy.js:44-158 | and in every run without edits, in which it never becomes the owner |
| Failover.ShutOutNodeStaysOut | src/cs_data_processor/redundancy.js:89-98 | in every run without edits a node that the document shuts out stops at its next poll and is never active or newly named again, whoever restarts it |
| FailoverTiming.StreakGrows | src/cs_data_processor/redundancy.js:111-134 | the counter stands for polls of one unchanged tag spaced by the poll period, and renewals of the owner keep it below the limit |
| FailoverTiming.StandbyPollKeepsWaiting | src/cs_data_processor/redundancy.js:103-135 | one poll of a standby never completes the count |
| FailoverTiming.EventKeepsCalm | src/cs_data_processor/redundancy.js:29-152 | every poll, lost connection or restart keeps the owner named and the standbys waiting |
| FailoverTiming.NoFalseTakeover | src/cs_data_processor/redundancy.js:103-135 | if standbys poll at least P apart and the owner renews its keep-alive in every window of at most 5P, no standby is ever active, whatever counter each of them starts with |
| FailoverTiming.FivePeriodsIsTight | src/cs_data_processor/redundancy.js:103-135 | with a window one unit longer than 5P a run meeting all other assumptions loses the owner |
| FailoverVariants.DriverRedundancy.ProcessInstance | src/OPC-UA-Client/Redundancy.cs:90-117 | one pass of a driver's redundancy loop equals the cumulative step, and a keep-alive is written exactly when the driver is active after it |
| FailoverVariants.CumulativeCountsAtLeast | src/OPC-DA-Client/Redundancy.cs:89-116 | up to its first takeover, the cumulative counter is at least the resetting one and both variants agree on activity and tag |
| FailoverVariants.CumulativeTakesOverNoLater | src/calculations/calculations.go:245-267 | on every history a cumulative variant takes over at the same poll as the reference or earlier |
| FailoverVariants.CounterClosedForm | src/i104m/i104m.go:495-516 | on every history without a takeover, own-name readings included, the tag is the last foreign one, the process is active exactly after reading its own name, and otherwise the counter is the number of repeats: in a row for the reference, in the whole wait for the cumulative variants |
| FailoverVariants.TakeoverWhenCounted | src/i104m/i104m.go:495-516 | every history holds a takeover exactly when that number passes the limit at some point of it |
| FailoverVariants.ReferenceTakesOverIff | src/cs_data_processor/redundancy.js:103-135 | on every history the reference takes over exactly when five readings in a row repeat the tag known before them |
| FailoverVariants.SixEqualReadings | src/cs_data_processor/redundancy.js:103-135 | a standby that never read its own name takes over exactly when it reads some tag six times in a row |
| FailoverVariants.OwnReadingShortensTheWait | src/cs_data_processor/redundancy.js:99-135 | after a reading of the own name five equal readings of the tag known before are enough |
| FailoverVariants.CumulativeTakesOverIff | src/calculations/calculations.go:245-267 | on every history a cumulative variant takes over exactly when some stretch without the own name holds five repeats in all, however many fresh tags lie between them |
| FailoverVariants.CumulativeReplacesALiveOwner | src/calculations/calculations.go:245-267 | an owner renewed between every second poll is never replaced by the reference and always by a cumulative variant from the fifth renewal on |
| FailoverVariants.TakeoverLeavesCount | src/calculations/calculations.go:245-267 | no counter passes five; a takeover leaves it at five in the cumulative variants and clears it in the reference |
| FailoverVariants.OwnReading | src/OPC-UA-Client/Redundancy.cs:90-96 | reading the own name clears the counter in the C# copies and leaves it alone in the Go copies |
| PointProcessor.ChangeHandler.CheckLimits | src/cs_data_processor/cs_data_processor.js:776-863 | range, alarm flag and limit event of a value follow limits and hysteresis; an event is queued exactly when the range differs from the stored one |
| PointProcessor.ChangeHandler.InsertsIntoHistorian | src/cs_data_processor/cs_data_processor.js:994-1025 | whether the historian takes the value |
| PointProcessor.ChangeHandler.QueueBeep | src/cs_data_processor/cs_data_processor.js:944-982 | a beep is queued for a newly alarmed point of beeping priority |
| PointProcessor.ChangeHandler.WriteBack | src/cs_data_processor/cs_data_processor.js:942-1204 | the queued document, beep, historian sample and row of the realtime table |
| PointProcessor.ChangeHandler.Emit | src/cs_data_processor/cs_data_processor.js:864-1204 | the event for a change of value, and the three kinds of update exactly when the change is kept |
| PointProcessor.ChangeHandler.OnAnalogChange | src/cs_data_processor/cs_data_processor.js:736-1204 | one change appends to the four queues exactly what conversion, limits, persistence and dead band call for |
| PointProcessor.StepKeepsRangeSettled | src/cs_data_processor/cs_data_processor.js:777-862 | the stored range stays the range of the stored value, so a live update emits an event exactly when the stored range changes |
| PointProcessor.OneEventPerRangeChange | src/cs_data_processor/cs_data_processor.js:777-862 | in every run limit events are as many as changes of the stored range plus backfilled crossings |
| PointProcessor.RedeliveryIsSilent | src/cs_data_processor/cs_data_processor.js:789-862 | after any run, a second delivery of a reading emits an event only when it is backfill that crosses a limit |
| PointProcessor.AlarmedMeansOutOfRange | src/cs_data_processor/cs_data_processor.js:789-862 | alarmed implies a nonzero range throughout, with acknowledgements in between |
| PointProcessor.BeepsOnRisingAlarm | src/cs_data_processor/cs_data_processor.js:944-982 | a beep is queued exactly when the stored alarm flag rises on a point of beeping priority |
| PointProcessor.RowShowsRangeIff | src/cs_data_processor/cs_data_processor.js:1184-1204 | the row of an update has the stored value, validity, time and alarm flag, and the stored range exactly when the update reports no change of range |
| PointProcessor.RowBesideDocument | src/cs_data_processor/cs_data_processor.js:1184-1204 | the row is the stored document with the range, alarm time and sample of before and, while alarms are disabled, the alarm flag of before |
| PointProcessor.ChangeCrossesBand | src/cs_data_processor/cs_data_processor.js:777-805 | a change of range moves the value across the whole hysteresis band |
| PointProcessor.ChangesAreFarApart | src/cs_data_processor/cs_data_processor.js:777-805 | two consecutive changes of the range are more than twice the hysteresis apart in value |
| PointProcessor.SpreadCostsVariation | src/cs_data_processor/cs_data_processor.js:777-805 | marked values that are d apart cost d of total variation each |
| PointProcessor.RangeMarksSpread | src/cs_data_processor/cs_data_processor.js:777-805 | the values at which the range changes in a run are spread by twice the hysteresis |
| PointProcessor.RangeChangesCostVariation | src/cs_data_processor/cs_data_processor.js:777-805 | k changes of the range force a total variation of (k - 1) times twice the hysteresis |
| PointProcessor.StepKeepsRepresented | src/cs_data_processor/cs_data_processor.js:994-1049 | an update keeps the value within the dead band of the last sample, and a new sample is at least the dead band away from it |
| PointProcessor.HistorianTracksValue | src/cs_data_processor/cs_data_processor.js:994-1049 | after every run the current value is strictly within the dead band of the last historised one |
| PointProcessor.FirstValueIsSampled | src/cs_data_processor/cs_data_processor.js:994-1025 | a fresh point takes its first live value into the historian |
| PointProcessor.SamplesCostVariation | src/cs_data_processor/cs_data_processor.js:994-1049 | from every represented point n samples force a total variation of (n - 1) dead bands, and of n dead bands counted from the sample the run starts with |
| PointProcessor.ConversionIsLinear | src/cs_data_processor/cs_data_processor.js:740-741 | outside a zero dead band a source value of zero becomes the offset, and two source values that are d apart become values that are d times the factor apart |
| PointProcessor.BandAroundZero | src/cs_data_processor/cs_data_processor.js:742-744 | a zero dead band maps exactly the values strictly inside it to zero and leaves the others alone, so no value lies between zero and the band |
| PointProcessor.QueuedValue | src/cs_data_processor/cs_data_processor.js:736-1204 | event, sample, document and row of a change all carry the converted value, given here by its source value, factor and offset |
| PointProcessor.RangeIff | src/cs_data_processor/cs_data_processor.js:777-805 | the range is 1 or -1 beyond a limit and its hysteresis, 0 within both limits less the hysteresis, and otherwise the stored one |
| PointProcessor.LimitsCountIff | src/cs_data_processor/cs_data_processor.js:777-783 | limits count exactly when both are given and alarms are not disabled |
| PointProcessor.AlarmIff | src/cs_data_processor/cs_data_processor.js:789-862 | a point is alarmed exactly after a change to a range other than 0, or when it was alarmed and is not well inside its limits |
| PointProcessor.DroppedIff | src/cs_data_processor/cs_data_processor.js:927-941 | a change is dropped exactly when it is backfill, or repeats value and validity without a source time, a range check or a first time tag |
| PointProcessor.SampledIff | src/cs_data_processor/cs_data_processor.js:994-1025 | the exact condition on period, exclusion flag and dead band for a kept change to be sampled |
| PointProcessor.ValueEventIff | src/cs_data_processor/cs_data_processor.js:864-926 | an event of value is queued exactly for event points that are not disabled, on a valid change or any source time from 1900 on |
| PointProcessor.LimitEventMeans | src/cs_data_processor/cs_data_processor.js:806-862 | a limit event carries the new range, which differs from the stored one, and is not acknowledged in advance when it raises an alarm |
| PointProcessor.BeepMeans | src/cs_data_processor/cs_data_processor.js:944-982 | beeps are for priorities 0 and 1, and important exactly for 0 |
| PointProcessor.StoredDocument | src/cs_data_processor/cs_data_processor.js:1026-1100 | the stored document of a kept change, field by field, from the source update and the document before |
| PointProcessor.OtherEvents | src/cs_data_processor/cs_data_processor.js:346-372 | an acknowledgement clears the alarm flag alone, and the watch over silent points invalidates alone |
| UpdateQueue.UpdateSender.Drain | src/cs_data_processor/cs_data_processor.js:147-176 | the queue becomes one set operation per entry, followed by one add operation where the entry has a group to add |
| UpdateQueue.DrainedInOrder | src/cs_data_processor/cs_data_processor.js:154-187 | applied in order, the operations do what the queued updates mean |
| UpdateQueue.OrderDoesNotMatter | src/cs_data_processor/cs_data_processor.js:177-187 | without conflicting operations every permutation of the batch leaves the same store |
| UpdateQueue.ConflictIsVisible | src/cs_data_processor/cs_data_processor.js:177-187 | with two conflicting operations some permutation leaves a different store |
| UpdateQueue.UnorderedBatchIsSafeIff | src/cs_data_processor/cs_data_processor.js:154-187 | every order of the batch equals the queued updates exactly when no two of them set one field of a stored document to different values |
| UpdateQueue.BeepGroupsIgnoreOrder | src/cs_data_processor/cs_data_processor.js:154-187 | the group list of a document ends as the same set under every order |
| UpdateQueue.OpsOfEntry | src/cs_data_processor/cs_data_processor.js:154-176 | the operations of one entry: its fields, and its group when there is one |
| SqlText.SqlWriter.Enqueue | src/cs_data_processor/cs_data_processor.js:1194-1204 | a row is queued as three quoted fields with doubled quotes |
| SqlText.SqlWriter.Drain | src/cs_data_processor/cs_data_processor.js:250-290 | the realtime queue is emptied into the statement, and no file is written for an empty queue |
| SqlText.SqlWriter.DrainInto | src/cs_data_processor/cs_data_processor.js:250-262 | the loop prints all rows in order and only the last comma is removed |
| SqlText.UnquotedDoubled | src/cs_data_processor/cs_data_processor.js:1194-1204 | a doubled and quoted text is read back whole, whatever follows that does not start with a quote |
| SqlText.ReadRowPrinted | src/cs_data_processor/cs_data_processor.js:1194-1204 | a printed row is read back as its tag, time and document |
| SqlText.ReadRowList | src/cs_data_processor/cs_data_processor.js:250-262 | a printed list of rows is read back in order |
| SqlText.StatementReadsBack | src/cs_data_processor/cs_data_processor.js:250-262 | the rows read from the emitted statement are exactly the queued ones, in order, for all strings and every nonempty queue |
| SqlText.InOrderKeepsLast | src/cs_data_processor/cs_data_processor.js:264-274 | applied one after the other, the last row of a tag is the one that stays |
| SqlText.ChoiceIsPossible | src/cs_data_processor/cs_data_processor.js:264-274 | any row of a tag that comes first by descending time can be the one kept |
| SqlText.LastRowWinsIff | src/cs_data_processor/cs_data_processor.js:264-274 | the statement does to the table what the queue means, whatever it keeps among equal times, exactly when every row is strictly older than the last one of its tag or says the same |
| Formulas.SumLoop | src/calculations/calculations.go:520-569 | the signed sum of all parcels, invalid when some parcel is |
| Formulas.AndLoop | src/calculations/calculations.go:533-542 | 1 exactly when no parcel is zero |
| Formulas.OrLoop | src/calculations/calculations.go:543-552 | 1 exactly when some parcel is not zero |
| Formulas.ChoiceLoop | src/calculations/calculations.go:776-785 | the last valid parcel, or the first when none is valid |
| Formulas.AnyOkLoop | src/calculations/calculations.go:786-794 | 1 exactly when some parcel is valid |
| Formulas.SpanLoop | src/calculations/calculations.go:795-810 | the difference between the highest and the lowest parcel |
| Formulas.EvaluateLoop | src/calculations/calculations.go:520-810 | the formulas over any number of parcels are computed by their loops |
| Formulas.SpanIsLargestDifference | src/calculations/calculations.go:795-810 | that difference is attained by two parcels and exceeded by none |
| Formulas.ComputedByArity | src/calculations/calculations.go:489-1154 | whether a formula is computed at all depends on its number and its number of parcels only |
| Formulas.PanicsIff | src/calculations/calculations.go:776-828 | a formula panics exactly for a choice or double point without parcels |
| Formulas.NotANumberIff | src/calculations/calculations.go:508-532 | NaN comes exactly from the power factor of nothing and from the root of a negative number |
| Formulas.DifferenceOfSums | src/calculations/calculations.go:703-762 | the tabled sums are the sum of the first parcels less the sum of the others |
| FormulaLaws.Differences | src/calculations/calculations.go:703-1154 | each of the 39 formulas that are plain sums gives the sum of its added parcels less the sum of its subtracted ones, with both numbers given for each formula; invalid exactly when some parcel is |
| FormulaLaws.Formula11 | src/calculations/calculations.go:570-621 | 23 parcels and 0.72 times the last |
| FormulaLaws.Formula13 | src/calculations/calculations.go:622-696 | its 34 parcels with their signs and weights, less one; two parcels do not count |
| FormulaLaws.Formula5000 | src/calculations/calculations.go:1082-1087 | its six parcels with their signs and weights |
| FormulaLaws.Formula5041 | src/calculations/calculations.go:1094-1099 | its five parcels with their signs |
| FormulaLaws.Formula5043 | src/calculations/calculations.go:1100-1105 | its nine parcels with their signs |
| FormulaLaws.Formula5406 | src/calculations/calculations.go:1124-1129 | its eleven parcels with their signs |
| FormulaLaws.ScaledParcel | src/calculations/calculations.go:697-702 | ten sixths of a parcel, and half of it |
| FormulaLaws.WeightedParcel | src/calculations/calculations.go:1106-1117 | -0.72 and 0.38 of a parcel |
| FormulaLaws.SmallWeight | src/calculations/calculations.go:1118-1123 | 0.14 of a parcel |
| FormulaLaws.Minutes | src/calculations/calculations.go:857-862 | 60 times the first parcel and the second |
| FormulaLaws.LowerAndHigher | src/calculations/calculations.go:973-990 | formula 220 is at most both parcels and one of them; 221 is at least both and one of them |
| FormulaLaws.BetweenIff | src/calculations/calculations.go:940-972 | formulas 216, 218 and 219 are 1 exactly when the first parcel lies between the others, with both, the upper or the lower bound included, and valid as it is |
| FormulaLaws.SelectedParcel | src/calculations/calculations.go:863-873 | formula 203 is the third parcel when the first is not zero and else the second, with its validity |
| FormulaLaws.NegativePart | src/calculations/calculations.go:1045-1053 | formula 231 is zero above zero and the parcel itself from zero down |
| FormulaLaws.ByMagnitude | src/calculations/calculations.go:763-775 | formula 26 is 1 up to a magnitude of 0.5, 0 above 1.4 and the second parcel between |
| FormulaLaws.DoublePoint | src/calculations/calculations.go:811-828 | formula 54 makes a double point of two single ones; equal ones are in transit and invalid |
| FormulaLaws.ConstantOne | src/calculations/calculations.go:1009-1014 | formula 225 is 1 for no or one parcel and not computed for more |
| FormulaLaws.GreatestFloat | src/calculations/calculations.go:829-844 | the value of a division by zero, plus 2 to the power of 971, is 2 to the power of 1024 |
| FormulaLaws.Quotient | src/calculations/calculations.go:829-844 | formula 55 times the divisor is the dividend; by zero it is zero or the greatest number with the sign of the dividend |
| FormulaLaws.ApparentPower | src/calculations/calculations.go:514-519 | the square of formula 3 is the sum of the squares of its parcels |
| FormulaLaws.Root | src/calculations/calculations.go:527-532 | the square of formula 5 is its parcel; of a negative one there is none |
| FormulaLaws.PowerFactor | src/calculations/calculations.go:508-513 | formula 2 times formula 3 is the active power |
| FormulaLaws.Current | src/calculations/calculations.go:500-507 | formula 1 times the voltage is 577.35027 times the root of the sum of squares; zero without a positive voltage |
| FormulaLaws.PowerOf | src/calculations/calculations.go:557-562 | formula 9 times 1000 is the product of its parcels and the root of three |
| FormulaLaws.WholeSums | src/calculations/calculations.go:520-569 | formulas 4 and 10 are the sum of all parcels and its negative |
| FormulaLaws.AndOr | src/calculations/calculations.go:533-552 | formula 6 is 0 exactly when some parcel is zero; 7 and 500 are 1 exactly when some parcel is not |
| FormulaLaws.Chosen | src/calculations/calculations.go:776-785 | formulas 50 and 51 choose the last valid parcel, or the first when there is none |
| FormulaLaws.AnyValid | src/calculations/calculations.go:786-794 | formula 52 is 1 exactly when some parcel is valid, and itself always valid |
| Calculations.Cycle | src/calculations/calculations.go:467-1183 | one cycle, the timer included, writes exactly the points whose value or validity differs from the snapshot, each once, in whatever order the map is visited, and NaN to exactly the points that give it; there is no batch exactly when some formula panics |
| Calculations.DueIff | src/calculations/calculations.go:1155-1183 | a stored point is due exactly when its own formula over its own parcels, or the clock for a timer, gives another value or validity than the stored one |
| Calculations.DueWhenMissingIff | src/calculations/calculations.go:1155-1183 | a point that was never read is due exactly when it is not a valid zero |
| Calculations.OrderDoesNotMatter | src/calculations/calculations.go:480-1183 | the store after the cycle does not depend on that order |
| Calculations.IterateKeepsInputs | src/calculations/calculations.go:467-480 | cycles keep the documents and the values that are never computed |
| Calculations.SettledByRank | src/calculations/calculations.go:467-1183 | on an acyclic graph without panics and NaN in its first cycles, a point of rank r has its final value after r + 1 cycles and keeps it |
| Calculations.Converges | src/calculations/calculations.go:467-1183 | on an acyclic graph of any of the formulas, the store equals the topological evaluation after as many cycles as the graph is deep, and later cycles write nothing, if none of these first cycles panics or gives NaN |
| Calculations.StaysDefined | src/calculations/calculations.go:467-1183 | and then no later cycle does |
| Calculations.RegionIsIndependent | src/calculations/calculations.go:467-1183 | in a part of the graph that holds its own calculated parcels, the store is that of running this part alone, whatever NaN and timers there are outside |
| Calculations.SettledLocally | src/calculations/calculations.go:467-1183 | so a point whose calculated ancestors are acyclic, defined and no timers has its topological value after rank + 1 cycles of the whole program |
| Calculations.QuietLocally | src/calculations/calculations.go:467-1183 | and is not written from then on |
| Calculations.ClockOutside | src/calculations/calculations.go:553-556 | a part without timers computes the same at all times |
| Calculations.FixpointIsUnique | src/calculations/calculations.go:467-1183 | any store without panics and NaN that a cycle leaves unchanged is that evaluation |
| Calculations.FormulasAreActiveOrInert | src/calculations/calculations.go:489-1154 | every formula of the program, power factor and timer included, is computed always or never for its number of parcels, as convergence assumes |
| Calculations.TimerIsDueIff | src/calculations/calculations.go:553-556 | a timer is written in exactly the cycles that find another time stored |
| Calculations.SelfReferenceOscillates | src/calculations/calculations.go:563-569 | without acyclicity there is no limit: a point that is the negative sum of itself changes sign and is written in every cycle |
| Browse.ProcessReferences | src/OPC-UA-Client/AsduReceiveHandler.cs:1243-1265 | the references of one node add exactly the unrecorded targets, each with the walk that reached it and its path string |
| Browse.ProcessBatch | src/OPC-UA-Client/AsduReceiveHandler.cs:1227-1267 | the answers for a batch are processed node after node, each path starting from the path of its node |
| Browse.BrowseFullAddressSpace | src/OPC-UA-Client/AsduReceiveHandler.cs:1118-1286 | recorded nodes are reached by a shortest walk filed under its path; an empty work list means that everything reachable is recorded; with a limit the list ends empty when the number of targets divided by the limit, plus the depth of the address space, stays below 128; without a limit it never ends empty, and everything within 128 references is recorded |
| Browse.VisitAdds | src/OPC-UA-Client/AsduReceiveHandler.cs:1243-1265 | what is new after a visit is one reference from the visited node, and queued unless it is a property |
| Browse.NewWalksAreReal | src/OPC-UA-Client/AsduReceiveHandler.cs:1243-1265 | recorded walks stay walks of the address space |
| Browse.IsWalkIff | src/OPC-UA-Client/AsduReceiveHandler.cs:1243-1265 | a walk follows the answered references from the start on, and only its last may be a property |
| Browse.LayeredAfter | src/OPC-UA-Client/AsduReceiveHandler.cs:1272-1282 | the work list holds at most two depths, in order |
| Browse.CoveredAfter | src/OPC-UA-Client/AsduReceiveHandler.cs:1148-1286 | every node reachable within the depth of the first listed node is recorded, no deeper than it could be |
| Browse.PopsSearching | src/OPC-UA-Client/AsduReceiveHandler.cs:1148-1286 | the search invariant holds after any number of visits |
| Browse.EmptyQueueMeansComplete | src/OPC-UA-Client/AsduReceiveHandler.cs:1148-1286 | with nothing left to browse the end of every walk is recorded |
| Browse.BatchAdvances | src/OPC-UA-Client/AsduReceiveHandler.cs:1216-1282 | processing batches, with or without nodes that were browsed before, is a first-in first-out search |
| Browse.RequestKeepsBetween | src/OPC-UA-Client/AsduReceiveHandler.cs:1148-1286 | a request takes as many nodes as the limit allows, or takes the whole list and moves one reference deeper |
| Browse.RequestsAreBounded | src/OPC-UA-Client/AsduReceiveHandler.cs:1148-1286 | full requests consume the targets and the others the depth, which bounds the number of requests |
| Browse.RequestMakesProgress | src/OPC-UA-Client/AsduReceiveHandler.cs:1154-1282 | with a limit every request decreases the unrecorded nodes, or keeps them and shortens the list |
| Browse.CountedOnce | src/OPC-UA-Client/AsduReceiveHandler.cs:1148-1286 | nodes are queued once: the visited and the queued ones are recorded nodes and the start |
| Browse.RecordsAreBounded | src/OPC-UA-Client/AsduReceiveHandler.cs:1148-1286 | no more nodes are recorded than the address space has targets |
| Browse.PathSpellsWalk | src/OPC-UA-Client/AsduReceiveHandler.cs:1232-1247 | with ordinary names the recorded path is the root and the names along the walk |
| KeyAllocation.OpcUaClient.PublishValue | src/OPC-UA-Client/MongoUpdate.cs:90-276 | one value adds its inserts and, unless it is too big, its update to the writes |
| KeyAllocation.OpcUaClient.DequeueLoop | src/OPC-UA-Client/MongoUpdate.cs:66-284 | the loop takes values in order until the queue is empty, the list of writes is full or the time is up, and does for each what the value calls for |
| KeyAllocation.OpcUaClient.PublishOne | src/OPC-UA-Client/MongoUpdate.cs:92-174 | the first value of an address takes the next key or keys and its one or two documents; any other takes none |
| KeyAllocation.WritesOfValue | src/OPC-UA-Client/MongoUpdate.cs:90-276 | one value appends one insert per document, in order, and then its update unless it is too big |
| KeyAllocation.WritesAreTheRun | src/OPC-UA-Client/MongoUpdate.cs:66-284 | for every queue, the documents of the insert operations among the writes are exactly those of the run over the same values, in order |
| KeyAllocation.UpdatesAreTheValues | src/OPC-UA-Client/MongoUpdate.cs:177-276 | and the updates are exactly those of the values that are not too big, in order |
| KeyAllocation.KeysCountOn | src/OPC-UA-Client/MongoUpdate.cs:109-174 | a connection counts on from its last key; a value takes one key per document and notes its address |
| KeyAllocation.NothingToPublish | src/OPC-UA-Client/MongoUpdate.cs:92-109 | a value changes nothing exactly when it does not publish or its address is known |
| KeyAllocation.DocumentsOfValue | src/OPC-UA-Client/TagsCreation.cs:293-369 | key, kind, address and links of the documents of a value |
| KeyAllocation.FirstKeyFollows | src/OPC-UA-Client/MongoUpdate.cs:112-133 | the first key follows the highest stored one between n million and the next, and is n million when there is none |
| KeyAllocation.FirstKeys | src/OPC-UA-Client/MongoUpdate.cs:114-121 | the base of a range is a million times the number, in 32 bits |
| KeyAllocation.ConnIndexIsFirst | src/OPC-UA-Client/MongoUpdate.cs:90-112 | a value belongs to the first connection with its number, or to the first of all |
| KeyAllocation.RangesAreDisjoint | src/OPC-UA-Client/MongoUpdate.cs:114-121 | for numbers 1 to 2146 nothing wraps and no key belongs to two connections |
| KeyAllocation.RangeIsWholeIff | src/OPC-UA-Client/MongoUpdate.cs:114-121 | both ends of a range are as intended exactly for the numbers -2147 to 2146 |
| KeyAllocation.WrappedRangeReusesBase | src/OPC-UA-Client/MongoUpdate.cs:112-133 | for every number whose range wraps, stored keys are not found and the base is used, whatever is stored |
| KeyAllocation.FirstWrappingNumber | src/OPC-UA-Client/MongoUpdate.cs:114-121 | 2147 is the first number whose range wraps |
| KeyAllocation.FirstKeyIsFreshIff | src/OPC-UA-Client/MongoUpdate.cs:112-133 | the first key is new exactly when no document sits at the base alone and the range is not full to its end |
| KeyAllocation.StepKeepsInv | src/OPC-UA-Client/MongoUpdate.cs:66-176 | taking a value or flushing some inserts keeps the keys of every connection increasing from its first key |
| KeyAllocation.FirstKeyUnaffected | src/OPC-UA-Client/MongoUpdate.cs:112-133 | the first key of a connection does not depend on what the others have inserted |
| KeyAllocation.RunKeepsInv | src/OPC-UA-Client/MongoUpdate.cs:66-176 | so in every run of values and flushes |
| KeyAllocation.KeyIsOwn | src/OPC-UA-Client/MongoUpdate.cs:109-174 | a key lies in the range of its connection, and was stored before only as the base of a range without higher keys |
| KeyAllocation.KeysAreDistinctAndFresh | src/OPC-UA-Client/MongoUpdate.cs:109-174 | all keys of a run are different, and each is such a key |
| KeyAllocation.LinkedPairIff | src/OPC-UA-Client/TagsCreation.cs:293-369 | a value inserts a command and a supervised document that name each other exactly if it is writable, commands are enabled and it is not a method |
| KeyAllocation.RunKeepsNoted | src/OPC-UA-Client/MongoUpdate.cs:92-174 | in every run an address that is noted gets no more documents |
| KeyAllocation.PublishedOnceAndLinkedIff | src/OPC-UA-Client/MongoUpdate.cs:92-174 | in every run the documents of an address are those of its first published value, and hold a linked pair exactly under that condition |
| AutoCreate.RtCollection.InsertOne | src/OPC-DA-Client/TagsCreation.cs:494-501 | an insert succeeds exactly when key and tag are free |
| AutoCreate.RtCollection.UpdateAddress | src/OPC-DA-Client/TagsCreation.cs:506-522 | the update gives the tag of this connection its address and reports whether it exists |
| AutoCreate.ReaddressedMeans | src/OPC-DA-Client/TagsCreation.cs:506-522 | the address of the tag of this connection is replaced, and nothing else of any document |
| AutoCreate.TakenElsewhereIff | src/OPC-DA-Client/TagsCreation.cs:494-522 | a tag is taken elsewhere exactly when a document of another connection has it |
| AutoCreate.OpcDaConnection.AutoCreateTag | src/OPC-DA-Client/TagsCreation.cs:490-527 | after any number of rounds of the loop the collection is that of the attempt function, and tag and address are noted exactly when the loop has ended |
| AutoCreate.OpcDaConnection.ProcessValueResults | src/OPC-DA-Client/AsduReceiveHandler.cs:261-342 | no document of another connection changes, none is lost, and new keys lie above the last one used; the creations all end exactly when no new item's tag belongs to another connection, and then every new item is stored under its tag and address |
| AutoCreate.LoopEndsIff | src/OPC-DA-Client/TagsCreation.cs:490-527 | the loop ends exactly when no other connection has the tag, within one pass more than there are stored keys from the start on |
| AutoCreate.AttemptsCreate | src/OPC-DA-Client/TagsCreation.cs:490-527 | however many passes it takes, the result is the document at the least free key not below the start, or only the new address of the existing tag |
| AutoCreate.LoopEndsWithin | src/OPC-DA-Client/TagsCreation.cs:490-527 | a tag of another connection is never created, any other within more passes than there are documents |
| AutoCreate.TakenStaysIff | src/OPC-DA-Client/AsduReceiveHandler.cs:323-339 | whether another connection has a tag does not change while this one creates its own |
| AutoCreate.CreatedGrows | src/OPC-DA-Client/TagsCreation.cs:490-527 | a creation stores the tag, keeps tags unique and touches no document of another connection |
| AutoCreate.GrownTransitive | src/OPC-DA-Client/AsduReceiveHandler.cs:323-339 | these guarantees add up over a list of items |
| AutoCreate.CreatedKeepsStored | src/OPC-DA-Client/AsduReceiveHandler.cs:323-339 | a later creation does not undo an earlier one |
| I104mFrames.I104mParseObj | src/i104m/i104m.go:323-472 | the decoder computes the point of an object, rejects unknown types and panics exactly where an index leaves the buffer |
| I104mFrames.ReadValue | src/i104m/i104m.go:342-416 | value, quality and transient flags by type |
| I104mFrames.SourceTime | src/i104m/i104m.go:417-424 | the seven time bytes as they are given to the calendar |
| I104mFrames.SequenceFrame | src/i104m/i104m.go:891-902 | the loop over the slots returns the operations in order, or panics |
| I104mFrames.ReceivePacket | src/i104m/i104m.go:831-958 | what a packet leads to, by signature and type |
| I104mFrames.SlotsPanicIff | src/i104m/i104m.go:891-902 | the loop panics exactly when the last object it announces reaches past the buffer |
| I104mFrames.CrashesIff | src/i104m/i104m.go:831-958 | a packet crashes the driver exactly in that case; single frames never do |
| I104mFrames.WholeSlotsNeverCrash | src/i104m/i104m.go:891-902 | frames whose slots fit the buffer never crash it |
| I104mFrames.SlotIsolatedIff | src/i104m/i104m.go:857-902 | what is read from a slot depends on that slot alone, exactly for the types other than 2 and 4 |
| I104mFrames.ObjectReadsBack | src/i104m/i104m.go:342-424 | a written object is read back whole, whatever follows it |
| I104mFrames.ReadsOnlyEncodable | src/i104m/i104m.go:342-424 | and every result of the decoder is such an object |
| I104mFrames.SlotsReadBack | src/i104m/i104m.go:891-902 | addresses, values and quality of all items come back in order |
| I104mFrames.SequenceFrameReadsBack | src/i104m/i104m.go:833-902 | a packet with a sequence header that carries items is turned into exactly their updates, whatever its spare bytes hold |
| I104mFrames.WrittenFrameReadsBack | src/i104m/i104m.go:833-902 | for every type that stays in its slot, writing items up to the size of the buffer and decoding returns them |
| I104mFrames.SingleFrameReadsBack | src/i104m/i104m.go:923-958 | a single frame comes back as its one item |
| I104mFrames.SlotSizeIsStandard | src/i104m/i104m.go:857-890 | the distance of two objects is four address octets, the element and the time tag of its type; every other type is refused |
| I104mFrames.StandardFrameReadsBack | src/i104m/i104m.go:833-902 | for every type that stays in its slot, a packet made of the mark, six words and one object after the other, each of address, element and tag without padding, becomes one update per object |
| I104mFrames.ObjectsReadBack | src/i104m/i104m.go:891-902 | objects laid one after the other are read as their updates, whatever stands before and behind them |
| I104mFrames.StandardSingleReadsBack | src/i104m/i104m.go:923-958 | a single packet has its address in place of the number of objects |
| I104mFrames.StatusBits | src/i104m/i104m.go:389-416 | single points show one bit; double points show the upper of two and are in transit while the two are equal |
| I104mFrames.StandardTimeReadsBackIff | src/i104m/i104m.go:417-424 | a CP56Time2a time is read as sent exactly when it carries no summer-time bit and no day of the week |
| I104mFrames.StepPositionReadsBackIff | src/i104m/i104m.go:361-372 | a step position is read as sent exactly when it is not negative, and 128 too high otherwise |
| I104mCommands.CommandForwarder.CommandCancel | src/i104m/i104m.go:171-182 | the cancel reason of one command is set and nothing else |
| I104mCommands.CommandForwarder.CommandDelivered | src/i104m/i104m.go:185-196 | one command is marked delivered and nothing else |
| I104mCommands.CommandForwarder.Forward | src/i104m/i104m.go:205-310 | one event leads to the datagrams and the outcome of the event function |
| I104mCommands.CommandForwarder.IterateChangeStream | src/i104m/i104m.go:199-316 | events are handled in order until one finds the driver inactive |
| I104mCommands.SentIff | src/i104m/i104m.go:280-310 | datagrams go only to non-blank addresses among those tried, one goes out exactly when some attempt succeeds, and otherwise the last failure is the reason |
| I104mCommands.OthersUntouched | src/i104m/i104m.go:199-316 | a stream leaves commands that do not occur in it alone |
| I104mCommands.EveryCommandSettles | src/i104m/i104m.go:202-315 | a command of this connection ends with exactly one of delivered and a cancel reason, delivered exactly when it is not older than 10 s and one of the first two addresses took it, with at most two datagrams and none when expired; after the driver was found inactive it is never touched |
| I104mCommands.PayloadReadsBackIff | src/i104m/i104m.go:226-278 | the 28 bytes carry the command as queued exactly when every field fits an unsigned word |
| I104mCommands.PayloadWordByWord | src/i104m/i104m.go:226-278 | four octets 0x4b, then address, type, value, select flag, qualifier and common address at octets 4, 8, 12, 16, 20 and 24 |
| I104mCommands.FirstTwoAreTried | src/i104m/i104m.go:280-310 | of two or more addresses the first two are tried, each that takes the command gets its own datagram, and no other does |
| I104mCommands.OnlyOneIsTried | src/i104m/i104m.go:280-310 | a single address is tried once, and without addresses nothing is sent |
| I104mCommands.ReasonOfFailure | src/i104m/i104m.go:280-310 | the reason of a command that nobody took, by the last address tried |
| I104mCommands.ExpiredIff | src/i104m/i104m.go:213-219 | a command older than 10000 ms is cancelled as expired and not sent; a younger one is sent to who takes it |
| I104mCommands.ForeignEventIsIgnored | src/i104m/i104m.go:204-212 | other operations, other connections and documents that cannot be read change nothing |
| I104mCommands.BlankIff | src/i104m/i104m.go:280-290 | an address is of no use when it holds nothing but white space |
| FolderIndex.FolderBuilder.EnsureFolder | src/OPC-UA-Server/index.js:497-519 | a folder is created under its parent only when its key is new; map and tree keep agreeing |
| FolderIndex.FolderBuilder.EnterSegment | src/OPC-UA-Server/index.js:511-519 | one more segment leads to the folder of the longer path |
| FolderIndex.FolderBuilder.FollowPath | src/OPC-UA-Server/index.js:492-520 | the non-empty segments lead to the folder of the path, and exactly the beginnings of the path are added |
| FolderIndex.FolderBuilder.FindParentVariable | src/OPC-UA-Server/index.js:467-490 | the first variable whose path and description spell the tag's path, exactly when there is one |
| FolderIndex.AttachedIff | src/OPC-UA-Server/index.js:467-490 | of two tags the second is attached to the first exactly when the first is a variable of the same group whose path and description spell the path of the second |
| FolderIndex.FolderBuilder.PlaceInTree | src/OPC-UA-Server/index.js:492-522 | a tag is put into the folder of its group and path |
| FolderIndex.FolderBuilder.PlaceTags | src/OPC-UA-Server/index.js:458-524 | after all tags, map and tree agree, hold the needed keys and no others, and every tag is in its place |
| FolderIndex.AddKeepsAgree | src/OPC-UA-Server/index.js:511-519 | a new folder under the key its ancestors spell keeps map and tree in agreement |
| FolderIndex.DoneStep | src/OPC-UA-Server/index.js:461-524 | placing one more tag keeps what is known of the earlier ones |
| FolderIndex.SplitRejoins | src/OPC-UA-Server/index.js:492 | the parts of a split path, joined by slashes, are the path |
| FolderIndex.SegmentsOfPath | src/OPC-UA-Server/index.js:492-510 | the segments are the parts of the path in order, without the empty ones |
| FolderIndex.NeededKeysIff | src/OPC-UA-Server/index.js:461-524 | the keys are exactly those of the beginnings of the placed paths |
| FolderIndex.OneFolderPerKey | src/OPC-UA-Server/index.js:461-524 | one folder exists per distinct key |
| FolderIndex.FolderSpellsPath | src/OPC-UA-Server/index.js:492-522 | without slashes in groups, the names above a tag are its group, if used, and its non-empty segments |
| FolderIndex.SameFolderIff | src/OPC-UA-Server/index.js:492-522 | two tags share a folder exactly when their keys are equal |
| FolderIndex.SameKeyIff | src/OPC-UA-Server/index.js:492-522 | whatever the groups hold, keys are equal exactly for the same group and segments, or when the group of one tag is that of the other extended by leading segments of the other and its segments are the rest |
| FolderIndex.TagsMeetIff | src/OPC-UA-Server/index.js:492-522 | and that is the exact condition for two tags of the tree to share a folder |
| FolderIndex.SlashInGroupMerges | src/OPC-UA-Server/index.js:497-519 | such a shift leads to one folder from two different groups |
| FolderIndex.GroupsMeetIff | src/OPC-UA-Server/index.js:497-519 | tags of two different groups can share a folder exactly when one group is the other, a slash, and non-empty names between slashes |
| FolderIndex.GroupsMeetExample | src/OPC-UA-Server/index.js:497-519 | for example the groups A and A/B |
| FolderIndex.PlainGroupExtendsNone | src/OPC-UA-Server/index.js:497-519 | a group without a slash extends no other |
| FolderIndex.ShareFolderIff | src/OPC-UA-Server/index.js:492-522 | when neither group extends the other, two tags share a folder exactly when group, if used, and non-empty segments are equal |
| Paths.ExtendInjective | src/OPC-UA-Server/index.js:511-513 | without slashes in names, a path determines its base and its segments |
| Paths.ExtendEqualIff | src/OPC-UA-Server/index.js:511-513 | for any bases, two paths are equal exactly when the segments of one end with those of the other and its base extended by the rest is the base of the other |

## Left out

- Rounding, NaN and infinities: values are reals, square root is any function, and the float bytes of I104M stay bytes.
- FailoverVariants.CounterClosedForm: does not cover the zero time that the Go programs start with, which could equal a stored zero time.
- FailoverVariants.DriverRedundancy.ProcessInstance: covers the decision on a read document, not the delays and the database reconnection around it.
- PointProcessor.ChangeHandler.OnAnalogChange: analog points only; digital, string and JSON points are not modelled.
- PointProcessor.ChangeHandler.WriteBack: value texts and source times of the document are not modelled.
- The insert branch of the change handler (lines 517-539): it uses `value` before its declaration, so it throws and queues nothing.
- UpdateQueue.UpdateSender.Drain: fields are abstract texts, and the bulk write itself succeeds.
- SqlText.SqlWriter.Drain: the statement of the historian table (lines 203-245) is not modelled.
- SqlText.LastRowWinsIff: the meaning of the ordering and conflict clauses is stated by `Upserted` and `IsFirst`; no grammar of SQL is modelled that would derive it from the words of the statement.
- Formulas.Evaluate: formulas of a fixed number of parcels are written once, as coefficients or expressions, and have no loop to prove against them; what each computes is stated in `FormulaLaws`.
- FormulaLaws.ApparentPower: the square root is any function with a square that gives back its argument; in the program it is rounded.
- Calculations.Cycle: the clock is read once per cycle; a stored NaN is not a value of the snapshot, so what it does to later cycles of the points that use it is not modelled.
- Calculations.Converges: points that depend on a timer have no limit, because its value changes by itself; `SettledLocally` covers the others.
- Browse.BrowseFullAddressSpace: continuation points, error statuses and halved requests are not modelled; shortest walks and completeness assume that property nodes are reached by property references only.
- KeyAllocation.KeysAreDistinctAndFresh: one client, no other program inserting into the range, and fewer than a million keys per connection.
- KeyAllocation.OpcUaClient.DequeueLoop: a list of writes that is kept after a failed bulk write is not modelled.
- AutoCreate.OpcDaConnection.AutoCreateTag: the source has no bound on its rounds; the model runs any given number of them.
- I104mFrames.SourceTime: the calendar's normalisation of out-of-range hours, days and months is not modelled.
- I104mFrames.ReceivePacket: duplicate packets, the channel between the two routines and the bulk write are not modelled.
- I104mCommands.CommandForwarder.Forward: values are integers; the conversion of negative or very large floats to unsigned is left to the platform by the language. Blank addresses are those of ASCII white space.
- I104mCommands.EveryCommandSettles: each command is inserted once.
- FolderIndex.FolderBuilder.PlaceTags: addresses are texts; folders of groups two and three and the variables themselves are not modelled.
- Connections, reconnection, change-stream resume tokens, TLS, configuration and logs: input and output only.
- OPC, IEC 61850 and ONVIF libraries, HTTP servers, report adapters, alarm beep and demo simulator: thin layers over code outside the repository.
- The constant fields of created documents beyond key, origin, tag, address and links.
- `convertValueVariant` of the OPC-UA server: its bit operators keep no value range that could be stated.
