# n5-ectest and its EC driver: a verified model

n5-ectest measures how the embedded controller (EC) of the Minisforum N5 Pro regulates its fans. A
writing run samples on a fixed cadence, writes one fan channel, enforces temperature and tach limits and
puts back everything it touched. Its verdicts T1 (mapping), T2 (hand-back) and T3 (settling) are computed
while it samples; the report rebuilds them later from the stored log. A guardian process and a state file
make sure that no channel is left in manual mode when a process is killed. All writes end in a hwmon
driver that talks to the EC through a port handshake.

The project models these parts and proves, for all inputs, runs and interleavings:

- **Online and offline agree.** `Validate.Validation` runs the whole procedure against a machine that
  answers anything at any time; the results it returns are those the report computes from the stored log
  (times rounded to milliseconds, temperatures to tenths) if and only if the rounding keeps what they depend
  on, and then the report confirms its T1 or T2/T3 results (`Validate.NoMismatch`).
- **A manual channel is never forgotten.** `Crash.NeverForgotten` holds in every interleaving of guardian,
  worker, restorer and SIGKILL; `Crash.TraceIsTaken` ties the worker to the runner of this model.
- **Verdicts mean what the specification says.** Final T3, exact aggregation, exact T1.
- **The driver keeps its promises.** Handshake, cache, partial updates, removal, tear-free tach; and the
  tool's expectation simulates the driver's cache.
- **Smaller cores.** The restore values and the single write path, log coverage, snapshot and register
  dumps.

## Reading order

| part | modules |
|---|---|
| stored data and rules | `StoredTime`, `RunLog`, `SpecRules`, `StoredInputs` |
| T2 and T3 | `Handback`, `Aggregate`, `HandbackData`, `RecomputeHandback`, `SubRuns`, `StoredHandback`, `HandbackRefinement` |
| T1 | `Mapping`, `RecomputeMapping`, `StoredMapping` |
| the run | `WorkerTrace`, `Env`, `Cadence`, `Settle`, `Runner`, `Procedure`, `RunHandback`, `RunMapping`, `Validate`, `Compare` |
| crash protocol | `WriterLock`, `Crash` |
| write path | `Decimal`, `PwmWriter`, `RestoreValues` |
| driver | `EcPorts`, `Driver`, `Expectation` |
| logs and dumps | `Coverage`, `Text`, `Snapshot`, `SnapshotDiff`, `Dcr` |

## What the proofs found

- **A forced last slot can be stored early.** The last slot of a hold is taken even when it is overdue; it
  can carry an earlier time than the sample before it (`Cadence.LastSlotCanBeStoredFirst`). That happens
  exactly when the sample before it was read after the last slot was due and the last one at most 0.5 s late
  (`Cadence.OrderExact`, `Cadence.OvertakenBySlot`), and the evaluation sorts.
- **The expectation can raise a false alarm.** Entering manual mode on a channel that is manual already
  with another duty than 255, while its mode is unknown to the expectation, makes the tool expect 255
  although the driver keeps the duty. `Expectation.OwnWriteExact` proves that this is the only case.
- **The parent's release unlocks its child.** The lock does not always last until the last descriptor is
  closed: the release of the process that acquired it unlocks a child that still has a descriptor.
  `WriterLock.LastsExactly` proves that this and a replaced lock file are the only ways in. The guardian
  releases only after its worker ended, so the crash protocol is safe.
- **Coverage is monotone only for disjoint downtimes.** Downtime planned twice is subtracted twice
  (`Coverage.MonotoneExact`).
- **Stored temperatures can cross a step.** Storing rounds a table input to a tenth of a degree, and the
  report can then come to another verdict (`HandbackData.StoredInputCanCross`,
  `StoredMapping.StoredVerdictCanChange`). `StoredHandback.StoringKeepsExactly` and
  `StoredMapping.StoringKeepsExactly` say exactly when it does, for every log. It never happens with inputs
  outside narrow bands of 0.05 C at the table steps and their thresholds (`Validate.StorableIsKept`); for T2
  and T3 every temperature inside a band belongs to a series whose crossing changes
  (`StoredInputs.UnstableChangesCrossing`). The driver reports whole degrees
  (`Driver.TemperaturesAreStored`), so it does not occur with it.
- **An INCOMPLETE marker without a reason is lost** by the snapshot parser, and it erases the reason of an
  earlier one (`SnapshotDiff.MarkWithoutReason`). A text is treated as marked exactly when its last marker
  line has a reason that is not blank (`SnapshotDiff.MarkOfText`); the tools always print one.
- **A tach value that turns around within one attempt can be torn** (`Driver.TornReading`): exactly when it
  crosses a multiple of 256 and comes back between the reads (`Driver.AcceptedExact`).

## Model

| member | source | states |
|---|---|---|
| `StoredTime.RoundMs` | ectest/internal/spec/sample.go:58-62 | the stored time is the nearest millisecond: off by at most half of one |
| `StoredTime.SinceMsOfStored` | ectest/internal/spec/sample.go:64-66 | a difference computed from two stored times is the one computed from the exact times, for all times |
| `StoredTime.SinceMsAccuracy` | ectest/internal/spec/sample.go:64-66 | that difference is at most one millisecond off the exact one |
| `RunLog.PhaseSamplesOfStored` | ectest/internal/report/recompute.go:144-152 | selecting a phase and storing samples commute |
| `SpecRules.MValue` | ectest/internal/spec/eval.go:645-654 | the second written value: 48 above A for 52 <= A <= 152, 100 below that and 200 above it |
| `SpecRules.Combine` | ectest/internal/spec/eval.go:517-536 | PASS (FAIL) exactly when there is a part and all parts are PASS (FAIL); never not-applicable |
| `SpecRules.RegistersPartitioned` | ectest/internal/spec/eval.go:197-233 | each duty register is judged for exactly its own channel and is an other register of all the rest |
| `Handback.EvalHandback` | ectest/internal/spec/eval.go:335-432 | sort, deviation pass and window search give exactly the result the order-free rules fix: first leaving time, T2, first sample whose whole 120 s stay within 2 counts, T3 |
| `Handback.FindSteady` | ectest/internal/spec/eval.go:393-413 | returns the first sorted position whose covered 120 s window is steady, or none if there is none |
| `Handback.SortPositions` | ectest/internal/spec/eval.go:345-346 | a stable sort: ordered by time, equal times in log order, every sample once |
| `Handback.EvaluatesOnce` | ectest/internal/spec/eval.go:335-432 | the rules leave nothing open: two results of one sub-run that satisfy them are equal |
| `Handback.T3Final` | ectest/internal/spec/eval.go:393-425 | no strictly later samples change a T3 PASS or FAIL |
| `Handback.T2PassKept` | ectest/internal/spec/eval.go:370-387 | later samples keep a T2 PASS |
| `Handback.T2FailNeverPasses` | ectest/internal/spec/eval.go:370-387 | a T2 FAIL never becomes PASS, and stays FAIL exactly when all later samples stay within 2 counts |
| `Aggregate.EvalHandbackRegs` | ectest/internal/spec/eval.go:441-513 | the registers' results merged: one register as it is, disagreement decides nothing |
| `Aggregate.MergedExact` | ectest/internal/spec/eval.go:466-490 | a sub-run is PASS (FAIL) in T2 or T3 exactly when every judged register is |
| `Aggregate.AggregateHandback` | ectest/internal/spec/eval.go:541-588 | both tests over the repetitions: combined sub-runs, missing directions, at least three repetitions |
| `Aggregate.FinishHandback` | ectest/internal/runner/runner.go:894-914 | the aggregate, undecided after an abort |
| `Aggregate.AggregationExact` | ectest/internal/spec/eval.go:541-588 | T2 (T3) is PASS resp. FAIL iff there are at least 3 repetitions, each with H and M, and every judged register of every sub-run has that verdict |
| `Aggregate.TestIsFinal` | ectest/internal/spec/eval.go:541-588 | later samples in the same sub-runs never change a PASS or FAIL of the whole T3 |
| `HandbackData.SeriesOfStored` | ectest/internal/runner/runner.go:696-709 | the register series rebuilt from stored samples and the stored auto time equals the runner's |
| `HandbackData.AutoValuesOfStored` | ectest/internal/runner/runner.go:863-875 | the automatic values are the same from the stored window, whatever it shows |
| `HandbackData.AutoValueExact` | ectest/internal/runner/runner.go:863-875 | A of a register is v iff the last sample of the window that shows it shows v, and unknown iff no sample shows it |
| `RecomputeHandback.ContextOfWindow` | ectest/internal/report/recompute.go:396-420 | what the rebuild takes from the window: A of each judged register from the last sample that shows it, M from A of the primary one, the crossing from the table inputs |
| `HandbackData.SubEvaluationOfStored` | ectest/internal/runner/runner.go:878-889 | a whole sub-run evaluates the same on stored data, for all stable inputs |
| `HandbackData.StoringChangesExact` | ectest/internal/runner/runner.go:731-741 | storing changes the result of a sub-run iff it changes the crossing of its inputs, the A window did not cross, and some register is decided without it |
| `HandbackData.StoredInputCanCross` | ectest/internal/spec/sample.go:51-56 | board inputs of 59.90 C and 61.96 C: a T2 PASS that is rebuilt as undecided |
| `StoredInputs.AcrossChangesExact` | ectest/internal/spec/eval.go:177-192 | storing changes a comparison with a step exactly when the reference or the value lies in a band of 0.05 C at the step or its threshold |
| `StoredInputs.CrossingOfStored` | ectest/internal/runner/runner.go:723-741 | the crossing of a stored series, stated in exact temperatures |
| `StoredInputs.StableKeepsCrossing` | ectest/internal/runner/runner.go:723-741 | a series of stable temperatures crosses the same steps after storing |
| `StoredInputs.UnstableChangesCrossing` | ectest/internal/runner/runner.go:723-741 | the condition is exact: every other temperature belongs to a series whose crossing changes |
| `HandbackData.CrossedExact` | ectest/internal/runner/runner.go:711-725 | the crossing over samples: from the first sample that has the table input of the channel, some other one has it at least 2 C beyond a step |
| `HandbackData.SubRunPasses` | ectest/internal/runner/runner.go:731-741 | a sub-run passes T2 iff the input crossed no step in the A window or since the write, and every judged register has a sample within 60 s that left the written value, which A is not too close to |
| `SubRuns.SubRunFailsT2` | ectest/internal/spec/eval.go:370-387 | a sub-run fails T2 iff the input crossed nowhere and every judged register fails it over its samples |
| `SubRuns.SubRunPassesT3` | ectest/internal/spec/eval.go:393-425 | a sub-run passes T3 iff the input crossed nowhere and every judged register is steady for 120 s from a sample within its limit on |
| `SubRuns.SubRunFailsT3` | ectest/internal/spec/eval.go:393-425 | a sub-run fails T3 iff the input crossed nowhere and every judged register fails it over its samples |
| `RecomputeHandback.RecomputeT2` | ectest/internal/report/recompute.go:390-476 | the offline rebuild returns the result defined by the auto events of the log and the samples under their phase names |
| `RecomputeHandback.RebuildRuns` | ectest/internal/report/recompute.go:422-473 | the event loop groups the sub-runs by repetition number |
| `HandbackRefinement.PhaseOfRec` | ectest/internal/report/recompute.go:436-452 | the phase names of a sub-run select exactly its samples out of the whole log |
| `StoredHandback.SubOfStored` | ectest/internal/report/recompute.go:436-452 | a sub-run found by its event gives the same result on the stored log iff it crosses the same (in the A window or since the write) or no register of it is decided |
| `StoredHandback.StoringKeepsExactly` | ectest/internal/report/recompute.go:390-476 | for every log: the T2 (T3) result of the stored log is that of the exact log iff every sub-run crosses the same or is undecided |
| `StoredHandback.StableIsKept` | ectest/internal/runner/runner.go:723-741 | stable inputs in the samples of the hand-back test are enough |
| `HandbackRefinement.RebuildOfLog` | ectest/internal/report/recompute.go:390-476 | for every run that measured A the rebuild from the exact log is the runner's result |
| `HandbackRefinement.RebuildIsExact` | ectest/internal/report/recompute.go:390-476 | for every run that measured A the rebuild from the stored log is the runner's result - test, repetitions, sub-runs and registers - iff storing keeps the crossings of all decided sub-runs |
| `HandbackRefinement.RebuildWithoutA` | ectest/internal/report/recompute.go:406-412 | a run that ended before A was known is not run for the report either |
| `Runner.NextSlotGoesOn` | ectest/internal/runner/runner.go:325-333 | the next slot is the first one still in the future, or the forced last one; no future slot is left out |
| `Cadence.SlotsIncrease` | ectest/internal/runner/runner.go:302-336 | slots strictly increase, within 1..n |
| `Cadence.SlotsExact` | ectest/internal/runner/runner.go:302-310 | a hold has as many slots as whole intervals fit into it, and one if it is shorter |
| `Cadence.StoredAtItsSlot` | ectest/internal/runner/runner.go:201-214 | a sample is stored exactly at its slot iff it was read at most 0.5 s late |
| `Cadence.AllSlotsTaken` | ectest/internal/runner/runner.go:325-333 | a hold in which no sample overran its slot took all n slots |
| `Cadence.PairExact` | ectest/internal/runner/runner.go:201-214 | two samples in a row are stored in order iff the first was not overtaken: read after the slot of the second was due, which itself was read at most 0.5 s late; only the forced last slot can do that |
| `Cadence.OrderExact` | ectest/internal/runner/runner.go:302-336 | the stored times of a hold are in order iff the sample before the last was not overtaken by it |
| `Cadence.OvertakenBySlot` | ectest/internal/runner/runner.go:325-333 | with an interval above 0.5 s, overtaken means: read after the last slot was due, and that one at most 0.5 s late |
| `Cadence.LastSlotCanBeStoredFirst` | ectest/internal/runner/runner.go:329-332 | the forced last slot can be stored before the sample that overran it |
| `WorkerTrace.DirtyExact` | ectest/internal/runner/runner.go:434-470 | the bookkeeping is exact: a channel is dirty iff it was sent something and its steps do not end with it back |
| `WorkerTrace.ClosingCommands` | ectest/internal/runner/runner.go:434-512 | the end of a run commands nothing but holds of its hot channel, manual mode and then 255, each whole or ended after its first command; nothing without a hot channel |
| `WorkerTrace.NothingBeforeStateFile` | ectest/internal/runner/runner.go:351-362 | in every allowed trace nothing reaches the EC before the state file was written |
| `WorkerTrace.OnlyTestedOrHot` | ectest/internal/runner/runner.go:366-410 | only the tested channel, or one whose hold at 255 was recorded before, is commanded, never below 100 or above 255 |
| `WorkerTrace.RoundsOf` | ectest/internal/runner/runner.go:434-446 | one close, seen per channel: a channel is restored (the hot one held at 255) once iff it was listed, stays listed iff that failed, and nothing else is sent to it |
| `WorkerTrace.LeftFailed` | ectest/internal/runner/runner.go:434-446 | a channel left after n closes was listed, and its steps end with n failed attempts to put it back |
| `Runner.LimitsExact` | ectest/internal/runner/runner.go:257-288 | the limits in the fields of a sample: tctl, NVMe and HDD temperatures not over theirs, no configured tach at 0 rpm unless its register reads 0 |
| `Runner.Run.CountLost` | ectest/internal/runner/runner.go:243-256 | stops exactly at the third sample in a row without a value of an enforced sensor |
| `Runner.Run.CheckLimits` | ectest/internal/runner/runner.go:257-288 | a limit is reported iff the sample is not within all of them; the CPU, then NVMe, then HDD channel is named exactly when its temperature is over the limit and no earlier one is; the first hot channel is remembered |
| `Runner.Run.SampleAt` | ectest/internal/runner/runner.go:201-289 | one sample: its stored time, the guard, and an abort reason the sample shows |
| `Runner.Run.HoldFrom` | ectest/internal/runner/runner.go:302-336 | terminates; one sample per slot on the cadence of the anchor, to the last slot unless aborted; a completed hold was within all limits; it stops only when a wait is cancelled, or for a reason its last sample shows; the guard is asked before every sample and stops the hold iff it says another writer is active |
| `Runner.Run.Send` | ectest/internal/runner/runner.go:351-410 | the state file before the first command, the command once, the channel touched |
| `Runner.Run.Write` | ectest/internal/runner/runner.go:366-379 | a duty outside 100..255 sends nothing; a successful write ends the log with its event |
| `Runner.Run.RestoreHot` | ectest/internal/runner/runner.go:477-512 | the channel is recorded and then sent manual mode and 255; it leaves the list iff both were accepted |
| `Runner.Run.Restore` | ectest/internal/runner/runner.go:450-470 | the channel is put back, or held when hot, by one attempt; it leaves the list iff that worked |
| `Runner.Run.Close` | ectest/internal/runner/runner.go:434-446 | every channel to restore - listed, or hot in a run that wrote - is tried exactly once, from 1 to 4, and stays listed iff its attempt failed; a further close does only what is left |
| `Runner.Run.Unrestored` | ectest/internal/runner/runner.go:516-524 | lists exactly the touched channels |
| `Runner.Run.UnlistedIsBack` | ectest/internal/runner/runner.go:516-524 | a channel not listed any more is back, and a held hot channel was last set to 255 |
| `Settle.WaitDcr` | ectest/internal/runner/settle.go:53-91 | no read before the minimum, reads a poll apart, reached iff the last read shows the value everywhere, otherwise cancelled, unreadable at once, or past the timeout |
| `Procedure.FollowsOn` | ectest/internal/runner/runner.go:600-650 | procedures done one after the other compose |
| `RunHandback.WriteAndHold` | ectest/internal/runner/runner.go:808-828 | manual mode and the duty in order, then a hold on the cadence of the write event |
| `RunHandback.Observe` | ectest/internal/runner/runner.go:833-836 | the samples after the auto command lie on the cadence of its event, which is t = 0 |
| `RunHandback.RunSub` | ectest/internal/runner/runner.go:804-843 | one sub-run: its commands, its log and its result, also when it stops anywhere |
| `RunHandback.RunRep` | ectest/internal/runner/runner.go:802-850 | 255 first, M only after its auto command, one result per auto command sent |
| `RunHandback.RunReps` | ectest/internal/runner/runner.go:800-853 | records in order, results grouped by repetition, the command plan followed |
| `RunHandback.RunHandback` | ectest/internal/runner/runner.go:768-859 | for any readings, failures and delays: the results returned are what the report rebuilds from the stored log iff storing keeps the crossings of decided sub-runs; M is 48 above the last reading of the A window, within 100..200; the commands are a beginning of the plan (all of it without abort), then one attempt to restore or to hold at 255; a run that ends early without an abort has no reading of A; nothing is sent for pwm4, without registers or after an abort |
| `RunHandback.PlanWritten` | ectest/internal/runner/runner.go:800-853 | the plan written out: manual mode, 255, auto, manual mode, M, auto, in each of three repetitions |
| `Mapping.EvalT1` | ectest/internal/spec/eval.go:694-988 | the loops give the verdict of the criteria stated over all samples at once |
| `Mapping.PassExact` | ectest/internal/spec/eval.go:694-988 | PASS iff every judged register shows the duty in every judged sample of every step, every other register stays within 15 counts of its rest value, no tach is noisy at rest, the own tach ends each step at least 200 rpm lower in the mean of its last three rows, no input of another channel crosses - all stated over rows |
| `Mapping.FailExact` | ectest/internal/spec/eval.go:940-952 | FAIL iff some judged sample shows a judged register off the duty, or some judged sample an other register 16 counts off its rest value while no sample of any step has another input across a step |
| `Mapping.PassMovesOwnTach` | ectest/internal/spec/eval.go:886-913 | a passed test moved the own tach, in the mean of the known values of the last three rows of its first and last step, by at least 200 rpm times the number of steps less one |
| `Mapping.FallsExact` | ectest/internal/spec/eval.go:886-913 | the tach criterion over rows: each step has a known value among its last three rows, and their mean is at least 200 rpm below that of the step before |
| `Mapping.RestBaseExact` | ectest/internal/spec/eval.go:783-800 | the rest value of a register is the integer nearest to the mean of what the rows show of it, none if none shows it |
| `Mapping.MeanOf` | ectest/internal/spec/eval.go:1006-1032 | the mean of the known values, none without any |
| `Mapping.IsNoisy` | ectest/internal/spec/eval.go:990-1004 | the spread exceeds 50 rpm iff two known readings are that far apart |
| `StoredMapping.RowOfStored` | ectest/internal/runner/runner.go:672-690 | what the test uses of a sample is the same after storing, except its table inputs, which are stored ones |
| `StoredMapping.VerdictInShort` | ectest/internal/spec/eval.go:940-988 | of the crossings the verdict only depends on whether there is one |
| `StoredMapping.StoredVerdictExact` | ectest/internal/spec/eval.go:940-988 | the verdict is the same on stored data iff storing keeps whether an input of another channel crossed, or a judged register differs, or the test is undecided anyway while no other register moved |
| `StoredMapping.StoringKeepsExactly` | ectest/internal/report/recompute.go:333-368 | the same for every log whose writes are not before its start |
| `StoredMapping.MeanOfStored` | ectest/internal/spec/eval.go:1006-1032 | the mean of stored readings is at most 0.05 C off the exact one |
| `StoredMapping.FarStaysOnItsSide` | ectest/internal/spec/eval.go:177-192 | a mean at rest at least 0.05 C away from every step stays on its side |
| `StoredMapping.StableIsKept` | ectest/internal/spec/eval.go:177-192 | when the means at rest stay on their side and no reading of a step lies in a band of 0.05 C at a threshold, storing keeps whether an input crossed |
| `StoredMapping.StoredVerdictCanChange` | ectest/internal/spec/sample.go:51-56 | a mapping test with board inputs of 59.90 C and 61.96 C that passes and is rebuilt as undecided |
| `RecomputeMapping.WriteTimeIsFirst` | ectest/internal/report/recompute.go:371-379 | the write time is that of the first matching event, none if there is none |
| `RecomputeMapping.RowExact` | ectest/internal/runner/runner.go:672-690 | which reading of a sample each entry of a row is: registers, tachs, CPU, board and ambient inputs, and the time since the write |
| `RecomputeMapping.RecomputeT1` | ectest/internal/report/recompute.go:333-368 | the rebuild returns the verdict defined by the log |
| `RunMapping.DataOfRun` | ectest/internal/report/recompute.go:333-379 | for a complete run the report takes the runner's data from the exact log, with the step times of the first write events |
| `RunMapping.RebuildIsExact` | ectest/internal/report/recompute.go:333-379 | from the stored log of a complete run the rebuild gives the runner's verdict iff storing keeps the crossing or the verdict does not depend on it |
| `RunMapping.RebuildIncomplete` | ectest/internal/report/recompute.go:335-342 | a run aborted before its end is undecided for the report too |
| `RunMapping.RunSteps` | ectest/internal/runner/runner.go:625-644 | the four steps in order with their write events, or a run that ended early and is undecided for the report |
| `RunMapping.T1PlanWritten` | ectest/internal/runner/runner.go:611-644 | the commands of the four steps: manual mode, 255, 217, 179, 140 |
| `RunMapping.RunT1` | ectest/internal/runner/runner.go:600-650 | for every run and abort point the verdict returned is the one the report rebuilds from the stored log iff storing keeps it; the commands follow the procedure, then one attempt to restore or to hold at 255, and the channel stays listed iff that failed |
| `Validate.Validation` | ectest/cmd/n5-ectest/validate.go:267-636 | a whole run: results equal the report's iff storing keeps what they depend on; a run is left unrestored only when every close (two, or three after an abort) tried the channel and failed; a run marked restored left every channel back; the hot channel of a run that wrote is at 255 or listed; until an abort all samples are within the limits; up to a point the commands are a beginning of the procedure (all of it when the test finished, with M from the last reading of A in the logged window, or only the automatic command if none was read), behind it channels are only put back and the hot one held; a test is not run only when blocked, cancelled or aborted before, and then sends nothing |
| `Validate.BeforeTest` | ectest/cmd/n5-ectest/validate.go:454-520 | what comes before the test sends nothing; the test is not run iff a gate blocked or failed, the run was cancelled or it was aborted by then; the gate window is only taken for a test that may write |
| `Validate.StorableIsKept` | ectest/internal/report/recompute.go:333-476 | stable table inputs, of the channel for T2 and T3 and of the other channels for T1, are enough for the agreement |
| `Validate.RepresentableIsStorable` | ectest/internal/spec/sample.go:51-56 | readings with at most one decimal are stable for every test |
| `Validate.NoMismatch` | ectest/internal/report/recompute.go:224-292 | when storing keeps what they depend on, the T1 or T2/T3 results of a run show no mismatch: every stored test, repetition and sub-run verdict is confirmed, in both directions |
| `Validate.End` | ectest/cmd/n5-ectest/validate.go:434-450 | the restore on every exit: two closes, three after an abort, each trying every channel still listed once; marked restored iff no channel is listed; nothing but restores and holds of the hot channel is sent |
| `Validate.SpecConfigTiming` | ectest/internal/runner/runner.go:96-101 | the specified timing is valid: 12 samples per hold, and the log after a hand-back reaches the T3 limit plus 120 s |
| `Compare.CompareTests` | ectest/internal/report/recompute.go:224-249 | no mismatch iff both sides have the same tests with the same verdicts and runs |
| `Compare.CompareRuns` | ectest/internal/report/recompute.go:251-292 | no mismatch iff every repetition is confirmed and none is missing on either side |
| `Compare.SameRunsExact` | ectest/internal/report/recompute.go:251-292 | the loops confirm all repetitions iff the numbers on one side occur on the other, both ways, with equal verdicts and sub-runs |
| `Compare.NumberedExact` | ectest/internal/report/recompute.go:251-292 | for numbered repetitions: as many, with equal verdicts and equal T2/T3 of every sub-run |
| `WriterLock.AcquireExact` | go/n5/writerlock/writerlock_unix.go:53-78 | Acquire succeeds iff the lock of the file at the path is free |
| `WriterLock.ReleaseExact` | go/n5/writerlock/writerlock_unix.go:122-132 | releasing a held lock frees it iff it was not adopted or no other descriptor is left; so an adopted release never unlocks the parent, and a parent's release would unlock its child |
| `WriterLock.NobodyElseAcquires` | go/n5/writerlock/writerlock_unix.go:8-19 | from the acquisition until the last descriptor is closed, in any order, by release or SIGKILL, nobody else acquires the lock while the file stays |
| `WriterLock.StepGuardsExact` | go/n5/writerlock/writerlock_unix.go:122-132 | a step ends the guard of a description that stays open iff it is the release of the descriptor that acquired it, or replaces the file; the lock is then free |
| `WriterLock.LastsExactly` | go/n5/writerlock/writerlock_unix.go:8-19 | along a run in which the description stays open, nobody can acquire at any point iff no such step was taken |
| `WriterLock.VerifiedHoldersShare` | go/n5/writerlock/writerlock_unix.go:106-118 | two verified holders share one open file description |
| `WriterLock.ReplacedLockIsShared` | go/n5/writerlock/writerlock_unix.go:38-41 | after the file was replaced there can be two holders, and the old one fails its check |
| `WriterLock.System.AcquireLock` | go/n5/writerlock/writerlock_unix.go:53-78 | the system calls of Acquire, proved against its specification |
| `WriterLock.System.AdoptLock` | go/n5/writerlock/writerlock_unix.go:86-96 | the system calls of Adopt; success means the lock is held and verified |
| `WriterLock.System.ReleaseLock` | go/n5/writerlock/writerlock_unix.go:122-132 | the system calls of Release; a second one does nothing |
| `Crash.StepKeeps` | ectest/cmd/n5-ectest/guardian.go:108-271 | every step of guardian, worker and restorer, SIGKILL included, keeps the invariant |
| `Crash.NeverForgotten` | ectest/cmd/n5-ectest/guardian.go:108-271 | in every run a channel commanded and not put back is named in a state file that is still active, unless, since it was last settled, the hold at 255 of it could not be recorded or the operator discarded the file |
| `Crash.ExcusesAreReal` | ectest/cmd/n5-ectest/validate.go:415-431 | a channel is exempt iff its hold at 255 was not recorded while the file did not name it, and given up iff a file that named it dirty was discarded; both only until it is settled |
| `Crash.NoNewWorker` | ectest/cmd/n5-ectest/guardian.go:119-158 | no worker starts while a run is unrestored or another worker lives; no process starts beside another |
| `Crash.OneAtWork` | ectest/cmd/n5-ectest/guardian.go:18-29 | two live processes are always a waiting guardian and its worker |
| `Crash.TraceIsTaken` | ectest/cmd/n5-ectest/validate.go:402-431 | every trace a run may produce is one the protocol's worker takes step by step |
| `Crash.RestoreByHand` | ectest/cmd/n5-ectest/restore.go:33-103 | whatever was killed, a restore that fails nowhere ends with the file marked, the lock free and no channel unaccounted for |
| `Crash.GuardianRestores` | ectest/cmd/n5-ectest/guardian.go:181-225 | the same for a guardian whose worker is gone without the mark |
| `Crash.KilledWorkerIsRestored` | ectest/cmd/n5-ectest/guardian.go:181-225 | so a worker killed by SIGKILL is cleaned up by the guardian that waits for it |
| `PwmWriter.Writer.Put` | ectest/internal/pwmw/pwmw.go:125-166 | panics exactly on a wrong channel, a duty below 100 or a wrong mode; whatever reaches the driver is safe |
| `PwmWriter.CommandsNeverPanic` | ectest/internal/pwmw/pwmw.go:125-143 | every command of an allowed run trace is a safe write on channel 1 to 4, so a whole run never reaches a panic |
| `PwmWriter.Writer.RestoreTo` | ectest/internal/pwmw/pwmw.go:202-217 | auto writes mode 2, a number d in 100..255 writes mode 1 and then d, stopping at the first write that fails; any other text writes nothing; no string makes it panic |
| `PwmWriter.PrintedPutsBack` | ectest/internal/pwmw/pwmw.go:202-217 | a printed duty 100..255 is put back as exactly this duty: mode 1 and the duty |
| `PwmWriter.Writer.Restore` | ectest/cmd/n5-ectest/validate.go:737-775 | the restore of a run writes the value of its channel, mode 2 without one, and never panics; pwm4 is set to 255 only |
| `PwmWriter.CheckExact` | ectest/cmd/n5-ectest/guardian.go:275-287 | the check accepts exactly the values that can be written |
| `PwmWriter.RestoreFromState` | ectest/cmd/n5-ectest/guardian.go:230-271 | no content of a state file panics, writes an unsafe value or sets pwm4 to anything but 255; every channel with a usable value is tried; complete only when every key names a channel and every channel took its value, in ascending order |
| `PwmWriter.CompleteRestores` | ectest/cmd/n5-ectest/guardian.go:230-271 | a complete restore wrote, per channel, mode 2 for auto, mode 1 and d for a value that reads as d in 100..255, mode 1 and 255 for pwm4, and nothing else to it |
| `PwmWriter.Channels` | ectest/cmd/n5-ectest/guardian.go:234-243 | exactly the channels the keys name, sorted |
| `Decimal.AtoiItoa` | ectest/internal/runner/restorevals.go:77-77 | reading a printed 64-bit number gives it back |
| `RestoreValues.ParsedIsSafe` | ectest/internal/runner/restorevals.go:55-78 | only auto or a printed duty 100..255 comes out of an argument, for pwm4 only 255 |
| `RestoreValues.ParsePrinted` | ectest/internal/runner/restorevals.go:55-78 | every safe channel and value can be asked for: printing and parsing gives them back |
| `RestoreValues.ParseExact` | ectest/internal/runner/restorevals.go:55-78 | exactly these texts are accepted: a channel 1 to 4, an equals sign and auto or a number in 100..255, with space around the whole; pwm4 takes 255 only |
| `RestoreValues.ResolveRestore` | ectest/internal/runner/restorevals.go:98-170 | the value of every asked channel: argument, 255 for pwm4, configuration, default; a fixed pwm4 stop duty is reported |
| `RestoreValues.ResolvedIsSafe` | ectest/internal/runner/restorevals.go:98-170 | for every configuration the resolved value is auto or 100..255; pwm4 is 255 with parsed arguments |
| `RestoreValues.ResolvedExact` | ectest/internal/runner/restorevals.go:98-170 | which value each channel gets, in texts and numbers: the argument; 255 for pwm4; the last configured entry of the channel; 140 for pwm3 and auto otherwise without one; too low is 100, unusable is auto |
| `EcPorts.BytesAreAcknowledged` | driver/upstream/driver-prototype/minisforum_n5_it5571.c:93-195 | between any two bytes written to one interface the input buffer was seen empty |
| `EcPorts.Ports.WaitStatus` | driver/upstream/driver-prototype/minisforum_n5_it5571.c:93-104 | success means the status asked for was the last thing seen; failure means it was polled 5000 times and never seen |
| `EcPorts.Ports.Drain` | driver/upstream/driver-prototype/minisforum_n5_it5571.c:106-116 | reads the output buffer while its full bit is seen, at most 16 times, and stops at the first poll without it |
| `EcPorts.Ports.Pmc2Begin` | driver/upstream/driver-prototype/minisforum_n5_it5571.c:119-135 | the output buffer is drained first; the EC got nothing, the command byte or the subcommand, exactly the subcommand on success; it fails only after a full timeout; three waits |
| `EcPorts.Ports.Pmc2Read` | driver/upstream/driver-prototype/minisforum_n5_it5571.c:138-152 | a value is the byte read, with the output buffer seen full, in answer to its subcommand; none only after a full timeout |
| `EcPorts.Ports.Pmc2Write` | driver/upstream/driver-prototype/minisforum_n5_it5571.c:155-165 | on success the register holds the value; stopped anywhere, only this register can have changed; it fails only after a full timeout |
| `EcPorts.Ports.EcRead` | driver/upstream/driver-prototype/minisforum_n5_it5571.c:174-195 | a byte of EC RAM is read in answer to the read command and its address, none only after a full timeout; the PMC2 side is told nothing |
| `Driver.SetPwm` | driver/upstream/driver-prototype/minisforum_n5_it5571.c:230-263 | all registers of the channel hold the duty and it is applied; a failure leaves other channels alone; waits bounded |
| `Driver.SetAuto` | driver/upstream/driver-prototype/minisforum_n5_it5571.c:266-273 | the automatic command is the last one of the channel, no register changes; 3 waits |
| `Driver.WaitsOfWrite` | driver/upstream/driver-prototype/minisforum_n5_it5571.c:230-263 | 19 waits for CPU and PCIe, 7 for SSD and HDD |
| `Driver.N5.Write` | driver/upstream/driver-prototype/minisforum_n5_it5571.c:380-453 | every sysfs write keeps the driver invariant: an untouched channel was told nothing since load or its last automatic command, mode 0/1 implies touched; exact errors, a failure leaves the cache, a sent duty is in all registers |
| `Driver.N5.WriteEnable` | driver/upstream/driver-prototype/minisforum_n5_it5571.c:413-446 | full speed, manual mode and hand-back with their cache |
| `Driver.N5.Remove` | driver/upstream/driver-prototype/minisforum_n5_it5571.c:622-635 | after the removal every channel whose command did not fail was last told to be automatic, if anything; each touched channel was sent the command exactly once, an untouched one nothing, and a failure is a timeout |
| `Driver.N5.ReadFan` | driver/upstream/driver-prototype/minisforum_n5_it5571.c:197-227 | an accepted reading is made of the high and low byte of one attempt with equal high bytes, read in order, whichever of the four it was; for every stream the bytes come from that does not turn around in this attempt, it is the value at the instant of the low byte; at most 48 waits; no reading only after a timeout or four attempts that disagree |
| `Driver.N5.ReadTemp` | driver/upstream/driver-prototype/minisforum_n5_it5571.c:329-337 | the signed byte in thousandths of a degree, none for 0 and 255 or after a timeout |
| `Driver.TearFree` | driver/upstream/driver-prototype/minisforum_n5_it5571.c:209-224 | for any accepted attempt in a port trace and any stream its bytes are taken from: monotone during the attempt, the reading is the value when the low byte was read |
| `Driver.AcceptedExact` | driver/upstream/driver-prototype/minisforum_n5_it5571.c:209-224 | an accepted reading is off by whole blocks of 256, and torn iff the value crossed a multiple of 256 between the first two reads and came back between the last two |
| `Driver.TornReading` | driver/upstream/driver-prototype/minisforum_n5_it5571.c:209-224 | an attempt in a port trace and a stream that turns around in it, with a torn reading |
| `Driver.TemperaturesAreStored` | driver/upstream/driver-prototype/minisforum_n5_it5571.c:329-337 | temperatures of the driver lose nothing when they are stored |
| `Expectation.OwnWriteExact` | ectest/internal/regulator/regulator.go:239-251 | an own write keeps the expectation equal to the driver's cache iff it is not manual mode entered again, with another duty than 255, while the mode is unknown |
| `Expectation.FalseAlarmHappens` | ectest/internal/regulator/regulator.go:246-249 | that write does raise a false alarm |
| `Expectation.KnownModeStaysExact` | ectest/internal/regulator/regulator.go:239-251 | after any own write with a known mode the expectation is exact and the mode stays known |
| `Expectation.Checker.OwnWrite` | ectest/internal/regulator/regulator.go:239-259 | announce, write and read again after a failure keep the expectation exact, except for that write; with a known mode without exception |
| `Expectation.Checker.OwnWrites` | ectest/internal/regulator/regulator.go:239-259 | any sequence of own writes to channels whose mode is known keeps the expectation exact, so the check reports nothing |
| `Expectation.Checker.Diff` | ectest/internal/regulator/regulator.go:262-285 | reports every difference whose read is answered, with the value found and the one expected, and nothing else; nothing while the expectation is exact |
| `Expectation.Checker.Refresh` | ectest/internal/regulator/regulator.go:223-237 | an answered read is adopted as what is expected of this channel, an unanswered one forgets it, other channels stay |
| `Expectation.ForeignWrite` | ectest/internal/regulator/regulator.go:223-285 | from start to report: a foreign write after the start is reported by the next check, with the value found and the one expected, for each value it changed whose reads were answered; a write that changed nothing is not |
| `Expectation.ForeignWriteShows` | ectest/internal/regulator/regulator.go:262-285 | a foreign write is a difference iff it changed the cached pwm or mode |
| `Coverage.CoverageScan` | ectest/internal/logger/events.go:357-403 | the scan computes the defined coverage, in 0..100: the percentage of the window that is not missed, 100 for an empty window |
| `Coverage.NeverLowers` | ectest/internal/logger/events.go:366-401 | with disjoint planned downtimes a further time-ordered sample never lowers the coverage |
| `Coverage.UncoveredExact` | ectest/internal/logger/events.go:366-401 | what is uncovered is what is missed between neighbours among the begin of the window, its samples and its end |
| `Coverage.MonotoneExact` | ectest/internal/logger/events.go:366-401 | coverage is monotone in the samples iff the planned downtimes are pairwise disjoint |
| `Snapshot.I2ECRows` | ectest/internal/snapshot/snapshot.go:55-65 | prints the rows of 16 bytes the parser theorem is about |
| `Snapshot.ECRAMSection` | ectest/internal/snapshot/snapshot.go:69-81 | prints a dump between its markers |
| `Snapshot.Parse` | ectest/internal/snapshot/snapshot.go:264-313 | the line scanner computes the defined parse |
| `Snapshot.ParsePrinted` | ectest/internal/snapshot/snapshot.go:264-313 | parsing any sequence of printed sections gives exactly their bytes, up to address 0xffff |
| `Snapshot.DumpRoundTrip` | ectest/internal/snapshot/snapshot.go:69-81 | one printed dump gives back exactly its 256 bytes |
| `Snapshot.PutExact` | ectest/internal/snapshot/snapshot.go:302-310 | values land at their addresses and nothing else changes |
| `SnapshotDiff.Diff` | ectest/internal/snapshot/snapshot.go:358-440 | the exit code: incomplete, changed or identical curve tables |
| `SnapshotDiff.DiffExact` | ectest/internal/snapshot/snapshot.go:358-440 | two files: changed iff both can be compared and a byte 0x10-0x27, 0x30-0x38 or 0x70-0x81 of dump 1 differs, identical iff none does, incomplete iff one cannot be compared |
| `SnapshotDiff.SelfDiffExact` | ectest/internal/snapshot/snapshot.go:358-440 | a parsed file compared with itself is identical iff complete, not marked and without ?? in a curve byte |
| `SnapshotDiff.MarkOfText` | ectest/internal/snapshot/snapshot.go:291-293 | for every text the parsed mark is the trimmed reason of the last marker line; the file is treated as marked iff that reason is not blank |
| `SnapshotDiff.SelfDiffOfText` | ectest/internal/snapshot/snapshot.go:358-440 | for every text: compared with itself identical iff dump 1 is complete, no curve byte is ?? and the last marker line has no reason |
| `SnapshotDiff.PrintedDiffExact` | ectest/internal/snapshot/snapshot.go:358-440 | for every printed file, INCOMPLETE lines included: identical iff it has a dump 1, no curve byte of the last one timed out and it has no INCOMPLETE line |
| `SnapshotDiff.MarkWithoutReason` | ectest/internal/snapshot/snapshot.go:291-293 | a marker line without a reason erases the reason of an earlier one, in every state of the scan |
| `Dcr.ParseDCR` | go/n5/n5driver/n5driver.go:197-229 | the parser computes the defined block, none for a bad byte or an uncovered register |
| `Dcr.ParsePrinted` | go/n5/n5driver/n5driver.go:184-229 | parsing a printed block gives it back |
| `Dcr.ChannelIsCovered` | go/n5/n5driver/n5driver.go:164-172 | the register of every channel is the primary judged one, and an accepted dump has it |

## Left out

- Floating point: times are integer nanoseconds (milliseconds once stored), temperatures integer
  thousandths of a degree, means and the coverage exact reals; the rounding of IEEE arithmetic inside the
  tool is not modelled. So a tie is stored as the even tenth here, while a reading of 24.95 C, which is not
  exact in binary, can be stored as 24.9 or 25.0 there.
- The environment: sensor reads, sysfs writes, the clock, signals and the operator are oracles that may
  answer or fail in any way; a hung write is a failed one, and one that still takes effect after its timeout
  is not modelled beyond that.
- Runner.Run: restore warnings, hold deviations, event and reason texts and the T1/T2 value tables are
  reported only and decide nothing. A completed gate window decides which limit sensors are enforced; which
  ones is arbitrary here, and so are the results of the gates.
- Validate.NoMismatch: covers the results of T1 or of T2 and T3; the gates G3 and G4, which the report
  recomputes and compares too, and the entries of T0, T4 and T5 are not part of it.
- Validate.Validation: assumes the tach configuration the command sets up (own tach of the channel, tachs 1
  to 3), because the report assumes it too.
- RecomputeHandback.RecomputeT2: repetitions are numbered from 1; an auto event numbered 0 would make the
  loop index an empty list, and no run writes one.
- Crash: `restore --from`, the device identity and the content of the restore values are not part of the
  machine (the values are in `PwmWriter`); the lock file stays in place (its replacement is in `WriterLock`);
  replacing the state file is one atomic step.
- WriterLock.NobodyElseAcquires: assumes that the acquiring process gives the lock up only when no other
  descriptor is left; `WriterLock.LastsExactly` proves that this is needed.
- Snapshot.Parse: the dump number between the markers is a plain decimal number; the further spacing that
  `Sscanf` tolerates, lines over 1 MB and letters outside ASCII in dump values are not modelled.
- RestoreValues.ResolveRestore: the configuration is taken as decoded; warnings are dropped.
- Driver.N5: sequential calls, as under its mutex; probing, module parameters, labels and visibility are
  left out, and so are the sr1 and sr2 driver patches, whose source is not part of this model.
- Dcr: the EC RAM parser of the same file, which adds only a stricter completeness rule.
- Report, HTML, charts, logger daemon, mail, identity, hardware tables, command line and redaction: no deep
  property.
