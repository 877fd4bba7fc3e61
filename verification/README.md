# Verified model of the operations console

This project models the parts of the operations console that carry real state machines, schedulers and text
languages, and proves what they keep. `dafny verify dfyconfig.toml` checks all of it.

| files | what they model |
|---|---|
| `Execution` | one run of a pipeline: the nested loop over stages and steps, its gates, failures, skips and cancellation |
| `EngineProtocol`, `EngineSafety`, `EngineHistory`, `EngineOverlap`, `EngineCancel`, `EngineCalls`, `EngineWalk`, `EngineExecution` | the engine around it as a step system over any number of runs: trigger, queue, slot semaphore, approval channels, cancel table, history |
| `RunHistory`, `Pipelines`, `PipelineLists`, `PipelineNames`, `Firing` | rolling off the run history; saving, deleting and importing pipelines; the index of parsed schedules; firing on the minute |
| `Cron`, `CronForms`, `Calendar`, `NextFire`, `CronRules`, `CronVixie`, `CronExamples` | the five-field schedule language, the Gregorian calendar, the search for the next matching minute, and the day rule against the standard's and Vixie cron's |
| `SshPool`, `SshHosts`, `SshCalls` | the reference-counted connection pool, one step per atomic operation; whose client a caller gets; what an undisturbed call does |
| `Sections` | the two text protocols read back from a remote shell |
| `ShellQuote`, `ShellTokens`, `ShellNames` | quoting arguments and scripts for a remote shell, against a reference lexer |
| `SqlSplit`, `SqlForms`, `SqlLexemes` | the SQL statement splitter, what hides a semicolon from it, and what top level means to it |
| `DatabasePool`, `RecencyOrder` | the cache of open databases, against a reference LRU list, and that list against the history |
| `HostGroups` | host groups and memberships, compacted in place |
| `Histogram` | time buckets and gap filling |
| `Text`, `Lists`, `Arithmetic`, `Options` | string, list, product and option helpers |

How the source's forms are carried over. Objects that methods change are classes with those fields
(`Execution.Run`, `Pipelines.Pipelines`, `DatabasePool.DatabasePool`, `HostGroups.Manager`), loops are loops,
and each loop is proved against a function or predicate on values that the lemmas then reason about. What
interleaves is a step system: `EngineProtocol.Decide` and `SshPool.Decide` say, for each place a goroutine can
stand, what its next step is; `Perform` applies it; `Execute` and `Run` replay a schedule. `Reachable` means
reachable by some schedule from the initial state.

What the outside contributes is a parameter: how commands and dialling end, how gates are answered, when a
context is found ended, what is drawn at random (ids and secrets, assumed fresh), what the time is, what the
database answers to the grouping query.

Where the code falls short of its documentation or of the obvious property, the model follows the code and the
exact condition is proved:

- A client can be closed while in use unless two pairs of atomics are each one step (`NeverClosedInUse`); the
  comment above the pool promises it without condition. Nothing leaks at any grain (`NoLeak`).
- In every reachable state each pipeline has at most one active run exactly if a trigger's check and append are
  one step (`AtMostOneActive`). From a given state, the calls past their check can leave a pipeline with two
  active runs exactly if they and its active runs are two or more (`OverlapIff`).
- Each active run is in the history in every reachable state exactly under the same condition
  (`ActiveStaysListed`). Otherwise one of two overlapping runs can be rolled off while it is queued: with a maximum
  of one, the newer fails for want of its log file and rolls the older off. Rolling off drops exactly the runs that
  are not among the pipeline's newest (`RollKeepsIff`).
- Such a run is started all the same, and `Cancel` does not find it. Cancelling a running run always ends its
  context exactly if a trigger's check and append are one step (`CancelAlwaysReaches`); in a given state exactly if
  the run is still in the history (`CancelReachesListed`).
- The stop-index law of a run holds unless the log file cannot be opened, which fails the run with all stages
  still pending (`Run.Execute`).
- 366 days of probes are enough for every schedule but those that restrict only the day of the month and allow
  no date of a common year (`AlwaysFound`). `0 0 29 2 *` is accepted and not found from the end of 2020 on
  (`LeapDaysMissed`).
- With clean contents the sections come back exactly if every key is non-empty, has no `__` or newline and does not
  end in `_` (`SectionsIff`).
- The database groups with truncating division, so its buckets are the real ones exactly if no matching row has
  a time before zero off the bucket grid (`AgreeIff`); with a start time given this always holds.
- A histogram window of more than 1000 buckets is thinned out, not aggregated: each bucket shown has the exact
  counts of its own width. Whichever ends the window has, every matching row is in the picture exactly if the stride
  divides the distance of each one's bucket from the first, as it always does up to 1000 buckets (`AllShownIff`).
- A schedule must match the month in every case; by the crontab utility of POSIX.1-2017 XCU a
  restricted day of the week also counts outside the listed months. `0 0 * 1 1` leaves out the first Monday of
  February 2021 (`MondayInFebruary`). Both select the same days exactly if the day of the week or the month is
  starred, or the month lists every month and a starred day of month does not stand beside a weekday left out
  (`SameDaysIff`).
- The opening comment of cron.go promises Vixie cron's reading. There a day field that only begins with a star counts
  as starred: `0 0 */2 * 1` fires on Tuesday, 1 June 2021, and would not there (`TuesdayInJune`). Both select the same
  days exactly if no day field begins with a star, or one is a lone star, or all dates of the listed months and all
  weekdays are allowed anyway (`VixieIff`).
- The splitter's block comments end before their closing slash and may end on their opening star. It reads a text
  by the usual comments exactly if none has a slash right behind its opening star and none is followed at once by
  a star (`UsualIff`). `/*/;*/` is cut at its semicolon, within what is one comment by the usual reading
  (`CutInComment`).
- Environment names go into the remote script unquoted. Read by the reference lexer, name and value are recovered for
  every value exactly if the name has no equals sign, blank, newline, NUL, quote, backslash, operator, expansion or
  pattern character, does not begin with a hash, and has no slash if it begins with a tilde (`NameComesThrough`). The
  lexer follows no expansion: what a name with one becomes depends on variables, commands or files. A semicolon
  makes two commands of the name (`NameWithSemicolon`).

## Model

| member | source | states |
|---|---|---|
| `Execution.NewRun` | internal/cicd/engine.go:772-794 | the run has the definition's stages by name and, in each, the steps that execution walks by name and command, the clone step first, all pending with exit code 0 |
| `Execution.WalkedOrder` | internal/cicd/engine.go:893-899 | the first stage is walked as the clone step and then its own steps in order; every other stage as it is defined |
| `Execution.Run.Execute` | internal/cicd/engine.go:797-1023 | a run that is no longer queued is not touched; otherwise there is one stop index with success before it, skipped after it and the run's status at it, exactly if the log file opens; and a run that succeeded had its log opened, every gate approved, and exit code 0 and no error from every command that may not fail |
| `Execution.Run.RunStages` | internal/cicd/engine.go:851-1012 | stages are taken in order until one stops the run, and the ones after it are skipped |
| `Execution.Run.PassStage` | internal/cicd/engine.go:852-1012 | one stage with its gate, its steps and the context checks, or the end of the run at it |
| `Execution.Run.PassGate` | internal/cicd/engine.go:857-865 | a gated stage is marked waiting and goes on only if approved; one without a gate is not touched |
| `Execution.Run.RunStage` | internal/cicd/engine.go:886-996 | the steps end where the first one fails without leave or the context is found ended, the rest skipped or canceled |
| `Execution.Run.RunStep` | internal/cicd/engine.go:912-965 | a step whose context has ended is canceled; otherwise it failed if its command ended with an error or an exit code other than 0, and succeeded if not; its exit code is the command's, and nothing else changes |
| `Execution.Run.SkipSteps` | internal/cicd/engine.go:979-983 | every later step of the stage is marked skipped and nothing else changes |
| `Execution.Run.SkipStages` | internal/cicd/engine.go:1005-1009 | every stage after the stop is marked skipped and nothing else changes |
| `Execution.Run.Finalize` | internal/cicd/engine.go:1028-1030 | the final status is written and the canceling mark taken back; the cancel table and the history are in the engine model |
| `Execution.StepsKeepToDefinition` | internal/cicd/engine.go:893-1010 | no step is left running; a successful stage's steps succeeded or failed with leave; a failed stage has one step that failed without leave and skipped ones after it; pending steps are only in skipped stages or the one refused at its gate |
| `Execution.StageIsDetermined` | internal/cicd/engine.go:893-1010 | a started stage's status and each step are the ones the first failing or canceled step gives |
| `Execution.StopIsFirst` | internal/cicd/engine.go:849-1022 | the run stops at the first stage that does not go through, and exactly the stages before it succeed |
| `Execution.StepMeans` | internal/cicd/engine.go:912-965 | in a stage that was started, a step succeeded exactly if it was reached in time and its command ended with exit code 0 and no error, and failed exactly if it was reached in time and its command ended otherwise |
| `Execution.SkippedIff` | internal/cicd/engine.go:976-985 | the steps behind one that failed in time and without leave were skipped, and no others |
| `Execution.StageMeans` | internal/cicd/engine.go:989-995 | a started stage failed exactly if a step stopped it by failing and the context outlived that step, succeeded exactly if all steps went through and the context outlived them, and was canceled otherwise |
| `Execution.SuccessMeans` | internal/cicd/engine.go:849-1022 | in a run that succeeded every gate was approved, and every command ended with exit code 0 and no error but those of steps that may fail |
| `Execution.GateMeans` | internal/cicd/engine.go:857-884 | no run gets past a gate without its approval, and one refused there ends as canceled with the stage's steps untouched |
| `Execution.SucceedsWhenAllPass` | internal/cicd/engine.go:849-1022 | a run succeeds exactly if every gate opens, no step stops its stage and the context outlives the last look |
| `Execution.RunIsDetermined` | internal/cicd/engine.go:797-1023 | where a run stops and what it leaves behind is a function of its definition and what the outside contributes |
| `Execution.RunProgress` | internal/cicd/engine.go:157-172 | the whole-number percentage of steps that have ended, 0 without steps |
| `Execution.FullProgress` | internal/cicd/engine.go:157-172 | progress is between 0 and 100, and 100 exactly if all steps have ended |
| `Execution.EndedCounted` | internal/cicd/engine.go:157-172 | the steps counted are exactly those with status success, failed, skipped or canceled |
| `EngineProtocol.ActionKeepsInv` | internal/cicd/engine.go:636-770 | every action of triggers, workers, approvals, cancels and completions keeps the engine's invariant |
| `EngineProtocol.ReachableInv` | internal/cicd/engine.go:636-770 | the invariant holds in every state any schedule reaches from a freshly started engine |
| `EngineExecution.EndIsReached` | internal/cicd/engine.go:797-1023 | whatever execution can make of a queued run, from each state in which the run has its slot some schedule that moves no other run brings it to the same final status, with the same gates and as many stages begun |
| `EngineSafety.SlotsAreHeld` | internal/cicd/engine.go:731-735 | the semaphore's tokens are the runs in slot-holding phases, which are all but those not yet started, at a gate, or done with; they never pass the capacity; giving one back never blocks; a run waiting for a slot can take one or some other run holds one |
| `EngineSafety.CancelTable` | internal/cicd/engine.go:691-715 | the cancel table has a key exactly for the running runs |
| `EngineCancel.CancelRefusedIff` | internal/cicd/engine.go:691-715 | a cancel is refused exactly for a run that has ended or is not in the history |
| `EngineCancel.CancelQueued` | internal/cicd/engine.go:698-703 | cancelling a queued run of the history makes it canceled at once and changes nothing else, and under every schedule from there it stays ended and begins no stage |
| `EngineCancel.CancelRunning` | internal/cicd/engine.go:704-709 | cancelling a running run of the history ends its context and changes nothing else |
| `EngineCancel.CancelReachesListed` | internal/cicd/engine.go:691-715 | in a reachable state, cancelling a running run ends its context exactly if the run is still in the history |
| `EngineCancel.CancelAlwaysReaches` | internal/cicd/engine.go:636-715 | so in every reachable state cancelling ends the context of every running run exactly if a trigger's check and append are one step |
| `EngineSafety.TerminalForever` | internal/cicd/engine.go:804-816 | over any schedule a finished run stays finished and is not started again |
| `EngineSafety.GuardOnce` | internal/cicd/engine.go:804-816 | each run passes the guard of execution at most once |
| `EngineSafety.CanceledInQueueNeverRuns` | internal/cicd/engine.go:698-703 | a run canceled before the guard never begins a stage, whatever follows |
| `EngineSafety.GateNeedsItsApproval` | internal/cicd/engine.go:738-754 | a gated stage has begun only if a call that said yes was delivered on the one channel made for that run and that gate |
| `EngineSafety.TableOfWaits` | internal/cicd/engine.go:738-754 | the approval table has a key exactly while the run waits, at whichever stage, and names the channel made for that wait |
| `EngineSafety.OneCallOneGate` | internal/cicd/engine.go:757-770 | one approval call releases at most one gate |
| `EngineSafety.StaleApprovalOpensNothing` | internal/cicd/engine.go:757-770 | a call looked up at one wait can only ever open that wait's gate, over every continuation |
| `EngineSafety.LookupBinds` | internal/cicd/engine.go:757-763 | a call is bound at its lookup to the gate the run is waiting at |
| `EngineCalls.LookupIff` | internal/cicd/engine.go:757-763 | an approval finds nothing exactly if the run is not waiting for one |
| `EngineCalls.SendIff` | internal/cicd/engine.go:764-769 | an answer goes into its channel if nothing is in there yet, and is otherwise turned away with nothing changed |
| `EngineCalls.FirstAnswerStands` | internal/cicd/engine.go:738-769 | over any schedule, the first answer stays in its channel until the run it is for takes it |
| `EngineCalls.AnswerIsTaken` | internal/cicd/engine.go:748-753 | the waiting run takes the answer in its channel, yes or no as the call said |
| `EngineSafety.NoDeadlock` | internal/cicd/engine.go:717-754 | if no goroutine can move, every unfinished run waits at a gate, its context live and no answer in its channel |
| `EngineCalls.TriggerIff` | internal/cicd/engine.go:636-678 | triggering is refused exactly for a pipeline that is unknown or has a listed run queued or running; otherwise one queued run is appended and nothing else changes |
| `EngineCalls.TwoStepTrigger` | internal/cicd/engine.go:637-678 | the same for the check and the append as two steps |
| `EngineCalls.DeleteIff` | internal/cicd/engine.go:584-618 | deleting is refused likewise; otherwise the pipeline goes, and of the history exactly its runs |
| `EngineCalls.Offered` | internal/cicd/engine.go:681-686 | a new run joins the end of the queue while fewer than 64 are in it, and is turned away otherwise |
| `EngineCalls.RejectedFails` | internal/cicd/engine.go:683-685 | a run turned away is failed, by its own next step, which nothing can hold up |
| `EngineCalls.NobodyOvertakes` | internal/cicd/engine.go:680-728 | over any schedule the queue only loses runs at its front and gains them at its end |
| `EngineHistory.OneActiveRun` | internal/cicd/engine.go:636-688 | under any schedule in which a pipeline's triggers do not overlap, an active run is the only one of its pipeline, the last of its runs, and within reach of a cancel |
| `EngineOverlap.AtMostOneActive` | internal/cicd/engine.go:637-678 | every reachable state has at most one active run per pipeline exactly if a trigger's check and append are one step |
| `EngineOverlap.OverlapIff` | internal/cicd/engine.go:637-678 | from any state, appending can leave a pipeline with two active runs exactly if its calls past their check and its active runs are two or more |
| `EngineOverlap.OverlapIsPossible` | internal/cicd/engine.go:637-660 | any idle pipeline can have two triggers past their check at once |
| `EngineOverlap.OverlapBreaksIt` | internal/cicd/engine.go:676-678 | two triggers past their check leave the pipeline with two active runs by appending |
| `EngineHistory.RollKeepsIff` | internal/cicd/engine.go:1049-1077 | rolling off drops exactly those of the pipeline's own runs that are not among its newest |
| `EngineCalls.RollsOff` | internal/cicd/engine.go:1049-1077 | a run that has ended rolls off its pipeline's history: the newest stay, as many as the pipeline says or 50, and all of the other pipelines' |
| `EngineHistory.RollKeepsActive` | internal/cicd/engine.go:1049-1077 | where only the last of each pipeline's runs is active, as under triggers that do not overlap, no active run is rolled off |
| `EngineCancel.ActiveStaysListed` | internal/cicd/engine.go:636-678 | in every reachable state each active run is in the history exactly if a trigger's check and append are one step; otherwise the engine's own roll after two overlapping triggers drops a queued run |
| `RunHistory.PruneKeeps` | internal/cicd/engine.go:1049-1077 | rolling off keeps the other pipelines' runs in order and exactly the newest of its own, in order |
| `RunHistory.PruneKeepsSubset` | internal/cicd/engine.go:1049-1077 | in particular it keeps the runs of each other pipeline in order |
| `Cron.ParseCronField` | internal/cicd/cron.go:61-109 | the loops over comma parts and stepped ranges give the set the field means, or refuse, and report a star exactly for a lone star |
| `Cron.AddRange` | internal/cicd/cron.go:101-103 | the step loop adds exactly the values of the stepped range |
| `Cron.PartIff` | internal/cicd/cron.go:64-100 | a part is accepted exactly if it is a star, a number or a range, alone or before the first slash and a positive step, within the bounds, and is then read as that |
| `CronForms.NumberForms` | internal/cicd/cron.go:64-100 | what a number, two numbers with a dash, and either with a slash and a step are read as, and when they are refused, for all digits and bounds |
| `Text.AtoiSigns` | internal/cicd/cron.go:70-94 | digits read as their value with a plus sign or none and negated with a minus sign, within 64 bits |
| `Text.AtoiRefuses` | internal/cicd/cron.go:70-94 | and nothing else is read as a number |
| `CronForms.StarForms` | internal/cicd/cron.go:64-100 | a star is read as the whole field, and with a step as every so many values from the least on |
| `CronForms.SteppedValues` | internal/cicd/cron.go:101-103 | the values of a stepped range are its low end plus multiples of the step, up to its high end |
| `Cron.FieldMeaning` | internal/cicd/cron.go:61-109 | a field is accepted exactly if each part is well formed, and its set is the union of what the parts mean |
| `Cron.FieldWithin` | internal/cicd/cron.go:98-108 | an accepted field's set is not empty, stays within the bounds, and is everything for a star |
| `Cron.ParseCron` | internal/cicd/cron.go:26-58 | five fields, each parsed within its own bounds, or an error |
| `CronForms.FiveFields` | internal/cicd/cron.go:26-58 | an expression is accepted exactly if it is five words, each a field within 0-59, 0-23, 1-31, 1-12 and 0-7 in turn, and only a lone star leaves a day field unrestricted |
| `Cron.ParsedSpec` | internal/cicd/cron.go:26-58 | no field of a parsed schedule is empty or out of bounds, and starred day fields have every day |
| `Cron.SpacingIgnored` | internal/cicd/cron.go:27 | white space before and between the fields does not matter |
| `Cron.DayRule` | internal/cicd/cron.go:112-125 | for a parsed schedule either kind of day counts when both are restricted, and both must hold otherwise |
| `CronRules.SameDaysIff` | internal/cicd/cron.go:112-125 | every day the code selects the standard selects too, and both select the same days exactly on the stated condition on month and week |
| `CronRules.ExpressionSameDays` | internal/cicd/cron.go:26-125 | the same for every expression the parser accepts |
| `CronVixie.VixieIff` | internal/cicd/cron.go:112-125 | the days are those of Vixie cron's rule exactly if no day field begins with a star, or one is a lone star, or all dates of the listed months and all weekdays are allowed |
| `CronVixie.ExpressionAsVixie` | internal/cicd/cron.go:1-125 | the same for every expression the parser accepts |
| `CronExamples.TuesdayInJune` | internal/cicd/cron.go:112-125 | for odd days and Mondays, written with a stepped star, the code selects a Tuesday that Vixie cron would not |
| `CronExamples.MondayInFebruary` | internal/cicd/cron.go:112-125 | for Mondays in January the standard selects 1 February 2021 and the code does not |
| `NextFire.NextCronFire` | internal/cicd/engine.go:1267-1282 | the result is the earliest matching minute after the current one and within 366 days; without a result none of those minutes matches |
| `NextFire.MatchOnDay` | internal/cicd/cron.go:112-125 | a minute of a day matches exactly if its minute and hour are listed and the day matches by month, date and weekday |
| `Calendar.DaysInOrder` | internal/cicd/engine.go:1274-1281 | the calendar begins on 1 January of year 1, and each day has the date after that of the day before, with the lengths of the months and the Gregorian leap years written out |
| `Calendar.AfterFebruary28` | internal/cicd/engine.go:1274-1281 | the day after 28 February is the 29th exactly if 4 divides the year and 100 does not or 400 does |
| `Calendar.CalendarRepeats` | internal/cicd/engine.go:1274-1281 | any 400 years have 146097 days |
| `Calendar.WeekdaysInOrder` | internal/cicd/engine.go:1274-1281 | the first day is a Monday, weekdays follow each other, and 400 years are whole weeks |
| `Calendar.KnownDays` | internal/cicd/engine.go:1274-1281 | the day numbers of fixed dates in 1970, 2000, 2021, 2028 and 2100 |
| `Calendar.NoSuchDate` | internal/cicd/engine.go:1274-1281 | no day is 29 February 2100 |
| `NextFire.AlwaysFound` | internal/cicd/engine.go:1275-1281 | a match is found from every start exactly unless only the day of the month is restricted and no allowed date exists in a common year |
| `CronExamples.LeapDaysMissed` | internal/cicd/engine.go:1275-1281 | the parser accepts 29 February and the search does not find it from the end of 2020 on |
| `CronExamples.LeapDayFound` | internal/cicd/engine.go:1274-1281 | the same schedule fires at midnight of 29 February 2028 and at no other minute of the day before it |
| `NextFire.WeekdayComes` | internal/cicd/engine.go:1275-1281 | any 366 days in a row have every weekday in every month |
| `Calendar.DateComes` | internal/cicd/engine.go:1275-1281 | every date of a common year comes within any 366 days |
| `PipelineNames.Rename` | internal/cicd/engine.go:1213-1216 | the rename loop ends, with the name itself or the least number from 2 that makes it free |
| `PipelineNames.FreeNameIs` | internal/cicd/engine.go:1213-1217 | a taken name gets -2, -3, ... behind it, with the least number that no name has |
| `PipelineNames.TakenAreBounded` | internal/cicd/engine.go:1214-1216 | the candidate names are distinct, so only as many are taken as there are names |
| `PipelineNames.FreeNameUnique` | internal/cicd/engine.go:1213-1217 | there is only one such free name |
| `PipelineLists.ExactIsFresh` | internal/cicd/engine.go:476-484 | with distinct ids, the index is exact if and only if it is what a fresh parse of every pipeline builds |
| `PipelineLists.ImportedNames` | internal/cicd/engine.go:1200-1217 | the names taken in by an import are distinct and new, and used up from then on |
| `PipelineLists.ImportedAreEntrants` | internal/cicd/engine.go:1204-1230 | an import takes in exactly the entries with a name, stages, named stages with steps, commands that are not blank and no invalid schedule, each under its drawn id, the free name it finds in its turn, and a drawn secret exactly if it has a webhook |
| `PipelineLists.NamesUsed` | internal/cicd/engine.go:1200-1217 | the names used up are those there were and the one each entry found, whether it was taken in or skipped |
| `PipelineLists.ReindexExact` | internal/cicd/engine.go:476-484 | rebuilding on top of an exact index changes nothing |
| `Pipelines.Pipelines.constructor` | internal/cicd/engine.go:395-425 | from loaded pipelines with distinct ids and names, the index is built from nothing, no loaded run is left active, and everything is consistent |
| `Pipelines.Pipelines.RecoverOrphans` | internal/cicd/engine.go:458-474 | the loop ends exactly the runs that were active, and changes nothing else |
| `Pipelines.Pipelines.RebuildCrons` | internal/cicd/engine.go:476-484 | each pipeline's parsed text is put into the index as it stands; an exact index, and with it everything else, stays as it is |
| `Pipelines.Pipelines.SavePipeline` | internal/cicd/engine.go:512-581 | a save succeeds exactly with a name that no other pipeline has, no invalid schedule or artifact name, and an id that is known or none; failures change nothing; what is stored is the input with name and schedule trimmed, 50 runs where none are given and a drawn secret for a webhook without one, appended or in the place of the old one, whose creation time it keeps; the index gets its schedule or loses its entry |
| `PipelineLists.ArtifactNameIff` | internal/cicd/engine.go:1611 | an artifact name is accepted exactly if it is s, digits, -step, digits, .tar.gz |
| `Pipelines.Pipelines.DeletePipeline` | internal/cicd/engine.go:584-618 | refused exactly for a missing pipeline or one with an active run; otherwise the pipeline, its runs, its schedule and its mark go and the rest stays in order |
| `Pipelines.Pipelines.PruneRuns` | internal/cicd/engine.go:1049-1077 | the loops leave the rolled-off history for the pipeline's own maximum |
| `Pipelines.KeptRunsOf` | internal/cicd/engine.go:1060-1065 | the loop over pipelines finds the pipeline's own maximum, or 50 |
| `Pipelines.Pipelines.ImportPipeline` | internal/cicd/engine.go:1190-1235 | between 1 and 100 pipelines are appended in order under fresh ids and free names or skipped, the ones already there stay, names stay distinct and the index exact |
| `Pipelines.Pipelines.Scan` | internal/cicd/cron.go:233-249 | a tick collects the due pipelines; everything that matches the minute was triggered in it already or is collected |
| `Pipelines.Pipelines.MarkNext` | internal/cicd/cron.go:250-257 | one collected pipeline is marked and triggered, whatever was saved, imported or deleted since; nothing is ever triggered twice in a minute or in one its schedule did not match |
| `Pipelines.Pipelines.FireCron` | internal/cicd/cron.go:233-258 | a whole tick triggers in order exactly the pipelines whose indexed schedule matches and that were not marked with the minute, and marks them; afterwards everything that matches was triggered in the minute, and nothing was ever triggered twice in one |
| `Firing.ScanKeepsBooks` | internal/cicd/cron.go:233-249 | with ticks that do not go back, collecting keeps the record of triggered and collected minutes free of repeats |
| `Firing.MarkKeepsBooks` | internal/cicd/cron.go:250-257 | so does marking one, even if it was deleted since |
| `Firing.TickFiresAll` | internal/cicd/cron.go:237-248 | after a scan every pipeline whose own schedule text matches the minute was triggered in it or is collected |
| `Firing.DueIff` | internal/cicd/cron.go:237-248 | collected are exactly the pipelines with a schedule text whose indexed schedule matches the minute and whose mark is another one |
| `SshPool.NoLeak` | internal/remote/exec.go:335-396 | at every grain, a dead entry without holder, mark, cleanup or release under way has its client closed, and every client dialled is in the map, held, attended, on its way or closed |
| `SshPool.QuietPoolOwnsOpenClients` | internal/remote/exec.go:335-396 | with no call in progress the open clients are exactly the ones in the map, and nothing is counted in use |
| `SshPool.OneEntryPerHost` | internal/remote/exec.go:356-367 | no entry is in the map twice, and each one only under its own host |
| `SshPool.NeverReturns` | internal/remote/exec.go:335-396 | an entry that left the map never returns to it |
| `SshPool.NeverClosedInUse` | internal/remote/exec.go:306-396 | no reachable state has a client closed under a caller exactly if acquire's test-and-count and release's count-and-test are each one step |
| `SshPool.StepKeepsInv` | internal/remote/exec.go:335-396 | every single atomic step of any number of goroutines keeps the pool's invariant |
| `SshHosts.CallerGetsItsHost` | internal/remote/exec.go:335-367 | at every grain and over every schedule, the entry a goroutine holds is entered under the host its call asked for, and its client was dialled for that host |
| `SshHosts.MappedUnderItsHost` | internal/remote/exec.go:348-367 | what is in the map under a host was dialled for that host |
| `SshCalls.AcquireShares` | internal/remote/exec.go:336-350 | an undisturbed call for a host with a live entry counts itself in on it and changes nothing else, in particular dials nothing |
| `SshCalls.AcquireDials` | internal/remote/exec.go:351-367 | one for a host without an entry dials, enters the client under the host and holds it as its one user; a failed dial changes nothing |
| `SshCalls.ReleaseCounts` | internal/remote/exec.go:370-374 | an undisturbed release of a live entry only counts down |
| `SshCalls.MarkDeadEvicts` | internal/remote/exec.go:384-396 | an undisturbed markDead takes the entry out of the map and closes its client if nobody uses it |
| `Sections.ParseSections` | internal/remote/exec.go:150-186 | the loop over lines with its key, buffer and map computes the line-by-line reading |
| `Sections.SectionsRoundTrip` | internal/remote/exec.go:150-186 | the parser undoes the layout: every good key comes back with its trimmed content, from the rest of its marker's line on, also when a marker is glued to a content without a final newline |
| `Sections.LayoutSnoc` | internal/handlers/netconfig.go:62 | the layout is, section after section, the marker with the key, the rest of its line, and the content |
| `Sections.UnclosedMarker` | internal/remote/exec.go:175-179 | a marker whose key never ends closes the section before it, and the text behind it belongs to none |
| `Sections.DistinctKeysRecovered` | internal/remote/exec.go:150-186 | with distinct keys each one is recovered with its own content |
| `Sections.OnlyKeysRecovered` | internal/remote/exec.go:150-186 | and nothing else is recovered |
| `Sections.OnlyGoodKeys` | internal/remote/exec.go:175-181 | whatever the remote prints, only non-empty keys without `__`, newline or final `_` come out |
| `Sections.SectionsIff` | internal/remote/exec.go:150-186 | so with clean contents the parser undoes the layout exactly if every key is of that form |
| `Sections.KeyComesBack` | internal/remote/exec.go:150-186 | and a key is read back exactly if it is not empty, has no newline and no two underscores in a row, and does not end in one |
| `Sections.TrailerRoundTrip` | internal/remote/exec.go:283-296 | output less one final newline and exit code come back even if the output contains the marker, whatever white space follows |
| `Sections.NoTrailer` | internal/remote/exec.go:288-292 | without the marker everything is output, and the code is -1 |
| `Sections.ScanReads` | internal/remote/exec.go:293-294 | the code is the number the text behind the marker begins with, with its sign, and 0 if it begins with none |
| `ShellQuote.ArgsToLine` | internal/handlers/target.go:30-41 | the loop quotes each argument and joins them with single spaces |
| `ShellTokens.EscapeParts` | internal/handlers/target.go:30-32 | quoting leaves a text up to its first single quote as it is, writes the quote as close, escaped quote, open, and goes on alike |
| `ShellTokens.QuotedText` | internal/handlers/target.go:30-32 | and the whole stands between single quotes |
| `ShellQuote.LexShq` | internal/handlers/target.go:30-32 | a quoted text adds exactly itself to the shell word being read |
| `ShellQuote.LineRoundTrip` | internal/handlers/target.go:35-41 | splitting the line by the shell's rules gives the arguments back exactly if none of them has a NUL |
| `ShellQuote.RemoteScript` | internal/handlers/cicd.go:231-243 | the loop writes an export for each named variable, then the change of directory, then the command |
| `ShellQuote.ScriptReadsBack` | internal/handlers/cicd.go:231-243 | whatever the command, what stands before it is read as exactly every variable's value and the workspace, and the command's text begins at a fresh token and is read as if alone |
| `ShellTokens.EveryVariable` | internal/handlers/cicd.go:233-237 | the shell is shown each variable with a name, in order and in three tokens, and nothing of the others |
| `ShellTokens.BeforeTheCommand` | internal/handlers/cicd.go:231-243 | what it sees before the command is exactly the exported variables and, with a workspace, the change into it or an end with 64 |
| `ShellQuote.AssignmentSplits` | internal/handlers/cicd.go:233-237 | name and value are recovered from the assignment word |
| `ShellQuote.TwoLevels` | internal/handlers/cicd.go:231-243 | the login shell hands the script on as one word, and parsing that word recovers every value and the workspace, whatever the command |
| `ShellNames.NameComesThrough` | internal/handlers/cicd.go:233-237 | read by the reference lexer, name and value are recovered for every value exactly if the name has only literal characters and no equals sign, begins with no hash, and has no slash after a tilde at its start |
| `ShellTokens.PlainNameIs` | internal/handlers/cicd.go:233-237 | and these are the names without the twenty characters listed, with no hash at the start and no slash after a tilde there |
| `ShellQuote.NameWithSemicolon` | internal/handlers/cicd.go:234-236 | a semicolon in a variable name makes the shell see two commands |
| `SqlSplit.SplitSQLStatements` | internal/dbmanager/query_multi.go:10-68 | the loop with its mode flags and buffer returns, in order, each segment that is not blank, trimmed |
| `SqlSplit.NothingLost` | internal/dbmanager/query_multi.go:55-66 | the positions of the result lead, strictly upwards, to exactly the segments whose trimmed text is not empty, and each statement is that segment trimmed |
| `Text.TrimIs` | internal/dbmanager/query_multi.go:56-66 | trimming takes away white space at both ends and leaves something else there, if anything is left |
| `SqlSplit.SegmentsPartition` | internal/dbmanager/query_multi.go:10-68 | the segments joined by semicolons are the text, and the joining semicolons are exactly the top-level ones |
| `SqlSplit.PiecesAreStatements` | internal/dbmanager/query_multi.go:10-68 | each piece is non-empty, trimmed, without top-level semicolon, and splitting it again gives just itself |
| `SqlForms.StringLiteral` | internal/dbmanager/query_multi.go:28-49 | no statement ends inside a string literal, which ends at its next quote |
| `SqlForms.EscapedCharacter` | internal/dbmanager/query_multi.go:28-34 | behind a backslash any character, a quote as well, leaves the literal open |
| `SqlForms.LiteralCharacter` | internal/dbmanager/query_multi.go:28-38 | and so does every character that is neither backslash nor quote, while a quote ends it |
| `SqlForms.QuotedName` | internal/dbmanager/query_multi.go:39-48 | no statement ends inside a name in back quotes |
| `SqlForms.DashComment` | internal/dbmanager/query_multi.go:17-51 | two dashes hide the rest of the line |
| `SqlForms.BlockComments` | internal/dbmanager/query_multi.go:22-54 | slash and star hide everything up to the next star before a slash |
| `SqlForms.NeverClosed` | internal/dbmanager/query_multi.go:15-63 | what is never closed hides the rest of the text |
| `SqlLexemes.TopIsStart` | internal/dbmanager/query_multi.go:13-63 | all mode flags are down exactly where a literal, comment or other character starts, going from one to the next |
| `SqlLexemes.CutIsLexeme` | internal/dbmanager/query_multi.go:55-59 | a statement ends exactly at the semicolons that are lexemes of their own |
| `SqlLexemes.UsualIff` | internal/dbmanager/query_multi.go:22-26 | the code's lexemes are the usual ones exactly if no comment has a slash behind its opening star or a star right behind it |
| `SqlLexemes.UsualCuts` | internal/dbmanager/query_multi.go:10-68 | and it then cuts at the semicolons outside usual literals and comments |
| `SqlLexemes.CutInComment` | internal/dbmanager/query_multi.go:22-26 | a text that is one comment by the usual reading is cut at a semicolon inside |
| `DatabasePool.DatabasePool.constructor` | internal/dbmanager/pool.go:28-37 | a new pool is empty and has the given size, or 8 for none |
| `DatabasePool.DatabasePool.Lookup` | internal/dbmanager/pool.go:41-48 | a cached id is returned and becomes the most recent |
| `DatabasePool.DatabasePool.TouchOrder` | internal/dbmanager/pool.go:104-112 | a listed id moves to the end, the others keep their order |
| `DatabasePool.DatabasePool.Insert` | internal/dbmanager/pool.go:59-79 | a lost race closes the new handle once and changes nothing else; otherwise the id goes to the end and a full cache drops its front until it fits, and every opened handle is still cached, on its way, or closed exactly once |
| `DatabasePool.DatabasePool.MakeRoom` | internal/dbmanager/pool.go:68-75 | eviction closes the oldest entries once each until one more fits |
| `DatabasePool.DatabasePool.Release` | internal/dbmanager/pool.go:115-128 | the id leaves map and order and its handle is closed once |
| `DatabasePool.DatabasePool.Close` | internal/dbmanager/pool.go:131-139 | every cached handle is closed once and the pool is empty |
| `DatabasePool.DatabasePool.Acquire` | internal/dbmanager/pool.go:40-79 | called one at a time, the order stays exactly the LRU list of the history, a failed open changes nothing, and the returned handle is the cached one |
| `DatabasePool.DatabasePool.Drop` | internal/dbmanager/pool.go:115-128 | a release keeps the order the LRU list of the history |
| `DatabasePool.LruIsRecent` | internal/dbmanager/pool.go:40-79 | the LRU list is the end of the list of ids by last acquire, within the size and without repeats |
| `RecencyOrder.OrderOfLatest` | internal/dbmanager/pool.go:104-128 | that list is the ids whose last operation is an acquire, in the order of those acquires |
| `RecencyOrder.EarlierIsNearer` | internal/dbmanager/pool.go:68-75 | so of two ids the one acquired last longer ago is nearer to the front, where entries are given up |
| `RecencyOrder.ListedIff` | internal/dbmanager/pool.go:104-128 | and an id is in it exactly if something acquired it and nothing was done with it since |
| `DatabasePool.CachedWhenRecent` | internal/dbmanager/pool.go:40-79 | an id is cached exactly if since its last acquire it was not released and never fell behind the size's worth of most recent ids |
| `DatabasePool.LruWithoutDrops` | internal/dbmanager/pool.go:40-79 | without releases the cache is the most recently acquired ids |
| `DatabasePool.LedgerRemove` | internal/dbmanager/pool.go:69-74 | closing and forgetting a cached handle keeps every handle open in the pool or closed exactly once |
| `HostGroups.Manager.constructor` | internal/ansible/ansible.go:154-181 | stored groups and hosts are taken over and missing ids filled in; from a store with a good forest and known memberships, such as an empty one, both hold |
| `HostGroups.Manager.AddHost` | internal/ansible/ansible.go:209-223 | refused exactly for a known address; known groups only keep every membership known |
| `HostGroups.Manager.CreateHostGroup` | internal/ansible/ansible.go:384-398 | accepted exactly for a valid new name under no parent, the root or an existing group; the forest is kept |
| `HostGroups.Manager.RemoveHostGroup` | internal/ansible/ansible.go:400-438 | the one group of that name goes, the others keep their order, its children become roots, every host leaves it, and forest and memberships stay right through the compaction in place |
| `HostGroups.Manager.SetHostsGroups` | internal/ansible/ansible.go:441-464 | replaces the groups of the given hosts exactly if all are known and some host is found |
| `HostGroups.Manager.AddHostsToGroup` | internal/ansible/ansible.go:467-504 | makes the group if missing and adds it once to each given host |
| `HostGroups.Manager.RemoveHostsFromGroup` | internal/ansible/ansible.go:507-538 | takes the given hosts out, and fails changing nothing exactly if none was in it |
| `HostGroups.Compact` | internal/ansible/ansible.go:419-429 | the read and write indices on one list leave it without the name, in order |
| `HostGroups.ForestHasNoCycle` | internal/ansible/ansible.go:384-438 | going from group to parent only goes down the list, so no group is its own ancestor |
| `HostGroups.RemovedForest` | internal/ansible/ansible.go:406-416 | removing a group leaves distinct names and every parent a root or an earlier group |
| `HostGroups.RemovedAt` | internal/ansible/ansible.go:406-416 | the compaction takes out the one group of the name, and of the others only those under it change, into roots |
| `HostGroups.KnownAfterRemoval` | internal/ansible/ansible.go:418-430 | after a removal no host refers to the missing group |
| `Histogram.FloorDivision` | internal/logmonitor/store.go:458-464 | the result is the mathematical floor of the quotient: its product with the denominator does not pass the numerator, the next one's does, for either sign |
| `Histogram.FloorIsFloor` | internal/logmonitor/store.go:458-464 | it is the mathematical floor for numerators and denominators of either sign |
| `Histogram.Aggregate` | internal/logmonitor/store.go:364-382 | the loops over the answer give one bucket per time, in order, with its counts by level |
| `Histogram.FillEmptyBuckets` | internal/logmonitor/store.go:392-455 | up to 1000 buckets the window is filled without gaps from first to last; beyond that at most 1000 evenly spaced buckets, each with its own counts |
| `Histogram.Histogram` | internal/logmonitor/store.go:321-388 | every bucket shown has, level by level, the number of rows the database puts there |
| `Histogram.AnswerCounts` | internal/logmonitor/store.go:351-377 | the counts by bucket and level are the database's counts of the rows |
| `Histogram.SqlCountIs` | internal/logmonitor/store.go:331-356 | which are the numbers of rows that the query's conditions select, that have the level, and that fall into the bucket by truncation |
| `Histogram.SqlBucketIff` | internal/logmonitor/store.go:351-356 | truncation puts a time into the bucket that begins at or before it from zero on, and before zero into the one that begins behind it or at it |
| `Histogram.AgreeIff` | internal/logmonitor/store.go:351-356 | the database's buckets are the real ones exactly if no matching row has a time before zero off the grid |
| `Histogram.ShownIsDirect` | internal/logmonitor/store.go:321-388 | where the database's buckets are the real ones, a window of up to 1000 buckets agrees bucket by bucket and level by level with counting the rows directly |
| `Histogram.AgreeWithStart` | internal/logmonitor/store.go:336-339 | with a start time they are |
| `Histogram.RowsInWindow` | internal/logmonitor/store.go:392-418 | no matching row falls outside the window that is filled, whether one end of it is given or both |
| `Histogram.WindowOfBothEnds` | internal/logmonitor/store.go:392-418 | with both ends given the window filled runs between the buckets of the two ends |
| `Histogram.WindowIs` | internal/logmonitor/store.go:392-418 | a missing start is 30 widths before the first bucket there is and a missing end one width behind the last; the window runs between the buckets of the ends |
| `Histogram.AllShownIff` | internal/logmonitor/store.go:392-454 | whichever ends the window has, every matching row is in a bucket of the picture exactly if the stride divides each one's distance from the first bucket, always up to 1000 buckets |
| `Histogram.AllShownUnfilled` | internal/logmonitor/store.go:392-412 | and without a window to fill always |
| `Histogram.UnfilledShows` | internal/logmonitor/store.go:364-388 | every bucket of the picture then has the database's counts of its own time |

## Left out

- HTTP handlers, JSON persistence, SSH dialling, sessions, Docker, Kubernetes and systemd calls, log files, artifacts, notifications and the web UI: foreign calls without state worth proving; commands and dialling are oracles.
- `runErr` and all message texts, timestamps other than a pipeline's creation and update, durations.
- The shutdown of the SSH pool (internal/remote/exec.go:504-512), which closes connections in use on purpose, and the retries above it.
- SshPool: the pool's `KeepaliveAll`, `dropConn` and `Remove` are modelled as a `markDead` on any entry at any time.
- Masking of secrets in listings, which writes through a slice shared with the stored pipeline.
- Pipelines: pipelines and hosts are values, so aliasing between a caller's own reference and the stored one is not captured.
- Pipelines.Pipelines.MarkNext: what the triggered run then does belongs to the engine model; the run list here changes only by deletion and rolling off.
- The human-readable description of a schedule, whose step wording is not exact.
- Daylight saving and clocks that go back: time is a minute counter in a zone with a fixed offset.
- Cron.AddRange: a step near the largest 64-bit integer would wrap around in the source; here steps are mathematical integers.
- Histogram: 64-bit overflow of times and widths; the database itself, which is described by `Answers`.
- Collisions of random ids: drawn ids are fresh.
- DatabasePool.DatabasePool.Acquire: exact LRU order is claimed for one caller at a time, since a caller that lost the race to insert does not touch the order; the section-by-section methods cover interleaved callers. A handle may be evicted while its caller still uses it, as in the source.
- EngineProtocol: `newRun`'s environment, credentials and repositories, and the resolution that can fail before a run is made.
- ShellQuote.ScriptReadsBack: asks for names that stand for themselves unquoted; which names do is `NameComesThrough`.
- ShellNames.NameComesThrough: says what is read, not what `export` then accepts; a name such as `a-b` or `a#b` is read as it stands and refused by `export`, which wants letters, digits and underscores. Names with an expansion or pattern character count as not recovered because the lexer gives up on them; some, such as a lone opening bracket, may stand for themselves.
- The reference lexer gives up on expansions, double quotes, redirections, comments and newlines outside quotes.
- EngineProtocol: how a stage ends is a free choice of the step system, so it also has ends no single run can have; that it has all the ends a run can have is `EngineExecution.EndIsReached`.
- Double quotes are no literals to the statement splitter, and so not to its model.
- Invalid UTF-8: texts are sequences of characters.
- Sections: the shell that prints the markers, and the snapshot parser that reads the sections.
- The agent hub, archive rotation, firewall and topology code, SQL statement classification, and the operations that add hosts in batches, edit or remove them, which give no host already there a new group.
