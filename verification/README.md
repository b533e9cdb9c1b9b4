# Quotient, modelled and proved in Dafny

Quotient scores a competition in rounds. In each round the engine puts one task
per team and check on a shared list, any number of runners take tasks and put
results on another list, and the engine collects the results and either records
the round whole or drops it. From the recorded rows it keeps uptimes, SLA
counters, a score series and reports; beside them it keeps every team's
credentials with a history of their changes.

The project models that behaviour and proves what it keeps over all inputs and
all runs. `dafny verify dfyconfig.toml` checks everything.

## How it is laid out

| module | what it holds |
|---|---|
| `Utf8`, `Wire` | byte strings as Go has them, the cleaning of texts for the database; tasks, results, tickets |
| `Numbering`, `Protocol`, `ProtocolSafety`, `ProtocolLists`, `ProtocolLeftovers` | round numbers; the round protocol as a state machine: lists, runners, engine, losses, timeouts, restarts; what each step does to the lists and the records |
| `Config`, `Enqueue`, `Collection`, `Runner`, `Rounds` | the loops around the protocol: which checks a configuration gives, which tasks a round sends, what the collection loop hands on, a runner's retries, and one round from end to end |
| `PlannedRuns`, `PlannedLeftovers`, `Sites`, `JointRuns` | runs whose rounds send what a configuration, the teams and the database give: what they record, when leftovers and restarts are safe, and what the recorded rounds do to a service's uptime |
| `Sla`, `Ledger`, `Payments`, `Engine` | one service's SLA accounting; the log and the counters kept beside it, with crashes and restarts; what the SLA rows pay for; the engine object whose fields those counters are |
| `Sums`, `Graph`, `Reports`, `Refresh` | grouped sums; the materialized view and the series drawn from it; the exported totals against a team's own score; the refresh of the view while rounds are recorded |
| `Credentials`, `StoppedSeeding`, `AuditRuns`, `CredentialStore` | seeding, changes, resets and their audit as functions of the tables; seedings that were stopped half way; the audit over runs with failing writes; the tables changed in place |
| `Targets` | identifiers and the targets made from them |

A class or a method with a loop follows code that works in place. Its contract
ties the new state to a function of the old one, and the lemmas are about that
function. A restart, a failed write, a lost task or a passed deadline is a step
or a parameter that can come at any moment.

## What was found

These are properties that do not hold of the code as one would first state
them. Each is here with a run or an input that fails and with its exact
condition.

- A restart can reuse the number of a round that was never recorded, and a start
  clears the tasks but not the results. A late result of the first use can then
  be recorded in the second, with nothing else changed between the two
  (`Sites.RestartAfterDiscardCanBeWrong`: one team and two checks). Given what
  every round sends, restarts at any moment are safe for a started engine exactly
  when no round sends two tasks (`Sites.RestartsSafeIffOneTask`), and an engine
  can be trusted from its first round on exactly when each ticket of this or a
  later round that is queued, running or waiting is of a round that sends nothing
  or just that task (`Sites.TrustedIffHarmless`). Whatever the rounds may send,
  the condition is that there is no such ticket (`ExactIffNoLeftover`).
- A crash while a round is being counted can lose an SLA row for good, and so
  can an insert that fails (`CrashCanLoseAViolation`,
  `FailedInsertLosesAViolation`). Every violation is paid for exactly when each
  row was stored in the event in which it fell due (`PaidIffDueStored`,
  `CrashPaidIff`, over whole runs `RunPaysIff`). Counters rebuilt from the log
  are right all the same (`RestartsChangeNothing`).
- The engine counts up to the threshold and the loader takes remainders. The two
  agree for thresholds of at least 1 and for -1, and for no other
  (`RebuildAgreesExactly`); below -1 a single failure tells them apart
  (`NegativeThresholdDisagrees`). Only 0 is replaced in a configuration.
- Memory is keyed by service names as they came, the log by cleaned ones. A
  restart is invisible exactly when the names are clean
  (`SurvivesIffNamesAreClean`), and a zero byte in one is enough
  (`ZeroByteNameIsLost`). A runner copies its task's name, and a task with such a
  name is never sent, since the database refuses the question whether the check
  is enabled (engine/engine.go:407-411); so the name can only come with a foreign
  entry on the results list.
- The last point of a series drawn from a fresh view is the team's net score
  exactly when the team was checked in the last round, or has earned nothing and been penalized
  (`LastPointIsNet`). Nothing is carried forward, so it can be missing
  (`LastPointCanBeMissing`).
- A round recorded while a refresh is running on an older snapshot can stay off
  the view after all has come to rest (`LastRoundCanStayHidden`).
  `CatchesUpIffNotStuck` says exactly when it does not.
- A failed history insert leaves a password changed and not told of; in a reset,
  which writes the history first, a failed save leaves an entry for a change
  that was not made (`FailedHistoryBreaksAudit`, `FailedSaveBreaksAudit`). Either
  costs the audit exactly when the password is a new one (`AuditSurvivesIff`,
  `ResetAuditSurvivesIff`). Over whole runs with failing writes the audit holds
  exactly when every row is fine by its own writes
  (`AuditedIffEveryRowIsFine`), and a broken row can become whole again
  (`FailedSaveCanBeHealed`).
- A seeding stopped half way is not made good: later startups succeed and leave
  the team, or the list, with what it has (`PartialTeamIsForGood`,
  `HalfListIsForGood`). A startup that gets to its end leaves every team complete
  exactly when no team had been left with a part of its rows or a list is new
  (`CompleteAgainIff`), and a list with all its file's users exactly when nothing
  of it had been read, or all (`ListReadIff`).
- The map meant to catch two boxes of one name is never filled, so twin boxes
  load (`TwinBoxesLoad`). What does load is exactly what `CheckBoxes` says.
- Changing or resetting credentials locks a missing mutex and panics for a team
  that was not yet in the teams table when the process started. A team that was
  in it has its mutex, even if the seeding then stopped at an unreadable file
  (`EnsureCredentialsSeeded`; the answers `NoMutex` and `Panicked`).

Where the code and its documentation disagree, the model follows the code:

- the options table offers `slathreshold` and `slapenalty` per check
  (the repository's README.md:324-325), the accounting uses the global settings
  (engine/engine.go:600-605);
- the history's old password is documented as empty for initial seeding
  (engine/db/credentials.go:36), seeding writes no history;
- an identifier is documented by an error message as alphanumeric with hyphens
  and underscores (www/api/admin.go:183), it is one to three digits;
- the comment over the cleaning of texts speaks of a replacement character
  (engine/engine.go:531), bad bytes are removed.

## Model

| member | source | states |
|---|---|---|
| Numbering.MaxRound | engine/db/rounds.go:42-52 | the largest number in the rounds table, 0 for an empty one |
| Utf8.EncodingTable | engine/engine.go:532 | the first and last encoding of each row of the table of section 3 of RFC 3629 |
| Utf8.ValidIsWellFormed | engine/engine.go:532 | the byte-table test accepts exactly the strings that encode a sequence of Unicode scalar values (section 4 of RFC 3629) |
| Utf8.SanitizeIsClean | engine/engine.go:528-536 | for every byte string the cleaned one has no zero byte, is well-formed, is a subsequence of the input; cleaning again changes nothing, and a string stays as it is exactly when it was clean |
| Utf8.SanitizeKeepsText | engine/engine.go:528-536 | a clean prefix comes through whole and what follows is cleaned by itself |
| Utf8.SanitizeDropsBadByte | engine/engine.go:530-533 | after clean text, a zero byte or a byte that starts no rune goes, alone, whatever follows |
| Protocol.LastRound | engine/db/rounds.go:42-52 | the largest recorded number, 0 when there is none |
| Protocol.OutsideStepKeepsHeld | runner/runner.go:72-110 | taking, losing or pushing a ticket and a garbled entry move tickets between the lists, the runners and the losses and create or destroy none |
| Protocol.TakeKeeps | engine/engine.go:484-518 | one turn of the collection loop keeps the round's invariant: a current result goes from the list to the collection, anything else taken is of no concern to the round |
| Protocol.StepKeepsInv | engine/engine.go:391-525 | every step of the engine, a runner, the network or a restart keeps conservation of the round's tickets and the shape of recorded rounds |
| Protocol.RunKeepsInv | engine/engine.go:344-526 | over every run from a good state: each current ticket is queued, with a runner, in the results, collected or lost exactly as often as it was sent or was already around; a recorded round has as many results as tasks, all of its own number; recorded numbers grow and are below the current one, so the next insert never collides |
| ProtocolSafety.FullCountIsExact | engine/engine.go:473-518 | in a round begun without leftovers of its number, when the counts meet every task sent has its answer and no ticket of the round is anywhere else |
| ProtocolSafety.RunIsSafe | engine/engine.go:391-525 | every run without a restart keeps, for each round it records, one result per task and nothing left behind |
| ProtocolSafety.RecordedRoundsAreExact | engine/engine.go:399-525 | started without leftovers, an engine records only rounds whose results answer the tasks sent one for one, however slow or lossy the runners are |
| ProtocolSafety.ExactMeansOneEach | engine/engine.go:422-431 | with distinct tasks a recorded round holds exactly one result for each task and none for anything else |
| ProtocolSafety.RunStaysDoomed | runner/runner.go:79-83 | once a task of the round is lost, or the number is over, the round is not recorded in any continuation |
| ProtocolSafety.Drain | runner/runner.go:72-87 | while nothing is lost, there is a schedule of one runner and the engine that gets the collecting round recorded |
| ProtocolSafety.RecordableIffNothingLost | engine/engine.go:473-525 | the round under way can still be recorded if and only if none of its tasks has been lost |
| ProtocolLists.TasksAreAQueue | engine/engine.go:391-460 | the engine appends a task, a runner takes the first, a start whose delete gets through empties the list, and nothing else changes it |
| ProtocolLists.ResultsAreAQueue | engine/engine.go:484-518 | a runner appends a result, the engine takes the first, and nothing else changes the list, a start or a new process included |
| ProtocolLists.RunnersKeepTheirs | runner/runner.go:72-87 | runners hold what they popped until they push or lose it, whatever becomes of the engine |
| ProtocolLists.LossesAreCounted | runner/runner.go:79-83 | which steps lose which ticket, and that no other does |
| ProtocolLists.NumbersGoOn | engine/engine.go:79-83 | a round's end goes to the next number, a new process to the one after the last recorded, no other step changes it |
| ProtocolLists.RecordedWhen | engine/engine.go:538-572 | a step makes a record if and only if it is a finish whose insert works, of a round that sent something and whose number is free; the record holds what was sent and collected |
| ProtocolLists.NothingSavedNothingRecorded | engine/engine.go:569-572 | over every run in which no insert works nothing is recorded |
| ProtocolLists.ClearedQueueIsOfTheRound | engine/engine.go:391-396 | over every run whose starts clear the stale tasks, restarts and losses and all, a queue met in a round holds only that round's tasks, each at most as often as sent |
| ProtocolLists.UnclearedQueueCanBeStale | engine/engine.go:391-396 | a concrete start whose delete fails and that leaves an older task queued |
| ProtocolLists.WhatCanHappen | engine/engine.go:471-504 | which runner and collection steps are possible in which state |
| ProtocolLists.EngineIsNeverStuck | engine/engine.go:471-525 | an engine that has not halted can always go on by itself |
| PlannedLeftovers.ExactIffNoLeftover | engine/engine.go:391-396 | whatever its rounds will send, every run of an idle engine records only exact rounds if and only if no ticket of its number or a later one is around |
| PlannedLeftovers.LeftoverMakesWrong | engine/engine.go:391-396 | from any idle state with such a leftover there are rounds to send, and a run, that records a wrong one |
| ProtocolLeftovers.RestartAfterRecordIsSafe | engine/engine.go:79-83 | a restart straight after a recorded round keeps the number and starts without leftovers |
| Collection.Collect | engine/engine.go:467-521 | on any stream of messages, entries, errors and timeouts, what the loop hands on and how much of the stream it uses: the first `runners` current results, or nothing after the deadline or a reset |
| Wire.CurrentInOrder | engine/engine.go:513-518 | the results of a round in a stream are those of its parts, one after the other |
| Wire.CurrentOfOne | engine/engine.go:508-518 | an entry counts exactly when it decodes and carries the round's number |
| Collection.ResetHandsNothing | engine/engine.go:475-480 | a reset before the counts meet aborts the round there, and nothing is handed on |
| Collection.DeadlineHandsNothing | engine/engine.go:485-495 | the deadline before the counts meet ends the round there with no results |
| Collection.FullHandsOn | engine/engine.go:473-521 | when the counts meet before a reset or the deadline, all the round's results so far are handed on and no further event is used |
| Collection.HandsOnAllOrNothing | engine/engine.go:513-525 | whatever the stream, the loop hands on nothing or exactly the first `runners` results of the round in the order they came |
| Collection.TakesCollectCurrent | engine/engine.go:513-518 | the loop is the protocol's step taken over and over: as many takes as entries collect the same results |
| Runner.Handle | runner/runner.go:160-246 | the ticket is the task's; at most Attempts attempts run, the loop stops early only after a success or past the deadline; the status is true exactly when an attempt made delivered a passing result; the points are those of the last result delivered, 0 if none was; error and debug are those of the last delivery or timeout |
| Config.CredMap | engine/config/config.go:386-390 | a key is in the map exactly when some list has it as its name or its path, and leads to the path of the last such list |
| Config.FindsLastIsPathOf | engine/config/config.go:386-390 | the map built list by list is the one map with that property |
| Config.Resolve | engine/config/config.go:436-443 | succeeds exactly when every list named is known, and then gives their paths in order |
| Config.CheckBox | engine/config/config.go:417-451 | a box passes exactly when its checks are sound, their lists known and their names new and distinct; the checks come out named and resolved |
| Config.CheckBoxes | engine/config/config.go:393-455 | a configuration passes exactly when every box is ready and no check name occurs twice across all boxes |
| Config.LoadsIff | engine/config/config.go:393-455 | a configuration loads if and only if every box is named and has an address, every check is accepted by its Verify and names only configured lists, and no two checks anywhere end up with the same name, their own or else box-dash-display |
| Config.FinishedIsLoaded | engine/config/config.go:435-448 | a loaded check has its final name and its lists' paths, and is otherwise as configured |
| Config.FlatInOrder | engine/config/config.go:475-481 | the flat list goes box by box |
| Config.AllChecks | engine/config/config.go:475-481 | all checks of all boxes in order |
| Config.LoadedNamesAreDistinct | engine/config/config.go:429-433 | the flat list of a loaded configuration has pairwise distinct names, across boxes and after defaults are filled in |
| Config.TwinBoxesLoad | engine/config/config.go:382-402 | two boxes of one name, with a check each, load |
| Enqueue.Gather | engine/engine.go:435-447 | the credentials of all lists that load, in order |
| Enqueue.LoadedInOrder | engine/engine.go:435-447 | the credentials of several lists come one list after the other |
| Enqueue.LoadedFromOne | engine/engine.go:436-446 | a list that cannot be loaded adds nothing, another all it has |
| Enqueue.EligibleWhen | engine/checks/checks.go:125-136 | a pair is eligible exactly when the team is active, the check is not disabled, its launch time has come and its stop time, if any, has not passed, the lookup answers and no row disables it, and a listed credential loads if any list is named |
| Enqueue.TryTask | engine/engine.go:404-453 | a task is pushed exactly for an active team and a check that is not disabled, launched, not past its stop time, looked up without error, not disabled for the team, and with a credential loaded if it names a list; it carries the team, check, round, deadline, attempts and those credentials |
| Enqueue.Enqueue | engine/engine.go:399-463 | the tasks are those of the eligible pairs, all of them, in nested-loop order, and the expected count is their number |
| Enqueue.PlanIsTheOnlyOne | engine/engine.go:399-463 | teams, checks and what the database answers determine the list of tasks |
| Enqueue.PlanIsInOrder | engine/engine.go:399-403 | of two tasks the earlier is of an earlier team, or of the same team and an earlier check |
| Enqueue.PlanTicketsAreDistinct | engine/engine.go:422-431 | with distinct team ids and check names no (team, service) occurs twice in a round, and all tasks carry its number |
| Enqueue.SentIffEligible | engine/engine.go:400-452 | a pair has a task in the round if and only if it meets that condition, field by field |
| Enqueue.OneResultPerEligibleCheck | engine/engine.go:399-525 | a record that is exact for a plan's tickets has a result for a team and check if and only if the pair was eligible, and no ticket twice |
| PlannedRuns.StepStaysPlanned | engine/engine.go:399-463 | every step keeps that what was sent and what is still to be sent make up the round's plan, and that a new record sent its whole plan |
| PlannedRuns.RecordedRoundsAnswerThePlan | engine/engine.go:381-525 | configuration, enqueue loop and protocol together, over every run without leftovers or restart whose rounds send what their enqueue loops would: each new record sent its whole plan and has a result for a team and check if and only if the pair was eligible, one each and no other |
| PlannedLeftovers.HarmfulLeadsToWrong | engine/engine.go:391-396 | given what each round sends: from any idle state with a leftover whose round sends something else too, there is a run that takes it for an answer and records the round with a task unanswered |
| PlannedLeftovers.HarmlessCountIsExact | engine/engine.go:473-518 | when the counts meet in a round whose leftovers are all of its single task, the results still are the round's tasks |
| PlannedLeftovers.TrustedIffHarmless | engine/engine.go:391-525 | given what each round sends, every run without a restart records only exact rounds if and only if each leftover of this or a later round is alone in its round or its round sends nothing |
| PlannedLeftovers.RestartAfterDiscard | engine/engine.go:79-83 | for every round of two or more tasks there is a run in which it is discarded, a restart goes back to its number or before, and it is recorded wrong |
| PlannedLeftovers.RestartsSafeIffSmallPlans | engine/engine.go:79-83 | given what each round sends, every run of a started engine, with restarts at any moment, records only exact rounds if and only if no round sends two tasks |
| Sites.PlannedIsFollowing | engine/engine.go:398-463 | a run whose rounds send what their enqueue loops would is one that follows the plan those loops determine |
| Sites.TrustedIffHarmless | engine/engine.go:391-525 | the same condition on leftovers, for every configuration, teams and database |
| Sites.RestartsSafeIffOneTask | engine/engine.go:79-83 | the same condition on restarts, for every configuration, teams and database |
| Sites.RestartAfterDiscardCanBeWrong | engine/engine.go:79-83 | a run of one loaded configuration that never changes: a discarded round, a restart that reuses its number, the same tasks again, and a late result recorded in the wrong round |
| JointRuns.RecordChecks | engine/engine.go:546-556 | a recorded round has one result for a service if its pair was eligible and else none |
| JointRuns.UptimeCountsEligibleRounds | engine/engine.go:381-588 | configuration, protocol and ledger together, over every run without leftovers or restart: taken into the books, the recorded rounds raise a service's uptime total by the number of them in which its pair was eligible, and the rounds table is that of the records |
| Rounds.Rvb | engine/engine.go:344-526 | one round from end to end: the plan is sent and the outcome is what the stream decides; with no results, a failing insert or a taken number nothing changes, otherwise the rounds grow by that number and the log by all of its rows; the number moves on unless the loop was reset, and it stays ahead of every recorded number |
| Ledger.RecordedLog | engine/engine.go:538-572 | with no results, a failing insert or a number already there nothing at all changes; otherwise the rounds table and the log grow together |
| Sla.CountersAreTrailing | engine/engine.go:596-611 | the counter kept and the counter rebuilt are both the current run of failures modulo the threshold |
| Sla.GoRemIsLeft | engine/db/servicechecks.go:302 | the remainder is what is left of a whole multiple, smaller than the divisor and of the dividend's sign |
| Sla.RebuildAgreesExactly | engine/db/servicechecks.go:298-303 | the two counters agree on every history if and only if the threshold is at least 1 or is -1 |
| Sla.NegativeThresholdDisagrees | engine/db/servicechecks.go:302 | below -1 one failure tells the two counters apart |
| Sla.BreachAtMultiples | engine/engine.go:599-611 | a failure costs a violation exactly when it completes a multiple of the threshold in its run |
| Sla.CounterBounds | engine/engine.go:599-611 | the counter stays at or above 0 and below the threshold |
| Sla.Accounting | engine/engine.go:596-611 | failures = threshold * violations + counter + failures forgiven by passes, for every history |
| Sla.LastStreak | engine/engine.go:596-599 | the maximal runs of failures, defined apart from any counter, add up to the failures and end in the current run |
| Sla.ViolationsPerStreak | engine/engine.go:600-611 | violations are the sum over maximal failure runs of length divided by threshold |
| Ledger.TableStep | engine/engine.go:577-588 | for every summary of histories, adding one check to the log changes the one entry an update in place changes |
| Ledger.ObserveAllSteps | engine/engine.go:575-613 | counting a list of results turns memory that summarizes a history into memory that summarizes the longer one, and adds exactly the SLA rows the history owes |
| Ledger.LoadCountersIsTable | engine/db/servicechecks.go:279-305 | loading row by row into a fresh map gives every service the counter of its whole history |
| Ledger.RestartIsInvisible | engine/engine.go:78-93 | an engine consistent with its log can be restarted and nothing is different |
| Ledger.RecordKeepsConsistent | engine/engine.go:538-614 | recording a round of clean names, or failing to, keeps memory what the log says |
| Ledger.CrashIsLostRows | engine/engine.go:569-613 | a crash after the insert, at any result, and the restart after it are the whole round with the later SLA inserts failed |
| Ledger.RestartsChangeNothing | engine/engine.go:574-613 | for any sequence of rounds, restarts and crashes, the log, the counters and the SLA rows are those of the same rounds without restarts, but for rows a crash kept from being written |
| Ledger.SurvivesIffNamesAreClean | engine/engine.go:550 | a recorded round survives a restart if and only if all its service names are fixed points of the cleaning |
| Ledger.RunKeepsRows | engine/engine.go:538-572 | over every run of rounds, crashes and restarts a round in the table has rows in the log: no round that timed out is recorded |
| Ledger.LoadCarriesOn | engine/db/servicechecks.go:279-305 | loading over counters already there carries each on through its service's rows |
| Ledger.MergedEntry | engine/db/servicechecks.go:170-177 | a loaded uptime replaces the entry there was, and others stay |
| Ledger.LoggedTextIsClean | engine/engine.go:547-555 | a logged row tells of its result under the round's number, every text in it is one the database takes, and clean texts are logged as they are |
| Ledger.ZeroByteNameIsLost | engine/engine.go:550-583 | a concrete round whose service name has a zero byte, after which a restart is visible |
| Payments.PaidIffDueStored | engine/engine.go:596-611 | after a recorded round every violation of the log has its SLA row if and only if that was so before and every result that was due one, told from the log and the results before it, got it stored; there is never a row too many |
| Payments.CrashPaidIff | engine/engine.go:569-613 | after a crash in the counting and the restart every violation has its row if and only if that was so before and every row due was stored before the crash |
| Payments.RunPaysIff | engine/engine.go:574-613 | over every run of rounds, failed inserts, crashes and restarts every violation is paid for if and only if each event stored all the rows that fell due in it: what goes unpaid stays unpaid |
| Payments.RowsAndMisses | engine/engine.go:598-611 | for each service, new rows and missed rows together are its new violations |
| Payments.RecordKeepsPaid | engine/engine.go:600-609 | with no failed insert, recording a round keeps one SLA row at the global penalty for each violation of the log |
| Payments.LogPaysForStreaks | engine/engine.go:596-611 | over every run with restarts at round boundaries, each service has one SLA row per full threshold of each failure run, and its failures are paid for, on the counter or forgiven |
| Payments.CrashCanLoseAViolation | engine/engine.go:569-609 | a concrete crash after which a violation is never paid for |
| Payments.FailedInsertLosesAViolation | engine/engine.go:607-610 | a concrete failed insert after which a violation is never paid for |
| Engine.AllGroups | engine/db/servicechecks.go:148-154 | the grouped query's rows, in any order, entered one by one make the table of uptimes |
| Engine.ScoringEngine.LoadUptimes | engine/db/servicechecks.go:147-180 | the map given, with every logged service's entry set to its whole history's uptime |
| Engine.ScoringEngine.LoadSLAs | engine/db/servicechecks.go:279-306 | the map given, each row's counter stepped in insertion order |
| Engine.ScoringEngine.Start | engine/engine.go:78-90 | the number is the one after the last recorded round, hence above all of them; a process just made becomes exactly the fresh view of its database |
| Engine.ScoringEngine.ProcessCollectedResults | engine/engine.go:538-630 | with no results, a failing insert or a taken number nothing changes and no refresher starts; otherwise the rounds grow by the number, the log by one row a result, SLA rows, uptimes and counters become those of the recorded round, and a refresher starts exactly when none was running |
| Engine.ScoringEngine.CountUptime | engine/engine.go:577-588 | one entry gains a check, and a pass if it was one; all others stay |
| Engine.ScoringEngine.CountSla | engine/engine.go:590-612 | back to zero on a pass; one more on a failure, and zero with one SLA row at the threshold; all other counters stay |
| Sums.GroupsSumAlike | engine/db/servicechecks.go:197-201 | a GROUP BY's rows in any order, summed over any set of keys, give the sum over the table |
| Graph.ViewIsOneRowPerRound | engine/db/db.go:61-79 | for every log the view has exactly one row for each round in which a team was checked, with the team's points up to that round; the unique index can be built |
| Graph.WindowIsPrefix | engine/db/db.go:66-67 | a window's sum is the team's points up to the row's round, peers included |
| Graph.GetServiceCheckSumByRound | engine/db/servicechecks.go:45-127 | for any order of view rows and penalty groups: each round's map has the teams with a view row or an earlier penalty, at the row's points less the penalties so far |
| Graph.TakeOff | engine/db/servicechecks.go:112-123 | one group's penalty comes off its round and every later one, an absent entry counting as 0 |
| Graph.FreshSeriesIsTrue | engine/db/servicechecks.go:55-126 | over a fresh view the series is earned so far less lost so far wherever the team was checked, only what it lost where it was not, and absent otherwise |
| Reports.MergeGroups | engine/db/servicechecks.go:194-261 | the outer merge of the two groupings: a key of either, with zeros for what the other lacks |
| Reports.GetServiceScores | engine/db/servicechecks.go:190-277 | the data has each key of the log or the SLA rows once and no other key, with the sums of its rows |
| Reports.ExportScores | www/api/admin.go:95-124 | each team's services in order and its totals over the data, which are the team's score read off the log; teams not listed are left out |
| Reports.MineInOrder | www/api/admin.go:110-118 | a team's services are its rows of the data, all of them and in order |
| Reports.GetTeamScore | engine/db/teams.go:118-153 | the team's points, violations and penalties read off the log and the SLA rows, in whatever order the rows arrive |
| Reports.AnyOrder | engine/db/teams.go:137-150 | penalties add up to the same in any order of the rows |
| Reports.BothReports | www/api/admin.go:104-124 | what the two reports return for a team is the same: gross, violations and penalties, and the exported net is their difference |
| Reports.ExportIsTeamScore | www/api/admin.go:110-124 | for every log and any order of groups the sums over the grouped data are the team's score read off the log |
| Reports.LastPointIsNet | engine/db/servicechecks.go:118-123 | with a fresh view, the series' last point is the net score if and only if the team was checked in the last round, or earned nothing and was penalized |
| Reports.RunLastPointIsNet | engine/engine.go:538-613 | the same for the log of every run of rounds, crashes and restarts, with its largest recorded round as the last one |
| Reports.LastPointCanBeMissing | engine/db/servicechecks.go:86-89 | a concrete series without a last point for a team that earned one before |
| Refresh.StepKeepsInv | engine/engine.go:618-629 | the flag is up exactly while a refresher lives; the view is the cumulative scores of a prefix of the log; the prefix does not shrink; only a refresh that works and a new process change the view, only a recorded round the log |
| Refresh.RunKeepsInv | engine/engine.go:618-629 | the same over every run of rounds, refreshes that fail or succeed, and new processes |
| Refresh.SwapCatchesUpIff | engine/engine.go:620-628 | a compare-and-swap sees to it that the view catches up if and only if it starts a refresher, or meets one that has yet to take its snapshot or took it with the round |
| Refresh.RecordedIsShownIff | engine/engine.go:618-629 | a round recorded with rows comes to be shown if and only if no refresher was past its spawning |
| Refresh.CatchesUpIffNotStuck | engine/engine.go:620-628 | once rounds stop, all can come to rest, and the view then shows the whole log if and only if no round was refused by a refresher with an older snapshot |
| Refresh.LastRoundCanStayHidden | engine/engine.go:627-629 | a concrete run that comes to rest with the last round off the view |
| Refresh.SeriesIsOfAPrefix | engine/db/servicechecks.go:58-63 | at any moment of any run the series drawn is the true one of the prefix the view shows, under all penalties |
| Credentials.FirstRecordWins | engine/db/credentials.go:43-59 | existing originals stay, a new user gets its first record of two fields, nothing else appears |
| Credentials.OddRecordIsSkipped | engine/db/credentials.go:45-47 | a record of any other number of fields than two changes nothing |
| Credentials.RecordIsEntered | engine/db/credentials.go:48-56 | a record of two is entered exactly if its user has no original yet |
| Credentials.StartupSeeds | engine/credentials.go:22-125 | every startup, also one stopped by an unreadable file: no password and no original is overwritten, new rows start at their originals, and one that ends well leaves every team with exactly the originals' users |
| Credentials.RestartSeedsNothing | engine/credentials.go:71-122 | a second startup with the same teams and lists changes nothing |
| Credentials.StartupCompletesAnyRun | engine/credentials.go:22-125 | the same after any run of startups, changes and resets, with teams and lists added between them |
| Credentials.HistoryReplays | engine/db/credentials.go:103-173 | over every run with no failing write, the history replayed over the seeded table is the current table |
| Credentials.OldPasswordIsPrevious | engine/db/credentials.go:113-127 | each entry's old password is the new one of the entry before it for that row, or the seeded one |
| Credentials.BatchSetsLastPassword | engine/credentials.go:149-165 | a batch gives each named existing user the last password listed, one history row per naming, and leaves all other rows, lists and teams alone |
| Credentials.BatchEntries | engine/db/credentials.go:120-128 | every entry a batch writes names who made it, a row of that team and list, and a password listed for it |
| Credentials.MissingInOrder | engine/credentials.go:155-159 | the users skipped are those without a row, in order |
| Credentials.ResetEntries | engine/db/credentials.go:148-164 | a reset writes one signed entry for each row that has an original, changed or not, with the original |
| Credentials.ResetSetsOriginals | engine/db/credentials.go:148-170 | a reset sets the listed users who have an original to it and nothing else |
| Credentials.ResetRestoresOriginals | engine/db/credentials.go:132-173 | after any run a reset makes the team's list exactly the originals' and touches no other row |
| Credentials.AuditSurvivesIff | engine/db/credentials.go:115-128 | a change with a failing write keeps the audit if and only if it is not the history insert that failed, or the password was not new |
| Credentials.ResetAuditSurvivesIff | engine/db/credentials.go:154-169 | a reset's row keeps the audit if and only if it is not the save after its history row that failed, or the password was not new |
| Credentials.FailedHistoryBreaksAudit | engine/db/credentials.go:120-128 | a concrete seeded store whose audit a change loses when its history insert fails |
| Credentials.FailedSaveBreaksAudit | engine/db/credentials.go:162-169 | a concrete changed store whose audit a reset loses when its save fails |
| StoppedSeeding.StartupOkIff | engine/credentials.go:39-122 | a startup gets to its end if and only if every file it needs can be read: the first time all, later those of lists without originals |
| StoppedSeeding.FilesStopAt | engine/credentials.go:42-62 | a first startup reads nothing from the first unreadable file on |
| StoppedSeeding.NewListsStopAt | engine/credentials.go:88-112 | nor does a later one, from the first new list that cannot be read |
| StoppedSeeding.StoppedFirstStartup | engine/credentials.go:45-69 | a first startup that stops gives no team anything |
| StoppedSeeding.CompleteAgainIff | engine/credentials.go:73-121 | whatever stopped the startups before, one that gets to its end leaves every team with the originals' users if and only if no team had a part of its rows or a list is new |
| StoppedSeeding.ListReadIff | engine/credentials.go:88-112 | a startup that gets to its end leaves a list with all its file's users if and only if nothing of it had been read before, or all |
| StoppedSeeding.HalfListStays | engine/credentials.go:90-94 | a list with any original is not read again and gains none |
| StoppedSeeding.PartialTeamIsForGood | engine/db/credentials.go:67-78 | a concrete team whose second row failed, and which a later startup reports seeded without it |
| StoppedSeeding.HalfListIsForGood | engine/db/credentials.go:44-57 | a concrete list whose second record failed, and which a later startup leaves without it |
| AuditRuns.AuditedIffEveryRowIsFine | engine/db/credentials.go:103-173 | over every run of startups, changes and resets in which any write may fail, the audit holds if and only if each row, by its own writes, was told of truly by every entry and ends with the password it was last told of |
| AuditRuns.BatchIsWrites | engine/credentials.go:153-163 | a batch whose existing users' writes succeed is those single writes one after the other |
| AuditRuns.ResetIsWrites | engine/db/credentials.go:148-170 | a reset is the single writes of the rows that have an original |
| AuditRuns.FailedSaveCanBeHealed | engine/db/credentials.go:113-169 | a concrete run whose audit a reset's failed save breaks and a later change, its history insert failing too, makes whole again |
| CredentialStore.Tables.SeedOriginalCredentials | engine/db/credentials.go:43-59 | in place, what the seeding function gives |
| CredentialStore.Tables.SeedTeamCredentials | engine/db/credentials.go:62-80 | rows that exist stay, each original missing is copied, in whatever order the originals come |
| CredentialStore.Tables.EnsureCredentialsSeeded | engine/credentials.go:22-125 | both branches of a startup with their early returns, and a mutex for every team |
| CredentialStore.Tables.UpdateCredential | engine/db/credentials.go:103-129 | unknown users and a failed save change nothing; a failed history insert leaves the new password without an entry; otherwise the row has the password and the history one more entry, of the old and the new one and of who made the change |
| CredentialStore.Tables.UpdateCredentials | engine/credentials.go:127-166 | which answer is given when, that updated and skipped add up to the input, which users are skipped, and the tables after a batch that is stopped by a write |
| CredentialStore.Tables.ResetTeamCredlist | engine/db/credentials.go:132-173 | in place, what the reset function gives for any order of the rows; the first write that fails ends it, and where it leaves the tables then |
| CredentialStore.ResetCredentials | engine/credentials.go:196-213 | which answer is given when; an unknown list or a team without a mutex changes nothing, otherwise the list is reset, or reset up to the row at which a write failed |
| Targets.Service.Aim | engine/checks/checks.go:138-139 | an attempt's substitution in place; no blank is left for a second one |
| Targets.SubstituteAtBlank | engine/checks/checks.go:139 | the identifier stands whole where the blank was, and nothing else moves |
| Targets.IdentifierCases | www/api/admin.go:11-15 | an identifier is valid exactly when it is one to three of the ten digits |
| Targets.TargetsAreDistinctAndFinal | www/api/admin.go:11-15 | with a blank in the template, valid identifiers give equal targets if and only if they are equal, no blank is left, and substituting again, for anyone, changes nothing |

## Left out

- Redis, PostgreSQL, gorm, JSON, CSV and TOML: lists, tables and records are modelled directly, a failure is a step or a parameter.
- The service probes in engine/checks: an attempt's outcome is a parameter.
- The web handlers, cookies, LDAP and OIDC, the user interface, koth mode, pausing, injects, announcements and submissions: plumbing or easy.
- ResetScores: an engine loop blocked in a pop can overlap it, so nothing is claimed across a reset.
- Clocks and sleeping: a deadline is an event that can come at any moment.
- Goroutine scheduling of one handled task: a runner that has a task ends by pushing one result or by losing it.
- Integer width: counters, points and round numbers are unbounded.
- Reloading the configuration between rounds: what a round sends may differ from round to round, the SLA settings are fixed over a run.
- A failing query for the last round or a service's rows at startup: the queries are taken to answer.
- Row order of the unordered SLA query: rows are taken in insertion order.
- CredentialStore.Tables.EnsureCredentialsSeeded: in place, a startup stops at an unreadable file and its writes succeed; what a seeding stopped at a write leaves is in StoppedSeeding.
- Credentials.HistoryReplays: runs with no failing write; runs with failing writes are in AuditRuns.
- Protocol.RunKeepsInv: a task is its ticket in the protocol; its payload, attempts and deadline are in the enqueue loop and the runner.
- Config.CheckBoxes: the boxes come in the order of the stable sort by address, which is not modelled; a check's own Verify is one condition and its default name.
- Reports.GetServiceScores: the final sort by team and service; the totals are proved for every order.
- Graph.GetServiceCheckSumByRound: a round's missing map and its empty map are one; failing queries.
- CredentialStore.Tables.UpdateCredentials: who made a change is a parameter, the formatting of "team%d" is not modelled.
