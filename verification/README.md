# Model and proofs: behavior tree, cron and the data-binding compiler

This project models three parts of the repository in Dafny and proves what they are for.

**Behavior-tree runtime.** `bt_types.dfy` and `bt_semantics.dfy` say, as functions on tree values,
what one tick and one reset of each of the 22 node kinds do: which callbacks are made in which order,
with which answers, and what state is left. Host answers (callback results, clock reads, resolver
values) come from an arbitrary sequence; everything done to the host is recorded in a trace. On top
of that, `bt_invariant.dfy`, `bt_protocol.dfy`, `bt_soundness.dfy` and `bt_runs.dfy` prove an
invariant and a bracket protocol over every run of public calls; `bt_theorems.dfy` draws the
consequences for a user; `bt_past.dfy` proves that the past has no influence, so a reset tree behaves
as a new one; `bt_stutter.dfy` and `bt_resume.dfy` prove that RUNNING answers only spread work over
ticks and that a tick resumes at the running leaf; `bt_cost.dfy` bounds the leaf calls of a tick.
`bt_meaning.dfy` says what a plain tree is for: its activations answer the value of an expression over
the answers of its leaves. `bt_kinds.dfy` does the same for every kind over any subtrees: which
children are ticked when, and what the node answers. `bt_arena.dfy`, `bt_links.dfy` and `bt_handle.dfy`
are the library's own form: a class over an array of nodes linked by ids, updated in place, each
method proved to do exactly what the semantics says, from `Add` to the public `Tick`, so all
theorems about runs apply to the object.

**Cron.** `cron_calendar.dfy` is the calendar (proleptic Gregorian, fixed offset in whole minutes).
`cron_search.dfy` is the field-jumping search and its agreement with scanning minute by minute;
`cron_runner.dfy` the claiming of minute intervals by concurrent calls; `cron_parser.dfy` the field
parser against the union of its comma-separated terms.

**Compiler.** `txn.dfy` is the output transaction over fallible file operations;
`record_order.dfy` the C++ declaration order and the Rust sizing check over `graph.dfy`;
`lifecycle.dfy` the two closure loops and `classifier.dfy` the memoised record classifier, both over
`schema.dfy`; `admission.dfy` is the table of admissible fields that the classifier is proved against.

Where the code and its documentation differ, the code is modelled. Three properties that one might
expect are false of the code; each has lemmas with inputs and an exact condition:

- The search finds the next matching minute except for negative times that are not whole minutes
  (`CronSearch.NegativeTimeSkips`, `CronSearch.NextIsLeastAfter`).
- A runner first advanced in the minute of the epoch forgets that it was. It can then claim that
  minute twice (`CronRunner.EpochMinuteFiresTwice`) or pass over minutes
  (`CronRunner.EpochMinuteLosesMinutes`); `CronRunner.RunTiled` and `CronRunner.ExactlyOnce` say
  exactly when the claims and the callbacks are affected.
- A weekday range up to 7 does not mean what it says unless it is 7-7: 0-7 is silently accepted as
  Sunday alone, 1-7 to 6-7 are refused. With a step 0-7/n is right, 1-7/n to 6-7/n are refused, and
  in any field a range from a value to itself with a step runs on to the end of the field
  (`CronParser.RangeMeans`, `CronParser.SteppedRangeMeans`).

Run `dafny verify dfyconfig.toml` to check everything.

## Model

| member | source | states |
|---|---|---|
| `BtHandle.Handle.constructor` | `behavior-tree/src/behavior_tree.c:1129-1156` | a new handle is the empty machine: no node, no root, not busy |
| `BtHandle.Handle.Add` | `behavior-tree/src/behavior_tree.c:1158-1240` | adding in place relinks the table so that it stays a finite ordered tree with correct counts, depths and last children, and stands for exactly the machine with the node appended to its parent; every rejected call changes nothing and returns the code of the first failing check; busy is refused |
| `BtHandle.Handle.LinkIn` | `behavior-tree/src/behavior_tree.c:1208-1236` | the three link updates produce the grown table |
| `BtLinks.GrownBookkept` | `behavior-tree/src/behavior_tree.c:1178-1236` | growing keeps parents before children, sibling ids increasing, child count equal to chain length, last child and depth right, and every node among its parent's children |
| `BtLinks.DepthOfChild` | `behavior-tree/src/behavior_tree.c:1196-1213` | a child has a larger id than its parent and is one deeper |
| `BtLinks.TreeGrows` | `behavior-tree/src/behavior_tree.c:1208-1236` | seen as a tree value, only the parent changes: it gains the new node as its last child |
| `BtLinks.GrownIsAdded` | `behavior-tree/src/behavior_tree.c:1158-1240` | adding to the table is adding to the machine, checks and codes included |
| `BtLinks.ValidEverywhere` | `behavior-tree/src/behavior_tree.c:1264-1357` | checking every table entry is the same as checking the tree recursively |
| `BtHandle.Handle.Validate` | `behavior-tree/src/behavior_tree.c:1264-1357` | accepts exactly the trees that satisfy the structural rules at every node |
| `BtHandle.Handle.ResetNode` | `behavior-tree/src/behavior_tree.c:152-214` | the in-place reset does to the subtree what the reset semantics says and changes nothing outside it |
| `BtHandle.Handle.ResetChildAt` | `behavior-tree/src/behavior_tree.c:188-206` | one child of a reset node: its marker is cleared before, and its branch aborted after, its own reset |
| `BtHandle.Handle.TickNode` | `behavior-tree/src/behavior_tree.c:1254-1262` | the in-place tick computes exactly the tick semantics of the subtree, codes, statuses, callbacks and new state, and changes nothing outside it |
| `BtHandle.Handle.ResolveParameters` | `behavior-tree/src/behavior_tree.c:234-255` | dynamic limit and duration, with the limit check and the deadline of a running timer |
| `BtHandle.Handle.TickLeaf` | `behavior-tree/src/behavior_tree.c:258-273` | a leaf call; an invalid status leaves the running flag alone |
| `BtHandle.Handle.TickPipeline` | `behavior-tree/src/behavior_tree.c:274-331` | the pipeline loop with its prepare, complete and abort calls computes the pipeline semantics |
| `BtHandle.Handle.TickEntry` | `behavior-tree/src/behavior_tree.c:333-367` | EntryUpdated with its change query |
| `BtHandle.Handle.TickQueue` | `behavior-tree/src/behavior_tree.c:369-431` | ConsumeQueue with begin, finish and abort |
| `BtHandle.Handle.TickGuarded` | `behavior-tree/src/behavior_tree.c:433-521` | IfThenElse and Precondition, both guard forms |
| `BtHandle.Handle.TickKeepRunning` | `behavior-tree/src/behavior_tree.c:523-557` | KeepRunningUntilFailure |
| `BtHandle.Handle.TickWhile` | `behavior-tree/src/behavior_tree.c:559-648` | WhileDo, both guard forms |
| `BtHandle.Handle.TickSwitch` | `behavior-tree/src/behavior_tree.c:650-690` | Switch, scanning the sibling chain to the selected index |
| `BtHandle.Handle.TickRunOnce` | `behavior-tree/src/behavior_tree.c:692-706` | RunOnce |
| `BtHandle.Handle.TickTimeout` | `behavior-tree/src/behavior_tree.c:708-745` | Timeout, with clock reads before and after the child |
| `BtHandle.Handle.TickDelay` | `behavior-tree/src/behavior_tree.c:747-782` | Delay |
| `BtHandle.Handle.TickRepeat` | `behavior-tree/src/behavior_tree.c:784-810` | the Repeat loop over one child |
| `BtHandle.Handle.TickRetry` | `behavior-tree/src/behavior_tree.c:812-846` | the Retry loop over one child |
| `BtHandle.Handle.TickDecorator` | `behavior-tree/src/behavior_tree.c:848-865` | Inverter, ForceSuccess and ForceFailure |
| `BtHandle.Handle.TickParallel` | `behavior-tree/src/behavior_tree.c:867-972` | Parallel: all branches, join, finish and re-arm |
| `BtHandle.Handle.TickReactive` | `behavior-tree/src/behavior_tree.c:974-1055` | ReactiveFallback and ReactiveSequence |
| `BtHandle.Handle.TickChildren` | `behavior-tree/src/behavior_tree.c:1057-1119` | Sequence and Fallback, which write their cursor as they advance |
| `BtHandle.Handle.Tick` | `behavior-tree/src/behavior_tree.c:1619-1638` | a public tick is the machine's tick, keeps the handle healthy, and unless it answers OK with RUNNING leaves no leaf running, no adapter and no branch open; reentrant calls are refused without effect |
| `BtHandle.Handle.Reset` | `behavior-tree/src/behavior_tree.c:1640-1654` | reset (and cancel): the machine's reset, after which everything is closed |
| `BtHandle.Handle.SetResolver` | `behavior-tree/src/behavior_tree.c:1559-1617` | attaching, replacing or removing a resolver resets the subtree and restores constructor-time parameters; checks, codes and the no-change case included |
| `BtProtocol.ResetTracks` | `behavior-tree/src/behavior_tree.c:152-214` | a reset turns any intermediate state into a resting one, and the closing callbacks it makes are exactly those that the open brackets require, innermost first |
| `BtSoundness.TickNodeSound` | `behavior-tree/src/behavior_tree.c:227-1120` | one tick of any node in any state of the invariant: afterwards the callback history still replays against the bracket protocol with exactly the brackets the tree holds open; without an error the invariant holds again, and a terminal status leaves the subtree idle |
| `BtSoundness.PipelineSound` | `behavior-tree/src/behavior_tree.c:274-331` | the same for a pipeline, whose context is opened by prepare and closed by complete or abort |
| `BtSoundness.QueueSound` | `behavior-tree/src/behavior_tree.c:369-431` | the same for a queue, where an empty begin opens nothing |
| `BtSoundness.ParallelSound` | `behavior-tree/src/behavior_tree.c:867-972` | the same for Parallel with its branch brackets |
| `BtSoundness.ReactiveSound` | `behavior-tree/src/behavior_tree.c:974-1055` | the same for the reactive controls, which stop later children when an earlier one runs |
| `BtSoundness.GuardedSound` | `behavior-tree/src/behavior_tree.c:433-521` | the same for guarded controls, where condition and branch are never active together |
| `BtRuns.TickHealthy` | `behavior-tree/src/behavior_tree.c:1619-1638` | a public tick keeps every reachable machine healthy and closes everything unless it answers OK with RUNNING |
| `BtRuns.AddHealthy` | `behavior-tree/src/behavior_tree.c:1158-1240` | adding a node, accepted or refused, at any moment between ticks keeps a machine healthy |
| `BtRuns.ResolverHealthy` | `behavior-tree/src/behavior_tree.c:1559-1617` | so does changing a resolver |
| `BtRuns.RunHealthy` | `behavior-tree/src/behavior_tree.c:152-1654` | after any sequence of public calls with any host answers the invariant holds and the whole callback history replays |
| `BtRuns.QuietAfterTerminal` | `behavior-tree/src/behavior_tree.c:1619-1654` | in every run, a reset, a cancel or a tick that does not answer OK with RUNNING leaves no leaf running and no pipeline, queue or branch open |
| `BtTheorems.ClosedOnce` | `behavior-tree/src/behavior_tree.c:190-213` | no bracket is closed twice: between two closings it was opened again |
| `BtTheorems.ClosedInsideOut` | `behavior-tree/src/behavior_tree.c:190-213` | no bracket is closed while something below it is open |
| `BtTheorems.EveryActivationEnds` | `behavior-tree/src/behavior_tree.c:152-214` | in a history that ends closed every activation, of a leaf, an adapter or a branch, has its end |
| `BtTheorems.ActivationUnique` | `behavior-tree/src/behavior_tree.c:152-214` | an activation has one start and one end, and activations of one bracket do not overlap |
| `BtTheorems.RunBracketed` | `behavior-tree/src/behavior_tree.c:1619-1654` | after any run that finishes with a reset, a cancel or a tick that does not answer OK with RUNNING, every activation in the history has its one end, every closing callback is the end of one activation, and all inside it was closed by then |
| `BtTheorems.ReachableSinglePath` | `behavior-tree/src/behavior_tree.c:465-519` | in every reachable state each control node that is not a Parallel has at most one active child, and for the cursor-driven kinds it is the child under the cursor |
| `BtTheorems.BranchesTickedOnce` | `behavior-tree/src/behavior_tree.c:876-942` | the branch loop skips no branch when none is left terminal by an earlier activation |
| `BtTheorems.ParallelTick` | `behavior-tree/src/behavior_tree.c:867-972` | a successful tick of a Parallel in a state of the invariant ticks each branch exactly once, in order, and answers RUNNING if one runs, else FAILURE if one failed, else SUCCESS |
| `BtTheorems.ReachableParallel` | `behavior-tree/src/behavior_tree.c:867-972` | the same for every Parallel of the tree in every reachable state, whatever the host answers next |
| `BtTheorems.ReachableCounters` | `behavior-tree/src/behavior_tree.c:234-331` | loop counters and limits never exceed the maximum, whatever resolvers answer, and a pipeline counter never exceeds its child count |
| `BtTheorems.ResetEqualsFresh` | `behavior-tree/src/behavior_tree.c:1640-1649` | after any run a reset restores the constructed state (resolver-set parameters excepted), a second reset calls nobody, and without resolvers the tree equals the fresh tree of its shape |
| `BtPast.BuiltIsFresh` | `behavior-tree/src/behavior_tree.c:1206-1217` | a machine reached by Add calls alone has the fresh tree of its shape and has called nobody |
| `BtPast.NodePast` | `behavior-tree/src/behavior_tree.c:227-1120` | a tick of any node does the same whatever has been done before |
| `BtPast.RunPast` | `behavior-tree/src/behavior_tree.c:152-1654` | and so does any sequence of public calls |
| `BtPast.ResetBehavesAsNew` | `behavior-tree/src/behavior_tree.c:1640-1649` | without resolvers a tree that was used in any way and then reset answers every later run exactly as a newly built tree of the same shape does |
| `BtTheorems.IdleResetSilent` | `behavior-tree/src/behavior_tree.c:152-214` | resetting an idle subtree makes no callback |
| `BtStutter.NodeLock` | `behavior-tree/src/behavior_tree.c:784-1117` | one tick that yields, followed by a tick from its state, does what a single tick does when the RUNNING answer is deleted |
| `BtStutter.StutterInvariance` | `behavior-tree/src/behavior_tree.c:270-272` | however many ticks an activation of a plain tree takes, deleting all RUNNING answers and ticking once gives the same leaf calls in the same order, the same code and status and, without an error, the same state |
| `BtStutter.ReachableStutter` | `behavior-tree/src/behavior_tree.c:784-865` | the same for ticks of the root from every reachable state of every plain tree |
| `BtResume.NodeEnds` | `behavior-tree/src/behavior_tree.c:784-865` | a tick that yields has called last the leaf at the end of the cursors it leaves behind |
| `BtResume.ResumesAtLeaf` | `behavior-tree/src/behavior_tree.c:1057-1117` | the tick after RUNNING first calls exactly the leaf that answered RUNNING |
| `BtResume.ReachableResume` | `behavior-tree/src/behavior_tree.c:1057-1117` | the same from every reachable state |
| `BtResume.PublicStutter` | `behavior-tree/src/behavior_tree.c:1619-1638` | stutter invariance of public ticks, validation and clean-up after an error included |
| `BtResume.ReachablePublicStutter` | `behavior-tree/src/behavior_tree.c:1619-1638` | the same from every reachable state |
| `BtCost.NodeCost` | `behavior-tree/src/behavior_tree.c:227-1120` | a tick of any node makes at most its budget of leaf calls, dynamic limits included |
| `BtCost.BudgetIsLeafSum` | `behavior-tree/src/behavior_tree.c:784-846` | the budget is the sum over the leaves of the iteration maximum to the number of Retry and Repeat ancestors |
| `BtCost.TickCallsBounded` | `behavior-tree/src/behavior_tree.c:1619-1638` | the bound holds for a public tick in every reachable state |
| `BtMeaning.TickMeans` | `behavior-tree/src/behavior_tree.c:784-1119` | a tick of a plain tree (leaves, Sequence, Fallback, Inverter, forced results, Retry, Repeat) whose host gives no RUNNING answer has the value of an expression over the leaf answers: conjunction and disjunction with short circuit, negation, constants, n tries, n rounds. It calls exactly the leaves which that value needs, in order, and nobody else, and is back at a start |
| `BtMeaning.ActivationMeans` | `behavior-tree/src/behavior_tree.c:1619-1638` | a whole activation of a plain tree, however many public ticks and RUNNING answers it takes, replies with that value over its other answers, with those leaf calls and those answers left; a tree that is not valid is refused |
| `BtMeaning.ReachableMeaning` | `behavior-tree/src/behavior_tree.c:1619-1654` | a plain tree in any reachable state is at a start after a reset, and from every start on its activations reply with its value and end at a start |
| `BtMeaning.FlatSequence` | `behavior-tree/src/behavior_tree.c:1057-1119` | the value of a sequence of leaves: it holds exactly when all answers are SUCCESS, and asks the leaves in order up to and including the first other answer |
| `BtKinds.NodeMeans` | `behavior-tree/src/behavior_tree.c:227-1120` | for every kind but Parallel, any subtrees, any answers and any state between ticks: which children a tick ticks, in which order and when, what the host is asked, and what status and code the node answers to that (the rows below say it kind by kind) |
| `BtKinds.ReachableKinds` | `behavior-tree/src/behavior_tree.c:1619-1638` | the same for every node of every valid tree in every reachable state |
| `BtKinds.ParametersMean` | `behavior-tree/src/behavior_tree.c:234-255` | a resolver is asked once; a code it returns and a limit out of range stop the node, otherwise the new limit, or the new duration with the deadline of a running timer, is in force |
| `BtKinds.LoopTurns` | `behavior-tree/src/behavior_tree.c:1057-1119` | Sequence and Fallback tick their children in turn from the remembered one as long as each succeeds (fails); the first that does not decides, and if all do so does the node; a child that runs is remembered |
| `BtKinds.ReactiveTurns` | `behavior-tree/src/behavior_tree.c:974-1055` | ReactiveSequence and ReactiveFallback do so from the first child |
| `BtKinds.DecoratorStep` | `behavior-tree/src/behavior_tree.c:848-865` | Inverter exchanges success and failure, the forcing decorators give theirs, RUNNING and errors go through |
| `BtKinds.RetryStep` | `behavior-tree/src/behavior_tree.c:812-846` | Retry ticks its child, reset in between, until it succeeds, and fails exactly when all tries that are left have failed |
| `BtKinds.RepeatStep` | `behavior-tree/src/behavior_tree.c:784-810` | Repeat lets its child end once in every round that is left, whatever it answers, and then succeeds |
| `BtKinds.GuardedStep` | `behavior-tree/src/behavior_tree.c:433-521` | IfThenElse ticks its first branch exactly when the condition holds and its second, if it has one, exactly when the condition fails; Precondition ticks its child exactly when it holds; while the condition is undecided no branch is ticked |
| `BtKinds.WhileStep` | `behavior-tree/src/behavior_tree.c:559-648` | WhileDo ticks its body exactly when rounds are left and the condition holds, succeeds when either ends, fails with its body, and yields after a round that is not the last |
| `BtKinds.KeepRunningStep` | `behavior-tree/src/behavior_tree.c:523-557` | KeepRunningUntilFailure succeeds exactly when its child fails, fails when its rounds are used up, and yields otherwise |
| `BtKinds.SwitchStep` | `behavior-tree/src/behavior_tree.c:650-690` | Switch ticks the child it is told and no other, and fails without a tick when told of none |
| `BtKinds.RunOnceStep` | `behavior-tree/src/behavior_tree.c:692-706` | RunOnce ticks its child until that ends, and answers from the cache exactly from then on |
| `BtKinds.RunOnceCached` | `behavior-tree/src/behavior_tree.c:692-706` | once ended, every later tick gives the same status, asks nobody and changes nothing |
| `BtKinds.TimeoutStep` | `behavior-tree/src/behavior_tree.c:708-745` | Timeout fails exactly when a clock read before or after its child is at or past start plus duration (saturating); otherwise it answers what its child does |
| `BtKinds.DelayStep` | `behavior-tree/src/behavior_tree.c:747-782` | Delay yields without ticking its child exactly until the clock reaches its deadline, and is then transparent |
| `BtKinds.EntryStep` | `behavior-tree/src/behavior_tree.c:333-367` | EntryUpdated restarts its child at the first tick and on a change, goes on with one under way, and otherwise answers the last status without a tick |
| `BtKinds.PipelineStep` | `behavior-tree/src/behavior_tree.c:274-331` | Pipeline prepares a stage, ticks its child until it ends, completes it; a failure or error ends the pipeline, a success goes on as a tick at the next stage, and after the last it succeeds |
| `BtKinds.QueueStep` | `behavior-tree/src/behavior_tree.c:369-431` | ConsumeQueue fails on an empty queue or a failed item, and after finishing an item yields exactly when there are more |
| `BtRuns.RoomIsValidity` | `behavior-tree/src/behavior_tree.c:1191-1205` | a parent takes another child exactly when some larger number of children would be valid for its kind |
| `BtRuns.CapacityDecides` | `behavior-tree/src/behavior_tree.c:1158-1206` | an add is answered EINVAL exactly when no capacity would help, ENOBUFS exactly when nothing but capacity is missing, and is accepted otherwise |
| `CronCalendar.Civil` | `cron/src/salts_cron.c:144-150` | broken-down local time of a minute: a normal date whose minute number is that minute |
| `CronCalendar.CivilUnique` | `cron/src/salts_cron.c:956-1049` | a normal date is the broken-down time of its minute number, so normalising and converting back lose nothing |
| `CronCalendar.Epoch` | `cron/src/salts_cron.c:144-150` | minute 0 is the first of January 1970, midnight |
| `CronCalendar.CalendarDays` | `cron/src/salts_cron.c:144-150` | 1440 minutes later is the same time on the next day: the following day of the month, or after the last (31, 30, 29 or 28, by month and leap year) the first of the next month, after December of the next year |
| `CronCalendar.TimeOfDay` | `cron/src/salts_cron.c:144-150` | hour and minute of a minute number |
| `CronCalendar.FirstWeekday` | `cron/src/salts_cron.c:144-150` | day 0 is a Thursday |
| `CronCalendar.WeekdayStep` | `cron/src/salts_cron.c:144-150` | the next day has the next weekday, and Sunday follows Saturday |
| `CronSearch.MatchesIsFiring` | `cron/src/salts_cron.c:901-936` | a minute matches exactly when its minute, hour and month are in their sets and its day is: by both fields if neither is restricted, by the restricted one, and by either of them if both are |
| `CronSearch.MonthJump` | `cron/src/salts_cron.c:961-981` | jumping to the first of a later month skips no match |
| `CronSearch.DayJump` | `cron/src/salts_cron.c:983-1015` | jumping to the next midnight skips no match |
| `CronSearch.HourJump` | `cron/src/salts_cron.c:1016-1023` | jumping to a later hour skips no match |
| `CronSearch.MinuteJump` | `cron/src/salts_cron.c:1025-1039` | jumping to a later minute skips no match |
| `CronSearch.TargetWithinNineYears` | `cron/src/salts_cron.c:956-958` | an expression that matches at all matches within nine years of any start, leap days and weekdays included |
| `CronSearch.Round` | `cron/src/salts_cron.c:958-1049` | one iteration either stops at a match or moves forward over minutes that do not match |
| `CronSearch.Next` | `cron/src/salts_cron.c:938-1052` | the result fires by the rule of the five fields and is the least minute from the first candidate on that does; ENEXT is returned only when no minute of the calendar fires, so the budget of 5000 iterations is enough |
| `CronSearch.NextIsLeastAfter` | `cron/src/salts_cron.c:152-154` | the result is the least match strictly after the given time if and only if the time is not a negative part-minute followed by a match |
| `CronSearch.NegativeTimeSkips` | `cron/src/salts_cron.c:152-154` | a concrete negative time for which the next matching minute is missed |
| `CronSearch.NextN` | `cron/src/salts_cron.c:1054-1083` | the first matches in order, as many as the requested count is when converted to an int |
| `CronSearch.AskedInFull` | `cron/src/salts_cron.c:1073-1073` | a requested count is served in full exactly when it fits an int |
| `CronRunner.EnterTiled` | `cron/src/salts_cron.c:1128-1146` | one call keeps the claims disjoint and gap-free unless an earlier claim has left the cursor at the never-advanced value and the call comes in minute 0 or after minute 1, and only then not |
| `CronRunner.Disjoint` | `cron/src/salts_cron.c:1134-1141` | no minute belongs to two claims of a tiled runner |
| `CronRunner.Covered` | `cron/src/salts_cron.c:1134-1145` | no minute from the first one through the cursor of a tiled runner is left out |
| `CronRunner.RunCounted` | `cron/src/salts_cron.c:1116-1163` | any interleaving of concurrent calls, with clocks going backward as well, fires each matching minute once for each call that has dealt with it |
| `CronRunner.RunTiled` | `cron/src/salts_cron.c:1128-1146` | for any interleaving the claims are disjoint and gap-free if and only if the clocks are safe: a fresh runner is not called first in the minute of the epoch and then next in a minute other than the following one |
| `CronRunner.ExactlyOnce` | `cron/src/salts_cron.c:1128-1162` | when all calls have returned, every matching minute from the first claimed one through the cursor has fired exactly once and nothing else has, if and only if the minute of the epoch, when claimed more than once, does not match, nor any minute between it and the next call |
| `CronRunner.EpochMinuteLosesMinutes` | `cron/src/salts_cron.c:1134-1134` | two calls, the first in the minute of the epoch, after which a minute in between is claimed by nobody |
| `CronRunner.EpochMinuteFiresTwice` | `cron/src/salts_cron.c:1134-1134` | two calls in the minute of the epoch that both claim and fire it |
| `CronRunner.CallReaches` | `cron/src/salts_cron.c:1148-1162` | callbacks for exactly the matches of a claim, in order, are a run of the interleaving system |
| `CronRunner.CronJob.Advance` | `cron/src/salts_cron.c:1116-1163` | one call fires, in order, exactly the matching minutes it claims and returns their number; from any runner with this cursor it is a run Enter, Fire*, Leave of the interleaving system |
| `CronParser.FieldParser.ApplyRange` | `cron/src/salts_cron.c:464-492` | adds exactly the normalised values of the span; the loop ends with the first number of the grid beyond the end, which fits a C int if and only if start plus step does |
| `CronParser.MonthName` | `cron/src/salts_cron.c:61-64` | the twelve month names in any case mean 1 to 12 |
| `CronParser.DayName` | `cron/src/salts_cron.c:66-69` | the seven weekday names in any case mean 0 to 6 |
| `CronParser.StarMeans` | `cron/src/salts_cron.c:494-541` | a star means all of 0-59, 0-23, 1-31, 1-12 or 0-6, and with a step every n-th of them from the first |
| `CronParser.FieldParser.ParseValue` | `cron/src/salts_cron.c:406-443` | accepts a number or name of the field and consumes one token |
| `CronParser.FieldParser.ParseTerm` | `cron/src/salts_cron.c:494-545` | reads a term from left to right, and fails where no term can start |
| `CronParser.GreedyIsTerm` | `cron/src/salts_cron.c:494-545` | reading from left to right finds the term up to the comma exactly when those tokens form one |
| `CronParser.FieldParser.ParseField` | `cron/src/salts_cron.c:547-601` | succeeds exactly when the comma-separated terms are all well formed, with the union of their sets; the any flag holds exactly when the set is the whole field |
| `CronParser.MeaningInDomain` | `cron/src/salts_cron.c:351-388` | an accepted field is a nonempty set of values of the field; weekday 7 is never stored |
| `CronParser.ListRoundTrip` | `cron/src/salts_cron.c:574-596` | a comma list of values parses to the set of those values, in any order and with repetitions |
| `CronParser.EverySetCanBeWritten` | `cron/src/salts_cron.c:547-601` | every nonempty set of values can be written and parses back to itself |
| `CronParser.TrailingComma` | `cron/src/salts_cron.c:580-586` | a comma after the last term changes nothing |
| `CronParser.RangeMeans` | `cron/src/salts_cron.c:351-388` | a range a-b means the values from a to b, 7 standing for Sunday, if and only if it is not a range from a weekday before 7 up to 7: 0-7 is accepted as Sunday alone, 1-7 to 6-7 are refused |
| `CronParser.SteppedRangeMeans` | `cron/src/salts_cron.c:527-541` | a range with a step means every n-th value from a to b if and only if it neither runs from a weekday after Sunday up to 7 nor from a value to itself with a step that stays in the field |
| `CronParser.SevenWithStep` | `cron/src/salts_cron.c:527-541` | a single weekday 7 with a step runs through the whole week |
| `CronParser.ParseExpr` | `cron/src/salts_cron.c:639-677` | five well-formed fields, and only those, give an expression with these meanings, which is in the domain that the search needs |
| `OutputTransaction.Coordinator.Reserve` | `databind/compiler/compiler_core.c:4667-4700` | creates an empty file under an unused name, or fails before or after doing so |
| `OutputTransaction.Coordinator.Add` | `databind/compiler/compiler_core.c:4702-4722` | succeeds exactly when there is room for another output, the path is not yet one and no file operation failed; a refusal for the first two reasons touches nothing; staging names stay different from each other and from all output paths |
| `OutputTransaction.Coordinator.AbortItem` | `databind/compiler/compiler_core.c:4730-4750` | rolling one output back loses no original at any step and, if no operation fails, restores it and removes its temporaries |
| `OutputTransaction.Coordinator.Abort` | `databind/compiler/compiler_core.c:4725-4755` | rolling back succeeds exactly when no file operation failed, and then all outputs are as before; in any case every original is at its path or in its backup |
| `OutputTransaction.Coordinator.BackupItem` | `databind/compiler/compiler_core.c:4823-4833` | moving one original out of the way, with the flag that says so |
| `OutputTransaction.Coordinator.PublishItem` | `databind/compiler/compiler_core.c:4835-4843` | moving one staged output into place |
| `OutputTransaction.Coordinator.Commit` | `databind/compiler/compiler_core.c:4757-4862` | succeeds exactly when the transaction is not empty, every staging path is a regular file, every final path is absent or one, and no file operation failed. For every pattern of failing operations: all outputs hold the staged bytes, or (when no rollback operation fails) all are as before with no temporary left; until the last publish no state of the file system lacks an original; foreign paths are never touched |
| `OutputTransaction.ProgressSafe` | `databind/compiler/compiler_core.c:4823-4843` | as long as flags and files agree, every original exists at its final or its backup path |
| `OutputTransaction.UpdateItem` | `databind/compiler/compiler_core.c:4823-4843` | a step on one output's paths keeps flags and files of all outputs in agreement |
| `Graphs.LayeredAcyclic` | `databind/compiler/compiler_core.c:4500-4545` | an order in which every node follows its successors excludes cycles |
| `Graphs.StuckHasCycle` | `databind/compiler/compiler_core.c:4538-4544` | nodes that all wait for one another contain a cycle |
| `RecordOrder.ReadableFieldDep` | `databind/compiler/compiler_core.c:4392-4453` | a dependency query fails only on an unreadable type, and a negative answer means the whole type was readable |
| `RecordOrder.TypeDepMentions` | `databind/compiler/compiler_core.c:4392-4418` | the query on a readable type finds a name exactly when the name stands in it on a path that enters no list |
| `RecordOrder.FieldDepMentions` | `databind/compiler/compiler_core.c:4420-4453` | so does the query on a field, by its collection form: plain type, array or set element, map key or value, but no list element |
| `RecordOrder.NeedsIsMentions` | `databind/compiler/compiler_core.c:4459-4548` | in a readable contract a record needs another complete exactly when one of its fields mentions it so |
| `RecordOrder.ReadableMeans` | `databind/compiler/compiler_core.c:4392-4418` | a type is readable exactly when no path outside lists leads to a missing or malformed part |
| `RecordOrder.HoldsIsByValue` | `databind/compiler/compiler_core.c:4115-4146` | a record holds another by value exactly when a plain field or a fixed array names it |
| `RecordOrder.ScanRecord` | `databind/compiler/compiler_core.c:4508-4526` | a record is ready exactly when no field needs a record not yet emitted |
| `RecordOrder.EmitPass` | `databind/compiler/compiler_core.c:4501-4537` | one pass emits ready records; a pass that emits none has found every pending record waiting for a pending one |
| `RecordOrder.OrderRecords` | `databind/compiler/compiler_core.c:4459-4548` | for a readable contract an order exists exactly when the mentions of records outside lists form no cycle; it lists every record once, after every record that one of its fields mentions outside lists; an unreadable contract has none |
| `RecordOrder.RecordVisit` | `databind/compiler/compiler_core.c:4115-4146` | the depth-first visit either finishes a record after all it holds by value, or has found a cycle |
| `RecordOrder.ValidateSized` | `databind/compiler/compiler_core.c:4148-4166` | accepts exactly when the records named by plain fields and fixed arrays form no cycle |
| `Lifecycles.Close` | `databind/compiler/compiler_core.c:2763-2772` | the passes compute the least closed set of records and number at most one more than the records |
| `Lifecycles.OnlyOneLeast` | `databind/compiler/compiler_core.c:2763-2772` | the result does not depend on the visiting order |
| `Lifecycles.NoSelfSupport` | `databind/compiler/compiler_core.c:2885-2887` | records that qualify only with one another's help are never admitted |
| `Lifecycles.LeastIsFixpoint` | `databind/compiler/compiler_core.c:2763-2772` | a record is marked exactly when it qualifies given the final marks |
| `Lifecycles.OverlayOfPlain` | `databind/compiler/compiler_core.c:2670-2750` | a plain field allows an overlay lifecycle when it is a scalar, or names a record with a lifecycle or overlay, or a bound native enum, and (the storage types apart) in no other case |
| `Lifecycles.OverlayOfContainer` | `databind/compiler/compiler_core.c:2670-2750` | a collection allows one exactly when it is a bound fixed array, a group exactly when it is a bound sequence |
| `Lifecycles.OptionalScalars` | `databind/compiler/compiler_core.c:2752-2773` | a published message of scalars and overlay records with an optional field is given an overlay lifecycle |
| `Lifecycles.MemberOfPlain` | `databind/compiler/compiler_core.c:2802-2871` | which fields without nested generics and fixed storage allow a member lifecycle, and which do not |
| `Lifecycles.MemberOfFixedArray` | `databind/compiler/compiler_core.c:2802-2871` | and which fixed arrays |
| `Lifecycles.BoundScalars` | `databind/compiler/compiler_core.c:2873-2914` | a record of bound scalars that no earlier pass published is given a member lifecycle |
| `Lifecycles.OverlayMonotone` | `databind/compiler/compiler_core.c:2670-2750` | admitting more records never disqualifies one from an overlay lifecycle |
| `Lifecycles.AnnotateLocalOverlay` | `databind/compiler/compiler_core.c:2752-2773` | the overlay marks are the least fixpoint over the messages: a message is marked exactly when it qualifies given the marks |
| `Lifecycles.MemberMonotone` | `databind/compiler/compiler_core.c:2802-2871` | the same for member lifecycles |
| `Lifecycles.AnnotateMember` | `databind/compiler/compiler_core.c:2873-2914` | the member marks are the least fixpoint over all records: a record is marked exactly when it qualifies given the marks |
| `Lifecycles.NoMemberCircle` | `databind/compiler/compiler_core.c:2885-2887` | records holding one another in a circle never acquire a member lifecycle |
| `Classifiers.Search.Classify` | `databind/compiler/compiler_core.c:1629-1650` | the memoised visit of a record agrees with the unfolding without memory, never changes what is already decided, and refuses a record met again on the stack rightly |
| `Classifiers.Search.ClassifyField` | `databind/compiler/compiler_core.c:1651-2047` | one field, of any kind, contributes exactly the depth, height and nodes of its unfolded descriptor, or is rightly rejected |
| `Classifiers.Search.ClassifyGeneric` | `databind/compiler/compiler_core.c:1575-1627` | nested generic types with their own depth guard |
| `Classifiers.Search.ClassifyAll` | `databind/compiler/compiler_core.c:2109-2143` | whatever the order, a record is supported exactly when the table of admissible fields gives it a descriptor with at most 32 records below it and, in the graph pass, at most 2^64-1 nodes; the published depth, height and node count are those of that descriptor |
| `Classifiers.TableAgrees` | `databind/compiler/compiler_core.c:1629-2087` | what the reference grants is what the table of `admission.dfy` says: for each form of field which attributes admit it in which pass, and what it adds to depth, height and nodes |
| `Classifiers.RecordAgrees` | `databind/compiler/compiler_core.c:1629-2087` | with any fuel, the reference grants a record a depth and a descriptor exactly when the table gives it those and the depth is below the fuel |
| `Classifiers.PlanAgrees` | `databind/compiler/compiler_core.c:1651-2047` | the decisions on one field, in the order of the code, admit exactly what the table admits for its form: scalar, enum, record, fixed array, sequence, set, map, nested generic or provider-owned |
| `Classifiers.OneDescriptor` | `databind/compiler/compiler_core.c:1629-2087` | the table gives a record at most one depth and descriptor |
| `Classifiers.ScalarRecordSupported` | `databind/compiler/compiler_core.c:1958-1968` | a record of n projected scalars is supported with no record below it, descriptor height 2 (1 for n = 0) and 1 + n nodes |
| `Admission.ScalarRecordIs` | `databind/compiler/compiler_core.c:1958-1968` | its descriptor is one node with n leaves |
| `Classifiers.DepthLimit` | `databind/compiler/compiler_core.c:1629-2087` | a record that some fuel grants is granted by the reference exactly when its depth is at most 32 |
| `Classifiers.ExactSupport` | `databind/compiler/compiler_core.c:1629-2087` | the reference grants a record exactly when no chain of records from it runs in a circle or ends at a record that is inadmissible in itself, and every chain has at most 33 records |
| `Classifiers.LongestChain` | `databind/compiler/compiler_core.c:2055-2055` | the published record depth is the length of the longest chain of records, which is attained |
| `Classifiers.CycleRefused` | `databind/compiler/compiler_core.c:1641-1644` | a record from which a cycle can be reached is never supported |
| `Classifiers.HeightBound` | `databind/compiler/compiler_core.c:1709-1718` | descriptor heights stay so small that the wrap-around guards on them never fire |
| `Classifiers.NeverTooHigh` | `databind/compiler/compiler_core.c:1778-1790` | those guards never fire |

## Left out

Behavior tree:
- Error codes are a datatype (their numbers are defined elsewhere); callbacks may return any other code.
- Callback and user pointers: a node records which optional hooks exist; the four Parallel hooks, which the constructors install together, are one flag, and required callbacks of typed constructors always exist.
- Reentrant public calls from callbacks: the busy flag refuses them, which is what the methods state; a callback is modelled as an answer.
- `BtHandle.Handle.Validate`: the checks on callback presence and on resolver masks are left to the constructors, which alone can set them.
- The depth argument of ticks and null-node checks on valid ids, which the proofs show cannot fail in a well-formed table.
- Allocation failure, destroy-time freeing, and accuracy of the host clock; clock reads are arbitrary numbers.
- 64-bit wrap-around of counters: they are bounded by the iteration maximum, as `BtTheorems.ReachableCounters` shows; deadlines saturate as in the code.
- `BtKinds.NodeMeans`: says nothing of Parallel; `BtTheorems.ParallelTick` does, which also says that each branch is ticked once and how the statuses add up.
- `BtMeaning.TickMeans`: values are given to trees of leaves, Sequence, Fallback, Inverter, forced results, Retry and Repeat with constructor-time limits; the other kinds depend on callbacks, clocks or memory beyond the leaf answers, and `BtKinds.NodeMeans` describes them tick by tick.
- `BtTheorems.ReachableSinglePath`: for IfThenElse, Precondition and WhileDo with an in-tree condition the active child is the condition or the branch under the cursor, so the cursor part is stated for the other cursor-driven kinds.

Cron:
- Time zones with daylight saving: the offset is fixed.
- `CronSearch.Next`: does not model failures of localtime and mktime, which the code answers with ESTATE.
- `CronParser.ParseExpr`: starts from five token lists; alias expansion and the split at blanks come before it.
- `CronParser.FieldParser.ApplyRange`: numbers are unbounded; by its last clauses the code computes the same as long as start plus step fits a C int.
- The lexer, file loading, formatting, and threads and their waiting.
- Bit masks are sets of bit positions.

Compiler:
- Template rendering, type spelling, native-service and component output, option handling, and the database schema code.
- `RecordOrder.OrderRecords`: does not model a failure to render a declaration.
- `OutputTransaction.Coordinator.Commit`: assumes that no output path is the name of a temporary file and that backup names are new; that staging names differ follows from adding. Permission changes do not alter bytes, and a failing rename changes nothing.
- The text of type expressions: parsing is done before the model, and a text that does not parse is `Malformed`.
- The classifier's parallel arrays are one array of entries, and attributes whose text is not looked at are booleans; allocation failures are not modelled.
