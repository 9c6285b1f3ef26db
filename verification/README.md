# Verified model of the ash-flare supervision runtime

This project models the supervision core of ash-flare in Dafny and proves what the
supervisor promises over whole runs: how often it restarts, when it gives up, that no child
ever has two live tasks, that nothing comes back from the dead, and how much work a whole
tree of supervisors can start before it fails.

Check it with `dafny verify dfyconfig.toml`.

## How it is built

One supervisor is described twice, and the two descriptions are proved equal.

* `Runtime` has the classes of the source: `WorkerProcess` and `SupervisorRuntime`, with a
  child list, two trackers and a command loop that are updated in place. `Restart` has the two
  tracker classes, `SupervisorCommon` the restart decision. `Stateful` has the second runtime
  of the source, whose workers are built from a shared context.
* `Supervision` says what each command does as a function from a supervisor value to a
  supervisor value. Every method of both runtime classes is proved to compute its function:
  new state, answer, timers set, tasks spawned, and the trace of spawns, stops, shutdown
  messages and drops, in order. `ServeAll` folds these functions over a whole command sequence.

The theorems are about the functions, so they hold of both runtimes.

* `World` puts a supervisor among its clients, its timers and its tasks. Each of them can post
  to the one FIFO queue at any moment. Tasks may report any reason at any time, but at most
  once; timers fire no earlier than they are due; the clock never goes back. `WorldFollows`
  reduces every run of this world to a fold of `Supervision`.
* `Lifecycle` is the state machine of one task (`run_worker`) raced against `stop` and `Drop`.
* `Joint` joins the two: each worker task is a `Lifecycle` machine, driven by its own steps and
  by the supervisor's spawns, stops and drops, which are carried out one at a time while
  everything else goes on. Every run of `Joint` is a run of `World`, which shows that a task
  reports at most once. `Feasibility` goes the other way: which runs of `World` the tasks can
  follow. The runs that show a claim to be false are proved to be of that kind.
* `Tree` stacks such worlds: the exit reason of a nested supervisor is what it reports above.
  `GivingUp` adds the time between the levels: a nested life starts no earlier than it is
  spawned and has ended when it is reported.
* The remaining modules each prove one group of properties: `Backoff`, `BackoffTable`,
  `ClockOrigin`, `Conservation`, `Contexts`, `Escalation`, `Generations`, `Identity`, `LinkedStart`, `Pacing`,
  `Rate`, `Reports`, `Requests`, `Resurrection`, `Rounds`, `Temporary`.

Times are nanosecond counts with the bounds of `Duration` and `Instant`; checked and saturating
operations of the source keep their overflow branches. An `Instant` counts from the least
reading that the platform can represent.

The fields `timers`, `spawned`, `trace`, `worthy`, `journal` and `rounds` of `Supervision.Sup`
are history: they only grow, and no decision turns on them (the length of `spawned` numbers
the next task).

Whether a task ends within its grace period is not the supervisor's to decide: the runtime classes
take it as a function of the task number (`prompt`), and `Joint` leaves it to the task's own steps.

Deliveries carry two clock readings because the source reads the clock twice while it decides
on a restart: once for the intensity window and, later, once for the backoff.

## Model

| member | source | states |
|---|---|---|
| Restart.RestartTracker.RecordRestart | src/restart.rs:193-212 | afterwards the deque is the old one filtered to the window, plus the new reading, and still sorted; the result tells whether that is more than the limit |
| Restart.BackoffTracker.NextDelay | src/restart.rs:254-276 | returns the delay for the child's consecutive restarts (zero of them after a healthy uptime) and updates only that child's entry |
| Restart.BackoffTracker.ResetChild | src/restart.rs:280-282 | removes exactly that child's entry |
| Restart.SinceDropsOldHead | src/restart.rs:200-206 | dropping an expired head leaves what the window keeps unchanged, so popping from the front is filtering |
| Restart.SinceKeepsRecent | src/restart.rs:200-206 | once the head is recent nothing else has expired |
| Backoff.DelayClosedForm | src/restart.rs:152-165 | for every 32-bit attempt the delay is min(max_delay, initial * min(2^attempt, 2^32 - 1)) in unbounded arithmetic; no shift or multiplication overflow shows |
| Backoff.MultiplierSaturates | src/restart.rs:156-160 | the multiplier is 2^attempt below attempt 32 and 4294967295 from there on |
| Backoff.DelayMonotone | src/restart.rs:152-165 | later attempts never wait less, and never more than max_delay |
| Backoff.DelayDoubles | src/restart.rs:152-165 | below attempt 31 each delay is twice the one before, up to the ceiling |
| Backoff.CeilingReachedIff | src/restart.rs:152-165 | some attempt waits exactly max_delay if and only if max_delay is zero or initial * (2^32 - 1) reaches it |
| Backoff.TotalDelayIsGeometric | src/restart.rs:152-165 | while the ceiling is not reached, k delays add up to initial * (2^k - 1) |
| Backoff.WaitingIsNotUptime | src/restart.rs:254-276 | the exponent starts over exactly when the replacement ran for max_delay after its backoff was waited out |
| Backoff.BackoffNonInterference | src/restart.rs:254-282 | for every interleaving of tracker calls, the delays of one child are those of the trace with all other children's calls erased |
| Spec.RestartDelayIsConstant | src/supervisor/spec.rs:113-115 | a fixed restart delay is the delay of every attempt |
| SupervisorCommon.DecideRestart | src/supervisor_common.rs:41-79 | ignore exactly a deliberate stop; drop exactly a temporary child, or a transient one that finished normally; otherwise record the failure, and restart with the given strategy and the next delay unless the limit is exceeded; both trackers' new contents |
| SupervisorCommon.PolicyTable | src/supervisor_common.rs:55-78 | the whole table of policies and reasons, in both directions; a restart carries the configured strategy and stays within the limit, an escalation exceeds it |
| Runtime.WorkerProcess.Stop | src/worker.rs:176-205 | a second stop is a no-op that returns true; otherwise the answer is true exactly if the timeout is not zero and the task ends within it; the task's machine has moved, by steps of the task and its owner only, to where it is over: ended un-aborted if the answer is true, aborted if it is false |
| Runtime.SupervisorRuntime.Shutdown | src/supervisor/child.rs:57-66 | a listed worker is stopped with the supervisor's configured timeout and is over afterwards, aborted unless it ended within that time; a nested supervisor is sent its message; the trace says which |
| Lifecycle.StopReturns | src/worker.rs:176-205 | from every reachable task that its owner holds, a stop can return, and either way unless the timeout is zero |
| Lifecycle.CanEnd | src/supervisor_common.rs:364-452 | every task that was not aborted can still come to its end by itself |
| Runtime.SupervisorRuntime.constructor | src/supervisor/runtime.rs:84-122 | starts the children of the specification in order, each on its own task |
| Runtime.SupervisorRuntime.HandleStartChild | src/supervisor/runtime.rs:179-196 | state and answer of the start rule: refuse a listed id, else spawn and append |
| Runtime.SupervisorRuntime.HandleStartChildLinked | src/supervisor/runtime.rs:198-272 | state and answer in each of the four outcomes of the handshake; only success lists the child |
| Runtime.SupervisorRuntime.HandleTerminateChild | src/supervisor/runtime.rs:274-291 | removes, stops and forgets the child, or answers that there is none; the task of a removed worker is over |
| Runtime.SupervisorRuntime.HandleWhichChildren | src/supervisor/runtime.rs:294-306 | one entry per child in order: a worker with its own id and policy, or a nested supervisor with its name, as permanent |
| Runtime.SupervisorRuntime.ShutdownChildren | src/supervisor/runtime.rs:541-551 | every child is stopped once, in order, and none is left; every worker's task is over |
| Runtime.SupervisorRuntime.RestartChild | src/supervisor/runtime.rs:422-433 | stops one child and runs it on a new task in the same place; the old worker task is over |
| Runtime.SupervisorRuntime.RestartAllChildren | src/supervisor/runtime.rs:435-470 | the in-place loops compute the one-for-all round in closed form, and every old worker task is over; what the round's order means is stated by Rounds.OneForAllStopsBeforeItStarts |
| Runtime.SupervisorRuntime.RestartChildrenFrom | src/supervisor/runtime.rs:509-539 | the in-place loop computes the rest-for-one round in closed form, and every affected old worker task is over; what the round's order means is stated by Rounds.RestForOneReplacesInTurn |
| Runtime.TurnAllIsRound | src/supervisor/runtime.rs:442-537 | child-by-child bookkeeping of a round, stopping before or during it, adds up to the closed form |
| Runtime.SupervisorRuntime.HandleChildTerminated | src/supervisor/runtime.rs:309-377 | the whole new state for each of the four decisions, and whether the loop must stop |
| Runtime.SupervisorRuntime.DeferRestart | src/supervisor/runtime.rs:383-397 | sets a timer for the child and touches nothing else |
| Runtime.SupervisorRuntime.HandleRestartChild | src/supervisor/runtime.rs:399-411 | looks the id up when the message is served and applies the round at the position found then, or skips it |
| Runtime.SupervisorRuntime.ApplyRestart | src/supervisor/runtime.rs:413-419 | each strategy runs its own round |
| Runtime.SupervisorRuntime.Turn | src/supervisor/runtime.rs:127-173 | one turn of the loop: state and answer are those of the served command |
| Runtime.SupervisorRuntime.Run | src/supervisor/runtime.rs:126-177 | the loop's final state and all its answers are the fold of the commands up to and including the one that stops it, and no further command is answered |
| World.WorldFollows | src/supervisor/runtime.rs:126-177 | in every interleaving of clients, timers, tasks and the loop, the state is the fold of the commands taken, at clock readings that never go back, and a stopped supervisor has no queue |
| Identity.CommandKeepsOrder | src/supervisor/runtime.rs:179-291 | every command leaves a subsequence of the listed ids, plus at most one new id at the end, and that only for a start command |
| Identity.CommandKeepsIdsUnique | src/supervisor/runtime.rs:179-291 | every command keeps the listed ids unique, across the await of a linked start too |
| Identity.IdsStayUnique | src/supervisor/runtime.rs:126-177 | from a specification with unique ids, ids are unique after every run |
| Escalation.ExactEscalation | src/supervisor_common.rs:41-79 | over every run, the deque is the full failure log filtered to the closed window of within_seconds * 1000000000 ns ending at the last failure; the supervisor exits abnormally at exactly the first failure that puts more than the limit into its window, with no child left; the deque never exceeds limit + 1 |
| Conservation.StopsOnlyWhen | src/supervisor/runtime.rs:156-170 | a running supervisor ends with Shutdown exactly by a shutdown command, and with Abnormal exactly by a failure beyond the limit |
| Escalation.RestartRateBound | src/restart.rs:193-212 | every closed window of the configured length holds at most max_restarts granted restarts |
| Escalation.RestartBudgetOverTime | src/restart.rs:193-212 | every stretch of a run no longer than n windows holds at most n * max_restarts granted restarts |
| Rate.GrantsOverRun | src/restart.rs:193-212 | for a window W > 0, a run of length T grants at most max_restarts * (floor(T / W) + 1) restarts |
| Escalation.WindowExactIff | src/restart.rs:194-206 | recording keeps exactly the closed window if and only if the clock can go back a whole window, or all earlier failures carry this very reading |
| Escalation.GrantedNearClockOrigin | src/restart.rs:195-197 | a failure recorded before the clock can go back a window is granted whatever came before it, under every strategy and backoff |
| ClockOrigin.LimitOverrunNearClockOrigin | src/restart.rs:195-197 | so, for every limit and every longer window, there is a run of a supervisor with its tasks that grants one restart more than the limit within one window |
| ClockOrigin.LimitOverrun | src/restart.rs:195-197 | against any limit a worker can be restarted at every reading from 1 up to the window's length, and the supervisor never gives up |
| Generations.SingleLiveGeneration | src/supervisor/runtime.rs:422-539 | at every point of every trace, inside restart rounds too, no two live generations share an id |
| Generations.EveryTaskAccountedFor | src/supervisor/runtime.rs:198-291 | between commands each listed child owns exactly one task, spawned for its own specification and never released; every other task ever spawned has been released exactly once |
| Generations.NoTwoRunningTasks | src/worker.rs:138-214 | after every prefix of every trace, in the middle of rounds and linked starts too: if the tasks' machines have seen what the prefix did to them, no worker id has two tasks that are neither finished nor aborted |
| Joint.RunsAreWorldRuns | src/supervisor_common.rs:364-452 | every joint run of supervisor and task machines is a run of the world; that no task reports twice follows from the machines |
| Joint.NoTwoRunning | src/worker.rs:138-214 | in every joint run, at every moment, also while a stop waits, no worker id has two tasks that are neither finished nor aborted |
| Joint.ShutdownReportsAreAskedFor | src/supervisor_common.rs:49-58 | in every joint run, a worker about to report Shutdown is being stopped by its supervisor or has been released by it |
| Joint.BetweenCommands | src/supervisor/runtime.rs:422-551 | in every joint run, between commands, the workers held are exactly those listed, and every stopped one is over |
| Joint.StoppedWithinGrace | src/worker.rs:176-205 | in every joint run, a stopped worker came to its own end exactly if the configured timeout is not zero and did not run out while it was being stopped; it is aborted for no other reason |
| Joint.OneForAllStartsAfterTheEnd | src/supervisor/runtime.rs:441-467 | in every joint run, when a one-for-all round starts a task, the task of every worker that was listed before the round is over |
| Joint.NothingIsStuck | src/supervisor/runtime.rs:126-177 | every joint run can be continued until the command being served is carried out, and the next one can then be taken |
| Joint.LinkedStartsTellTheTruth | src/supervisor/runtime.rs:198-272 | in every joint run, a linked start is answered with success only if its task first initialized, and with the task's error only if it first failed to; so a task that failed to initialize is never answered with success |
| Feasibility.LikelyRunsHappen | src/supervisor_common.rs:364-452 | every run of the world in which workers report success or failure while they are listed, or after a failed linked start, is a joint run |
| BackoffTable.BackoffTableExact | src/supervisor/runtime.rs:435-539 | over every run: table keys are listed ids while the supervisor runs; each count is the number of grants since the child joined or was last found healthy, saturating at u32::MAX; every delay granted is the one for that count |
| Rounds.RestForOneResult | src/supervisor/runtime.rs:509-539 | children before the failed one keep their tasks; the rest are the non-temporary ones, in order, on fresh tasks |
| Rounds.OneForAllIsRestForOneAtZero | src/supervisor/runtime.rs:435-470 | one-for-all ends with the same list, tasks and backoff table as rest-for-one at the first child |
| Rounds.EachAffectedStoppedOnce | src/supervisor/runtime.rs:422-539 | under each strategy a round stops each child that it concerns exactly once and no other child; exactly the others keep their tasks |
| Rounds.OneForAllStopsBeforeItStarts | src/supervisor/runtime.rs:441-467 | whatever a one-for-all round releases, it has started nothing before; whatever it starts, it has released every child before |
| Rounds.RestForOneReplacesInTurn | src/supervisor/runtime.rs:517-537 | when a rest-for-one round releases a child, it has replaced exactly those before it in the round that stay |
| Rounds.ShutdownInOrder | src/supervisor/runtime.rs:541-551 | shutting down releases the children one by one in their order and starts nothing |
| Rounds.GrantFollowsStrategy | src/supervisor/runtime.rs:366-397 | a granted failure with no delay concerns exactly the children that the configured strategy names; with a delay it sets one timer, with that strategy, due after that delay, and changes no child |
| Conservation.DeferredRoundsFollowStrategy | src/supervisor/runtime.rs:383-411 | in every run every timer, every queued restart and every restart served carries the configured strategy |
| Rounds.DeferralIsTransparent | src/supervisor/runtime.rs:367-419 | a deferred restart served with nothing in between ends in the state of the immediate one, but for its timer and counters |
| Rounds.NoRestartStorm | src/supervisor_common.rs:49-58 | any queue of Shutdown reports and queries leaves the whole state as it was |
| Conservation.CommandCounts | src/supervisor/runtime.rs:309-411 | per command: only a failure grants a restart, each grant is applied at once or sets one timer, each timer message is applied or skipped |
| Conservation.GrantsConserved | src/supervisor/runtime.rs:309-411 | in every run, grants = applied at once + timers pending + messages queued + applied late + skipped, and grants never exceed the failures delivered |
| Resurrection.NoResurrection | src/supervisor/runtime.rs:399-411 | an unlisted id is neither listed nor spawned until a start command for it is served, whatever timers fire |
| Resurrection.GoneMeansUnlisted | src/supervisor/runtime.rs:274-291 | a successful terminate and a drop decision leave the id unlisted |
| Resurrection.RoundSpawnsTemporaryIff | src/supervisor/runtime.rs:475-477 | a round starts a temporary child if and only if it is one-for-one on that child |
| Resurrection.ReportSpawnsNoTemporary | src/supervisor_common.rs:60-69 | no report ever starts a temporary child |
| Resurrection.DeferredSpawnsTemporaryIff | src/supervisor/runtime.rs:399-411 | a deferred restart starts a temporary child if and only if it is one-for-one and the child now listed under its id is temporary |
| Temporary.NoTemporaryRespawned | src/supervisor/runtime.rs:348-411 | if no id is registered again while its restart is pending, no temporary child is ever respawned, in any run |
| Temporary.TemporaryCanBeRespawned | src/supervisor/runtime.rs:399-411 | a run of a supervisor with its tasks that shows the proviso is needed: a stale timer respawns a temporary child registered under the same id |
| Requests.EveryRequestAccountedFor | src/supervisor/handle.rs:99-234 | every request made has exactly one fate: waiting, served once and answered from the state at its turn, or answered ShuttingDown with the supervisor's name and never served |
| Requests.ListingsLinearize | src/supervisor/handle.rs:209-222 | a listing shows the fold of exactly the commands taken before it, and requests are served in the order made |
| Requests.ListingsShowTheChildren | src/supervisor/runtime.rs:294-306 | in every run a listing has one entry per child left by the commands before it, at first those of the specification: id, kind and policy as registered, nested supervisors as permanent |
| Requests.StartAnsweredIff | src/supervisor/runtime.rs:179-272 | a start is answered with success if and only if the id is unlisted (and, if linked, the worker reported ready), and exactly then the child is appended; an id that exists is refused and nothing changes |
| Requests.TerminateAnsweredIff | src/supervisor/runtime.rs:274-291 | a terminate is answered with success if and only if the id is listed, and then exactly that id is gone; otherwise nothing changes |
| Requests.QueriesAnswered | src/supervisor/runtime.rs:149-155 | in every run, a strategy query is answered with the configured strategy and an uptime query with the whole seconds since the start |
| Pacing.CrashLoopPaced | src/supervisor/runtime.rs:383-411 | one-for-one, id neither started nor terminated nor ever found healthy: its k-th respawn is no earlier than its first granted restart plus the first k delays |
| Pacing.CrashLoopDoubles | src/restart.rs:152-165 | which is initial * (2^k - 1) until the ceiling is reached |
| Tree.TreeBudget | src/supervisor/handle.rs:48-75 | one-for-one everywhere, no starts by clients, no supervisor living longer than n of its own windows: one life of a tree starts at most B workers, where B of a worker is 1 and B of a supervisor is the sum over its children plus n * max_restarts times their maximum; for every n |
| Tree.ChainAttains | src/supervisor/runtime.rs:158-164 | every life of a chain of supervisors over one worker that ends in escalation, within one window at each level, has started the worker exactly the product of (max_restarts + 1) times, which is its budget |
| Tree.ChainStartsAtLeast | src/supervisor/runtime.rs:158-164 | however long its lives are, a chain that ends in escalation has started the worker at least that often |
| GivingUp.ChainGivesUpIff | src/supervisor/handle.rs:48-75 | a chain over one worker has a life of any length that gives up, its levels linked in time, if and only if every level is one-for-one, the worker is not temporary, and at each level the failures of the fastest crash loop, from the first to the last, fit the window; there is then one that starts the worker exactly the product of times, and none that starts it less often; for every backoff |
| GivingUp.ConfinedChainGivesUpIff | src/supervisor/handle.rs:48-75 | it has such a life within one window of each level's own start if and only if, besides, the whole crash loop fits each window |
| GivingUp.NoFaster | src/restart.rs:254-276 | no life of a chain that gives up, however long, is faster than the fastest crash loop, computed level by level from limit and backoff |
| GivingUp.FastestAtMost | src/restart.rs:152-165 | the fastest crash loop takes no more than the lives and the first delays added up |
| GivingUp.WaitingCanBeFaster | src/restart.rs:266-268 | it can take less: running once for the whole ceiling starts the delays over |
| GivingUp.DelaysInWindow | src/restart.rs:152-165 | one supervisor over a worker can give up whenever its first max_restarts delays add up to no more than its window |
| GivingUp.NestedSupervisorIsRestarted | tests/supervision_semantics_tests.rs:328-349 | two restarts below and a hundred with 50 ms backoff above: there is a life, within one window at each level, in which the worker is started 303 times |
| GivingUp.DefaultSupervisorGivesUp | src/supervisor/spec.rs:72-81 | with the default settings a worker that always crashes is restarted after 100, 200 and 400 ms, and the supervisor can give up at the fourth failure |
| Tree.GrantsWithinLimit | src/restart.rs:193-212 | a life within n windows grants at most n * max_restarts restarts |
| Lifecycle.ReportedExactlyOnce | src/supervisor_common.rs:364-452 | in every interleaving each task reports at most once, and exactly once if and only if it ended un-aborted |
| Lifecycle.ReportTellsResult | src/supervisor_common.rs:410-431 | the report is Normal exactly if run returned ok, Abnormal exactly if run or initialize returned an error, and Shutdown exactly if initialize succeeded and run never returned |
| Lifecycle.HookBeforeReport | src/supervisor_common.rs:433-451 | the report comes last, and the shutdown hook has completed before it if and only if initialize succeeded |
| Lifecycle.StopBeforeInitEnds | src/supervisor_common.rs:410-431 | if the signal is set before initialize returns, run is never polled; the report is Shutdown if initialize succeeded and Abnormal if it failed |
| Lifecycle.ShutdownOnlyWhenAsked | src/supervisor_common.rs:410-417 | a Shutdown report means that the owner asked for the stop or dropped the process |
| Lifecycle.StoppedWorkerMayReportAnything | src/supervisor_common.rs:418-431 | the converse fails: a worker that is being stopped can still report any reason |
| Lifecycle.StopSettlesTheTask | src/worker.rs:176-214 | stop returning true means the task ended un-aborted; returning false means it is over and was aborted; a dropped process leaves a task that is over or being aborted |
| Lifecycle.StoppedIsFinal | src/worker.rs:176-205 | after stop has returned the task takes no further step |
| LinkedStart.FailedStartChangesNothing | src/supervisor/runtime.rs:229-270 | a failed linked start is answered with an error, drops its task, and leaves children, trackers and timers as they were |
| LinkedStart.ReportIgnoredIff | src/supervisor/runtime.rs:309-331 | a report leaves everything that decisions turn on as it was if and only if it tells of a deliberate stop or its id is not listed when it is served; otherwise the window changes or the child is dropped |
| LinkedStart.FailedStartChargedInRun | src/supervisor/runtime.rs:240-245 | under every supervisor that does not list the id at first there is a run in which a linked start fails, a second start of the id succeeds, and the first one's report is charged to it |
| LinkedStart.FailedStartChargedWithTasks | src/supervisor_common.rs:380-401 | that run is a joint run: the failed task makes the report by itself |
| Reports.ReportFate | src/supervisor/runtime.rs:38-48 | in every run, the report of a task is held against that task itself if and only if it has not been released, against another generation if and only if it has been released and its id is listed, and is ignored otherwise |
| Reports.StaleReportCharged | src/supervisor/runtime.rs:309-331 | under every supervisor whose first child is a worker there is a run in which that worker fails, is terminated and started again (not as temporary), and the old failure is charged to the new task |
| Reports.StaleReportChargedWithTasks | src/supervisor/runtime.rs:309-331 | that run is a joint run: the task can fail as it does |
| Stateful.StatefulWorkerProcess.Stop | src/supervisor_stateful.rs:226-253 | as for the plain process: true exactly if the timeout is not zero and the task ends within it; the task is over when the call returns, un-aborted exactly if the answer is true |
| Stateful.StatefulSupervisorRuntime.Shutdown | src/supervisor_stateful.rs:495-504 | a held worker is stopped with the supervisor's configured timeout |
| Stateful.StatefulSupervisorRuntime.HandleWhichChildren | src/supervisor_stateful.rs:866-878 | one entry per child in order, with its own id, kind and policy |
| Stateful.StatefulSupervisorRuntime.constructor | src/supervisor_stateful.rs:650-690 | starts as the plain runtime on the specification with contexts bound into factories |
| Stateful.StatefulSupervisorRuntime.Turn | src/supervisor_stateful.rs:696-741 | every stateful command has the state, trace and answer of the plain command |
| Stateful.StatefulSupervisorRuntime.Run | src/supervisor_stateful.rs:695-746 | whole runs of the two runtimes agree, answers included |
| Stateful.StatefulSupervisorRuntime.HandleChildTerminated | src/supervisor_stateful.rs:881-949 | the second copy of the handler carries the shared decision out in the same way |
| Stateful.StatefulSupervisorRuntime.RestartAllChildren | src/supervisor_stateful.rs:1036-1072 | the second copy of the one-for-all loops computes the same round, in the same order |
| Stateful.StatefulSupervisorRuntime.RestartChildrenFrom | src/supervisor_stateful.rs:1081-1111 | the second copy of the rest-for-one loop computes the same round |
| Stateful.BuiltWorkersShareContext | src/supervisor_stateful.rs:393-436 | whatever is registered through the builder, in any order, every worker has the supervisor's context and its own id, factory and policy |
| Stateful.RespawnsKeepContext | src/supervisor_stateful.rs:1009-1033 | in every run, whatever a restart starts under the id of a listed worker is that worker: same factory, policy and context |
| Contexts.EveryGenerationAsRegistered | src/supervisor/runtime.rs:481-507 | in every run every listed child is what its id was last registered as, and every restart starts exactly that |
| Contexts.ErasureCommutes | src/supervisor_stateful.rs:649-1124 | serving a command and erasing contexts commute, and answers do not depend on contexts |
| Contexts.RunsCommuteWithErasure | src/supervisor_stateful.rs:649-1124 | so do whole runs |

## Where the code and its documentation differ

The model follows the code.

* `src/types.rs:43` says that a listing shows no restart policy for supervisors; the code shows
  `Permanent` (`src/supervisor/child.rs:38-43`).
* `architecture.md:243-253` sends a worker whose `initialize` failed through its shutdown hook.
  The code reports `Abnormal` without running the hook (`Lifecycle.HookBeforeReport`).
* `src/supervisor/handle.rs:141-142` says that initialization failures do not trigger restart
  policies. The failed start itself does not, but its report can
  (`LinkedStart.ReportIgnoredIff`, `LinkedStart.FailedStartChargedInRun`).
* `src/supervisor/runtime.rs:472-475` says that a temporary child is never restarted. A
  deferred one-for-one restart does not look at the policy
  (`Resurrection.DeferredSpawnsTemporaryIff`, `Temporary.TemporaryCanBeRespawned`).
* The sliding window forgets its history while the clock reads less than a window
  (`src/restart.rs:195-197`); the limit can then be overrun
  (`Escalation.WindowExactIff`, `ClockOrigin.LimitOverrunNearClockOrigin`). The results about the
  limit take a clock that can go back a whole window as their condition.

## Left out

- Worker panics: a panicking task sends no report, so nothing is claimed about restarting it. A linked start whose channel closes is modelled as one of four observed outcomes.
- The tokio scheduler, real clocks and channel internals: the queue is FIFO, the clock is monotone, timers fire no earlier than due. No liveness is claimed (that a timer does fire, or a task does end).
- A handler runs without interleaving: only the supervisor's own task touches its state, and what others post while a handler awaits only lengthens the queue behind the command being served.
- `run_worker` and `ShutdownSignal::cancelled` (src/supervisor_common.rs:364-452, src/types.rs:138-150) are modelled as the steps between their await points rather than as methods, because what matters is how they interleave with `stop` and `Drop`.
- The end of the command loop by a closed channel (src/supervisor/runtime.rs:175-176): the runtime holds a sender of its own queue, so the channel does not close while it runs.
- Nested supervisors are not waited for when they are stopped (src/supervisor/child.rs:62-64), so results about finished tasks are about workers only; for nested supervisors the trace shows the shutdown message.
- Tree.TreeBudget: constrains a nested life only by the exit that it reports, not by when it started or ended, which allows more lives than the source has.
- In `Joint`, a linked start whose handshake times out or whose channel closes says nothing about its task: it may have initialized in the meantime.
- Results near the ends of the clock's range: the results about the limit, `Tree` and `GivingUp` assume that the clock can go back a whole window; the lives built in `GivingUp` also need a clock that does not run out.
- The error enums of the two runtimes are one datatype; `NoChildren` and `AllChildrenFailed`, which no modelled operation returns, are not included.
- `WorkerContext` key-value operations: a context is an opaque identity.
- `RestartTracker::reset`, builder setters other than those named, `Clone`, `Debug` and `Display`: they would only add easy members.
- src/distributed.rs, src/mailbox.rs, src/python, macros, tracing, examples and benches.
