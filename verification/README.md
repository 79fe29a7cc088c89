# Holder and AsyncTasks: a verified model

A Dafny model of the state-heavy parts of the repository, with proofs of what they keep, step by
step and over whole runs. `dafny verify dfyconfig.toml` checks everything.

- **AsyncTasks, the task graph executor.** `Graphs` (paths, cycles, dependency-first listings),
  `TaskGraph` (builder and order, with their counters), `AsyncExecutor` (one `ExecuteGraph` call
  against any scheduler), `ExecutorProtocol` (any number of calls and workers, interleaved),
  `ExecutorTermination` (they end) and `ExecutorWorker` (a worker's loop). `Runs` says what a run
  of a protocol is, for all of them, and `Collections` has what the modules share.
- **Startup tasks.** `StartupState` and `StartupNames` (the relations between tasks and names, and
  what failures, completions, definitions and new dependencies do to them), `StartupReentry`
  (which failures call a listener that has not returned yet), `StartupSteps` and `StartupBooks`
  (each action on values, with the announcements and the counter, and any number in a row),
  `StartupLife` (where each action takes a task, state by state), `StartupTaskManager` (the
  executor, with the re-entrant listener calls, and its queue), `StartupRuns` (requests from other
  threads, and services that mark themselves failed), `StartupReports` (whole runs, told by the
  requests) and `StartupExamples` (short histories of a new executor).
- **Data trees as JSON.** `DataTree` (the walk with an explicit stack), `DataTreeAnswers` (what it
  does with the answers), `JsonTokens` (the token generator), `JsonReading` (the grammar, round
  trip), `JsonNesting` (complements, `hasCompounds`) and `JsonPrinter` (the indenting printer).
- **The execution manager.** `ExecutorThread` (one thread's executors and their index),
  `ThreadManager` (threads, names, doom and exit), `TimerThread` (the timers), `TimerWait` (the
  timer thread's loop), `MessageDispatcher` (the deques) and `WakeUp` (posting against suspending);
  `ThreadRuns`, `TimerRuns` and `MessageRuns` are about whole runs, told by the calls and messages.
- **Paths and objects.** `ObjectTree`, `PathLib`, `PathFromString` and `SharedObjectStore`.

What a mutex protects is one atomic step; steps of different threads interleave freely, and the
theorems about a protocol hold for every run. Classes hold the fields the source updates, and
their methods are proved against functions on values; the laws are proved about those functions.
The contracts also say what a call does to the fields themselves, and the theorems of `StartupReports`,
`ThreadRuns`, `TimerRuns` and `MessageRuns` compare what happens with the arguments of the calls.
Exceptions are results (`ok`, `Thrown`, `None`). Fields called histories (`posts`, `fired`,
`accepted`, ...) record what happened, for the statements only.

Where the code departs from its own comments the code is modelled as written, with a lemma that
says exactly when it does what the comment says:

- A dependency name seen for the first time is entered in the name map but not in the task's
  undefined dependencies (Holder/StartupTaskManager.cpp:208-214, against the comments at 122 and
  196): `StartupSteps.ReleasedTooEarlyIff`, `StartupExamples.ReleasedTooEarly`.
- Failing a task that is still waiting, without a failed dependency, is undone when its last
  dependency completes: `StartupState.FailedIsLeftIff`, `StartupExamples.FailedAndReadyAgain`. The
  task is counted down twice (Holder/StartupTaskManager.cpp:309), so the executor may end too
  early or never: `StartupRuns.EndMissesRevivals`, `StartupExamples.EndsWithATaskReady`.
- A listener keeps its mutex, which is not recursive, while it fails its own task
  (Holder/BaseService.h:196-202), and a failure is entered as reported only after the listener has
  returned (Holder/StartupTaskManager.cpp:115-118). So on a cycle of waiting tasks the cascade
  locks that mutex again on the same thread and does not end. `StartupReentry` says exactly when;
  the class goes on as if the second call returned, and `reentered` records that it happened.
- `MarkFailed` sets the flag that silences the listener at once, but its request is only queued,
  and is refused for a task without dependencies yet (Holder/BaseService.h:112-124): such a task
  can be left waiting for a failed one. `StartupRuns.IgnoredFailureInRun` says exactly when,
  `StartupRuns.WaitsForFailedForEver` gives a run.
- The moved executor's index is not updated (Holder/ExecutionManager.cpp:186-187, against 181):
  `ExecutorThread.WrittenRemovalKeepsInverseIff`. The class removes as intended.
- A thread that exits erases its name even if a later thread bears it
  (Holder/ExecutionManager.cpp:701): `ThreadManager.StepKeepsNamesIff`.
- A one-shot timer fires twice, because `recalibrate` starts up
  (Holder/ExecutionManager.cpp:415 and 469): `TimerThread.OneShotFiresTwice`.
- A signal sent before the executor's ID is stored finds no executor
  (Holder/MQDExecutor.cpp:18 and 49): `WakeUp.MissedIff`, `WakeUp.StrandedIff`,
  `WakeUp.StoredFirstIsNeverStranded`.
- The timer thread's waits have no predicate (Holder/ExecutionManager.cpp:370-382): a message
  posted after the last ones were taken and before the wait begins is overlooked until the next
  beat or notification: `TimerWait.OverlooksIff`, `TimerWait.FirstTimerIsOverlooked`.
- `m_newInstructions` is never set (Holder/ExecutionManager.h:144), so instructions are taken only
  after a wait; the models allow them to be taken at any time between two rounds.
- A worker sleeps while it holds unfinished tasks (AsyncTasks/AsyncExecutor.cpp:21):
  `ExecutorProtocol.StuckOnlyOnUnfinished` says that this is the only way to get stuck.
- The parent of a removed value is told its bare index (Holder/ObjectTree.h:447):
  `ObjectTree.WrittenRemovalIsValidIff`, `PathLib.RemovalFreesPathIffIntended`. The classes remove
  as intended.
- A leading separator is overwritten before `rooted()` looks at it
  (Holder/PathFromString.h:15): stated by `PathFromString.PathFromString.constructor`.
- With elements on lines of their own, a compound without children moves everything after it one
  level in (Holder/DTJsonSerializer.cpp:305-349): `JsonPrinter.TreePrints`.

## Model

| member | source | states |
|---|---|---|
| Graphs.ListedIsNotBlocked | AsyncTasks/AsyncExecutor.cpp:117-164 | A vertex that leads to a cycle is in no dependency-first listing. |
| Graphs.WalkFindsCycle | AsyncTasks/AsyncExecutor.cpp:163 | Pigeonhole: a walk that always finds a next vertex in a finite set closes a cycle. |
| Graphs.StuckSetIsBlocked | AsyncTasks/AsyncExecutor.cpp:163 | Tasks that each wait for one another all lead to a cycle. |
| Graphs.ExhaustedOrderIsExact | AsyncTasks/AsyncExecutor.cpp:154-163 | A dependency-first listing that cannot go on has exactly the vertices that lead to no cycle. |
| Graphs.ExhaustedIsCompleteIffAcyclic | AsyncTasks/AsyncExecutor.cpp:163 | Such a listing has all vertices if and only if the graph has no cycle. |
| TaskGraph.AsyncGraphBuilder.AddTask | AsyncTasks/AsyncTaskGraph.cpp:53-61 | A fresh ID without dependencies; the edge sets stay inverse. |
| TaskGraph.AsyncGraphBuilder.ClearDependencies | AsyncTasks/AsyncTaskGraph.cpp:63-80 | Exactly the dependencies of that task go, from both edge sets; a bad ID is refused and changes nothing. |
| TaskGraph.AsyncGraphBuilder.AddDependency | AsyncTasks/AsyncTaskGraph.cpp:82-94 | One edge, entered in both sets; refused, without a change, unless both ends exist. |
| TaskGraph.AsyncGraphBuilder.AddDependencies | AsyncTasks/AsyncTaskGraph.cpp:96-102 | Edges up to the first bad target, which is kept and reported. |
| TaskGraph.AsyncGraphOrder.constructor | AsyncTasks/AsyncTaskGraph.cpp:6-37 | A fresh order for exactly the graph of the builder, counters and initial tasks included. |
| TaskGraph.AsyncGraphOrder.HasUnexecutedTasks | AsyncTasks/AsyncTaskGraph.h:35-38 | True if and only if some task of the graph has not completed. |
| TaskGraph.AsyncGraphOrder.GetInitialTasksToExecute | AsyncTasks/AsyncTaskGraph.h:43-54 | Hands out, once each, the tasks without dependencies. |
| TaskGraph.AsyncGraphOrder.CountDown | AsyncTasks/AsyncTaskGraph.h:63-71 | Counts every dependent down by one and collects those that reach zero. |
| TaskGraph.AsyncGraphOrder.GetTasksToExecute | AsyncTasks/AsyncTaskGraph.h:56-72 | Hands out exactly the tasks this completion makes eligible; each is handed out at most once over the run, and only after all its dependencies completed. |
| TaskGraph.AsyncGraphOrder.Reset | AsyncTasks/AsyncTaskGraph.cpp:39-50 | The freshly constructed state again, whatever has run. |
| TaskGraph.BuiltDescribes | AsyncTasks/AsyncTaskGraph.cpp:10-36 | What the constructor copies are the dependents and dependency counts of each task. |
| TaskGraph.ReleasedExactly | AsyncTasks/AsyncTaskGraph.h:63-71 | The counters that reach zero are exactly those of newly eligible tasks. |
| TaskGraph.CompletionKeepsOrder | AsyncTasks/AsyncTaskGraph.h:57-72 | One completion keeps every counter equal to the number of uncompleted dependencies, the order dependency-first and the hand-outs exact. |
| TaskGraph.ResetCounts | AsyncTasks/AsyncTaskGraph.cpp:46-49 | Restored counters are those of nothing done. |
| TaskGraph.QuiescentIsExhausted | AsyncTasks/AsyncExecutor.cpp:130-161 | With everything handed out completed, no task is left that could run. |
| AsyncExecutor.RunAllTasks | AsyncTasks/AsyncExecutor.cpp:117-164 | For every graph and every responsive scheduler: terminates, reports completion if and only if the graph is acyclic, and has run exactly the tasks that lead to no cycle, once each. |
| AsyncExecutor.RunRound | AsyncTasks/AsyncExecutor.cpp:130-161 | One pass posts the list, takes a batch and releases what it allows; pendingTasks stays the number of posted and listed tasks. |
| AsyncExecutor.DrainCompletions | AsyncTasks/AsyncExecutor.cpp:154-160 | Every completion of the batch is fed to the graph; the list is what they released. |
| AsyncExecutor.VerdictIsExact | AsyncTasks/AsyncExecutor.cpp:163 | With nothing outstanding, what completed is what leads to no cycle, and all of it if and only if acyclic. |
| ExecutorProtocol.StepKeepsInv | AsyncTasks/AsyncExecutor.cpp:8-188 | Every step of a context or worker keeps: each task handed out and not fed back is in exactly one place, pendingTasks and worker loads count them. |
| ExecutorProtocol.ReachableInv | AsyncTasks/AsyncExecutor.cpp:8-229 | The same in every reachable state, for any number of calls and workers. |
| ExecutorProtocol.CompletionIsOutstanding | AsyncTasks/AsyncExecutor.cpp:154-159 | A completion reaching its graph is that of a task handed out and not yet done, once. |
| ExecutorProtocol.MessageFindsContext | AsyncTasks/AsyncExecutor.cpp:174-188 | The context lookup of a completion message never fails: no completion is dropped. |
| ExecutorProtocol.NothingLeftAtDeletion | AsyncTasks/AsyncExecutor.cpp:225-229 | When a context is deleted no task or message of it is left anywhere. |
| ExecutorProtocol.VerdictInEveryRun | AsyncTasks/AsyncExecutor.cpp:103-164 | In every run a returning call reports completion if and only if its graph is acyclic, having run exactly the tasks that lead to no cycle, dependencies first. |
| ExecutorProtocol.StuckIffEveryoneWaits | AsyncTasks/AsyncExecutor.cpp:19-25 | Nobody can move if and only if every call waits for completions and every worker for tasks. |
| ExecutorProtocol.StuckOnlyOnUnfinished | AsyncTasks/AsyncExecutor.cpp:20-21 | If nobody can move, every outstanding task sits in the unfinished list of a sleeping worker. |
| ExecutorProtocol.NoStuckWithoutUnfinished | AsyncTasks/AsyncExecutor.cpp:19-68 | With no unfinished task at a sleeping worker and a call running, someone can move. |
| ExecutorProtocol.WorkerSleepsOnUnfinished | AsyncTasks/AsyncExecutor.cpp:21-66 | A reachable run in which one task answers Continue twice and the call waits for ever. |
| ExecutorTermination.StepUsesWork | AsyncTasks/AsyncExecutor.cpp:19-174 | Every step of every call and worker uses up work, if the tasks answer Complete. |
| ExecutorTermination.EveryCallReturns | AsyncTasks/AsyncExecutor.cpp:99-174 | Any interleaving of any number of calls and workers with tasks that complete has at most Work steps, and it can go no further if and only if every call has returned and every worker waits. |
| ExecutorWorker.TaskExecutorThread.PostTask | AsyncTasks/AsyncExecutor.cpp:72-78 | The task goes to the end of the list and the load counts it. |
| ExecutorWorker.TaskExecutorThread.Pass | AsyncTasks/AsyncExecutor.cpp:18-68 | One round of the loop, up to the reporting, for every answer of every task: the tasks of the list are run once each, in order, then the unfinished ones, the older first; reported is who answered Complete, in the order of the calls, and unfinished stays who did not; the load falls by those reported. |
| ExecutorWorker.TaskExecutorThread.RunTodo | AsyncTasks/AsyncExecutor.cpp:27-44 | Every task of the list is run once, in order: the k-th answer is that of the k-th task; those that answer Complete are reported, the others join the unfinished ones, both in order. |
| ExecutorWorker.TaskExecutorThread.RetryUnfinished | AsyncTasks/AsyncExecutor.cpp:46-66 | Each unfinished task is run exactly once, in order: the k-th answer is that of the k-th task; those that answer Complete are reported, the others stay unfinished, both in order. |
| ExecutorWorker.AnsweredAt | AsyncTasks/AsyncExecutor.cpp:46-66 | Each task is among those that answered as it did, in the place its answer has among theirs. |
| ExecutorWorker.AnsweredSplits | AsyncTasks/AsyncExecutor.cpp:46-66 | Reported and kept together are as many as were run. |
| ExecutorWorker.PassedIs | AsyncTasks/AsyncExecutor.cpp:18-68 | What a round makes of a worker, as lists of the tasks that answered Complete and that did not. |
| ExecutorWorker.PassIsReached | AsyncTasks/AsyncExecutor.cpp:13-69 | What a round of the loop makes of a worker, steps of the protocol make of it too. |
| ExecutorWorker.PassConserves | AsyncTasks/AsyncExecutor.cpp:27-68 | In every run, a round loses, doubles and invents no task, and the load is the number left unfinished. |
| StartupTaskManager.StartupTaskExecutor.EvaluateDependencies | Holder/StartupTaskManager.cpp:97-129 | With a failed dependency: the cascade from this task, and whether it enters a listener that is on the call stack. Otherwise ready exactly if every dependency is completed and none undefined, announced once. |
| StartupTaskManager.StartupTaskExecutor.ScanDependencies | Holder/StartupTaskManager.cpp:102-120 | Counts the completed dependencies and reports each new failure, whatever the nested calls change; afterwards the task has failed, or its flag was set before. |
| StartupTaskManager.StartupTaskExecutor.OnDependencyFailed | Holder/BaseService.h:192-205 | The listener fails its own task unless its flag is set; a listener on the stack is entered again if and only if it is this one, or a task that fails together with this one is on a waiting cycle or has a dependent on the stack. |
| StartupTaskManager.StartupTaskExecutor.FailTask | Holder/StartupTaskManager.cpp:287-317 | A task that is Running, Ready or WaitingForDeps is Failed afterwards, and in any other state nothing changes; with its whole cascade, past silent listeners; it re-enters a listener if and only if evaluating some dependent does, and where none is re-entered the nested calls of the source end as here. |
| StartupTaskManager.StartupTaskExecutor.ReevaluateFailed | Holder/StartupTaskManager.cpp:313-317 | Every dependent of a failed task has failed or has a silent listener, in whatever order the set is iterated, and so is the re-entry decided. |
| StartupTaskManager.StartupTaskExecutor.MarkReady | Holder/StartupTaskManager.cpp:122-128 | Ready, or running at once if the listener runs its task. |
| StartupTaskManager.StartupTaskExecutor.HandleDefineTask | Holder/StartupTaskManager.cpp:132-172 | A new task under its name, with nothing known of its dependencies; exactly who waited for the name waits for the task instead; a name defined before throws, and nothing changes. |
| StartupTaskManager.StartupTaskExecutor.HandleSetDependencies | Holder/StartupTaskManager.cpp:174-265 | A task that is DepsUnknown or WaitingForDeps depends from then on on the tasks behind the defined names, and waits for the known ones that are not defined, and is evaluated; in any other state nothing changes. Both relations are rewired; a listener is re-entered if and only if a dependency has failed already and a waiting cycle leads to the task. |
| StartupTaskManager.StartupTaskExecutor.HandleRunTask | Holder/StartupTaskManager.cpp:321-342 | Ready becomes Running, nothing else changes. |
| StartupTaskManager.StartupTaskExecutor.HandleCompleteTask | Holder/StartupTaskManager.cpp:267-319 | Success takes a Running task to Completed, failure takes a Running, Ready or WaitingForDeps task to Failed, and otherwise nothing changes; with everything it entails; a failure re-enters a listener if and only if, with the task failed, a task that waits for it is on a cycle of waiting tasks. |
| StartupTaskManager.StartupTaskExecutor.Act | Holder/StartupTaskManager.h:100-103 | Every action keeps the relations and readiness exact, and no waiting task has a failed dependency unless its flag was set before; exactly the newly released tasks are announced, and the counter moves with the tasks that are not terminal, less the revived ones; Completed is absorbing, and Failed too as long as nobody fails a waiting task out of turn. |
| StartupTaskManager.StartupTaskExecutor.Run | Holder/StartupTaskManager.cpp:18-50 | One pass over the whole queue, oldest first, as a list of events (marks set from outside, action) with the state after each: every step is what its action does to tasks, flags, announcements and counter; a listener was re-entered if and only if some event does; only the last event may throw, and it stays in the local queue; End exactly by the test of the source. If no event fails a waiting task out of turn: failures explained, announcements unique, counter exact, Failed absorbing, and End only with every task terminal. |
| StartupState.CascadeTrans | Holder/StartupTaskManager.cpp:313-317 | Two cascades in a row are one. |
| StartupState.CascadeEnter | Holder/BaseService.h:199-203 | A task failed by its listener, with the cascade that starts there, belongs to the cascade around it. |
| StartupState.FailureIsExact | Holder/StartupTaskManager.cpp:287-317 | After a failure exactly these have failed: the task, those that had, and every task waiting for it, directly or through others, whose listeners are not silent. |
| StartupState.FailureLeavesRest | Holder/StartupTaskManager.cpp:311-317 | After a failure no task is left waiting though it could run, nor with a failed dependency unless its listener was silent before. |
| StartupState.LeftWaitingIff | Holder/BaseService.h:199-203 | A failure leaves a waiting task waiting with a failed dependency if and only if its flag was set before and it depends on a task that has failed by then. |
| StartupState.FailureJustifiedIff | Holder/StartupTaskManager.cpp:290-297 | Failing a task keeps every failure explained by a failed dependency or finished ones if and only if the task was past waiting, had a failed dependency, or waited for itself. |
| StartupState.CompletionLeavesRest | Holder/StartupTaskManager.cpp:301-317 | After a completion no task is left waiting that has everything completed, nor a failed dependency unless its listener was silent before. |
| StartupState.FailedIsLeftIff | Holder/StartupTaskManager.cpp:123-128 | Failed is left again exactly by the failed dependents whose last uncompleted dependency has just completed. |
| StartupState.CompletionKeepsJustified | Holder/StartupTaskManager.cpp:267-319 | With every failure explained, a completion revives nothing. |
| StartupNames.RewiredMid | Holder/StartupTaskManager.cpp:230-263 | New dependencies keep dependsOn and dependedOnBy inverse and every released task with all its dependencies completed. |
| StartupNames.RewiredNameEdges | Holder/StartupTaskManager.cpp:237-253 | New dependencies keep tasks and undefined names inverse: each lists exactly those that list it. |
| StartupNames.ResolvedMid | Holder/StartupTaskManager.cpp:145-157 | Defining a name keeps dependsOn and dependedOnBy inverse, and a released task still has all its dependencies completed. |
| StartupNames.ResolvedNameEdges | Holder/StartupTaskManager.cpp:143-163 | Defining a name keeps tasks and names inverse: the name leads to its task, and nobody is left waiting for it as undefined. |
| StartupNames.ResolvedRest | Holder/StartupTaskManager.cpp:132-172 | After a definition a waiting task still has something uncompleted or undefined, and no failed dependency unless its listener is silent, and one more task is not terminal. |
| StartupNames.NothingDroppedIff | Holder/StartupTaskManager.cpp:204-228 | Every requested name is recorded if and only if every one was known before. |
| StartupNames.ReleasedHasItsNames | Holder/StartupTaskManager.cpp:122-128 | A released task has, for every name it asked for and that was recorded, a completed task of that name. |
| StartupLife.ReportOfTask | Holder/StartupTaskManager.cpp:269-308 | What a report makes of its task, from each state: success counts only while it runs, failure also when it is ready or waits, and any other state stays. |
| StartupLife.ReportOfOther | Holder/StartupTaskManager.cpp:311-317 | What a report makes of another task: a success can only release it, ready or running as its listener says, and a failure only fail it while it waits. |
| StartupLife.SettingOfTask | Holder/StartupTaskManager.cpp:187-264 | Which states take new dependencies, what the task depends on then, and in which states it can be afterwards; other states refuse without a change. |
| StartupLife.SettingOfOther | Holder/StartupTaskManager.cpp:230-264 | New dependencies of one task leave the dependencies of others alone, and can only fail another that waits. |
| StartupLife.DefinitionOfOther | Holder/StartupTaskManager.cpp:143-152 | A definition moves exactly the tasks that waited for the name over to the new task, and no task to another state. |
| StartupSteps.SetDependenciesRests | Holder/StartupTaskManager.cpp:255-264 | After new dependencies a waiting task really waits for something, and for a failed task only with a silent listener. |
| StartupSteps.DefinitionAbsorbs | Holder/StartupTaskManager.cpp:132-172 | A definition changes no Completed or Failed task. |
| StartupSteps.SetDependenciesAbsorbs | Holder/StartupTaskManager.cpp:174-265 | New dependencies change no Completed or Failed task. |
| StartupSteps.FailureAbsorbs | Holder/StartupTaskManager.cpp:267-319 | A failure changes no Completed or Failed task. |
| StartupSteps.CompletionAbsorbs | Holder/StartupTaskManager.cpp:267-319 | A completion changes no Completed task, and no Failed one if every failure is explained. |
| StartupSteps.CompletionLog | Holder/StartupTaskManager.cpp:126-127 | With every failure explained, the announcements of a completion leave each task announced at most once, and only past waiting. |
| StartupSteps.CompletionCount | Holder/StartupTaskManager.cpp:309 | A completion that revives nothing takes exactly one task from those that are not terminal, as the counter does. |
| StartupSteps.NothingWaitingIsTerminal | Holder/StartupTaskManager.cpp:43-46 | A count of zero means that every task is terminal. |
| StartupSteps.DeadlockIsACycle | Holder/StartupTaskManager.cpp:97-129 | With nothing left to run and nothing undefined, whoever still waits leads to a dependency cycle, or to a task whose silent listener ignored a failure. |
| StartupSteps.ReleasedIffRecordedCompleted | Holder/StartupTaskManager.cpp:259-264 | New dependencies release the task if and only if all recorded ones are completed. |
| StartupSteps.ReleasedTooEarlyIff | Holder/StartupTaskManager.cpp:208-214 | A task is released although a name it asked for is not completed if and only if some name was never seen before and the rest is completed. |
| StartupSteps.FailedEarlyIsRevived | Holder/StartupTaskManager.cpp:290-297 | A task failed while it waits only for a running one is among those that the completion brings back. |
| StartupExamples.ReleasedTooEarly | Holder/StartupTaskManager.cpp:208-214 | On a new executor: task 0 asks for a name nobody has mentioned, and is ready although that name is not defined. |
| StartupExamples.FailedAndReadyAgain | Holder/StartupTaskManager.cpp:290-297 | On a new executor: task 1 waits for the running task 0 and is failed by request; task 0 completes, and task 1 is ready. |
| StartupExamples.EndsWithATaskReady | Holder/StartupTaskManager.cpp:41-49 | The pass after that history ends the executor while task 1 is ready. |
| StartupExamples.RunInTurn | Holder/StartupTaskManager.cpp:18-50 | Any executor in order, given any queue without requests to fail a task and any flags set from outside, stays in order and ends only with every task terminal. |
| StartupExamples.ListenerEnteredTwice | Holder/BaseService.h:196-202 | On a new executor: task 1 waits for task 0 and itself; when task 0 fails, the listener of task 1 is entered while it is on the stack. |
| StartupReentry.EntryIff | Holder/BaseService.h:196-202 | A listener that fails its task leads back to a listener on the stack, itself now included, if and only if it was to: somebody on the stack depends on a task that fails now, or such a task is on a waiting cycle. |
| StartupReentry.NextDependent | Holder/StartupTaskManager.cpp:313-317 | Dependents evaluated one after the other re-enter a listener if and only if one of them does alone: the order of the set does not matter. |
| StartupReentry.FailureWithoutStack | Holder/BaseService.h:192-205 | The failure of a task by request enters a listener twice if and only if, with that task failed, some task that waits for it is on a cycle of waiting tasks. |
| StartupReentry.EntryWithoutStack | Holder/BaseService.h:192-205 | A failure reported to a listener enters one twice if and only if a task that waits for its task, or that task, is on a cycle of waiting tasks. |
| StartupReentry.AcyclicNeverReenters | Holder/BaseService.h:192-205 | With acyclic dependencies every listener returns before it is called again, so the cascade ends. |
| StartupReentry.ThreeTasksReenter | Holder/StartupTaskManager.cpp:115-118 | A waits for B, B for A and C: the failure of C reaches the listener of B twice. |
| StartupReentry.ThreeTasksAtRest | Holder/StartupTaskManager.cpp:97-129 | Those three tasks satisfy everything that holds between actions. |
| StartupSteps.ActKeepsSound | Holder/StartupTaskManager.h:100-103 | Every action, accepted or refused, keeps relations, readiness and flags, and leaves no waiting task with a failed dependency unless its flag was set before the action. |
| StartupBooks.CompletionBooked | Holder/StartupTaskManager.cpp:301-317 | A completion announces once exactly the tasks it releases, and the counter falls by one though every revived task is back among those not terminal. |
| StartupBooks.RevivalsAre | Holder/StartupTaskManager.cpp:123-128 | Failed tasks come back to life by a successful completion only, and then exactly those whose last dependency it was. |
| StartupBooks.BookKeepsOrder | Holder/StartupTaskManager.h:100-103 | An action that fails no waiting task out of turn keeps failures explained, announcements unique, the counter exact and failed tasks failed. |
| StartupBooks.PassKeepsCompleted | Holder/StartupTaskManager.cpp:34-39 | Over any number of actions, with flags set in between, Completed is absorbing. |
| StartupBooks.PassKeepsOrder | Holder/StartupTaskManager.cpp:34-39 | Over any number of actions in turn, failures stay explained, every task is announced at most once, and the counter is exact. |
| StartupBooks.PassKeepsFailed | Holder/StartupTaskManager.cpp:34-39 | Over any number of actions in turn, Failed is absorbing. |
| StartupBooks.PassCounts | Holder/StartupTaskManager.cpp:309 | Over any actions whatever, the counter lags behind the tasks that are not terminal by exactly the revivals. |
| StartupRuns.StepKeepsInv | Holder/BaseService.h:98-124 | Every request from outside, every mark and every handled action keeps what flags, marks, queued and refused requests say about a task. |
| StartupRuns.IgnoredFailureIff | Holder/BaseService.h:112-124 | In every run a task with a failed dependency has failed, or still waits: exactly if it was marked failed from outside and no request to fail it was carried out. |
| StartupRuns.IgnoredFailureInRun | Holder/BaseService.h:112-124 | At every point of every run a task with a failed dependency still waits if and only if some step set its flag from outside before any failed dependency was reported to it, and no request to fail it was carried out; its own is then queued or was refused. |
| StartupRuns.MarkIsQueuedRefusedOrDone | Holder/BaseService.h:112-124 | In every run the request of a service that marked itself failed is queued, was refused or was carried out. |
| StartupRuns.UnmarkedIsSettled | Holder/BaseService.h:192-205 | In every run a waiting service that did not mark itself failed has no failed dependency. |
| StartupRuns.WaitsForFailedForEver | Holder/BaseService.h:112-124 | A reachable run: the mark of a task without dependencies is refused, its dependency fails, and it waits with nothing queued. |
| StartupRuns.CompletedInRun | Holder/StartupTaskManager.cpp:267-319 | Completed is absorbing between any two points of every run. |
| StartupRuns.FailedInRun | Holder/StartupTaskManager.cpp:267-319 | Failed is absorbing between any two points of every run in which no handled request fails a waiting task out of turn. |
| StartupRuns.OrderInRun | Holder/StartupTaskManager.cpp:97-129 | At every point of such a run every failure is explained, OnTaskReady was called at most once for each task, m_waitingTasks is the number of tasks that are not terminal, and nothing was revived. |
| StartupRuns.EndInRun | Holder/StartupTaskManager.cpp:41-49 | In such a run the executor, its queue drained, ends if and only if every task is terminal. |
| StartupRuns.EndMissesRevivals | Holder/StartupTaskManager.cpp:41-49 | In every run, whatever is requested: when the executor would end, as many tasks are not terminal as were revived; and with every task terminal it would end if and only if none ever was. |
| StartupReports.ReportHandled | Holder/StartupTaskManager.cpp:278-308 | In every run, the state of a task after a report of it is handled, from each state before. |
| StartupReports.RunningStep | Holder/StartupTaskManager.cpp:326-341 | In one step a task comes to run exactly by a handled RunTask while it is Ready, or by being released with a listener that runs it at once, and stops exactly by a handled report. |
| StartupReports.RunningIff | Holder/StartupTaskManager.cpp:278-308 | At every point of every run a task is running if and only if it was started and no report of it has been handled since. |
| StartupReports.CompletedIff | Holder/StartupTaskManager.cpp:283-304 | At every point of every run a task is completed if and only if a report of its success was handled while it was running. |
| StartupReports.WaitsForSomething | Holder/StartupTaskManager.cpp:97-129 | At every point of every run a waiting task has a dependency that is not completed or a name not defined, and, unless its service marked itself failed, no failed dependency. |
| StartupReports.NthHandledIsNthRequested | Holder/StartupTaskManager.cpp:34-39 | The n-th action that a run handles is the n-th that was asked for, as it was asked. |
| StartupReports.RequestIsHandled | Holder/StartupTaskManager.cpp:34-39 | With the queue drained, every action asked for has been handled after it was asked for. |
| StartupReports.NotLeftRunning | Holder/StartupTaskManager.cpp:267-319 | If every start of a task is followed by a report of it, and the queue is drained, the task is not left running. |
| DataTree.SerializeDataTree | Holder/DTUtils.cpp:120-199 | For every tree and every serializer the loop ends and tells it exactly what the recursive preorder traversal would, with the same result. |
| DataTree.VisitTop | Holder/DTUtils.cpp:125-197 | The loop body leaves what is still to be told unchanged. |
| DataTree.NextChild | Holder/DTUtils.cpp:167-188 | Moving to the next child leaves what is still to be told unchanged. |
| DataTree.PreorderBalanced | Holder/DTUtils.cpp:189-197 | Entered compounds and ends balance, and no end comes too early. |
| DataTree.EndsMatchEntries | Holder/DTUtils.cpp:189-197 | On a run not broken off, EndCompound comes exactly once per entered non-empty compound, after its entry. |
| DataTreeAnswers.PreorderObeys | Holder/DTUtils.cpp:120-199 | For every tree and every serializer, told by the events alone: nothing follows a Break, and the walk fails exactly if it was broken off; a compound that is entered goes on with its first key or item; a key that is entered goes on with its value, one that is skipped with the next key or the end. |
| JsonTokens.DTJsonTokenGenerator.AddSeparator | Holder/DTJsonSerializer.cpp:67-76 | One comma. |
| JsonTokens.DTJsonTokenGenerator.PushLevel | Holder/DTJsonSerializer.cpp:23-34 | Marks the opener around it, and opens the last token. |
| JsonTokens.DTJsonTokenGenerator.PopLevel | Holder/DTJsonSerializer.cpp:35-65 | Closes the innermost opener, both complements set; fails exactly with nothing to close. |
| JsonTokens.DTJsonTokenGenerator.OnCompound | Holder/DTJsonSerializer.cpp:78-136 | Separator, opener, and either a new level or the closer at once. |
| JsonTokens.DTJsonTokenGenerator.OnLeaf | Holder/DTJsonSerializer.cpp:168-208 | Separator and value. |
| JsonTokens.DTJsonTokenGenerator.OnDictKey | Holder/DTJsonSerializer.cpp:138-161 | Separator, quoted key, colon, and no comma next. |
| JsonTokens.DTJsonTokenGenerator.Handle | Holder/DTJsonSerializer.cpp:78-208 | Each callback appends the tokens it should, behind a comma where one is due, is one step of the generator, and fails exactly where the step does. |
| JsonTokens.WalkIsEvents | Holder/DTUtils.cpp:120-199 | For a serializer that always enters, the walk tells the events of the tree. |
| JsonTokens.NodeGenerates | Holder/DTJsonSerializer.cpp:23-208 | From any state, the events of a tree append exactly its tokens, and mark the opener around it if it is a non-empty compound. |
| JsonTokens.SerialisationYieldsTokens | Holder/DTJsonSerializer.cpp:78-208 | Walk and generator together never fail and yield exactly the tokens of the tree. |
| JsonTokens.SerialiseToTokens | Holder/DTJsonSerializer.cpp:78-208 | The pipeline as it is called, with the same result. |
| JsonReading.WrittenIsRead | Holder/DTJsonSerializer.cpp:78-208 | What is written as a value by the grammar of sections 4 and 5 of RFC 8259 is read as that value. |
| JsonReading.ReadIsWritten | Holder/DTJsonSerializer.cpp:78-208 | The reader accepts nothing else. |
| JsonReading.RenderWrites | Holder/DTJsonSerializer.cpp:78-208 | The tokens of a tree are written by that grammar. |
| JsonReading.TokensRoundTrip | Holder/DTJsonSerializer.cpp:23-208 | A token list reads as the tree if and only if it has the types and texts of the generated list. |
| JsonReading.TokensInjective | Holder/DTJsonSerializer.cpp:23-208 | Two trees have the same tokens, annotations included, if and only if JSON shows no difference between them. |
| JsonNesting.TokensNested | Holder/DTJsonSerializer.cpp:42-61 | In every generated list the complements pair the brackets, each closer is where its bracket first closes, and hasCompounds says exactly whether a non-empty bracket opens between. |
| JsonNesting.BracketsDoNotCross | Holder/DTJsonSerializer.cpp:42-61 | Brackets paired by complements never cross. |
| JsonPrinter.PrintJsonIndented | Holder/DTJsonSerializer.cpp:277-396 | For every token list, the text of the step function, or failure where it fails. |
| JsonPrinter.PrintToken | Holder/DTJsonSerializer.cpp:288-392 | The loop body is one step: the text of the token, and behind it nothing, blanks, or a line end with the indentation. |
| JsonPrinter.Decide | Holder/DTJsonSerializer.cpp:297-365 | White space and indentation after each type of token, and the three places that throw. |
| JsonPrinter.PrintsTextsAndBlanks | Holder/DTJsonSerializer.cpp:286-395 | Whatever is printed is the token texts in order with nothing but blanks and line ends between. |
| JsonPrinter.LayoutIndent | Holder/DTJsonSerializer.cpp:305-365 | The layout of a tree ends one level in per compound without children, or at its own level with sameLineElements. |
| JsonPrinter.TreePrints | Holder/DTJsonSerializer.cpp:277-396 | On the tokens of a tree the printer never throws, never indents below zero, prints the recursive layout of the tree, and ends at 0 or at the number of compounds without children. |
| ExecutorThread.ExecutorThread.AddExecutor | Holder/ExecutionManager.cpp:115-128 | One more executor, wanting to run; index and count exact. |
| ExecutorThread.ExecutorThread.HandleSignalForIndex | Holder/ExecutionManager.cpp:130-144 | A suspended executor wants to run again, and is counted. |
| ExecutorThread.ExecutorThread.HandleExecutorSignal | Holder/ExecutionManager.cpp:146-164 | Wakes exactly the executor named, or all, and asks exactly those to terminate. |
| ExecutorThread.ExecutorThread.RemoveExecutor | Holder/ExecutionManager.cpp:166-197 | Exactly that executor goes; index stays the inverse and the count exact. |
| ExecutorThread.ExecutorThread.RunExecuting | Holder/ExecutionManager.cpp:56-77 | Everyone that wants to run is run; who suspends is counted out, who ends is listed. |
| ExecutorThread.ExecutorThread.Round | Holder/ExecutionManager.cpp:56-87 | After a round, with any number of removals: who is suspended is not run and stays; who is run stays, is suspended or goes, exactly as it answers. |
| ExecutorThread.CountSwapRemoved | Holder/ExecutionManager.cpp:173-196 | Swap and pop lose exactly the removed entry from the count. |
| ExecutorThread.NoneActiveIff | Holder/ExecutionManager.cpp:89-91 | The count for which the thread goes to sleep is zero exactly when nobody wants to run. |
| ExecutorThread.IntendedRemovalKeepsInverse | Holder/ExecutionManager.cpp:178-195 | With the moved executor reindexed, the map stays the exact inverse of the array. |
| ExecutorThread.WrittenRemovalKeepsInverseIff | Holder/ExecutionManager.cpp:184-190 | As written it does if and only if the executor is unknown or the last one. |
| ExecutorThread.WrittenRemovalLosesTheMovedExecutor | Holder/ExecutionManager.cpp:184-190 | Two executors, the first ends: the second is indexed past the end of the array. |
| ThreadManager.ExecutionManager.AddExecutor | Holder/ExecutionManager.cpp:555-613 | Thrown exactly without a name, without IDs left, or, with the shop open, if the name is taken and this executor or its thread is a singleton; refused exactly in a locked shop; otherwise accepted under the next ID and given to the thread of that name, or to a new one. A failed call changes no thread; one thrown for a singleton uses up the ID. |
| ThreadManager.ExecutionManager.PostOrStart | Holder/ExecutionManager.cpp:577-605 | To the thread of that name, or to a new one. |
| ThreadManager.ExecutionManager.DoomThread | Holder/ExecutionManager.cpp:615-628 | The thread of that name is doomed and loses its name. |
| ThreadManager.ExecutionManager.SignalExecutor | Holder/ExecutionManager.cpp:630-645 | Posted to the thread of that executor, if it has one. |
| ThreadManager.ExecutionManager.LockShop | Holder/ExecutionManager.cpp:500-515 | Every thread doomed, and on request asked to terminate every executor mapped to it. |
| ThreadManager.ExecutionManager.RemoveExecutors | Holder/ExecutionManager.cpp:679-690 | Exactly those that ended leave the map. |
| ThreadManager.ExecutionManager.RemoveThread | Holder/ExecutionManager.cpp:692-716 | The thread and its name go; the last one locks the shop. |
| ThreadManager.StepKeepsInv | Holder/ExecutionManager.cpp:24-113 | Every step of manager or thread keeps: names lead to live threads that take executors, each accepted executor is with the thread the map names, an exiting thread is doomed and hosts nothing. |
| ThreadManager.NoExecutorLost | Holder/ExecutionManager.cpp:555-613 | In every run an accepted executor has ended or is with exactly one live thread that is not exiting. |
| ThreadManager.ExitLosesNothing | Holder/ExecutionManager.cpp:93-112 | A thread that left its loop is doomed and hosts nothing, and no executor can be added to it any more. |
| ThreadManager.SendToAllReachesEveryone | Holder/ExecutionManager.cpp:36-53 | A termination request to all, once handled, has reached every executor accepted before it that has not ended. |
| ThreadManager.HandlingAsksIff | Holder/ExecutionManager.cpp:36-53 | Exactly those are asked to terminate that the thread hosts, or is told to add, and that a request names or one to all means. |
| ThreadManager.LockShopTargetsEveryone | Holder/ExecutionManager.cpp:504-512 | Locking up posts that request for every executor accepted and not ended. |
| ThreadManager.ShutdownIsComplete | Holder/ExecutionManager.cpp:517-525 | When RunLoop returns, every accepted executor has ended and none will be accepted. |
| ThreadManager.StepKeepsNamesIff | Holder/ExecutionManager.cpp:698-701 | A step leaves every thread that takes executors findable by name if and only if it is not the exit of a thread whose name a later one bears. |
| ThreadManager.SuccessorLosesItsName | Holder/ExecutionManager.cpp:698-701 | A reachable run that ends with a live, undoomed thread under no name. |
| ThreadRuns.SingletonIsAlone | Holder/ExecutionManager.cpp:584-604 | In every run, an executor accepted as a singleton has a thread started for it, and never, before or after, is another executor mapped to that thread. |
| ThreadRuns.StartOf | Holder/ExecutionManager.cpp:590-604 | Every live thread was started by an accepted call, whose name and singleton flag it has. |
| ThreadRuns.AcceptsIff | Holder/ExecutionManager.cpp:561-590 | In every run a call is accepted if and only if it has a name, an ID is left, the shop is open, and, if there is a thread of that name, neither that thread was started for a singleton nor the executor is one. |
| ThreadRuns.DoomedGetsNoMore | Holder/ExecutionManager.cpp:615-628 | In every run a thread doomed by its name gets no further executor. |
| ThreadRuns.LockedAcceptsNobody | Holder/ExecutionManager.cpp:566-570 | In every run nobody is accepted after the shop was locked, and it stays locked. |
| ThreadRuns.SignalReachesIt | Holder/ExecutionManager.cpp:46-53 | In every run a request to terminate one executor, once handled, has reached the executor, or it had ended before. |
| TimerThread.TimerThread.FindByName | Holder/ExecutionManager.cpp:396-407 | A timer of that name, or none if there is none. |
| TimerThread.TimerThread.ProcessTimerMessage | Holder/ExecutionManager.cpp:387-450 | Cancelling by ID takes away that timer, cancelling by name the one of that name; setting a name in use changes the timer of that name, and otherwise starts a new one with its first beat one interval away. Everything else stays as it was, and the invariant holds. |
| TimerThread.TimerThread.OnTimerDue | Holder/ExecutionManager.cpp:452-488 | One callback for a live timer; the entry comes back with the next beat unless a one-shot timer is through. |
| TimerThread.TimerThread.ServeTop | Holder/ExecutionManager.cpp:352-376 | At most one entry, a least one, and only if due: its timer, if it is still there, has one callback for that beat, and comes back with the next beat, or goes if it is a one-shot timer past its first. |
| TimerThread.StepKeepsInv | Holder/ExecutionManager.cpp:335-488 | Every message and every firing keeps the queue, names, counts and beats in order. |
| TimerThread.OneEntryPerTimer | Holder/ExecutionManager.cpp:409-424 | A live timer has exactly one entry in the queue, and its name to itself. |
| TimerThread.BeatIsStartPlusIntervals | Holder/ExecutionManager.cpp:418-421 | The k-th beat of a timer never set again is its start plus k intervals, and never comes early. |
| TimerThread.BeatsFireInOrder | Holder/ExecutionManager.cpp:353-370 | Beats fire in non-decreasing order. |
| TimerThread.OneShotFiresTwice | Holder/ExecutionManager.cpp:469-486 | A one-shot timer stays after its first callback since it was set and goes with the second. |
| TimerThread.CancelledNeverFires | Holder/ExecutionManager.cpp:426-447 | After its cancellation is processed a timer never fires again, in any run. |
| TimerThread.CancelTakes | Holder/ExecutionManager.cpp:426-448 | What a cancellation takes away, told by its name and ID alone. |
| TimerThread.SetPuts | Holder/ExecutionManager.cpp:390-424 | What setting a timer changes, told by its name alone. |
| TimerRuns.GoesIff | Holder/ExecutionManager.cpp:426-486 | A timer goes exactly with a message that cancels it, by its ID or its name, or with a beat of a one-shot timer after its first. |
| TimerRuns.CancelledByIdNeverFires | Holder/ExecutionManager.cpp:444-447 | In every run, after a message that cancels an ID handed out, that timer never fires; for any other ID the message does nothing. |
| TimerRuns.CancelledByNameNeverFires | Holder/ExecutionManager.cpp:431-443 | In every run, after a message that cancels by name, the timer of that name never fires. |
| TimerRuns.FiresEveryInterval | Holder/ExecutionManager.cpp:409-421 | In every run, for a message that starts a timer, and none later for that name: its n-th callback is for the time of the message and n intervals, with what the message said, and not early; a one-shot timer has two at most. |
| TimerWait.StepKeepsInv | Holder/ExecutionManager.cpp:335-386 | Every round of the loop and every post keeps: what the thread does to its timers are steps of the timer model, messages are in order, and a sleeper waits for the least beat. |
| TimerWait.HandledInOrder | Holder/ExecutionManager.cpp:335-351 | In every run each posted message is handled once, in the order of posting, or still to come; none is lost. |
| TimerWait.NthHandledIsNthPosted | Holder/ExecutionManager.cpp:343-351 | In every run the n-th message processed is the n-th one posted. |
| TimerWait.OverlooksIff | Holder/ExecutionManager.cpp:339-382 | At every point of every run a sleeping thread has an unhandled message if and only if one was posted after it last took the messages and before it fell asleep. |
| TimerWait.SleeperHasSwapped | Holder/ExecutionManager.cpp:339-344 | A thread that sleeps has taken the messages before, so that this last taking exists. |
| TimerWait.WokenIff | Holder/ExecutionManager.cpp:370-382 | A sleeper is woken by a post, or when the least beat is due, and without timers by a post only. |
| TimerWait.OverlookedUntilPost | Holder/ExecutionManager.cpp:377-382 | Without timers the next step of any run is a post: what was overlooked stays until then. |
| TimerWait.FirstTimerIsOverlooked | Holder/ExecutionManager.cpp:339-382 | A reachable run: the first timer is set between the taking of the messages and the wait, and the thread sleeps with it unset. |
| MessageDispatcher.MessageDequeDispatcher.SendMessage | Holder/MessageDequeDispatcher.cpp:25-30 | Counted, then queued, with the given receiver and message, behind everything posted before, which stays as it was. |
| MessageDispatcher.MessageDequeDispatcher.CreateReceiver | Holder/MessageDequeDispatcher.cpp:32-46 | The next ID, and its creation queued behind those before. |
| MessageDispatcher.MessageDequeDispatcher.RemoveReceiver | Holder/MessageDequeDispatcher.cpp:49-53 | The removal is queued behind those before. |
| MessageDispatcher.MessageDequeDispatcher.TakeQueues | Holder/MessageDequeDispatcher.cpp:112-121 | Receivers to act on are taken every time, messages only when the last batch is used up. |
| MessageDispatcher.MessageDequeDispatcher.DispatchNext | Holder/MessageDequeDispatcher.cpp:79-90 | The oldest message, lost exactly if its receiver is not there. |
| MessageDispatcher.MessageDequeDispatcher.ProcessMessages | Holder/MessageDequeDispatcher.cpp:110-151 | All receivers queued for creation and then for removal are acted on, then the next messages in order, up to the limit or all; what is left of the deque stays, and the count says how much remains. |
| MessageDispatcher.StepKeepsInv | Holder/MessageDequeDispatcher.cpp:25-151 | Every post and every part of a batch keeps order, counts and the books on receivers. |
| MessageDispatcher.ProcessedOnceInOrder | Holder/MessageDequeDispatcher.cpp:139-148 | In every run messages are processed once each in posted order, and m_totalSize is queued plus local plus in-flight. |
| MessageDispatcher.LostIffRemoved | Holder/MessageDequeDispatcher.cpp:79-108 | A message posted after its receiver was created is lost if and only if the removal had been posted by the time its batch began. |
| MessageDispatcher.UnboundedBatchLeavesNothing | Holder/MessageDequeDispatcher.cpp:136-150 | After an unbounded batch the count is what came in the meantime. |
| MessageRuns.NthProcessedIsNthSent | Holder/MessageDequeDispatcher.cpp:139-148 | In every run the n-th message processed has the receiver and the content given to the n-th SendMessage. |
| MessageRuns.ReachesItsReceiverIff | Holder/MessageDequeDispatcher.cpp:79-108 | In every run a message finds its receiver if and only if, when its batch began, CreateReceiver had been called for that ID and RemoveReceiver had not. |
| MessageRuns.IdsAreFresh | Holder/MessageDequeDispatcher.cpp:42-45 | In every run no two calls of CreateReceiver get the same ID. |
| WakeUp.StepKeepsInv | Holder/MQDExecutor.cpp:23-50 | Every post, signal, instruction and part of a run keeps: asleep with a signalled post, a wake-up is in the list. |
| WakeUp.NoLostWakeUp | Holder/MQDExecutor.cpp:34-50 | In every run a post to a sleeping executor has its wake-up in the list or about to be put there, unless its signal was missed. |
| WakeUp.MissedIff | Holder/MQDExecutor.cpp:47-50 | In every run a signal was missed if and only if its step came before the ID was stored, or after the thread was asked to terminate the executor and then left Run. |
| WakeUp.StrandedIff | Holder/MQDExecutor.cpp:12-21 | In every run a suspended executor is stranded if and only if the signal for the newest item in its deques came before the ID was stored. |
| WakeUp.StoredFirstIsNeverStranded | Holder/MQDExecutor.cpp:12-50 | If the ID is stored before any signal is sent, the executor is never stranded. |
| WakeUp.SignalStep | Holder/MQDExecutor.cpp:47-50 | Every item whose signal is not pending has its signalling step in the run. |
| WakeUp.SuspendsWithoutMessages | Holder/MQDExecutor.cpp:34-39 | An executor suspends only with no message queued or counted. |
| WakeUp.EarlyPostIsStranded | Holder/MQDExecutor.cpp:18-19 | A reachable run: a receiver created before the ID is stored waits, unsignalled. |
| ObjectTree.IdsRoundTripIff | Holder/ObjectTree.h:45-69 | Type and index come back from an ID if and only if the index stays clear of bit 32 (values: below it). |
| ObjectTree.PathsAreUnique | Holder/ObjectTree.h:99-151 | Different paths lead to different nodes. |
| ObjectTree.AddedValid | Holder/ObjectTree.h:184-210 | Adding keeps every entry a node that names its parent, and every node but the root one entry. |
| ObjectTree.AddedWalk | Holder/ObjectTree.h:116-132 | Adding makes one new path and changes no other. |
| ObjectTree.RemovedValid | Holder/ObjectTree.h:212-234 | The intended removal keeps the tree valid. |
| ObjectTree.RemovedWalk | Holder/ObjectTree.h:416-451 | The intended removal takes away the path of the removed node and no other. |
| ObjectTree.WrittenRemovalIsValidIff | Holder/ObjectTree.h:437-448 | As written, removal keeps the tree valid if and only if the node is a dictionary. |
| ObjectTree.DanglingEntry | Holder/ObjectTree.h:136-148 | Removing a value, as written, leaves its entry behind, leading nowhere. |
| ObjectTree.WrittenRemovalForgetsASibling | Holder/ObjectTree.h:447 | A tree in which it makes the parent forget a dictionary instead. |
| ObjectTree.SetValueAt | Holder/ObjectTree.h:265-283 | A value set shows at its path and nowhere else. |
| ObjectTree.ObjectTree.AddNode | Holder/ObjectTree.h:184-210 | For every parent and name: the result code, the entry and the new node, or the node that has the name; nothing changes on failure. |
| ObjectTree.ObjectTree.CreateNode | Holder/ObjectTree.h:389-414 | The next index of its kind. |
| ObjectTree.ObjectTree.RemoveNode | Holder/ObjectTree.h:212-234 | Result code and tree for every node; nothing changes on failure. |
| ObjectTree.ObjectTree.FindChild | Holder/ObjectTree.h:285-309 | The child of that name, or why there is none. |
| ObjectTree.ObjectTree.GetValue | Holder/ObjectTree.h:245-263 | The value, for value nodes only. |
| ObjectTree.ObjectTree.SetValue | Holder/ObjectTree.h:265-283 | The value is set, for value nodes only. |
| PathLib.TracePath | Holder/PathLib.h:19-96 | For every callback the loop does what the recursive trace does. |
| PathLib.TracePathConst | Holder/PathLib.h:19-96 | The same on a const tree, where creating is an error. |
| PathLib.TraceAsks | Holder/PathLib.h:36-94 | A trace that succeeds has asked the callback for each component and at the end, was never told to stop, created only when told to, and was let go at the end. |
| PathLib.FindIsLookup | Holder/PathLib.h:182-207 | Finding is the lookup, for every path. |
| PathLib.AddRefinesMap | Holder/PathLib.h:137-180 | Adding succeeds if and only if the full path has no node and no proper prefix is a value (and the directory exists, without creation); success changes the lookup of that path only, failure leaves the tree unchanged. |
| PathLib.RemovalFreesPathIffIntended | Holder/ObjectTree.h:437-448 | After a value was removed its path can be added to again if and only if the removal is the intended one. |
| PathFromString.PathFromString.constructor | Holder/PathFromString.cpp:6-28 | The components are those between the separators; rooted() holds only for an empty path with NUL as separator. |
| PathFromString.PathFromString.Analyze | Holder/PathFromString.cpp:13-27 | Cutting up the buffer in place yields exactly the components. |
| PathFromString.SplitThenJoin | Holder/PathFromString.cpp:13-27 | The components joined are the path. |
| PathFromString.JoinThenSplit | Holder/PathFromString.cpp:13-27 | Components without the separator come back from the path joined from them. |
| SharedObjectStore.AddKeepsLinks | Holder/SharedObjectStore.cpp:20-64 | Adding succeeds if and only if tokens are left and the path is free; then that path finds the object, all others what they found before, and tokens, objects and value nodes stay in bijection. Otherwise nothing changes. |
| SharedObjectStore.RemoveKeepsLinks | Holder/SharedObjectStore.cpp:66-86 | Removing takes the object out of all three indexes and no other lookup changes. |
| SharedObjectStore.SharedObjectStore.AddObject | Holder/SharedObjectStore.cpp:20-64 | From the path string on: the token, the object under a new ID in all three indexes and at its path; or, with no token left or the path taken, 0 and no change. |
| SharedObjectStore.SharedObjectStore.RemoveObject | Holder/SharedObjectStore.cpp:66-86 | True exactly for a token in use, whose object goes; otherwise nothing changes. |
| SharedObjectStore.SharedObjectStore.GetObject | Holder/SharedObjectStore.h:39-52 | The object under that ID, if there is one. |
| SharedObjectStore.SharedObjectStore.FindObject | Holder/SharedObjectStore.h:54-76 | The object at the path; directories and missing nodes are not found. |

## Left out

- StartupTaskManager.StartupTaskExecutor.Act: calls of SetDependencies from inside a listener callback, which would change sets under iteration; a callback runs or fails its own task at most, as Holder/BaseService.h:170-205 does.
- StartupTaskManager.StartupTaskExecutor.HandleCompleteTask: task results (`pResult`) are not carried.
- StartupTaskManager.StartupTaskExecutor.OnDependencyFailed: what happens after a mutex was locked twice on one thread, which the source leaves undefined; the model goes on and records it.
- StartupTaskManager.StartupTaskExecutor.Run: `m_waitingTasks` is an integer, not 32 bits wide; below zero, which takes revivals, the source wraps around.
- StartupRuns.StepKeepsInv: flags change between actions; a mark during an action has the effect of one before it, or none if the listener was told first. A service marks itself from another thread than the executor's.
- AsyncExecutor.RunAllTasks: assumes that some posted task eventually reports completion; tasks that answer Continue for ever are in `ExecutorProtocol`, and `ExecutorTermination` is about tasks that complete.
- ExecutorThread.ExecutorThread.RemoveExecutor: carries out the intended reindexing; the line as written is `ExecutorThread.WrittenRemovalKeepsInverseIff`.
- ObjectTree.ObjectTree.RemoveNode: carries out the intended removal; the line as written is `ObjectTree.WrittenRemovalIsValidIff`.
- PathLib.TracePath: traces start at the root, and the callback is given the position, the node and whether it is new, not the tree.
- PathLib.TracePathConst: the same.
- ExecutorProtocol.StepKeepsInv: a task may go to any worker, which covers the choice of the smallest load; the stop flag and destructor are left out.
- TaskGraph.AsyncGraphOrder.GetTasksToExecute: counters are unbounded, not 32 or 64 bits wide.
- JsonTokens.DTJsonTokenGenerator.Handle: the text of an element is given; formatting numbers and escaping strings are left out. The six callbacks share two methods.
- JsonPrinter.PrintJsonIndented: the indentation is unbounded; the number of blanks wraps as an unsigned product does.
- WakeUp.NoLostWakeUp: the executor's Run is steps of the protocol, not a method; what it does with the deques is `MessageDispatcher.MessageDequeDispatcher.ProcessMessages`.
- ThreadManager.StepKeepsInv: every Init succeeds; a thread whose first executor does not initialise exits undoomed, and what is added to it meanwhile is lost.
- ThreadManager.ExecutionManager.SignalExecutor: wait conditions and time-outs only decide when a thread takes its instructions, which is left open.
- TimerThread.TimerThread.ProcessTimerMessage: the instant is given; the loop around it is `TimerWait`.
- TimerWait.StepKeepsInv: wake-ups without a notification, which end the wait early, and the doom flag, which starts uninitialised, are left out.
- MessageDispatcher.MessageDequeDispatcher.RemoveReceiver: only for IDs whose creation is queued; for IDs not handed out the source does nothing.
- MessageDispatcher.MessageDequeDispatcher.ProcessMessages: posts between the parts of a batch, from callbacks too, are steps of the protocol, not of this method; listeners, filters and dispatch IDs are left out.
- WakeUp.StepKeepsInv: one executor on its thread; while another executor keeps the thread busy, wake-ups are only taken late.
- ObjectTree.ObjectTree.AddNode: needs fewer than 2^32 nodes of each kind, beyond which IDs collide (`ObjectTree.IdsRoundTripIff`); metadata is left out.
- PathLib.AddRefinesMap: traces start at the root, as every caller in the store does.
- SharedObjectStore.SharedObjectStore.FindObject: the nested GetObject locks the shared mutex a second time on the same thread (Holder/SharedObjectStore.h:54-76); locks are left out.
- SharedObjectStore.SharedObjectStore.AddObject: the random token is any unused one; the loop that draws it is left out.
- Operating system threads, condition variables, spurious wake-ups and memory ordering: interleaved atomic steps instead.
- Request and response classes, service communication, shared object managers, read-write locks, HolderComponents: incomplete or inconsistent in the source.
- Value conversion, path prefixes, task result and state queries, factories, proxies, configuration, console output and samples: easy or plumbing.
