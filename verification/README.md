# Ray's node runtime: a verified model

This project models the event handlers at the core of Ray's runtime on one node and in the
cluster, and proves what they keep over every run: the local scheduler with its workers and
actors, the reconstruction of lost objects, the plasma object store with its eviction policy, the
plasma client and its protocol with the store, the wait requests and object transfers of the
plasma manager, the placement of tasks by the global scheduler, and the reservation of GPUs.

`dafny verify dfyconfig.toml` checks everything.

## How it is organised

Each component has a specification and, where the source changes state in place, a class.

- The specification is a value: a state, one function per handler, an invariant, and the run
  theorems (`RunKeeps` and what follows from it). Indices that the program keeps for speed are not
  part of it.
- The class has the program's own fields, with its vectors and hash tables, and its loops. Every
  method is proved to make the transition of the specification. Its `Valid()` says in addition that
  each index is exactly a function of the data it indexes.
- The history theorems (modules ending in `History`, and `ActorQueue.ExecutedCount`) say over every
  run what the state and the messages are in terms of the events alone, so that they do not depend on
  how the handlers are written: what counts as local, which objects are evicted first, how many
  references a user has, which tasks are where, what a reply says.

| modules | component |
|---|---|
| `Tasks`, `TaskQueues`, `FetchIndex`, `WorkerPool`, `SchedulerSpec`, `SchedulerHistory`, `LocalScheduler` | local scheduler: queues, fetch table, workers, resources, dispatch |
| `ActorQueue` | ordering of one actor's calls |
| `Reconstruction`, `ReconstructionHistory`, `Cascade` | reconstruction: one instance of a task across nodes; the cascade of one request |
| `Eviction`, `StoreSpec`, `StoreHistory`, `PlasmaStore` | plasma store, eviction policy, get requests |
| `ClientSpec`, `ClientHistory`, `PlasmaClient` | plasma client: reference counts and delayed release |
| `StoreViews`, `PlasmaProtocol`, `ProtocolHistory` | clients and store over sockets |
| `WaitSpec`, `WaitHistory`, `PlasmaManager` | wait requests |
| `TransferSpec`, `TransferHistory`, `ObjectTransfer` | chunked object transfer |
| `PlacementSpec`, `PlacementHistory`, `GlobalScheduler` | placement of tasks |
| `GpuReservation`, `GpuHistory` | optimistic transactions on the GPU table |
| `IdLists` | lists of ids that these share |

Where a promise of the source does not hold of the code, a lemma shows the input, and another says
exactly when it holds: `FetchIndex.DrainIsScan` (repeated arguments),
`SchedulerSpec.RunStaysAliveIff` (submissions of removed drivers),
`SchedulerSpec.RunStaysMaximalIff` (a lost worker or removed driver starts no dispatch pass),
`StoreSpec.GetIsAnsweredInTimeIff` and `PlasmaStore.WalkSoundIff` (repeated ids in a get),
`StoreSpec.LeaveKeepsIff` (unsealed objects whose only user leaves), `StoreViews.SealPinsGoneIff`
(requests of clients that have left), `StoreSpec.ReleaseKeepsIff` (early releases),
`Reconstruction.AtMostOneInstanceIff` (tasks submitted again by a reconstructed parent),
`WaitSpec.AnsweredOnceAllLocalIff` (repeated ids in a wait), `Eviction.RetryEndsIffNonEmpty` (empty objects),
`TransferSpec.ExactIffNoPartialWrite` and `TransferSpec.RunKeepsIff` (partial socket writes),
`TransferSpec.QuietMeansReceived` (a last empty object), `PlacementSpec.PlacedIff` (costs from 2^31).

## What is taken from the environment

- Resource amounts are exact reals, sizes and counters are unbounded; the 32-bit limit of placement
  scores is explicit.
- A worker does not ask for a task while it is blocked or idle, and reports that it is unblocked only
  if it was blocked. Notifications about one object alternate between available and removed.
- In `PlasmaProtocol` the ids in one get are different, and clients wait for the answer to a creation
  or a get before they do anything else, release only references they hold, and disconnect only when
  they have sealed what they created; from this it derives that the store's own preconditions
  (`StoreSpec.Enabled`) hold. The store itself takes any get, release and disconnection.
- Test-and-set is atomic. A node's writes to the task table take effect in the order issued.
- The outcome of an allocation, of a socket read or write, of a transaction, the order in which a
  hash table is walked and what the other side answers are parameters.

## Model

| member | source | states |
|---|---|---|
| `SchedulerSpec.RunKeeps` | src/local_scheduler/local_scheduler_algorithm.cc:449-1185 | over every sequence of handler calls: queued tasks with all arguments local are in the dispatch queue, those with a missing one in the waiting queue, and the worker and resource invariant holds |
| `SchedulerSpec.StepKeeps` | src/local_scheduler/local_scheduler_algorithm.cc:730-1185 | each handler keeps that invariant |
| `SchedulerHistory.RunSendsReadyTasks` | src/local_scheduler/local_scheduler_algorithm.cc:561-623 | in every run, every task that a step sends to a worker has all its arguments reported available by the notifications up to then, and the removal of its driver has not been announced |
| `SchedulerSpec.SentTasksAreReady` | src/local_scheduler/local_scheduler_algorithm.cc:561-623 | the same for the assignments of one step |
| `SchedulerSpec.RunAccounts` | src/local_scheduler/local_scheduler_algorithm.cc:730-1185 | conservation of tasks over every run: with multiplicity, what was brought in is queued, sent to a worker, forwarded, or dropped with its driver |
| `SchedulerHistory.RunLocalIff` | src/local_scheduler/local_scheduler_algorithm.cc:1045-1185 | over every run: an object counts as local if and only if the last notification about it says so, or there is none and it was local at the start; a driver is removed if and only if that was announced |
| `SchedulerHistory.RunServesEachRequest` | src/local_scheduler/local_scheduler.cc:853-887 | over every run in which a worker does not disconnect: it is sent one task for each time it asks, except for a last request that is still open while it is available |
| `SchedulerHistory.RunRunsLastSent` | src/local_scheduler/local_scheduler.cc:459-508 | over every run: the task that a worker has is the last one sent to it |
| `SchedulerHistory.StepConnectedIff` | src/local_scheduler/local_scheduler.cc:69-149 | a worker is known from when it connects until it disconnects or its task's driver is removed |
| `SchedulerHistory.StepBlockedIff` | src/local_scheduler/local_scheduler_algorithm.cc:1016-1043 | one handler blocks exactly the running worker that asks for a reconstruction, and ends the block of one that is unblocked, disconnects, or runs a task of a removed driver |
| `SchedulerHistory.RunBlockedIff` | src/local_scheduler/local_scheduler_algorithm.cc:1016-1043 | over every run: a worker is blocked if and only if it was at the start, or asked for a reconstruction while it ran a task, and nothing has ended that since |
| `SchedulerHistory.ForwardedIff` | src/local_scheduler/local_scheduler_algorithm.cc:809-832 | a task is handed to the global scheduler, if there is one, exactly when it is submitted here and demands more than the node has or has free, no worker is available, or an object it names is missing |
| `SchedulerHistory.KeptTaskStartsAtOnce` | src/local_scheduler/local_scheduler_algorithm.cc:809-832 | from a state in which nothing could be assigned, a live driver's task that is kept for that reason starts at once, on the last available worker |
| `SchedulerSpec.StepAccounts` | src/local_scheduler/local_scheduler_algorithm.cc:730-1185 | conservation of tasks in one step |
| `SchedulerSpec.PassIsMaximal` | src/local_scheduler/local_scheduler_algorithm.cc:561-623 | when a dispatch pass returns without a failed check, the queue is empty, no worker or no resource is left, or no remaining task fits |
| `SchedulerSpec.PassKeepsOrder` | src/local_scheduler/local_scheduler_algorithm.cc:561-623 | the tasks that remain after a pass are a sublist of the queue in the same order, and remaining plus assigned tasks are the tasks before |
| `SchedulerSpec.PassTakesWorkersInTurn` | src/local_scheduler/local_scheduler_algorithm.cc:561-623 | the tasks a pass removes go one each to different available workers, taken from the end of the list |
| `SchedulerSpec.PassSendsReadyTasks` | src/local_scheduler/local_scheduler_algorithm.cc:561-623 | every task that a pass assigns has all its arguments local, and its driver is alive |
| `SchedulerSpec.RunStaysMaximalIff` | src/local_scheduler/local_scheduler_algorithm.cc:561-1185 | over every run: no step leaves a task behind that could be assigned, if and only if every lost worker and every removed driver is harmless at its moment |
| `SchedulerSpec.StepStaysMaximalIff` | src/local_scheduler/local_scheduler_algorithm.cc:730-1185 | a handler that does not end the process leaves nothing to assign if and only if it is harmless; only a lost worker and a removed driver can fail to be, because these two start no pass |
| `SchedulerSpec.StepStaysMaximal` | src/local_scheduler/local_scheduler_algorithm.cc:730-1132 | every other handler that does not end the process leaves nothing to assign |
| `SchedulerSpec.LostWorkerCanStrandTasks` | src/local_scheduler/local_scheduler_algorithm.cc:965-997 | a run after which a disconnecting worker leaves a task that fits a free worker, because that handler starts no pass |
| `SchedulerSpec.DisconnectStaysMaximalIff` | src/local_scheduler/local_scheduler_algorithm.cc:965-997 | a disconnecting worker leaves nothing to assign if and only if no other worker is available, nothing is free even with its lease, or no queued task fits even then |
| `SchedulerSpec.RemovedDriverCanStrandTasks` | src/local_scheduler/local_scheduler_algorithm.cc:1134-1185 | a run after which the removal of a driver leaves another driver's task that fits a free worker |
| `SchedulerSpec.DriverRemovedStaysMaximalIff` | src/local_scheduler/local_scheduler.cc:748-789 | the removal of a driver leaves nothing to assign if and only if no worker is available, nothing is free even with the leases of the workers that run its tasks, or no queued task of another driver fits even then |
| `SchedulerSpec.SubmissionOutcome` | src/local_scheduler/local_scheduler_algorithm.cc:809-832 | the whole handler of a submission, which does not test the driver: the process goes on and the queues stay free of removed drivers' tasks if and only if the driver is alive or the task is forwarded; the process aborts exactly when such a task is queued ready and the pass over the others leaves it a worker and its resources |
| `SchedulerSpec.QuietSubmissionAborts` | src/local_scheduler/local_scheduler.cc:464-466 | from a state in which nothing could be assigned, the abort is decided by the state before the call |
| `SchedulerSpec.RunStaysAliveIff` | src/local_scheduler/local_scheduler_algorithm.cc:730-1185 | over every run: the scheduler never aborts and never queues a removed driver's task, if and only if every submission comes from a live driver or is forwarded |
| `SchedulerSpec.StepStaysAliveIff` | src/local_scheduler/local_scheduler_algorithm.cc:730-1185 | the same for one handler; only a submission can fail |
| `SchedulerSpec.PassReachesLast` | src/local_scheduler/local_scheduler_algorithm.cc:561-623 | a pass with one more task at the end serves the others as without it, and comes to that task last |
| `SchedulerSpec.DeadDriverCanAbort` | src/local_scheduler/local_scheduler.cc:464-466 | a run in which a driver is removed and a task of it is submitted afterwards ends in the failed check |
| `SchedulerSpec.ArriveKeeps` | src/local_scheduler/local_scheduler_algorithm.cc:1045-1084 | moving the tasks that an arrived object makes runnable keeps the queue invariant |
| `SchedulerSpec.DepartKeeps` | src/local_scheduler/local_scheduler_algorithm.cc:1086-1132 | moving back the tasks that need a removed object keeps the queue invariant |
| `SchedulerSpec.DropDriverKeeps` | src/local_scheduler/local_scheduler_algorithm.cc:1134-1185 | dropping a driver's tasks keeps the queue invariant |
| `SchedulerSpec.InitialInv` | src/local_scheduler/local_scheduler_algorithm.cc:125-140 | a scheduler without workers and tasks satisfies the invariant |
| `Tasks.RunnableHasNoMissing` | src/local_scheduler/local_scheduler_algorithm.cc:512-525 | a task can run if and only if every object it names is local |
| `Tasks.OnlyDependentsWakeUp` | src/local_scheduler/local_scheduler_algorithm.cc:1045-1084 | only tasks that name an object become runnable when it arrives |
| `Tasks.RemovalStopsDependents` | src/local_scheduler/local_scheduler_algorithm.cc:1086-1132 | a runnable task stays runnable after a removal exactly when it does not name the object |
| `TaskQueues.SelectPartitions` | src/local_scheduler/local_scheduler_algorithm.cc:1086-1185 | selecting by a test and by its negation splits a queue, with multiplicity |
| `FetchIndex.DrainIsScan` | src/local_scheduler/local_scheduler_algorithm.cc:1045-1084 | the loop over the iterators of an object equals a scan of the whole waiting queue, and no erased iterator is used, if and only if no task that wakes up names the object twice |
| `FetchIndex.RepeatedArgumentDangles` | src/local_scheduler/local_scheduler_algorithm.cc:1066-1077 | a task that names its missing argument twice makes that loop use an erased iterator |
| `FetchIndex.IndexNonEmpty` | src/local_scheduler/local_scheduler_algorithm.cc:449-500 | an object is a key of the fetch table exactly when a waiting task needs it |
| `FetchIndex.IndexCounts` | src/local_scheduler/local_scheduler_algorithm.cc:449-500 | the entry of an object lists each waiting task once per argument that names it |
| `FetchIndex.EntriesListEachTaskOnce` | src/local_scheduler/local_scheduler_algorithm.cc:449-500 | if no task names an argument twice, each entry lists each waiting task that needs the object exactly once, and nothing else |
| `FetchIndex.DescribesAfterArrival` | src/local_scheduler/local_scheduler_algorithm.cc:1045-1084 | without the arrived object the fetch table is the inverted index of the tasks still waiting |
| `FetchIndex.DescribesAfterRemoval` | src/local_scheduler/local_scheduler_algorithm.cc:1086-1132 | with the tasks that wait again entered, the fetch table is the inverted index again |
| `FetchIndex.KeepIsIndex` | src/local_scheduler/local_scheduler_algorithm.cc:1134-1185 | erasing the iterators of dropped tasks from every entry gives the inverted index of the remaining queue |
| `FetchIndex.IndexLive` | src/local_scheduler/local_scheduler_algorithm.cc:449-500 | every listed iterator points to a waiting task |
| `WorkerPool.PoolMeaning` | src/local_scheduler/local_scheduler.cc:410-453 | no worker is in two lists; free GPUs stay between zero and the static amount; the CPU deficit is at most what workers lease that blocked and resumed in their task |
| `WorkerPool.StartKeeps` | src/local_scheduler/local_scheduler.cc:459-508 | assigning a fitting task keeps free plus leased resources at the static amounts and the lists in step with each worker's fields |
| `WorkerPool.FinishKeeps` | src/local_scheduler/local_scheduler.cc:853-887 | a finished task returns exactly its lease |
| `WorkerPool.BlockKeeps` | src/local_scheduler/local_scheduler_algorithm.cc:1016-1030 | a blocked worker gives up its CPUs and keeps its GPUs |
| `WorkerPool.UnblockKeeps` | src/local_scheduler/local_scheduler_algorithm.cc:1032-1043 | a worker that resumes takes its CPUs even if that oversubscribes them |
| `WorkerPool.KillKeeps` | src/local_scheduler/local_scheduler.cc:69-149 | a killed worker leaves every list and returns its lease |
| `WorkerPool.KillOwnedKeeps` | src/local_scheduler/local_scheduler.cc:748-789 | killing a driver's workers removes exactly the workers that run its tasks |
| `WorkerPool.KillOwnedFrees` | src/local_scheduler/local_scheduler.cc:748-789 | killing a driver's workers frees exactly what they lease and takes no available worker |
| `LocalScheduler.Scheduler.constructor` | src/local_scheduler/local_scheduler_algorithm.cc:125-140 | a new scheduler is in the initial state, with an empty fetch table |
| `LocalScheduler.Scheduler.TestCanRun` | src/local_scheduler/local_scheduler_algorithm.cc:512-525 | the loop over the arguments decides whether all are local |
| `LocalScheduler.Scheduler.FetchMissingDependency` | src/local_scheduler/local_scheduler_algorithm.cc:449-470 | one more iterator is entered under a missing object |
| `LocalScheduler.Scheduler.FetchMissingDependencies` | src/local_scheduler/local_scheduler_algorithm.cc:482-500 | after the loop over the arguments the fetch table is the inverted index including the new task |
| `LocalScheduler.Scheduler.DispatchTasks` | src/local_scheduler/local_scheduler_algorithm.cc:561-623 | the in-place loop makes the dispatch pass of the specification, including the failed check on a removed driver's task |
| `LocalScheduler.Scheduler.AssignTaskToWorker` | src/local_scheduler/local_scheduler.cc:459-508 | the worker gets the task, its resources and one message |
| `LocalScheduler.Scheduler.AcquireResources` | src/local_scheduler/local_scheduler.cc:410-436 | the lease is recorded with the worker and taken from the free amounts |
| `LocalScheduler.Scheduler.ReleaseResources` | src/local_scheduler/local_scheduler.cc:438-453 | the lease goes back to the free amounts |
| `LocalScheduler.Scheduler.RemoveWorker` | src/local_scheduler/local_scheduler_algorithm.cc:191-204 | a worker leaves a worker vector by swapping with the last element |
| `LocalScheduler.Scheduler.QueueTaskLocally` | src/local_scheduler/local_scheduler_algorithm.cc:730-744 | a task goes to the queue its arguments decide, with its iterators entered |
| `LocalScheduler.Scheduler.HandleTaskSubmitted` | src/local_scheduler/local_scheduler_algorithm.cc:809-832 | transition of a submitted task: run here at once, else forward, then one pass |
| `LocalScheduler.Scheduler.HandleTaskScheduled` | src/local_scheduler/local_scheduler.cc:1000-1023 | transition of a task that the global scheduler sent; ignored if its driver is gone |
| `LocalScheduler.Scheduler.NewClientConnection` | src/local_scheduler/local_scheduler.cc:951-978 | transition of a new client |
| `LocalScheduler.Scheduler.HandleGetTask` | src/local_scheduler/local_scheduler.cc:853-887 | transition of a worker that asks for work |
| `LocalScheduler.Scheduler.HandleReconstruct` | src/local_scheduler/local_scheduler.cc:888-908 | transition of a worker that blocks on a missing object |
| `LocalScheduler.Scheduler.HandleNotifyUnblocked` | src/local_scheduler/local_scheduler.cc:913-938 | transition of a worker that resumes |
| `LocalScheduler.Scheduler.KillWorker` | src/local_scheduler/local_scheduler.cc:69-149 | transition of a worker that is killed |
| `LocalScheduler.Scheduler.HandleDisconnect` | src/local_scheduler/local_scheduler.cc:791-799 | transition of a worker that disconnects |
| `LocalScheduler.Scheduler.HandleObjectAvailable` | src/local_scheduler/local_scheduler_algorithm.cc:1045-1084 | transition of an arrived object: tasks move, the fetch table is the inverted index again, and a pass follows if a task was listed |
| `LocalScheduler.Scheduler.AddLocalObject` | src/local_scheduler/local_scheduler_algorithm.cc:1045-1078 | the iterator loop moves exactly the tasks that become runnable, and says whether any task was listed |
| `LocalScheduler.Scheduler.HandleObjectRemoved` | src/local_scheduler/local_scheduler_algorithm.cc:1086-1132 | transition of a removed object: the two erase-while-iterating loops move exactly its dependents back and enter them in the fetch table |
| `LocalScheduler.Scheduler.HandleDriverRemoved` | src/local_scheduler/local_scheduler_algorithm.cc:1134-1185 | transition of a removed driver: its tasks leave both queues and every fetch entry |
| `LocalScheduler.Scheduler.KillWorkersOf` | src/local_scheduler/local_scheduler.cc:748-789 | the loop over the workers kills those that run the driver's tasks |
| `ActorQueue.RunKeeps` | src/local_scheduler/local_scheduler_algorithm.cc:293-436 | for every arrival order of calls with different counters the actor executes exactly 0, 1, 2, ...; its queue stays strictly sorted with counters from the next one on; no free worker has its next call queued |
| `ActorQueue.ExecutedCount` | src/local_scheduler/local_scheduler_algorithm.cc:293-436 | over every run: the number of executed calls is the smaller of how often the worker became free and how many calls came without a gap, both counted from the events; each is the call submitted with that counter |
| `ActorQueue.FeasibleIff` | src/local_scheduler/local_scheduler_algorithm.cc:999-1014 | which runs there are, from the events alone: no counter is submitted twice, and the worker reports itself free only once it is connected and the calls up to the number of its earlier reports have been submitted |
| `ActorQueue.ReachExists` | src/local_scheduler/local_scheduler_algorithm.cc:293-336 | every sequence of events has such a number of calls without a gap |
| `ActorQueue.ArrivalOrderIsIrrelevant` | src/local_scheduler/local_scheduler_algorithm.cc:293-436 | two runs that submit the same calls, in whatever orders, end with the same executed calls whenever a worker is free in both |
| `ActorQueue.FreeWorkerWaitsForMissingCall` | src/local_scheduler/local_scheduler_algorithm.cc:293-336 | a free worker is idle only if its next call has not arrived |
| `ActorQueue.NewCounterIsAhead` | src/local_scheduler/local_scheduler_algorithm.cc:400-406 | the check on the counter of an arriving call holds exactly when the counter has not been executed |
| `ActorQueue.InsertSorts` | src/local_scheduler/local_scheduler_algorithm.cc:408-420 | insertion keeps the queue strictly sorted |
| `ActorQueue.InsertInOrder` | src/local_scheduler/local_scheduler_algorithm.cc:408-420 | the loop inserts before the first call that does not have a smaller counter |
| `ActorQueue.LocalActor.AddTask` | src/local_scheduler/local_scheduler_algorithm.cc:377-436 | transition of an arriving call |
| `ActorQueue.LocalActor.DispatchTask` | src/local_scheduler/local_scheduler_algorithm.cc:293-336 | at most the next call in order is given to a connected free worker |
| `ActorQueue.LocalActor.HandleTaskSubmitted` | src/local_scheduler/local_scheduler_algorithm.cc:834-868 | an arriving call is queued and a dispatch attempted |
| `ActorQueue.LocalActor.HandleWorkerConnect` | src/local_scheduler/local_scheduler_algorithm.cc:338-351 | a connecting actor worker leads to a dispatch attempt |
| `ActorQueue.LocalActor.HandleWorkerAvailable` | src/local_scheduler/local_scheduler_algorithm.cc:999-1014 | a free actor worker leads to a dispatch attempt; by `ExecutedCount` the next call that has arrived is executed |
| `Reconstruction.AtMostOneInstanceIff` | src/local_scheduler/local_scheduler.cc:533-629 | for any number of schedulers and any interleaving of their asynchronous table writes, in every run and from each of its moments on: a task has at most one instance (owed resubmission, hand-over on the way, queue entry or running copy) and none while its status is done or lost, if and only if no task is submitted while it is held, done or lost, or a write on the way ends or hands over an instance of it; and finished tasks are also free of late writes if and only if, in addition, no other node's write about the task is on the way |
| `Reconstruction.RunStaysSingleIff` | src/local_scheduler/local_scheduler.cc:533-629 | the first equivalence from every state in which it can hold |
| `Reconstruction.SubmitStaysSingleIff` | src/local_scheduler/local_scheduler.cc:810-830 | the first equivalence for one submission, on the state before it |
| `Reconstruction.RunStaysCalmIff` | src/local_scheduler/local_scheduler.cc:533-629 | the second equivalence from every state that satisfies the invariant |
| `Reconstruction.SubmitStaysCalmIff` | src/local_scheduler/local_scheduler.cc:810-830 | the second equivalence for one submission, on the state before it |
| `Reconstruction.ReconstructedParentDuplicatesChild` | src/common/task.cc:53-70 | a run in which a reconstructed parent submits its running child again, under the same id: two instances |
| `Reconstruction.FinishedTaskSubmittedAgain` | src/local_scheduler/local_scheduler.cc:810-830 | a run in which a finished task is submitted again, has an instance while its status is done, and a test-and-set then claims a second one |
| `Reconstruction.FirstSubmissionsAreUntouched` | src/local_scheduler/local_scheduler_algorithm.cc:660-666 | runs in which no task is submitted twice meet both conditions |
| `Reconstruction.AtMostOneInstance` | src/local_scheduler/local_scheduler.cc:533-629 | in runs in which no task is submitted twice: at most one instance, and no instance and no write on the way while done or lost |
| `ReconstructionHistory.InstancesAreConserved` | src/local_scheduler/local_scheduler.cc:533-629 | over every run, whatever is submitted: the instances of a task that began (submissions, and test-and-sets that found it lost, or done where that is enough) are those that ended and those held or inside a message |
| `ReconstructionHistory.TableCatchesUp` | src/local_scheduler/local_scheduler.cc:533-629 | over every run whose submissions are of untouched tasks, although every write takes effect late: once no write about a task is on its way, the table holds what was said about it last |
| `ReconstructionHistory.LastWordIsLastSaid` | src/local_scheduler/local_scheduler.cc:533-629 | the same while writes are on the way, for what the table will hold once they have arrived |
| `ReconstructionHistory.RunLocates` | src/local_scheduler/local_scheduler.cc:533-629 | over such runs: a queued instance was last said to be queued, a running one running, and one on its way to a node scheduled there |
| `ReconstructionHistory.GetsToWorker` | src/local_scheduler/local_scheduler_algorithm.cc:730-744 | from every state: an instance that a node holds in whatever place can get onto a worker of that node |
| `ReconstructionHistory.PassedGetsToWorker` | src/local_scheduler/local_scheduler_algorithm.cc:780-794 | from every state: an instance that its node passes on can get onto a worker of any node |
| `ReconstructionHistory.PlacedGetsToWorker` | src/global_scheduler/global_scheduler.cc:32-61 | from every state: an instance that awaits placement can get onto a worker of any node |
| `ReconstructionHistory.FinishesAndIsRecorded` | src/local_scheduler/local_scheduler.cc:132-140 | from every state: an instance on a worker can complete or fail, the table then says which, and of the two only the lost task can be claimed by a test-and-set for lost tasks |
| `Reconstruction.RunKeepsIff` | src/local_scheduler/local_scheduler.cc:533-629 | the invariant about holders and the order of writes holds throughout a run if and only if every submission is of an untouched task |
| `Reconstruction.StepKeepsIff` | src/local_scheduler/local_scheduler.cc:533-561 | each test-and-set, hand-over, assignment, completion and delayed table write keeps it, and a submission if and only if its task is untouched |
| `Reconstruction.StepStaysExclusive` | src/local_scheduler/local_scheduler.cc:533-561 | every step keeps that a task is held once, or one write on the way ends or hands it over, or it is finished, and no two of these at once, in whatever order writes arrive |
| `Reconstruction.InstancesBound` | src/local_scheduler/local_scheduler.cc:132-140 | that exclusion bounds the instances by one, and by none for a finished task |
| `Cascade.Reconstruct` | src/local_scheduler/local_scheduler.cc:533-665 | a reconstruction cascade ends on every lineage graph, shared or cyclic, and for every order of replies; it claims each task at most once, and exactly the tasks on chains of claimable tasks from the first object |
| `Cascade.ClosedContainsChains` | src/local_scheduler/local_scheduler.cc:533-665 | a set of claimed tasks closed under asking contains every such chain |
| `Cascade.ClaimProgress` | src/local_scheduler/local_scheduler.cc:538-560 | each successful test-and-set leaves fewer claimable tasks |
| `Eviction.CountIsShortest` | src/plasma/eviction_policy.cc:109-150 | eviction takes the shortest least-recently-released prefix that reaches the requested bytes, or the whole list |
| `Eviction.EvictsPrefix` | src/plasma/eviction_policy.cc:109-150 | what an eviction deletes: the first objects of the list, no more than it takes, or all; the count of used memory drops by their sizes |
| `Eviction.EnoughIff` | src/plasma/eviction_policy.cc:158-191 | space is found if and only if deleting every unused object would make enough |
| `Eviction.EvictKeeps` | src/plasma/eviction_policy.cc:109-150 | eviction keeps list and index equal to the unused objects, and deletes no object in use |
| `Eviction.EveryEvictionPassesIff` | src/plasma/plasma_store.cc:529-540 | the deletion checks of every possible eviction pass if and only if each unused object is sealed |
| `Eviction.AddClientKeeps` | src/plasma/plasma_store.cc:167-190 | a first user takes an object off the list; list, index and client lists stay in step |
| `Eviction.RemoveClientKeeps` | src/plasma/plasma_store.cc:436-462 | a release by the last user keeps list, index and client lists in step; that the object goes to the end is `StoreHistory.ListIsReleaseOrder` |
| `Eviction.RequireSpaceKeeps` | src/plasma/eviction_policy.cc:158-191 | used memory stays within the capacity and objects in use stay |
| `Eviction.RetryMakesProgress` | src/plasma/eviction_policy.cc:158-191 | an answer that allows a retry has shortened the list or raised the count of used memory by the size |
| `Eviction.RetryEnds` | src/plasma/plasma_store.cc:207-231 | with a positive size the allocation loop ends however the allocator behaves |
| `Eviction.EmptyObjectRetriesForever` | src/plasma/plasma_store.cc:207-231 | with size zero every failed allocation is answered by a retry that evicts nothing |
| `Eviction.RetryEndsIffNonEmpty` | src/plasma/plasma_store.cc:207-231 | the loop ends for every allocator if and only if the object is not empty |
| `Eviction.AttemptsSpareUsedObjects` | src/plasma/plasma_store.cc:207-231 | no number of failed attempts removes or changes an object in use |
| `StoreSpec.RunKeeps` | src/plasma/plasma_store.cc:193-527 | over every run: the released list is exactly the unused objects, memory stays within the capacity, every get request is waiting or answered exactly once, its counter is the number of its positions found, and what was found is stored, sealed and pinned |
| `StoreHistory.ListIsReleaseOrder` | src/plasma/eviction_policy.cc:69-85 | over every run: of two objects in the list, the first lost its last user in an earlier step, told from the users of the objects in each state alone; or both did in one disconnection, in the order of its walk; or both were in the list in this order from the start |
| `StoreHistory.StandsFirstIff` | src/plasma/eviction_policy.cc:69-85 | of two unused objects released in different steps, one stands before the other if and only if it was released earlier |
| `StoreHistory.OldestGoFirst` | src/plasma/eviction_policy.cc:109-150 | over every run: no request deletes an object and keeps one that was released in an earlier step |
| `StoreHistory.StepOrder` | src/plasma/plasma_store.cc:436-462 | one request changes the order of the list only by what it releases, at the end |
| `StoreHistory.EvictRequestDeletes` | src/plasma/eviction_policy.cc:109-150 | an eviction request deletes just enough of the oldest unused objects, or all of them, and nothing else |
| `StoreHistory.CreationStoresIff` | src/plasma/plasma_store.cc:193-264 | a creation stores a new object, unsealed and used by its creator alone, if and only if the evictions after failed allocations have found space |
| `StoreHistory.StepSealedIff` | src/plasma/plasma_store.cc:483-501 | an object is sealed if and only if it was before or this request seals it |
| `StoreSpec.StepKeeps` | src/plasma/plasma_store.cc:193-527 | each request keeps that invariant |
| `StoreSpec.ReportedStaysPinned` | src/plasma/plasma_store.cc:304-527 | over every run: what a reply reports to a connected client is stored, sealed and pinned for it from then on, until that client releases the object or leaves |
| `StoreSpec.RunStaysPinned` | src/plasma/plasma_store.cc:193-527 | over every run: an object pinned for a client stays stored, sealed and pinned until that client releases it or leaves |
| `StoreSpec.RepliesAreTruthful` | src/plasma/plasma_store.cc:304-381 | every object a reply reports is stored, sealed and pinned when it is sent, and a reply to a get of different ids that is not due to a time-out reports all objects |
| `StoreSpec.GetIsAnsweredInTimeIff` | src/plasma/plasma_store.cc:349-434 | for every state, every get and every order in which its missing objects are sealed: it is answered exactly with the last of them and makes no seal read a stale entry, if and only if its ids are all different |
| `StoreSpec.WaitingIsAnsweredInTimeIff` | src/plasma/plasma_store.cc:349-381 | the same for a request that waits already |
| `StoreSpec.DistinctSealsAreClean` | src/plasma/plasma_store.cc:349-381 | when all waiting requests have different ids, no seal is led astray |
| `StoreSpec.HitsCountDistinct` | src/plasma/plasma_store.cc:399-409 | the counter with which a get starts is the number of different present objects if and only if no present object is named twice |
| `StoreSpec.RepeatedIdsAnswerEarly` | src/plasma/plasma_store.cc:349-381 | a get that names a missing object twice is answered by the seal of that object while another is missing |
| `StoreSpec.RepeatedIdEmptiesVector` | src/plasma/plasma_store.cc:349-381 | a get that names its only missing object twice is answered in the first of two turns, which empties the vector that the second turn reads |
| `StoreSpec.SealKeeps` | src/plasma/plasma_store.cc:483-501 | a seal serves every waiting request once and keeps the invariant |
| `StoreSpec.SealAnswersOnce` | src/plasma/plasma_store.cc:349-381 | the waiting requests before a seal are, with multiplicity, those after it and those answered |
| `StoreSpec.GetKeeps` | src/plasma/plasma_store.cc:389-434 | a get request keeps the invariant |
| `StoreSpec.TimeOutKeeps` | src/plasma/plasma_store.cc:383-387 | a time-out keeps the invariant |
| `StoreSpec.ReleaseKeepsIff` | src/plasma/plasma_store.cc:436-471 | a release keeps the invariant if and only if the object is sealed or has another user and no waiting get of the client has found it; the checks of every possible eviction after it pass if and only if the object is sealed or has another user |
| `StoreSpec.EarlyReleaseFailsCheck` | src/plasma/plasma_store.cc:436-471 | a creator that releases an object before sealing it makes a later eviction fail its check |
| `StoreSpec.LeaveKeepsIff` | src/plasma/plasma_store.cc:731-744 | a disconnection keeps the invariant, and the checks of every possible eviction after it pass, if and only if no unsealed object has the client as its only user |
| `StoreSpec.UnsealedReleaseFailsCheck` | src/plasma/plasma_store.cc:731-744 | a creator that leaves before sealing makes a later eviction fail its check |
| `StoreSpec.CreateKeepsAll` | src/plasma/plasma_store.cc:193-264 | a creation keeps the invariant |
| `PlasmaStore.WalkSoundIff` | src/plasma/plasma_store.cc:349-381 | walking an object's vector, with one entry per position, while answered requests are erased from it: every read is in range, the check after the walk holds, and the walk equals one pass over all requests, if and only if every request it answers has a single entry |
| `PlasmaStore.TurnsArePass` | src/plasma/plasma_store.cc:349-381 | the same from any point of the walk |
| `PlasmaStore.WaitersDrop` | src/plasma/plasma_store.cc:272-283 | removing an answered request, one entry per position, leaves each vector the list of those that still wait |
| `PlasmaStore.NobodyWaitsAnymore` | src/plasma/plasma_store.cc:377-380 | after a seal nobody waits for the object, so its vector can be erased |
| `PlasmaStore.CountToEvict` | src/plasma/eviction_policy.cc:109-150 | the counting loop finds the number of objects to evict and their bytes |
| `PlasmaStore.Store.constructor` | src/plasma/plasma_store.cc:135-143 | a new store is empty |
| `PlasmaStore.Store.ChooseObjectsToEvict` | src/plasma/eviction_policy.cc:109-150 | the two loops take the counted prefix off the list and its index and lower the count of used memory |
| `PlasmaStore.Store.RemoveObjects` | src/plasma/plasma_store.cc:529-540 | the chosen objects, each passing the checks, are deleted |
| `PlasmaStore.Store.RequireSpace` | src/plasma/eviction_policy.cc:158-191 | answer of the policy: evict at least a fifth of the capacity if the space is not there |
| `PlasmaStore.Store.CreateObject` | src/plasma/plasma_store.cc:193-264 | transition of a creation; which error is returned, and how often the allocator failed |
| `PlasmaStore.Store.Allocate` | src/plasma/plasma_store.cc:207-231 | the do-while loop makes the failed attempts of the specification and terminates |
| `PlasmaStore.Store.AddClientToObject` | src/plasma/plasma_store.cc:167-190 | a client is added once, and a first one takes the object off the list |
| `PlasmaStore.Store.RemoveClientFromObject` | src/plasma/plasma_store.cc:436-462 | a client is removed if present, and after the last one the object goes to the end of the list, which is the order of releases (`StoreHistory.ListIsReleaseOrder`) |
| `PlasmaStore.Store.ReleaseObject` | src/plasma/plasma_store.cc:464-471 | state after a release by a user of the object; the store's invariant holds again if and only if the object is sealed or has another user and no waiting get of the client has found it |
| `PlasmaStore.Store.HandleEvictRequest` | src/plasma/plasma_store.cc:706-721 | transition of an eviction request and the bytes reported |
| `PlasmaStore.Store.Disconnect` | src/plasma/plasma_store.cc:731-744 | state after a disconnection, for the order in which the object table is walked; the store's invariant holds again if and only if no unsealed object lost its only user |
| `PlasmaStore.Store.RemoveGetRequestForObject` | src/plasma/plasma_store.cc:272-283 | a request leaves one vector |
| `PlasmaStore.Store.ReturnFromGet` | src/plasma/plasma_store.cc:304-347 | one reply is sent and, for each position of the request, one entry leaves that object's vector |
| `PlasmaStore.Store.HandleTimeout` | src/plasma/plasma_store.cc:383-387 | transition of a time-out |
| `PlasmaStore.Store.ProcessGetRequest` | src/plasma/plasma_store.cc:389-434 | transition of a get request, whether or not it repeats ids |
| `PlasmaStore.Store.SealObject` | src/plasma/plasma_store.cc:483-501 | transition of a seal whose walk is sound |
| `PlasmaStore.Store.UpdateGetRequests` | src/plasma/plasma_store.cc:349-381 | the erase-while-iterating loop makes one pass over all requests, its final index is the length of the vector, and the vectors describe the requests again |
| `ClientSpec.DrainKeeps` | src/plasma/plasma_client.cc:398-413 | performed releases keep the reference counts exact; afterwards the buffer is empty, or it and the bytes in use are within their limits |
| `ClientSpec.DrainOneKeeps` | src/plasma/plasma_client.cc:360-396 | the checks of a performed release hold, and counts, file counts and bytes stay exact |
| `ClientSpec.ReleaseKeeps` | src/plasma/plasma_client.cc:398-413 | a release keeps: count = references of the user + delayed releases + one while the seal is owed; file count = objects used in the file; bytes = their total size |
| `ClientSpec.SealKeeps` | src/plasma/plasma_client.cc:514-533 | sealing gives back every reference it takes and the one kept since the creation |
| `ClientSpec.CreatedKeeps` | src/plasma/plasma_client.cc:196-248 | a creation takes two references and keeps the counts exact |
| `ClientSpec.TakeInUseKeeps` | src/plasma/plasma_client.cc:250-290 | the first loop of a get keeps the counts exact and changes neither the set of objects in use nor messages |
| `ClientSpec.FinishGetKeeps` | src/plasma/plasma_client.cc:292-347 | the second loop adds exactly what the store found and was not in use to the objects in use, with exact counts |
| `ClientHistory.GetGives` | src/plasma/plasma_client.cc:250-347 | a whole get gives its user, for each place that names an object in use or found, exactly one reference, and each count grows by just that; what is new is recorded where the store says it is; a request is sent unless everything was in use |
| `ClientHistory.DistinctGetGivesOne` | src/plasma/plasma_client.cc:250-347 | a get of different ids gives exactly one reference to each that was in use or found, and to no other |
| `ClientHistory.RunHeld` | src/plasma/plasma_client.cc:196-533 | over every sequence of calls: the references that the user has are those that creations and gets returned, less those released, counted from the calls; and the counts are exact |
| `ClientHistory.RunReleases` | src/plasma/plasma_client.cc:360-413 | over every sequence of calls: as many releases of an object have been sent as uses of it have begun, less one that goes on |
| `ClientHistory.RunSealsAndCreates` | src/plasma/plasma_client.cc:196-533 | over every sequence of calls: one seal is sent per call that seals, one creation per call that creates |
| `ClientHistory.RunDelaysTheLast` | src/plasma/plasma_client.cc:398-413 | over every sequence of calls: releases are performed in the order in which they were put off, so that the delayed ones are the last |
| `ClientHistory.DrainsNoMore` | src/plasma/plasma_client.cc:398-413 | while the bytes in use are within their limit, just so many releases are performed that no more are delayed than may be |
| `ClientHistory.LimitIsSmaller` | src/plasma/plasma_client.cc:398-413 | the limit on bytes in use is the cache size or one per cent of the capacity, whichever is smaller |
| `ClientSpec.DrainAgrees` | src/plasma/plasma_client.cc:360-413 | delayed releases never send a release for an object that is unsealed or whose seal has not been sent |
| `ClientSpec.SealAgrees` | src/plasma/plasma_client.cc:514-533 | although sealing performs delayed releases before the seal is sent, none of them is for that object |
| `ClientSpec.NothingAfterRelease` | src/plasma/plasma_client.cc:360-413 | among the messages on the way no seal and no second release of an object follows its release |
| `PlasmaClient.PlasmaConnection.constructor` | src/plasma/plasma_client.cc:576-597 | a new connection uses nothing |
| `PlasmaClient.PlasmaConnection.LookupOrMap` | src/plasma/plasma_client.cc:126-149 | a file is mapped once |
| `PlasmaClient.PlasmaConnection.IncrementObjectCount` | src/plasma/plasma_client.cc:159-194 | one more reference; a first one counts the file and the bytes |
| `PlasmaClient.PlasmaConnection.PerformRelease` | src/plasma/plasma_client.cc:360-396 | one reference less; after the last the file count, the bytes and the object go, and a release is sent |
| `PlasmaClient.PlasmaConnection.Release` | src/plasma/plasma_client.cc:398-413 | the while loop drains the buffer from its old end, and leaves it empty or everything within the limits |
| `PlasmaClient.PlasmaConnection.Create` | src/plasma/plasma_client.cc:196-248 | transition of a creation, with the store's answer as a parameter |
| `PlasmaClient.PlasmaConnection.Get` | src/plasma/plasma_client.cc:250-347 | transition of a get, with the store's answer as a parameter; what it gives the user is `ClientHistory.GetGives` |
| `PlasmaClient.PlasmaConnection.Seal` | src/plasma/plasma_client.cc:514-533 | transition of a seal |
| `PlasmaClient.PlasmaConnection.HashObject` | src/plasma/plasma_client.cc:492-512 | hashing takes and releases one reference |
| `PlasmaProtocol.RunKeeps` | src/plasma/plasma_client.cc:196-533 | any number of clients and one store over first-in first-out sockets, in every interleaving: no check of the store (release, seal, deletion) and no check of a client about its answer fails, clients and store agree on what is in use, and every reference count is exact |
| `ProtocolHistory.ClientsAreSequential` | src/plasma/plasma_client.cc:196-533 | in every interleaving each client is the sequential client of its own calls with the answers it got; what it has sent is what the store has handled and then what is on the way; no call is lost or reordered, and only the last can be unfinished |
| `ProtocolHistory.StepSimulates` | src/plasma/plasma_client.cc:196-533 | the same for one action |
| `ProtocolHistory.StoreIsItsEvents` | src/plasma/plasma_store.cc:193-527 | in every interleaving the store is the store after the events that it has handled, none of which its checks refuse |
| `ProtocolHistory.EventsAreMessages` | src/plasma/plasma_store.cc:193-527 | in every interleaving the events that name a client are its messages that have been handled, in their order and with what they say, but for the seals, which name none |
| `PlasmaProtocol.StepKeeps` | src/plasma/plasma_client.cc:196-533 | each call, message, time-out, eviction and answer keeps that |
| `PlasmaProtocol.DrainingMatches` | src/plasma/plasma_client.cc:360-413 | whenever a client is not waiting, once the store has handled its messages the objects that list it are exactly its objects in use, and the unsealed ones those it has to seal |
| `PlasmaProtocol.HandleKeeps` | src/plasma/plasma_store.cc:436-501 | whatever message is next, the store's checks hold |
| `PlasmaProtocol.PlainEnabled` | src/plasma/plasma_store.cc:464-501 | a seal or release that is next finds the object stored, listing the client, and unsealed or sealed as required |
| `PlasmaProtocol.SealsAreClean` | src/plasma/plasma_store.cc:349-381 | clients that name different ids never lead a seal astray |
| `PlasmaProtocol.ReceiveKeeps` | src/plasma/plasma_client.cc:292-347 | a get answer includes everything that was in use, and a created object was not in use |
| `PlasmaProtocol.InUseIsPresent` | src/plasma/plasma_client.cc:300-306 | what a client has in use and names in a get is present when the get reaches the store |
| `PlasmaProtocol.InitialInv` | src/plasma/plasma_client.cc:576-597 | an empty store without clients satisfies the agreement |
| `StoreViews.SealingView` | src/plasma/plasma_store.cc:349-381 | what a seal changes for each client: its pins, unsealed objects, waiting requests and answers |
| `StoreViews.RequestedView` | src/plasma/plasma_store.cc:389-434 | a get changes only its own client's view |
| `StoreViews.CreatedView` | src/plasma/plasma_store.cc:193-264 | a creation, with all its evictions, is visible only to its client |
| `StoreViews.ReleasedView` | src/plasma/plasma_store.cc:464-471 | a release, of a sealed object or not, takes one object from its own client |
| `StoreViews.LeftView` | src/plasma/plasma_store.cc:731-744 | a client that leaves is listed nowhere, and others see nothing |
| `StoreViews.SealPinsGoneIff` | src/plasma/plasma_store.cc:740-743 | a seal makes a client that has left a user of the object if and only if a request of it still waits for the object, and then the object is never evicted unless that client acts |
| `StoreViews.GoneClientIsPinned` | src/plasma/plasma_store.cc:740-743 | a run in which a client leaves while it waits and is a user of a sealed object afterwards |
| `StoreViews.EvictView` | src/plasma/eviction_policy.cc:109-150 | eviction is invisible to clients |
| `WaitSpec.RunKeeps` | src/plasma/plasma_manager.cc:338-467 | over every run: each wait request is waiting or answered exactly once, counts its objects with a known status and stays below its target while it waits, and lacks nothing that is local |
| `WaitHistory.RepliesTellTheTruth` | src/plasma/plasma_manager.cc:418-467 | over every run: a reply calls an object local only if it was reported local when the request came or was added since; remote only if it was not and was seen elsewhere since, which had to be enough; unknown only if neither happened |
| `WaitHistory.RunExplained` | src/plasma/plasma_manager.cc:338-467 | over every run: what each waiting request and each reply says about each object is the first of the notifications since the request came that it can use |
| `WaitHistory.RunHereIff` | src/plasma/plasma_manager.cc:1385-1416 | over every run: an object counts as local if and only if the last notification about it says so |
| `WaitSpec.StepKeeps` | src/plasma/plasma_manager.cc:1176-1245 | each handler keeps that invariant |
| `WaitSpec.PassAnswersAtTarget` | src/plasma/plasma_manager.cc:418-467 | an update answers a request only when it brings the number of known objects from one below to the target |
| `WaitSpec.TargetMeansAnswered` | src/plasma/plasma_manager.cc:418-467 | and it answers every request that it brings to its target |
| `WaitSpec.AnsweredOnceAllLocalIff` | src/plasma/plasma_protocol.cc:505-520 | in every run, once all objects of a wait are local it has been answered without a time-out, if and only if its target is at most the number of different objects it names |
| `WaitSpec.WaitForAllIff` | src/plasma/plasma_protocol.cc:505-520 | a wait for all its entries is answered in that sense if and only if no id repeats |
| `WaitSpec.RepeatedIdWaitsForever` | src/plasma/plasma_protocol.cc:505-520 | a wait for two entries about one local object is not answered |
| `WaitSpec.AddedKeeps` | src/plasma/plasma_manager.cc:1385-1416 | an object that becomes local is told to both kinds of waiting requests |
| `WaitSpec.PassAnswersOnce` | src/plasma/plasma_manager.cc:418-467 | the requests before an update are, with multiplicity, those after it and those answered |
| `PlasmaManager.ServeListIsPass` | src/plasma/plasma_manager.cc:418-467 | walking an array while answered requests are erased from it tells each waiter exactly once |
| `PlasmaManager.WaitersDrop` | src/plasma/plasma_manager.cc:363-389 | removing an answered request leaves each array the list of those that still lack the object |
| `PlasmaManager.WalkMeets` | src/plasma/plasma_manager.cc:443-447 | the checks of the loop hold: the request names the object, with a status still unknown |
| `PlasmaManager.Manager.constructor` | src/plasma/plasma_manager.cc:199-226 | a new manager has no requests |
| `PlasmaManager.Manager.AddWaitRequestForObject` | src/plasma/plasma_manager.cc:338-361 | a request is entered in one array |
| `PlasmaManager.Manager.RemoveWaitRequestForObject` | src/plasma/plasma_manager.cc:363-389 | a request leaves one array |
| `PlasmaManager.Manager.ReturnFromWait` | src/plasma/plasma_manager.cc:400-416 | one reply is sent and the request leaves the arrays of all objects it names |
| `PlasmaManager.Manager.HandleTimeout` | src/plasma/plasma_manager.cc:1170-1174 | transition of a time-out |
| `PlasmaManager.Manager.ProcessWaitRequest` | src/plasma/plasma_manager.cc:1176-1245 | transition of a new wait request |
| `PlasmaManager.Manager.HandleAdded` | src/plasma/plasma_manager.cc:1385-1416 | transition of an object that becomes local |
| `PlasmaManager.Manager.HandleRemoved` | src/plasma/plasma_manager.cc:1325-1344 | transition of a deleted object |
| `PlasmaManager.Manager.HandleSeenElsewhere` | src/plasma/plasma_manager.cc:1088-1100 | transition of an object seen on another node |
| `PlasmaManager.Manager.UpdateObjectWaitRequests` | src/plasma/plasma_manager.cc:418-467 | the erase-while-iterating loop makes one pass over all requests, its final index is the length of the array, and the arrays describe the requests again |
| `TransferSpec.RunKeepsIff` | src/plasma/plasma_manager.cc:601-754 | for every queue of objects, every interleaving and every fragmentation of reads and writes: throughout the run what the receiver has finished is what was queued, in order, byte for byte, it takes no data for a message and no message for data, and the wire holds just what comes next, if and only if no write was partial |
| `TransferHistory.AllArrives` | src/plasma/plasma_manager.cc:601-754 | every run with full writes that has come to its end has delivered all objects queued, byte for byte, in order and each kept or dropped as the store said at its header, if and only if the last is not empty; otherwise all but that one |
| `TransferHistory.RunsEnd` | src/plasma/plasma_manager.cc:601-754 | with full writes and nothing more queued every run ends: its length is bounded by what is left to write and read |
| `TransferHistory.StoppedMeansQuiet` | src/plasma/plasma_manager.cc:601-754 | both sides stop only when all is written and the wire is empty |
| `TransferHistory.RunQueues` | src/plasma/plasma_manager.cc:632-693 | over every run: the objects to send are those queued, in order |
| `TransferHistory.RunVerdicts` | src/plasma/plasma_manager.cc:699-754 | over every run with full writes: each object is kept or dropped as the store said when its header was read |
| `TransferSpec.StepKeepsIff` | src/plasma/plasma_manager.cc:601-754 | each header and read keeps the positions of both ends in the common stream, and a write if and only if it is not partial |
| `TransferSpec.PartialWriteConfusesReceiver` | src/plasma/plasma_manager.cc:601-754 | runs with one partial write after which the receiver waits for bytes that never come, and then takes the next header for them |
| `TransferSpec.QuietMeansReceived` | src/plasma/plasma_manager.cc:699-754 | when the sender is idle and the wire empty, everything has been received if and only if the last object queued is not empty; otherwise just that one waits for the next readable event |
| `TransferSpec.EmptyObjectIsNotFinished` | src/plasma/plasma_manager.cc:699-754 | a run after which everything is quiet and an empty object is not finished |
| `TransferSpec.InitialInv` | src/plasma/plasma_manager.cc:601-754 | a connection on which nothing has been queued satisfies the invariant |
| `TransferSpec.ExactIffNoPartialWrite` | src/plasma/plasma_manager.cc:601-630 | a transfer that the sender considers done has put exactly the object on the wire if and only if no socket write was partial |
| `TransferSpec.PartialFirstWriteStops` | src/plasma/plasma_manager.cc:601-697 | a partial write of the first chunk makes the sender drop the rest of the object |
| `TransferSpec.PartialWritesRepeat` | src/plasma/plasma_manager.cc:608-619 | a later partial write sends bytes twice |
| `TransferSpec.FullWritesAreExact` | src/plasma/plasma_manager.cc:601-630 | without partial writes the wire form is exact |
| `ObjectTransfer.SendConnection.WriteObjectChunk` | src/plasma/plasma_manager.cc:601-630 | one chunk is offered; the cursor moves only if all of it was taken, and a write of nothing ends the object |
| `ObjectTransfer.SendConnection.SendQueuedRequest` | src/plasma/plasma_manager.cc:632-697 | one writable event: header, chunk, and removal from the queue when the cursor is zero |
| `ObjectTransfer.ReceiveConnection.ProcessDataRequest` | src/plasma/plasma_manager.cc:878-926 | a header allocates the buffer; the cursor is zero then |
| `ObjectTransfer.ReceiveConnection.ProcessDataChunk` | src/plasma/plasma_manager.cc:728-776 | one readable event: the object is finished exactly when its last byte has come |
| `ObjectTransfer.ReceiveConnection.ReadObjectChunk` | src/plasma/plasma_manager.cc:699-726 | a chunk is copied to the cursor in place |
| `PlacementSpec.PickIsBest` | src/global_scheduler/global_scheduler_algorithm.cc:295-316 | the chosen scheduler has the resources, none that has costs less, and no earlier one costs as little; there is one if and only if such a scheduler costs less than 2^31 |
| `PlacementSpec.PlacedIff` | src/global_scheduler/global_scheduler_algorithm.cc:320-333 | a task is placed if and only if a scheduler with the resources costs less than 2^31; the check aborts exactly when there are such schedulers but none below that |
| `PlacementSpec.PlacementBalances` | src/global_scheduler/global_scheduler_algorithm.cc:271-334 | if every task suits every scheduler, any number of placements keeps all costs within the larger of the initial spread and one, and raises their sum by the number of tasks |
| `PlacementSpec.GreedyPeakIsLeast` | src/global_scheduler/global_scheduler_algorithm.cc:271-334 | no other way to spread the same number of tasks over the same schedulers has a smaller largest cost |
| `PlacementSpec.PlacementRaisesCheapest` | src/global_scheduler/global_scheduler.cc:49-52 | a placement adds one to the cost of a cheapest scheduler and changes no other cost |
| `PlacementSpec.RoomMeansPlaced` | src/global_scheduler/global_scheduler_algorithm.cc:329-333 | tasks that all suit one scheduler are placed without abort if its cost leaves room for them below 2^31 |
| `PlacementSpec.RoomMeansRetried` | src/global_scheduler/global_scheduler.cc:373-391 | if every cost plus the number of retried tasks is at most 2^31, a retry pass does not abort and leaves exactly the pending tasks that no scheduler suits, in their order |
| `PlacementSpec.RetryOutcome` | src/global_scheduler/global_scheduler.cc:373-391 | a retry pass leaves, of the tasks it has come to, exactly those that no scheduler suits, in order, and those it has not come to; it comes to all unless it aborts, at a task that some scheduler suits |
| `PlacementHistory.RunAccounts` | src/global_scheduler/global_scheduler.cc:156-168 | over every sequence of submissions, retries, heartbeats and new schedulers without abort: the tasks placed and the tasks pending are, with multiplicity, exactly the tasks submitted |
| `PlacementHistory.JoinsPendingIff` | src/global_scheduler/global_scheduler.cc:156-168 | a submitted task is kept if and only if no scheduler suits it; otherwise it is placed or the process aborts |
| `PlacementHistory.RetryAccounts` | src/global_scheduler/global_scheduler.cc:373-391 | a retry moves tasks from pending to placed and loses none, whether it aborts or not |
| `PlacementHistory.RunFollows` | src/global_scheduler/global_scheduler.cc:32-61 | over every run without a heartbeat of a scheduler: what is known about it is what was known before, changed by the tasks placed there since and by nothing else |
| `PlacementHistory.HeartbeatReplaces` | src/global_scheduler/global_scheduler.cc:347-371 | after a heartbeat the resources and the load of its scheduler are what it reports |
| `PlacementHistory.RunStaysDistinct` | src/global_scheduler/global_scheduler.cc:142-154 | over every run: ids stay different |
| `PlacementSpec.FullSchedulerAborts` | src/global_scheduler/global_scheduler_algorithm.cc:329-333 | a task whose only suitable scheduler is loaded to 2^31 makes the check fail |
| `GlobalScheduler.ChooseScheduler` | src/global_scheduler/global_scheduler_algorithm.cc:295-316 | the loop finds whether the task is feasible and the best scheduler |
| `GlobalScheduler.Global.GetLocalScheduler` | src/global_scheduler/global_scheduler.cc:142-154 | the scheduler with an id is found if there is one |
| `GlobalScheduler.Global.AddLocalScheduler` | src/global_scheduler/global_scheduler.cc:170-221 | a new scheduler is appended without resources and load; ids stay different if and only if its id is new |
| `GlobalScheduler.Global.AssignTask` | src/global_scheduler/global_scheduler.cc:32-61 | counts and cached resources of one scheduler change |
| `GlobalScheduler.Global.HandleTaskWaiting` | src/global_scheduler/global_scheduler_algorithm.cc:277-334 | outcome for one task |
| `GlobalScheduler.Global.ProcessTaskWaiting` | src/global_scheduler/global_scheduler.cc:156-168 | a task that is not placed is kept (`PlacementHistory.RunAccounts`, `PlacementHistory.JoinsPendingIff`) |
| `GlobalScheduler.Global.TaskCleanup` | src/global_scheduler/global_scheduler.cc:373-391 | the backward erasing loop makes the retry pass |
| `GlobalScheduler.Global.HandleHeartbeat` | src/global_scheduler/global_scheduler.cc:347-371 | a heartbeat replaces what is known about one scheduler and resets its recent count |
| `GpuReservation.RunKeeps` | python/ray/actor.py:119-167 | for any number of clients and any interleaving of watch, read and execute: on every node no GPU is listed twice or does not exist, the table is what the transactions give one after the other, each of which took free GPUs, and a reservation brings what was asked for or nothing |
| `GpuHistory.CallsAreAnswered` | python/ray/actor.py:119-167 | over every run: a client's calls are its answers, in the order of the calls and for the node and operation asked for, and then the one call that is still open |
| `GpuHistory.TablesAreTold` | python/ray/actor.py:119-167 | over every run: the table of each node is what its clients were told, one after the other |
| `GpuHistory.DriversHoldWhatWasTold` | python/ray/actor.py:138-167 | over every run: on every node a driver has the GPUs that clients were given for it since one was last told that it was removed |
| `GpuHistory.UndisturbedSucceeds` | python/ray/actor.py:119-167 | from every state: a client that nobody disturbs gets its GPUs if the node has enough and is told that it gets none otherwise; an undisturbed removal frees the driver's GPUs and no other |
| `GpuReservation.StepKeeps` | python/ray/actor.py:121-165 | each step keeps that |
| `GpuReservation.ReservationTakesFree` | python/ray/actor.py:138-167 | a reservation that takes effect takes exactly the requested number of free GPUs for its driver; otherwise no table changes |
| `GpuReservation.RemovalFreesDriver` | python/ray/monitor.py:248-276 | the removal of a driver frees exactly its GPUs |
| `GpuReservation.RetryMeansProgress` | python/ray/actor.py:160-165 | a dropped transaction changes nothing and means that the key was changed by another client |
| `GpuReservation.ListUsed` | python/ray/actor.py:129-136 | the list of GPUs in use has no repeats and is not longer than the node has GPUs, as the program asserts |
| `GpuReservation.PlanReservation` | python/ray/actor.py:129-154 | one round: the requested number of unused GPUs if there are enough, else none |
| `GpuReservation.AttemptToReserve` | python/ray/actor.py:119-167 | the retry loop returns what its last round planned, nothing from earlier rounds |
| `GpuReservation.RemoveDriver` | python/ray/monitor.py:248-276 | the retry loop writes the last table read without the driver |
| `GpuReservation.SelectLocalScheduler` | python/ray/actor.py:188-212 | the reservation is attempted on the nodes in turn: the first that does not refuse is chosen, with GPUs unused in the table that its committing round replaces; without one there is none, and each has refused; without GPUs a given choice is taken |
| `GpuReservation.InitialInv` | python/ray/actor.py:119-167 | nodes without reservations satisfy the invariant |

## Left out

- LocalScheduler.Scheduler.HandleObjectAvailable: requires that no task that wakes up names the object twice, because the loop otherwise uses an erased iterator (`FetchIndex.DrainIsScan` gives both directions).
- LocalScheduler.Scheduler.KillWorker: does not model the process (signals, waiting for it to exit) or the update of the task table, which `Reconstruction` has as the actions `Fail` and `Complete`.
- LocalScheduler.Scheduler.DispatchTasks: does not start new workers when none is available.
- ActorQueue.LocalActor.HandleWorkerConnect: does not model actors that are moved to another node or the removal of an actor's worker.
- Reconstruction.AtMostOneInstanceIff: leaves out the death of a scheduler and actor tasks, for which the source does not promise it; what a task submits is not tied to its execution, so any known task may be submitted again at any time.
- PlasmaStore.Store.SealObject: requires that every waiting request that the seal answers has one entry in the vector; otherwise the walk reads past the vector or its last check fails, and nothing is said about what comes after (`PlasmaStore.WalkSoundIff` gives both directions).
- PlasmaStore.Store.CreateObject: for an empty object the allocator must succeed at some attempt (`Eviction.RetryEndsIffNonEmpty`).
- StoreSpec.RunKeeps: does not equate the count of used memory with the sizes of stored objects, because the source raises that count only after a failed allocation.
- PlasmaClient.PlasmaConnection.Get: does not model the addresses handed to the user or the passing of file descriptors; a mapped file is its number.
- PlasmaProtocol.RunKeeps: a client that dies while it waits is covered for the store alone (`StoreSpec.LeaveKeepsIff`, `StoreViews.SealPinsGoneIff`).
- PlasmaManager.Manager.UpdateObjectWaitRequests: an object that is deleted keeps its status in waiting requests, as in the source.
- ObjectTransfer.SendConnection.SendQueuedRequest: does not model a failed connection, which ends the transfer, or requests for objects in the same queue.
- GpuReservation.AttemptToReserve: takes the outcomes of its rounds as parameters, the last of which succeeds; the program has no bound on the number of rounds.
- Store notifications and late subscription, fetch requests of the manager, object hashes, message encoding, sockets, event loop, mmap and the allocator.
- Heartbeat time-outs of the global scheduler and the monitor's cleanup of dead schedulers.
- Object-size scores and round-robin placement, which placement does not use.
- Heap identity: tasks, client records and requests are values with ids; pointers and freeing are not modelled, except that iterators into the waiting queue are addresses that can dangle.
- Python workers, services, serialization and the web user interface.
