# A verified model of the EPICS-Kafka gateway

The gateway takes commands from a Kafka topic, turns them into tasks of a thread pool, keeps a map
from EPICS channels to the topics that want their values, drains the monitored channels in a
scheduler thread, and publishes every value on every interested topic. The monitored channels are
also stored in a database table. This project models that pipeline and proves what each part keeps.

`dafny verify dfyconfig.toml` checks everything.

## How the model is laid out

Pipeline order, one module a file:

- **Thread pool.** `ThreadPool` is a state machine whose actions are single lock regions or single
  atomic accesses: any number of pushing threads, the workers, `pause`/`unpause`, and the owning
  thread that constructs, waits, resets and destroys. Both evaluation orders of the waiter's
  comparison are actions. `ThreadPoolSafety` holds the invariants, `ThreadPoolWaiting` the theorems
  over whole runs, `ThreadPoolCalls` the owner's calls from call to return, `ThreadPoolHazards` concrete runs in which the documentation's promise fails,
  `ThreadPoolMemory` the fields a worker pops from and the pool's own questions read.
- **Loops over the pool.** `Blocks` (range splitting in the program's bounded arithmetic) and
  `ParallelLoop` (every completion order equals the sequential loop).
- **Acquire pipeline.** `Subscriptions` says which topics a channel must have after a history of
  commands, once by replaying and once without; `Routing` which messages are owed. `Broadcaster`,
  `EpicsService` and `AcquireWorker` are the source's classes. `AcquireProtocol` is the concurrent
  machine over the two mutexes, `AcquireScan` whole scans, `AcquireDelivery` what is delivered over every interleaving,
  `AcquireRefinement` the refinement to serial commands when commands of a channel do not overlap,
  `AcquireHazards` and `AcquireRepeats` which commands need that hypothesis, by runs built in
  `AcquireSchedules`.
- **Stored configuration.** `ChannelRepository`, `RepositoryProtocol` (interleaved threads),
  `NodeConfiguration`, `NodeController`, and `StoredSubscriptions` (the table against what is live).
- **Messages.** `Subscriber`, `CommandController`, `Publisher`.
- `Sequences` holds facts about sequences used throughout.

## What the code does not do

Where the code and its documentation or evident intent disagree, the model follows the code. Each
point below is a theorem, with the exact condition where there is one.

- `wait_for_tasks` is documented to wait for all tasks. `push_task` increments the counter after
  releasing the lock, so a waiter can return although a completely pushed task is still running
  (`WaitCanReturnEarly`). It returns with everything settled exactly when the number of pushes in
  flight at its reading of the counter is 0 modulo 2^64 (`WaitReturns`). The gateway's own shutdown
  order establishes this (`ShutdownFinishesEverything`).
- `get_tasks_total() == get_tasks_queued() + get_tasks_running()` is documented and holds modulo 2^64;
  but `get_tasks_running` is the number of running tasks exactly when no push is in flight
  (`TasksRunningReport`).
- A waiter misses its wake-up by three routes, each with its exact condition and a witness run: the
  pool is paused while it sleeps (`PauseLosesWakeUpExactlyWhen`, `PauseCanLoseWakeUp`); a push is
  counted while it sleeps (`PushLosesWakeUpExactlyWhen`, `PushCanLoseWakeUp`); or it goes to sleep on
  a pause flag or a counter that has changed since it was read (`WaiterLosesWakeUpExactlyWhen`,
  `PauseCanOvertakeWaiter`, `PushCanOvertakeWaiter`). Nothing the workers do then ever wakes it
  (`LostWakeUpIsPermanent`). Workers alone lose no wake-up, even with pushes in flight
  (`WorkersLoseNoWakeUp`), and without interference none is lost at all (`NoLostWakeUp`).
- `pause` lets one more task start if a worker has already read the flag (`PauseStopsWithinOne`).
- The pool starts commands in the order pushed, but its threads serve them at their own pace, so
  commands of one channel can overlap and leave the two maps in disagreement, or one topic twice in
  a vector. With at least as many threads as commands, agreement at rest is assured exactly for
  commands that all activate or all deactivate the channel (`AgreementExactlyWhen`); with two or more
  it fails whenever serving one at a time would flip between some topics and none
  (`FlipDisagrees`), and holds if every deactivation is harmless (`HarmlessAgrees`,
  `ThreeUpOneDown`). With two or more threads a vector is free of duplicates exactly when no topic
  is activated twice (`DistinctExactlyWhen`). If commands for one channel do not overlap, as with one
  thread or with distinct channels, everything is as if they were served one at a time in the order
  taken up (`MapsAgreeAtRest`, `OneThreadAgrees`, `DistinctChannelsCommute`). What is delivered is
  exact in every interleaving, batch by batch (`DeliveryOverAnyRun`).
- A channel that cannot be created leaves its topic in the vector (`AcquireManagement`).
- `removeChannelMonitor` inserts, and nothing replays the stored rows when the node starts. With two
  or more pool threads, stored equals live at rest, however the commands are served, exactly when
  none of them deactivates and every pair stored at the start is named by one
  (`StoredIsLiveExactlyWhen`). If commands of one channel do not overlap, exactly when the last
  command about every pair is an activation and every pair stored at the start has been activated
  since (`StoredIsLiveWithoutOverlap`).
- `processAllChannelMonitor` ignores its protocol argument, so a replay of the configuration hands
  out a row once for each protocol of its channel; each row once exactly when no channel is stored
  under two protocols (`OncePerRowExactlyWhenSingleProtocol`).
- A batch whose handler threw is documented to stay uncommitted. It does so exactly as long as no
  later turn fetches something, has no command or a handler that returns, and commits
  (`RejectedStaysUncommittedExactlyWhen`).
- A vector left behind by a failed `pushMessages` cannot be retried: its head is a null pointer
  (`RetryAfterFailureCrashes`).
- A delivery report creates an empty callback entry, so a callback registered after it is refused
  and never called (`FirstUseDecides`).
- `blocks` overflows, which is undefined, exactly when the range is wider than the largest value of
  the index type (`Divide`).

## Model

| member | source | states |
|---|---|---|
| ThreadPool.DetermineThreadCount | src/ekg/common/BS_thread_pool.hpp:554-565 | the count is positive, so block counts derived from it are never zero: the requested one if positive, else the hardware's if known, else 1 |
| ThreadPoolSafety.LockKept | src/ekg/common/BS_thread_pool.hpp:431-432 | mutual exclusion: a thread is inside a region of the mutex exactly when it holds the mutex |
| ThreadPoolSafety.GenerationKept | src/ekg/common/BS_thread_pool.hpp:526-546 | `running` is false exactly from destroy to the next create; it never rises while a worker of an older generation is alive; `waiting` is set exactly inside a wait |
| ThreadPoolSafety.PopKept | src/ekg/common/BS_thread_pool.hpp:572-580 | every worker committed to popping finds a task, under every other thread's step |
| ThreadPoolSafety.LedgerKept | src/ekg/common/BS_thread_pool.hpp:427-436 | counter = queued + popped-but-not-subtracted - pushed-but-not-counted, modulo 2^64, after every step |
| ThreadPoolSafety.FifoKept | src/ekg/common/BS_thread_pool.hpp:579-580 | enqueued tasks are the started ones followed by the queue; nothing is started or finished twice |
| ThreadPoolSafety.OwnershipKept | src/ekg/common/BS_thread_pool.hpp:570-589 | a started task is finished or in the hands of exactly one worker |
| ThreadPoolSafety.EvalKept | src/ekg/common/BS_thread_pool.hpp:514 | what the waiter has read of its comparison stays true of the queue and the workers until it acts on it, in either evaluation order |
| ThreadPoolSafety.InvRun | src/ekg/common/BS_thread_pool.hpp:427-589 | all of the above over every run |
| ThreadPoolWaiting.ExactlyOnceInOrder | src/ekg/common/BS_thread_pool.hpp:427-589 | in every reachable state: first in, first out, each task started at most once, none lost, finished tasks were started, over any number of resets |
| ThreadPoolWaiting.NeverPopsEmptyQueue | src/ekg/common/BS_thread_pool.hpp:576-580 | no reachable state has popped, or is about to pop, an empty queue |
| ThreadPoolWaiting.TasksRunningReport | src/ekg/common/BS_thread_pool.hpp:288-302 | the reported number is the popped tasks minus the pushes in flight; it is exact if and only if none is in flight (mod 2^64); total = queued + running |
| ThreadPoolWaiting.WaitReturns | src/ekg/common/BS_thread_pool.hpp:510-516 | a wait on an unpaused pool returns with everything settled, and on a paused pool with nothing running, if and only if no push was in flight (mod 2^64) |
| ThreadPoolWaiting.ShutdownFinishesEverything | src/ekg/EKGateway.cpp:67-70 | with the pusher gone, when the wait of the node's destructor returns every task ever pushed has finished |
| ThreadPoolWaiting.FinishedGrows | src/ekg/common/BS_thread_pool.hpp:582 | what has finished stays finished over any run |
| ThreadPoolWaiting.EndAfterWait | src/ekg/common/BS_thread_pool.hpp:262-266 | if the destructor's wait saw the pool unpaused with no push in flight (mod 2^64), every task enqueued by then has finished when the pool is gone; no task is running then in any case |
| ThreadPoolWaiting.ResetKeepsQueuedTasks | src/ekg/common/BS_thread_pool.hpp:443-453 | between two generations no worker exists, every started task has finished and the rest is queued in order |
| ThreadPoolWaiting.ResetRestores | src/ekg/common/BS_thread_pool.hpp:443-453 | a reset returns with the requested number of threads, running, and paused exactly if paused before |
| ThreadPoolWaiting.AttentiveKept | src/ekg/common/BS_thread_pool.hpp:583-586 | no step other than a push, its increment, pause or unpause loses a wake-up |
| ThreadPoolWaiting.NoLostWakeUp | src/ekg/common/BS_thread_pool.hpp:510-516 | over any run without those, a sleeping waiter whose predicate holds has been notified or is about to be |
| ThreadPoolWaiting.AttentiveWhenIdle | src/ekg/common/BS_thread_pool.hpp:510-516 | every reachable state outside a wait with no push in flight is one from which no wake-up can be lost |
| ThreadPoolWaiting.WakeUpIsDelivered | src/ekg/common/BS_thread_pool.hpp:577-586 | a worker that has taken a task, or is committed to taking one, notifies the sleeping waiter by its own steps, whatever the pause flag says |
| ThreadPoolWaiting.WorkersLoseNoWakeUp | src/ekg/common/BS_thread_pool.hpp:570-589 | no step of a worker loses a wake-up, even with pushes in flight |
| ThreadPoolWaiting.WaiterLosesWakeUpExactlyWhen | src/ekg/common/BS_thread_pool.hpp:514 | the exact state in which the waiter itself goes to sleep for good, on a pause flag or a counter that has changed since it was read |
| ThreadPoolWaiting.PauseLosesWakeUpExactlyWhen | src/ekg/common/BS_thread_pool.hpp:375-378 | the exact state in which a pause leaves the waiter with nobody to notify it, with any pushes in flight; an unpause never does |
| ThreadPoolWaiting.PushLosesWakeUpExactlyWhen | src/ekg/common/BS_thread_pool.hpp:434 | the exact state in which an increment does, however many pushes are in flight |
| ThreadPoolWaiting.LostWakeUpIsPermanent | src/ekg/common/BS_thread_pool.hpp:583-586 | once lost, no run of the workers wakes the waiter; only a push, a pause change or a spurious wake-up can |
| ThreadPoolWaiting.PauseStopsWithinOne | src/ekg/common/BS_thread_pool.hpp:577 | after a pause at most one task starts until an unpause, and only if a worker had read the flag |
| ThreadPoolCalls.WaitFinishesTasks | src/ekg/common/BS_thread_pool.hpp:510-516 | wait_for_tasks from call to return: on an unpaused pool every task pushed before the call has finished, on a paused one every started task |
| ThreadPoolCalls.DestructorFinishesTasks | src/ekg/common/BS_thread_pool.hpp:262-266 | the destructor from call to end: on an unpaused pool every task pushed before it has finished, every started task has, and all workers have ended |
| ThreadPoolCalls.ResetWaitsAndRestores | src/ekg/common/BS_thread_pool.hpp:443-453 | reset from its call: workers are stopped only when nothing runs; it returns a running pool with the promised number of threads, paused exactly if before, with the unstarted tasks queued |
| ThreadPoolCalls.ConstructionStarts | src/ekg/common/BS_thread_pool.hpp:254-257 | the constructor returns a running, unpaused pool with the promised number of threads |
| ThreadPoolCalls.StoppedWorkerExits | src/ekg/common/BS_thread_pool.hpp:570-589 | once the pool is stopped, a worker that can have the lock gets from anywhere to its end by its own steps |
| ThreadPoolCalls.WorkerTakesOldestTask | src/ekg/common/BS_thread_pool.hpp:570-589 | on a running, unpaused pool a worker that can have the lock gets from anywhere to the oldest queued task by its own steps |
| ThreadPoolCalls.DestructorCanEnd | src/ekg/common/BS_thread_pool.hpp:262-266 | a reachable end of the pool after its task has finished |
| ThreadPoolCalls.ResetCanEnd | src/ekg/common/BS_thread_pool.hpp:443-453 | a reachable return from a reset to three threads |
| ThreadPoolHazards.WaitCanReturnEarly | src/ekg/common/BS_thread_pool.hpp:434 | a reachable state in which the wait is over and a fully pushed task is still running |
| ThreadPoolHazards.PauseCanLoseWakeUp | src/ekg/common/BS_thread_pool.hpp:375-378 | a reachable lost wake-up after a pause |
| ThreadPoolHazards.PushCanLoseWakeUp | src/ekg/common/BS_thread_pool.hpp:434 | a reachable lost wake-up with everything settled |
| ThreadPoolHazards.PauseCanOvertakeWaiter | src/ekg/common/BS_thread_pool.hpp:514 | a reachable lost wake-up after a pause between the waiter's reading of the flag and its sleep |
| ThreadPoolHazards.PushCanOvertakeWaiter | src/ekg/common/BS_thread_pool.hpp:514 | a reachable lost wake-up after an increment between the waiter's reading of the counter and its sleep |
| ThreadPoolMemory.ThreadPoolMemory.PopTask | src/ekg/common/BS_thread_pool.hpp:579-580 | takes the oldest task, which has not been started before; that there is one is proved, not required |
| ThreadPoolMemory.ThreadPoolMemory.WaitCondition | src/ekg/common/BS_thread_pool.hpp:514 | without pushes in flight the comparison says exactly that nothing is left to wait for |
| ThreadPoolMemory.ThreadPoolMemory.GetTasksRunning | src/ekg/common/BS_thread_pool.hpp:288-292 | the number of running tasks if and only if no push is in flight (mod 2^64) |
| Blocks.Divide | src/ekg/common/BS_thread_pool.hpp:151-162 | the bounds are first cast to the index type; undefined exactly when the width does not fit it; otherwise an exact ordered partition into as many non-empty blocks as wanted, or one for each index if there are fewer, all equal but the last |
| Blocks.StartExact | src/ekg/common/BS_thread_pool.hpp:170-173 | no product or cast loses value |
| Blocks.ExactPartition | src/ekg/common/BS_thread_pool.hpp:170-184 | block i ends where block i+1 starts; the last block has the remainder |
| ParallelLoop.PushLoop | src/ekg/common/BS_thread_pool.hpp:393-401 | the pushed blocks tile the range: none for an empty one, else as many as asked for or one for each index, all of one size but the last |
| ParallelLoop.AnyOrderVisitsAll | src/ekg/common/BS_thread_pool.hpp:393-401 | whatever order the blocks finish in, the indices visited are the sequential loop's, each once |
| ParallelLoop.LoopCompletesByWait | src/ekg/common/BS_thread_pool.hpp:393-401 | after push_loop and a wait, whatever other tasks the pool was given, every index has been visited exactly once |
| ParallelLoop.FulfilledValue | src/ekg/common/BS_thread_pool.hpp:466-497 | each promise holds its own block's result, whatever the completion order |
| ParallelLoop.ResultsJoin | src/ekg/common/BS_thread_pool.hpp:339-353 | the blocks' results in block order are the sequential map |
| ParallelLoop.Get | src/ekg/common/BS_thread_pool.hpp:63-78 | all values in block order, or the exception of the first block that raised one |
| ParallelLoop.CollectParallel | src/ekg/common/BS_thread_pool.hpp:339-353 | parallelize_loop then get equals the sequential loop, for every completion order |
| Broadcaster.PassCallsLiveHandlers | src/ekg/common/broadcaster.h:35-39 | called are exactly the handlers alive at their turn, also when handlers drop others' tokens |
| Broadcaster.PassKeepsOrder | src/ekg/common/broadcaster.h:35-39 | in registration order, each at most once |
| Broadcaster.PassLeaves | src/ekg/common/broadcaster.h:35-39 | a pass leaves exactly the tokens that no handler it called has dropped |
| Broadcaster.PassIgnoresDead | src/ekg/common/broadcaster.h:27-34 | purging before the pass changes nothing a handler can observe |
| Broadcaster.Broadcaster.RegisterHandler | src/ekg/common/broadcaster.h:21-25 | the new registration is live and last |
| Broadcaster.Broadcaster.Purge | src/ekg/common/broadcaster.h:27-30 | the targets become the live registrations in order |
| Broadcaster.Broadcaster.Broadcast | src/ekg/common/broadcaster.h:32-40 | the calls made are those of one pass over all registrations |
| Subscriptions.Find | src/ekg/controller/node/worker/AcquireCommandWorker.cpp:61 | the first position, or none exactly when absent |
| Subscriptions.ReplayDescribed | src/ekg/controller/node/worker/AcquireCommandWorker.cpp:51-83 | after any serial commands: no duplicates, exactly the topics last activated, in order of first activation since the last deactivation, monitored exactly while non-empty |
| Subscriptions.ServeEffect | src/ekg/controller/node/worker/AcquireCommandWorker.cpp:57-82 | a command affects its own channel only |
| Routing.BatchIsExact | src/ekg/controller/node/worker/AcquireCommandWorker.cpp:85-100 | one batch gives (channel, topic) its Data values once each, in order, exactly if the pair is active |
| Routing.DeliveryIsExact | src/ekg/controller/node/worker/AcquireCommandWorker.cpp:85-100 | over any history: received is exactly what is owed, on the right topic and key |
| AcquireProtocol.LocksKept | src/ekg/service/epics/EpicsServiceManager.cpp:79-84 | a thread is inside a region exactly when it holds the mutex of it |
| AcquireProtocol.WaitsDescend | src/ekg/controller/node/worker/AcquireCommandWorker.cpp:65-67 | waiting follows one order of the locks |
| AcquireProtocol.BlockedMeansWaiting | src/ekg/controller/node/worker/AcquireCommandWorker.cpp:65-89 | a thread inside a command, or about to scan or route, that cannot step is waiting for some thread in the sense of NoWaitCycle |
| AcquireProtocol.NoWaitCycle | src/ekg/controller/node/worker/AcquireCommandWorker.cpp:75-89 | no reachable state has a cycle of threads waiting for each other, for any number of threads |
| AcquireProtocol.SomeThreadMoves | src/ekg/service/epics/EpicsServiceManager.cpp:75-87 | while anything is in progress some thread can move |
| AcquireScan.ScanDrainsEveryChannel | src/ekg/service/epics/EpicsServiceManager.cpp:77-84 | a scan, from taking the lock to releasing it, drains every channel monitored when it began exactly once and no other, in its order |
| AcquireScan.MonitoredFixed | src/ekg/service/epics/EpicsServiceManager.cpp:79-84 | while a scan is under way nobody changes which channels are monitored |
| AcquireScan.ValueGetsThrough | src/ekg/service/epics/EpicsServiceManager.cpp:69-84 | a run from the start in which a topic is activated, its channel scanned and the value published |
| AcquireRefinement.TopicsKeptByJob | src/ekg/controller/node/worker/AcquireCommandWorker.cpp:57-78 | searching unlocked and editing under the lock amounts to one serial command, if commands of a channel do not overlap |
| AcquireRefinement.MonitorKeptByJob | src/ekg/controller/node/worker/AcquireCommandWorker.cpp:79-82 | a channel's monitored flag agrees with its vector, or the thread that will make it agree is on its way |
| AcquireRefinement.SnapshotHolds | src/ekg/controller/node/worker/AcquireCommandWorker.cpp:89 | no vector changes while a batch is being routed |
| AcquireRefinement.BatchAdvances | src/ekg/controller/node/worker/AcquireCommandWorker.cpp:90-99 | published plus outstanding is always the routing under the snapshot at the lock |
| Routing.ReceivedRoute | src/ekg/controller/node/worker/AcquireCommandWorker.cpp:90-99 | under any topic map, each Data value reaches a topic as often as it stands in the channel's vector |
| AcquireDelivery.DrainedIsRouted | src/ekg/service/epics/EpicsServiceManager.cpp:69-73 | no non-empty drained batch is dropped, repeated or reordered on its way to the worker |
| AcquireDelivery.DeliveryOverAnyRun | src/ekg/controller/node/worker/AcquireCommandWorker.cpp:85-100 | for every interleaving, overlapping commands included: published is every drained batch (but one still waiting for the lock) routed against one snapshot of the map, in drain order; received accordingly |
| AcquireRefinement.CursorAdvances | src/ekg/controller/node/worker/AcquireCommandWorker.cpp:90-99 | each turn of the loop sends exactly the head of what is outstanding |
| AcquireRefinement.EveryCommandTakesEffectOnce | src/ekg/controller/node/worker/AcquireCommandWorker.cpp:47-49 | for every interleaving, at rest each command taken up has taken effect exactly once |
| AcquireRefinement.OrderKept | src/ekg/controller/node/worker/AcquireCommandWorker.cpp:51-83 | without overlap, commands of one channel take effect in the order they were taken up |
| AcquireRefinement.MapsAgreeAtRest | src/ekg/controller/node/worker/AcquireCommandWorker.cpp:57-82 | without overlap, at rest both maps are those of the commands in the order taken up: the topics last activated, in activation order, monitored exactly while there are any |
| AcquireRefinement.EndToEndDelivery | src/ekg/controller/node/worker/AcquireCommandWorker.cpp:85-100 | the serial corollary: received is exactly the drained values of the batches handled while the pair was active |
| AcquireRefinement.ChannelsIndependent | src/ekg/controller/node/worker/AcquireCommandWorker.cpp:57-82 | a channel's state depends on its own commands only |
| AcquireRefinement.Confluence | src/ekg/controller/node/worker/AcquireCommandWorker.cpp:57-82 | two runs that take up each channel's commands in the same order, without overlap, end in the same maps |
| AcquireRefinement.DistinctRunsAreSerial | src/ekg/controller/node/worker/AcquireCommandWorker.cpp:47-49 | commands for distinct channels never overlap on one, whatever the interleaving |
| AcquireRefinement.OneThreadAgrees | src/ekg/controller/node/worker/AcquireCommandWorker.cpp:47-49 | with one pool thread both maps are always those of the commands in order |
| AcquireRefinement.DistinctChannelsCommute | src/ekg/controller/node/worker/AcquireCommandWorker.cpp:57-82 | commands on distinct channels: every interleaving ends as every serial order |
| AcquireHazards.AgreementExactlyWhen | src/ekg/controller/node/worker/AcquireCommandWorker.cpp:79-82 | with at least as many threads as commands, every way of serving them in the pushed order ends in agreement on a channel if and only if they all activate or all deactivate it |
| AcquireHazards.OneWayAgrees | src/ekg/controller/node/worker/AcquireCommandWorker.cpp:57-82 | such commands agree for any number of threads |
| AcquireHazards.HarmlessAgrees | src/ekg/controller/node/worker/AcquireCommandWorker.cpp:57-82 | so do commands whose deactivations name topics never activated and follow as many activations as there are threads |
| AcquireHazards.ThreeUpOneDown | src/ekg/controller/node/worker/AcquireCommandWorker.cpp:57-82 | mixed commands that two threads cannot bring into disagreement |
| AcquireHazards.FlipDisagrees | src/ekg/controller/node/worker/AcquireCommandWorker.cpp:79-82 | with two or more threads: if the serial vector is empty after some command and not at the end, or the reverse, a run ends with the serial vectors and the wrong monitored flag |
| AcquireRepeats.DistinctExactlyWhen | src/ekg/controller/node/worker/AcquireCommandWorker.cpp:61-66 | with two or more threads, a vector is free of duplicates at every moment of every way of serving the commands in the pushed order if and only if no topic of the channel is activated twice |
| AcquireRepeats.RepeatRun | src/ekg/controller/node/worker/AcquireCommandWorker.cpp:61-66 | two threads serving the commands in the pushed order enter the topic twice |
| EpicsService.EpicsChannel.Monitor | src/ekg/service/epics/EpicsChannel.cpp:46-81 | a Data event drains the queue completely and in order; any other event leaves it and yields itself; a timeout yields nothing |
| EpicsService.EpicsServiceManager.AddChannel | src/ekg/service/epics/EpicsServiceManager.cpp:17-33 | idempotent; fails exactly when a new channel cannot be set up, and then leaves the map as it was |
| EpicsService.EpicsServiceManager.RemoveChannel | src/ekg/service/epics/EpicsServiceManager.cpp:41-44 | removes exactly that channel |
| EpicsService.EpicsServiceManager.MonitorChannel | src/ekg/service/epics/EpicsServiceManager.cpp:46-52 | switches the channel on or off in the set of monitored channels |
| EpicsService.EpicsServiceManager.AddHandler | src/ekg/service/epics/EpicsServiceManager.cpp:59-62 | the handler is registered last and live |
| EpicsService.EpicsServiceManager.GetHandlerSize | src/ekg/service/epics/EpicsServiceManager.cpp:64-68 | the number of registrations whose token is held |
| EpicsService.EpicsServiceManager.ProcessIterator | src/ekg/service/epics/EpicsServiceManager.cpp:69-73 | a non-empty batch reaches every handler alive at its turn; the shortcut for no targets changes nothing |
| AcquireWorker.AcquireCommandWorker.AcquireManagement | src/ekg/controller/node/worker/AcquireCommandWorker.cpp:51-83 | both maps reflect the history plus this command; if the channel cannot be created, exactly which topic is left behind |
| AcquireWorker.AcquireCommandWorker.EditTopics | src/ekg/controller/node/worker/AcquireCommandWorker.cpp:57-78 | the in-place edit, and no other channel's vector |
| AcquireWorker.AcquireCommandWorker.EpicsMonitorEvent | src/ekg/controller/node/worker/AcquireCommandWorker.cpp:85-100 | appends exactly the routing of the batch |
| AcquireWorker.ReflectsExactly | src/ekg/controller/node/worker/AcquireCommandWorker.cpp:51-83 | what the worker's maps hold, by the history alone |
| ChannelRepository.ChannelRepository.Insert | src/ekg/service/data/repository/ChannelRepository.cpp:14-25 | set add; the row is appended with a fresh id, or nothing changes |
| ChannelRepository.ChannelRepository.Remove | src/ekg/service/data/repository/ChannelRepository.cpp:27-35 | set delete; all other rows stay |
| ChannelRepository.ChannelRepository.RemoveAll | src/ekg/service/data/repository/ChannelRepository.cpp:82-84 | clears the set |
| ChannelRepository.ChannelRepository.IsPresent | src/ekg/service/data/repository/ChannelRepository.cpp:37-44 | set membership |
| ChannelRepository.ChannelRepository.GetChannelMonitor | src/ekg/service/data/repository/ChannelRepository.cpp:46-58 | the one row of the triple, or none exactly when absent |
| ChannelRepository.ChannelRepository.GetDistinctByNameProtocol | src/ekg/service/data/repository/ChannelRepository.cpp:60-68 | the duplicate-free projection |
| ChannelRepository.ChannelRepository.ProcessAllChannelMonitor | src/ekg/service/data/repository/ChannelRepository.cpp:70-80 | exactly the rows of the name, in order of their ids, numbered from 0 (mod 2^32), whatever the protocol |
| RepositoryProtocol.LockKept | src/ekg/service/data/DataStorage.h:53-57 | mutual exclusion; what an insert counted still holds when it inserts |
| RepositoryProtocol.TableIsASet | src/ekg/service/data/repository/ChannelRepository.cpp:14-35 | no interleaving of any threads repeats a triple; the table is the set after the operations in effect order |
| RepositoryProtocol.LastEffectDecides | src/ekg/service/data/repository/ChannelRepository.cpp:14-35 | a triple is stored exactly if the last operation that decides it inserts it, or none decides it and it was there |
| RepositoryProtocol.EveryCallTakesEffectOnce | src/ekg/service/data/repository/ChannelRepository.cpp:14-35 | once all clients have returned, every call has taken effect exactly once |
| RepositoryProtocol.SomeClientMoves | src/ekg/service/data/DataStorage.h:53-57 | while a client is inside a call, it or the holder of the lock can step |
| RepositoryProtocol.InsertRuns | src/ekg/service/data/repository/ChannelRepository.cpp:14-25 | an undisturbed insert of a new triple runs through and appends its row |
| NodeConfiguration.NodeConfiguration.AddChannelMonitor | src/ekg/controller/node/configuration/NodeConfiguration.cpp:14-20 | adds exactly the described triples; rows only grow |
| NodeConfiguration.NodeConfiguration.RemoveChannelMonitor | src/ekg/controller/node/configuration/NodeConfiguration.cpp:22-27 | as written: adds exactly the described triples |
| NodeConfiguration.NodeConfiguration.IterateAllChannelMonitor | src/ekg/controller/node/configuration/NodeConfiguration.cpp:29-38 | each row is handed out as often as its name has protocols, in passes numbered from 0 over the distinct projection; each exactly once if and only if no name has two protocols |
| NodeConfiguration.PassesMultiplicity | src/ekg/controller/node/configuration/NodeConfiguration.cpp:32-38 | a row is handed out once for each listed pair of its name |
| NodeConfiguration.OncePerRowExactlyWhenSingleProtocol | src/ekg/controller/node/configuration/NodeConfiguration.cpp:29-38 | each row exactly once if and only if no name has two protocols |
| NodeController.NodeController.SubmitCommand | src/ekg/controller/node/NodeController.cpp:39-73 | every monitor request, activation or deactivation, is dispatched at its place in the order and stored; nothing else is dispatched; stored triples = initial + all dispatched; the table only grows |
| NodeController.MonitorCommandsInOrder | src/ekg/controller/node/NodeController.cpp:41-72 | one entry for each monitor request, in order, whichever way its flag stands |
| StoredSubscriptions.AskedForKept | src/ekg/controller/node/worker/AcquireCommandWorker.cpp:57-78 | no step of the pool makes a topic live that no command named |
| StoredSubscriptions.LiveIsStored | src/ekg/controller/node/NodeController.cpp:39-73 | in every interleaving each live pair has a stored row |
| StoredSubscriptions.ActivationsAreLive | src/ekg/controller/node/worker/AcquireCommandWorker.cpp:57-78 | served only activations, exactly the commanded pairs are live at rest, however they overlapped |
| StoredSubscriptions.StoredIsLiveExactlyWhen | src/ekg/controller/node/configuration/NodeConfiguration.cpp:22-27 | with two or more threads, every way of serving the commands ends with stored = live if and only if they deactivate nothing and name every pair stored at the start |
| StoredSubscriptions.StoredIsLiveWithoutOverlap | src/ekg/controller/node/configuration/NodeConfiguration.cpp:22-27 | without overlap, stored = live if and only if every commanded pair was last activated and every pair stored at the start has been activated since |
| StoredSubscriptions.RestartLosesSubscriptions | src/ekg/service/data/DataStorage.cpp:33-38 | in any interleaving a row found at the start is stored and not live until a command names it |
| StoredSubscriptions.DeactivatedStaysStored | src/ekg/controller/node/configuration/NodeConfiguration.cpp:22-27 | with two or more threads, any deactivated pair can end stored and not live, even if activated later |
| Subscriber.Subscriber.GetMsg | src/ekg/service/pubsub/impl/kafka/RDKafkaSubscriber.cpp:78-162 | appends the payloads of the answers taken, in order, up to the limit; every answer before the last is none at all, or an on-time end of partition or message; a short result ends with a timeout, an error, or a late answer; when it reports -1 |
| Subscriber.PayloadsOfOne | src/ekg/service/pubsub/impl/kafka/RDKafkaSubscriber.cpp:90-127 | a message contributes its element, any other answer nothing |
| Subscriber.ConsumedJoin | src/ekg/service/pubsub/impl/kafka/RDKafkaSubscriber.cpp:148-162 | the payloads of consecutive fetches join to those of the stream |
| CommandController.CMDController.Consume | src/ekg/controller/command/CMDController.cpp:27-75 | the loop's observable events and stream position, for any handler and commit behaviour |
| CommandController.CMDController.Decode | src/ekg/controller/command/CMDController.cpp:34-60 | skips empty and undecodable payloads, keeps the order |
| CommandController.DecodedOfOne | src/ekg/controller/command/CMDController.cpp:37-54 | an element contributes its command exactly if its payload is not empty and decodes |
| CommandController.TurnFetchesAtMost | src/ekg/controller/command/CMDController.cpp:31 | no turn takes more messages than the configured maximum |
| CommandController.OfferedIsDecodedStream | src/ekg/controller/command/CMDController.cpp:27-75 | however the stream is split into batches, what is offered is its in-order decoding |
| CommandController.CommitsAreJustified | src/ekg/controller/command/CMDController.cpp:61-69 | a commit follows the handler's return for the batch, or a batch without commands |
| CommandController.TraceInPosition | src/ekg/controller/command/CMDController.cpp:27-75 | fetches and commits advance together; a rejection directly follows its batch |
| CommandController.RejectedStaysUncommittedExactlyWhen | src/ekg/controller/command/CMDController.h:26-30 | a rejected batch is covered by a commit if and only if some later turn fetches something, has no command or an accepting handler, and commits |
| CommandController.CommitsOfTrace | src/ekg/controller/command/CMDController.cpp:61-69 | the commits of a run are those of its committing turns, each up to the position after its turn |
| CommandController.RejectedCanBeCommitted | src/ekg/controller/command/CMDController.h:26-30 | any two commands arriving one to a turn: the first, rejected, is committed with the second |
| Publisher.FirstStop | src/ekg/service/pubsub/impl/kafka/RDKafkaPublisher.cpp:134-139 | every slot before it is sent, the slot at it is not |
| Publisher.PushedSlotBySlot | src/ekg/service/pubsub/impl/kafka/RDKafkaPublisher.cpp:130-141 | the status, and slot by slot what is sent in order, released, emptied or left |
| Publisher.PushConserves | src/ekg/service/pubsub/impl/kafka/RDKafkaPublisher.cpp:130-141 | pushMessages creates, duplicates and loses nothing |
| Publisher.RetryAfterFailureCrashes | src/ekg/service/pubsub/impl/kafka/RDKafkaPublisher.cpp:135-138 | after a failure the suffix is intact behind an empty head, and the next call follows it |
| Publisher.Conserved | src/ekg/service/pubsub/impl/kafka/RDKafkaPublisher.cpp:98-141 | each operation adds at most its own message to the owned ones |
| Publisher.PushOneGoesWhere | src/ekg/service/pubsub/impl/kafka/RDKafkaPublisher.cpp:118-127 | an accepted message goes to the broker only, a refused one is released only |
| Publisher.ReportGoesWhere | src/ekg/service/pubsub/impl/kafka/RDKafkaPublisher.cpp:17-18 | a reported message leaves the queue and is released, the others stay |
| Publisher.WholeWay | src/ekg/service/pubsub/impl/kafka/RDKafkaPublisher.cpp:15-141 | a run in which a message is offered, pushed, reported on and released |
| Publisher.OwnershipIsLinear | src/ekg/service/pubsub/impl/kafka/RDKafkaPublisher.cpp:15-141 | over any run a message has exactly one owner at a time and is released at most once |
| Publisher.FirstUseDecides | src/ekg/service/pubsub/impl/kafka/RDKafkaPublisher.cpp:20-22 | the first registration or report of a type decides for good who hears its reports |
| Publisher.RDKafkaPublisher.SetCallBackForReqType | src/ekg/service/pubsub/IPublisher.cpp:7-10 | refused exactly when the type was used before |
| Publisher.RDKafkaPublisher.PushMessage | src/ekg/service/pubsub/impl/kafka/RDKafkaPublisher.cpp:98-128 | on success the broker owns the message, on failure it is released |
| Publisher.RDKafkaPublisher.PushMessages | src/ekg/service/pubsub/impl/kafka/RDKafkaPublisher.cpp:130-141 | a prefix is sent in order; result and remaining vector for every producer behaviour |
| Publisher.RDKafkaPublisher.DeliveryReport | src/ekg/service/pubsub/impl/kafka/RDKafkaPublisher.cpp:15-41 | the message leaves the queue and is released; if the first use of its type registered a callback, exactly that one hears of this message, OnSent if and only if it was persisted; otherwise nobody does |

## Left out

Members whose statements are weaker than one might want:

- ThreadPoolWaiting.NoLostWakeUp: for runs without pushes, increments and pauses; what each of these, and the waiter's own step, does to a wake-up is said by the exact conditions, one action at a time.
- AcquireRefinement.MapsAgreeAtRest: under the hypothesis that commands of one channel do not overlap; which commands need it is said by AcquireHazards.AgreementExactlyWhen.
- AcquireHazards.AgreementExactlyWhen: exact from as many threads as commands on; for two threads up to that number, HarmlessAgrees and FlipDisagrees leave commands in between undecided, whose outcome depends on which races the few threads can still run.
- AcquireProtocol.SomeThreadMoves: some thread can move, not every thread eventually does; scheduling fairness is not modelled.
- ThreadPoolMemory.ThreadPoolMemory.PopTask: the one region of the pool given as code on its fields; `push_task`, `wait_for_tasks`, `reset`, `pause` and the worker loop are actions of the machine on values, since their meaning is what any number of threads do between their regions. A push beyond 2^63 - 1 queued tasks, where a standard container throws, is not an action.
- Blocks.Divide: 32- and 64-bit index types; narrower ones are promoted to int in the source's subtraction.
- Subscriber.Subscriber.GetMsg: the broker's answers are a finite list followed by timeouts, so an endless run of null messages, which would never end the source's loop, is not represented.
- Publisher.RetryAfterFailureCrashes: following the null pointer is undefined in the source and a distinct outcome here.

Parts of the repository that are not modelled:

- Concurrent protocols are state machines on values; the classes beside them tie fields to the machine or to the specification but are not run concurrently.
- Scheduling fairness, hence termination of thread joins, and the missed notification of `task_available_cv` in `destroy_threads`; a task that throws out of a worker ends the process; more than one thread waiting at a time.
- A failing channel creation inside the pool ends the process in the source, so the concurrent machine takes creation as successful; the sequential class covers the failure.
- Data races on `channel_topics_map[...]` outside its lock, and an erase through an iterator that another thread invalidated: map accesses are atomic steps, an absent key is an empty vector, a stale position past the end has no effect.
- Handlers that register further handlers during a broadcast, and row handlers that call back into the repository.
- Real time: deadlines and waits are choices of the environment, and a loop that runs until a stop flag is modelled for any number of turns. Synchronous and asynchronous commits are one event.
- librdkafka, pvAccess, the database, JSON parsing, logging and options: message streams, event queues, the row table and decoding are parameters. Printing commands as JSON and parsing them use different keys, so there is no round trip to prove.
- Results of `pushMessage` during routing are ignored by the source; a message the producer refuses counts as published in `Routing` and as released in `Publisher`.
- `setQueue`, `addQueue`, `createQueue`, `flush`, automatic polling, `GetCommandWorker` (empty), service and worker resolvers, `timer`, `synced_stream`: plumbing.
- Loop bodies with effects of their own: a block's function is taken to be pure, and each call of `parallelize_loop` to copy it.
