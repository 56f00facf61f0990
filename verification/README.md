# Models of the Qorus order scheduler, caches and life-cycle protocols

A Dafny project that models the concurrent core of the Qorus Integration Engine and proves what it
keeps in every interleaving. `dafny verify dfyconfig.toml` checks all of it.

**Method.** Each class of the source is a Dafny class with the fields that the protocol uses. Where several
threads share an object, a method covers what one thread does from taking the mutex to its return or its
next wait, and its postcondition equates the new fields with a function of the old ones. Those functions
are the steps of a state machine over values; its states also record what the code does not store: who holds
an order, a reference or a block, which threads sleep and which have been woken, what was submitted and
delivered. A condition variable and the counter kept beside it are one value (`Conditions.dfy`) or a count of
the sleepers. Invariants of every step and theorems over all runs are lemmas about the machine. Time, options,
what other threads do while a loop has released its mutex, and the choice that a condition variable makes
among its sleepers are inputs of a step. Spurious wake-ups may happen at any time. Integers are unbounded.
What each step does to what callers can see - who holds what, what is queued, who sleeps - is also stated by its
inputs alone, without the step functions, in the lemmas whose names end in `Exactly` and their like.
The source's assertions are preconditions, or conditions for a step to be taken.

**The order scheduler** (`exec/SegmentEventQueue.cpp`, `exec/SegmentEventQueue.h`).

- `Multimap.dfy`, `SegmentMap.dfy`: std::multimap with its order among equal keys, and the map
  that arbitrates between segments and retries of an order.
- `BackendQueues.dfy`, `Channels.dfy`, `BackendQueueClass.dfy`: the queues of a segment, what coalescing
  carries, the selection, and the threads that wait. The three kinds of backend queue are one class
  here: an entry is filed under its order and, for subworkflow events, its status, and carries data
  only if it is asynchronous.
- `RetryQueues.dfy`, `RetryQueueClass.dfy`: the timed retry queues and the scan over the three of them.
- `Scheduler.dfy`, `SchedulerSafety.dfy`, `SegmentEventQueueClass.dfy`: the machine made of these, its
  safety over all runs, and the class whose methods take its steps.
- `SchedulerEffects.dfy`, `SchedulerHistories.dfy`: what each step does to who holds an order, what is queued and who
  sleeps, and what the queues hold and hand out in a run, by the steps taken.
- `RetryWakeups.dfy`: which of these steps leaves a retry that no thread will look at in time.
- `PrimaryQueues.dfy`, `PrimaryWaiters.dfy`, `PrimaryQueueClass.dfy`: the queue of new orders against one
  list of active orders and one list of scheduled ones, and the threads that wait on it, with their
  time-outs.

**The timed cache** (`exec/TimedDataCacheBase.h`): `LinkedLists.dfy` is the list, a ring of heap nodes;
`TimedDataCaches.dfy` has the cache with its two-level index of nodes, the plain sequence it refines,
and runs of it.

**Order expiry** (`exec/QC_OrderExpiryCache.h`): `OrderExpiryCaches.dfy`. The number that an order has among
the submissions of its workflow is stored with it in the model and nowhere in the code.

**Segment workflow data** (`Classes/AbstractCoreSegmentWorkflowData.qc`): `SegmentWorkflowData.dfy` and
`SegmentWorkflowDataClass.dfy`.

**The service** (`Classes/AbstractQorusCoreService.qc`): `ServiceCalls.dfy`, `ServiceResources.dfy` and
`ServiceClass.dfy`. Calls and resources have a mutex each and are a machine each. Any thread may
begin to drain the resources at any time, which includes the winner of a stop, aborts and deletion.

**Where the code does not keep its own structures or promises.** The models follow the code. A property that
fails in it is proved with the exact condition under which it holds and with an input or a run in which
it fails.

- The retry scan uses -1 for no entry, so an earliest trigger of -1 is not found
  (`RetryQueues.ScanExactly`, `RetryQueues.ScanFound`, `RetryWakeups.SentinelNeglects`).
- A retry can be left to threads that sleep past its time, without a time-out or with a later one, in these
  ways and in no others (`RetryWakeups.NeglectsExactly`). `release_retry_segment` wakes no retry thread,
  although its order may be queued for another retry (`RetryWakeups.ReleasedWithAnother`). A thread that
  is terminated deletes its marker and returns without waking another
  (`RetryWakeups.OwnerTerminated`). The one thread that `release_segment` signals may sleep on another
  entry, which it then leaves (`RetryWakeups.SignalledOnAnother`). A thread whose delays have changed may
  leave its entry for another when it times out (`RetryWakeups.DelaysChanged`), but not while all look
  with the same delays (`RetryWakeups.TimeOutsNeglectNothing`). And the sentinel hides an entry. With one
  retry thread, which releases each retry before it asks again, only the last can happen
  (`RetryWakeups.AloneNeverNeglected`).
- `addToScheduled` asks for a broadcast only if no order is active, so that an order scheduled while
  another is active can be left to a thread that sleeps past its trigger
  (`PrimaryWaiters.OversleepsExactly`, `PrimaryWaiters.ScheduledBehindActive`).
- `PrimaryQueue::removeWorkflowOrder` leaves a scheduled order in the queue
  (`PrimaryQueueClass.PrimaryQueue.RemoveWorkflowOrder`, `PrimaryQueueClass.ScheduledOrderStays`).
- `SegmentEventQueue::removeWorkflowOrder` searches backend multimaps keyed by modified time for an
  order id (`BackendQueues.EraseOrderExactly`, `BackendQueues.EraseOrderFails`).
- `RetryQueue::merge` moves entries without their lookup (`RetryQueues.MergeLinkedExactly`,
  `RetryQueues.MergeLosesLookup`).
- `blockRef` counts a reference without giving a workflow that only had temporary references a
  queue, so that a later queue reference fails the assertion of `ref`
  (`SegmentWorkflowData.LosesQueueExactly`, `SegmentWorkflowData.QueueFoundExactly`,
  `SegmentWorkflowData.BlockedTemporary`), and `deref` may stop a queue that was never created
  (`SegmentWorkflowData.StopsMissingQueueExactly`, `SegmentWorkflowData.TemporaryWithoutQueue`).
- An abort that meets a reference lets the service stop with calls in progress
  (`ServiceCalls.AbortHarmlessExactly`, `ServiceCalls.AbortStrandsCalls`, `ServiceCalls.AbortLosesCall`).
- `purgeClass` of the timed cache works out that the first entry went, as its comment says, in order to
  signal the waiting thread, but never signals it
  (`TimedDataCaches.TimedDataCache.PurgeClass`, `TimedDataCaches.PurgeTakesFirst`).
- `OrderExpiryCache::removeOrder` documents 0 for deleted and -1 for not found, but returns 0 for an unknown
  workflow (`OrderExpiryCaches.RemoveResultExactly`, `OrderExpiryCaches.RemoveUnknown`).

`canDelete` does not look at the reset flag. By itself it would allow a deletion during a reset exactly when
no reference is held (`SegmentWorkflowData.DeletableInResetExactly`), but the only caller of `startReset`,
reached through `resetComplete` (`Classes/Control.qc:714-760`) from the execution instances, keeps its
registration until the reset has ended (`Classes/CoreWorkflowExecutionInstance.qc:43-108`), and then it
never does (`SegmentWorkflowData.ResetKeepsData`).

## Model

| member | source | states |
|---|---|---|
| SchedulerSafety.NoLostWakeup | exec/SegmentEventQueue.cpp:823-872 | In every reachable state of every interleaving: while a thread sleeps on a backend queue, the entries that can be taken are at most as many as the woken threads whose connection is up; nobody sleeps whose connection is terminated |
| SchedulerSafety.RetryExcludesSegments | exec/SegmentEventQueue.cpp:1252-1298 | Over whole runs, `workflow_seg_map` has no entry for an order nobody holds, -1 exactly when one retry and no segment holds it, and n exactly when n segments and no retry hold it; who holds an order is what SegmentsExactly, DeliveredIsHeld, RetriesExactly and PassRetries say of each step |
| SchedulerHistories.DeliveriesCarrySubmissions | exec/SegmentEventQueue.cpp:425-516 | What a step of a run hands out carries exactly the step indexes of the submission steps for its key since the step that handed out the key before, each with the data of its first submission, at the priority, time and parent of the first of all; afterwards the key is not queued |
| SchedulerHistories.QueuedSince | exec/SegmentEventQueue.cpp:425-516 | In every state of a run a key is queued exactly if it was submitted since its last delivery, and with exactly that |
| SchedulerHistories.ArrivalOrder | exec/SegmentEventQueue.cpp:444-448 | In every state of a run, of two queued keys the one that was submitted first arrived first, which decides between entries of equal priority and time |
| SchedulerHistories.RequestedSince | exec/SegmentEventQueue.cpp:580-605 | In every state of a run an order is queued for a retry exactly if one was asked for since it was last removed or handed out, at the earliest time asked for and with the parent of the first request |
| SchedulerSafety.RetriesKeepEarliest | exec/SegmentEventQueue.cpp:580-605 | Over whole runs an order is queued for retry once, with the smallest time asked for since it was last removed or handed out, and is not queued if nothing was asked for since |
| SchedulerSafety.MarkersNeverDangle | exec/SegmentEventQueue.cpp:1047-1060 | Over whole runs each marker refers to an entry that is still in its queue and belongs to a thread asleep on it |
| SchedulerSafety.RetriesInOrder | exec/SegmentEventQueue.cpp:1092-1250 | Over whole runs a thread that asks for a retry looks at the earliest eligible entry of the three queues, unless the earliest trigger is -1; it starts its retry exactly if the trigger is 0 or not in the future, for an order nobody holds, and otherwise sleeps until the trigger, or without a time-out if there is no entry |
| RetryWakeups.NeglectsExactly | exec/SegmentEventQueue.cpp:1047-1298 | From a state in which nothing is neglected, a step leads to one in which an entry could be picked, a thread sleeps past its trigger - without a time-out or with a later one - and no thread is on its way, if and only if it is the release of a retry whose order has another entry that a thread sleeps past, with nobody on the way; or the pass of a thread that alone was woken and leaves, terminated, an entry to a sleeper; or a pass that goes to sleep over an earliest trigger of -1; or a pass that finds the first of several entries and leaves another to a sleeper |
| RetryWakeups.RunNeglectsExactly | exec/SegmentEventQueue.cpp:1082-1298 | A run neglects an entry if and only if it takes such a step |
| RetryWakeups.TimeOutsNeglectNothing | exec/SegmentEventQueue.cpp:1082-1250 | If all look with the same delays, a pass by a thread that was not signalled - it enters, times out or wakes spuriously - neglects nothing, unless the earliest trigger is -1 |
| RetryWakeups.AloneNeverNeglected | exec/SegmentEventQueue.cpp:1082-1298 | With one retry thread, which releases its retry before it asks again, and no trigger of -1, no run neglects an entry |
| RetryWakeups.ReleasedWithAnother | exec/SegmentEventQueue.cpp:1285-1298 | A run of two threads and one order in two retry queues, at whose end the second entry is due, its order is free, one thread sleeps and nobody is woken |
| RetryWakeups.SentinelNeglects | exec/SegmentEventQueue.cpp:1195-1200 | A run in which a retry is queued for the time -1 and the thread that looks for it sleeps although it is due |
| RetryWakeups.OwnerTerminated | exec/SegmentEventQueue.cpp:1047-1110 | A run of two threads and one order: the thread that has marked it is terminated, by either call, and leaves after the other has looked again; at its end the entry could be picked, the other sleeps without a time-out and nobody is woken |
| RetryWakeups.SignalledOnAnother | exec/SegmentEventQueue.cpp:1270-1283 | A run of two threads and two orders: the end of a segment frees one order and signals the thread that sleeps on the other, which goes over to the first; at its end the second could be picked, the other thread sleeps without a time-out and nobody is woken |
| RetryWakeups.DelaysChanged | exec/SegmentEventQueue.cpp:1092-1250 | A run in which nobody is woken and nothing is neglected until a thread that sleeps on one entry looks again with longer delays and goes over to another |
| SchedulerSafety.StepSafe | exec/SegmentEventQueue.cpp:823-872 | Each step keeps the four invariants together: arbitration, wake-ups and index agreement of the backend queues, the retry minimum, and the markers |
| SchedulerSafety.RunSafe | exec/SegmentEventQueue.cpp:726-1298 | The invariants hold in every state of every run from a new queue |
| SchedulerSafety.ArbitrationKept | exec/SegmentEventQueue.cpp:726-739 | Each step keeps the order map in agreement with who holds the orders |
| SchedulerSafety.ChannelsKept | exec/SegmentEventQueue.cpp:361-368 | Each step, with its broadcasts and signals, leaves every backend queue without a lost wake-up and its structures in agreement |
| SchedulerSafety.RetriesKept | exec/SegmentEventQueue.cpp:371-423 | Each step keeps multimap, entries and lookup map of each retry queue one to one and each order at its earliest time |
| SchedulerSafety.MarkersKept | exec/SegmentEventQueue.cpp:1047-1060 | Each step by one thread keeps the markers of all sleeping threads on live entries |
| SchedulerEffects.SegmentsExactly | exec/SegmentEventQueue.cpp:726-739 | One more segment holds an order after a grab, unless a retry runs, and one less after its release; no other step but a delivery changes that |
| SchedulerEffects.DeliveredIsHeld | exec/SegmentEventQueue.cpp:842-865 | Of the entries whose order no retry holds a thread that is up gets the first by priority, modified time and arrival; then one more segment holds the order and the map has its count, and with no such entry nothing changes |
| SchedulerEffects.RetriesExactly | exec/SegmentEventQueue.cpp:1285-1298 | A retry holds its order until its release |
| SchedulerEffects.PassRetries | exec/SegmentEventQueue.cpp:1252-1264 | Exactly the retry that a pass starts holds one more order |
| SchedulerEffects.PassStarts | exec/SegmentEventQueue.cpp:1202-1232 | A pass starts the retry of the entry it finds if its time, by the delay for its kind, is 0 or not after now; the entry goes and nobody held its order |
| SchedulerEffects.PassSleeps | exec/SegmentEventQueue.cpp:1047-1060 | Otherwise it marks the entry and sleeps until that time, which is after now, and no retry starts |
| SchedulerEffects.PassFindsNothing | exec/SegmentEventQueue.cpp:1195-1200 | A pass that finds nothing sleeps without a time-out |
| SchedulerEffects.PassReturns | exec/SegmentEventQueue.cpp:1082-1090 | A terminated thread returns, and one whose connection is for retries once |
| SchedulerEffects.EntriesExactly | exec/SegmentEventQueue.cpp:425-516 | A step changes the entry of a key only if it submits the key - a new entry as submitted, or one more step index - or hands it out |
| SchedulerEffects.AddExactly | exec/SegmentEventQueue.cpp:425-448 | A submission under a queued key adds its step index and data unless the index is there; under a new one it is an entry as submitted, behind all that came before; it is recorded, and no other key changes |
| SchedulerEffects.RetryEntriesExactly | exec/SegmentEventQueue.cpp:580-605 | A step changes the entry of an order in a retry queue only if it asks for a retry there - a new entry, or the earlier time - or removes the order from all three queues or starts its retry |
| SchedulerEffects.RemoveInstanceEntries | exec/SegmentEventQueue.cpp:394-423 | After remove_workflow_instance none of the three retry queues has an entry of the order, and the other orders have theirs |
| SchedulerEffects.PassSleepers | exec/SegmentEventQueue.cpp:827-872 | A pass puts a thread to sleep exactly if it is up and nothing is handed out, and no thread is woken any more after its pass |
| SchedulerEffects.PostSleepers | exec/SegmentEventQueue.cpp:494-516 | A submission wakes the thread that the signal picks if its key is new, and nobody else |
| SchedulerEffects.BroadcastSleepers | exec/SegmentEventQueue.cpp:50-62 | After a broadcast, and after the end of a retry if the queue has entries, nobody sleeps on a segment's queue |
| SchedulerEffects.OtherSleepers | exec/SegmentEventQueue.cpp:361-368 | No other step wakes or blocks a thread of a segment, but for a spurious wake-up |
| SchedulerEffects.EndsExactly | exec/SegmentEventQueue.cpp:64-82 | Terminations last: the end for good, a connection until its clean-up, one for retries until a thread of it that is up returns |
| SchedulerEffects.RetryWakesExactly | exec/SegmentEventQueue.cpp:371-381 | Among the steps that are not passes, accepted requests, removals, requests to look again and terminations wake all sleeping retry threads, the end of the last segment the one that is picked, and no other step anybody |
| SchedulerEffects.MarkersExactly | exec/SegmentEventQueue.cpp:371-381 | Exactly accepted requests, removals and requests to look again clear all markers |
| SegmentMap.GrabArbitrates | exec/SegmentEventQueue.cpp:726-739 | One more segment, granted only when no retry runs, keeps the map exact |
| SegmentMap.ReleaseArbitrates | exec/SegmentEventQueue.cpp:1270-1283 | Releasing a segment that is held keeps the map exact, and no entry is left at 0 |
| SegmentMap.StartRetryArbitrates | exec/SegmentEventQueue.cpp:1252-1264 | Marking a retry on an order that is not in progress keeps the map exact |
| SegmentMap.EndRetryArbitrates | exec/SegmentEventQueue.cpp:1285-1298 | A retry that is held finds -1 in the map and its release keeps the map exact |
| Channels.PostServed | exec/SegmentEventQueue.cpp:494-516 | A submission, which signals one thread only when it adds an entry, loses no wake-up |
| Channels.TakeServed | exec/SegmentEventQueue.cpp:842-865 | A woken or newly come thread that takes the chosen entry loses no wake-up |
| Channels.BlockServed | exec/SegmentEventQueue.h:335-339 | Going to sleep when nothing can be taken loses no wake-up |
| Channels.QuitServed | exec/SegmentEventQueue.cpp:828-829 | A woken thread that leaves because its connection is down takes no wake-up away from the others |
| Channels.WakeupServed | exec/SegmentEventQueue.h:325-328 | After a broadcast nobody is asleep, whatever else has changed |
| Channels.EndRetryServed | exec/SegmentEventQueue.cpp:361-368 | Broadcasting only to the queues that have entries is enough when the end of a retry makes any number of entries takeable |
| BackendQueues.AddKeeps | exec/SegmentEventQueue.cpp:425-516 | A submission keeps lookup map, multimaps and entries one to one, no priority with an empty multimap, and what is carried equal to what is pending |
| BackendQueues.TakeKeeps | exec/SegmentEventQueue.cpp:854-899 | Taking an entry keeps all of that; it hands out exactly what was pending for its key, and the key is not queued any more |
| BackendQueues.OutcomeUnique | exec/SegmentEventQueue.cpp:831-866 | Being first in (priority, modified time, arrival) order among the orders not in retry leaves no choice |
| BackendQueues.PendingMeaning | exec/SegmentEventQueue.cpp:432-442 | A step index is pending exactly when it was submitted since the last delivery of its key, with the data of the first such submission |
| BackendQueues.SubmittedOrDelivered | exec/SegmentEventQueue.cpp:459-479 | No submission disappears: its key is delivered later or its step index is still pending |
| BackendQueues.EraseOrderExactly | exec/SegmentEventQueue.cpp:811-820 | The backend half of removeWorkflowOrder, which looks an order id up among modified times, keeps the queue in agreement if and only if no entry of that priority was modified at a time equal to the id, and then it changes nothing |
| BackendQueues.ErasesByTime | exec/SegmentEventQueue.cpp:811-820 | Whatever its order, an entry loses its place exactly if its priority matches and its modified time equals the order id |
| BackendQueues.EraseOrderFails | exec/SegmentEventQueue.cpp:811-820 | After any one submission, erasing its order leaves it queued, or breaks the agreement if its time equals the id |
| Multimap.InsertSorted | exec/SegmentEventQueue.h:305-308 | Insertion keeps the keys ascending |
| Multimap.InsertStable | exec/SegmentEventQueue.h:305-308 | Insertion is first-in first-out among equal keys and does not touch the order under other keys |
| BackendQueueClass.BackendQueue.Add | exec/SegmentEventQueue.cpp:494-516 | A submission is filed under its key's entry without waking anybody, or as a new entry with one thread woken; agreement is kept |
| BackendQueueClass.BackendQueue.FindTakeable | exec/SegmentEventQueue.cpp:831-867 | The nested scan finds the first takeable entry in (priority, modified time, arrival) order, or there is none |
| BackendQueueClass.BackendQueue.Take | exec/SegmentEventQueue.cpp:854-865 | Exactly the chosen entry and its lookup go, and its priority if it was the last there |
| BackendQueueClass.BackendQueue.Attend | exec/SegmentEventQueue.cpp:827-872 | One pass: a thread that is terminated returns, else it gets the first takeable entry, else it sleeps; the new state is the machine's step |
| BackendQueueClass.AsyncLists | exec/SegmentEventQueue.h:237-256 | The four lists of an asynchronous delivery are parallel, in step index order, and hold exactly the entry's data |
| SegmentEventQueueClass.SegmentEventQueue.GrabSegmentInc | exec/SegmentEventQueue.cpp:726-739 | True exactly if a retry runs for the order; otherwise one more segment holds it |
| SegmentEventQueueClass.SegmentEventQueue.ReleaseSegment | exec/SegmentEventQueue.cpp:1270-1283 | The machine's whole step: one segment less holds the order, and with the last one its entry goes and one sleeping retry thread is woken |
| SegmentEventQueueClass.SegmentEventQueue.Post | exec/SegmentEventQueue.cpp:494-516 | The machine's whole step: the submission is filed in its segment's queue, which wakes a thread only for a new entry |
| SegmentEventQueueClass.SegmentEventQueue.GetBackendEvent | exec/SegmentEventQueue.cpp:823-872 | The machine's whole step: the queue attends to the thread and exactly a delivered order has one more segment |
| SegmentEventQueueClass.SegmentEventQueue.Broadcast | exec/SegmentEventQueue.cpp:50-62 | All sleepers of every backend queue, of the primary queue and of the retry queues are woken, and nothing else changes |
| SegmentEventQueueClass.SegmentEventQueue.ReleaseRetrySegment | exec/SegmentEventQueue.cpp:1285-1298 | The machine's whole step: the retry no longer holds the order, every backend queue with entries wakes its sleepers, and no retry thread is woken |
| SegmentEventQueueClass.SegmentEventQueue.TerminateConnection | exec/SegmentEventQueue.cpp:71-75 | The machine's whole step: the connection is down and everybody who waits for anything is woken |
| SegmentEventQueueClass.SegmentEventQueue.Terminate | exec/SegmentEventQueue.cpp:64-69 | The machine's whole step: the end is set and everybody who waits for anything is woken |
| SegmentEventQueueClass.SegmentEventQueue.TerminateRetryConnection | exec/SegmentEventQueue.cpp:77-82 | The machine's whole step: the connection is down for retries and all sleeping retry threads are woken, nobody else |
| SegmentEventQueueClass.SegmentEventQueue.RequeueRetriesIntern | exec/SegmentEventQueue.cpp:371-381 | All markers of the three retry queues go and all sleeping retry threads are woken |
| SegmentEventQueueClass.SegmentEventQueue.QueueRetryEvent | exec/SegmentEventQueue.cpp:607-635 | The machine's whole step: the order is queued for retry in the queue of its kind, and unless the request was rejected all markers go and all sleeping retry threads are woken |
| SegmentEventQueueClass.SegmentEventQueue.RemoveWorkflowInstance | exec/SegmentEventQueue.cpp:417-423 | The machine's whole step: the order leaves all three retry queues, all markers go and all sleeping retry threads are woken |
| SegmentEventQueueClass.SegmentEventQueue.GetPrimaryEvent | exec/SegmentEventQueue.cpp:741-759 | A thread returns exactly if it is terminated; otherwise it takes the order that comes next once the due ones are active, or sleeps; the primary queue takes its machine's step |
| SegmentEventQueueClass.SegmentEventQueue.ScanRetries | exec/SegmentEventQueue.cpp:1092-1241 | The three loops together compute the scan that ScanExactly is about |
| SegmentEventQueueClass.SegmentEventQueue.GetRetryEvent | exec/SegmentEventQueue.cpp:1082-1268 | The machine's whole step and its answer: waking, own marker, termination checks, scan, hand-out or sleep; an entry is handed out exactly if the thread is to stay, the scan found one, and its trigger is 0 or not after now |
| RetryQueues.AddSound | exec/SegmentEventQueue.cpp:580-605 | Adding keeps the agreement of the retry queue and the minimum time of each order, and leaves no dangling marker |
| RetryQueues.RemoveSound | exec/SegmentEventQueue.cpp:394-403 | Removing an order keeps agreement and minimum |
| RetryQueues.HandOutSound | exec/SegmentEventQueue.cpp:1031-1045 | Handing out an entry keeps agreement and minimum, and no marker dangles if the entry was unmarked |
| RetryQueues.EarliestMeaning | exec/SegmentEventQueue.cpp:580-605 | The time kept for an order is one that was asked for and still stands, and no standing request is earlier |
| RetryQueues.Scan | exec/SegmentEventQueue.cpp:1092-1241 | What is picked is an eligible entry of the queue it is said to be in |
| RetryQueues.ScanFound | exec/SegmentEventQueue.cpp:1092-1241 | What the scan finds, whatever the triggers: the earliest entry, ties going asynchronous, delayed, fixed, of the queues behind the last one that has an earliest trigger of -1, or nothing if these have none |
| RetryQueues.ScanExactly | exec/SegmentEventQueue.cpp:1092-1250 | The scan finds the earliest effective trigger among all eligible entries, ties going asynchronous, delayed, fixed, if and only if that earliest trigger is not -1 |
| RetryQueues.NonNegativeScan | exec/SegmentEventQueue.cpp:1118-1119 | With times and delays that are not negative the scan is always right |
| RetryQueues.MergeLinkedExactly | exec/SegmentEventQueue.cpp:637-641 | Merging one retry queue into another keeps their structures in agreement if and only if there is nothing to merge, because the lookup entries stay behind |
| RetryQueues.MergeLosesLookup | exec/SegmentEventQueue.cpp:637-641 | Merging two queues of one order each leaves both out of agreement |
| RetryQueueClass.RetryQueue.Add | exec/SegmentEventQueue.cpp:580-605 | -1 and no change if the order is queued for no later a time, otherwise 0 and the order at the new time |
| RetryQueueClass.RetryQueue.Merge | exec/SegmentEventQueue.cpp:637-641 | All entries move to this queue in key order, the other is cleared, and neither lookup map changes |
| PrimaryWaiters.OversleepsExactly | exec/SegmentEventQueue.h:461-499 | From a state in which no thread sleeps past the first trigger - without a time-out or with a later one - a step leads to one if and only if it adds a new order with a trigger in the future while an order is active and a thread sleeps past that trigger |
| PrimaryWaiters.RunOversleepsExactly | exec/SegmentEventQueue.h:656-675 | A run reaches such a state if and only if it takes such a step |
| PrimaryWaiters.ScheduledBehindActive | exec/SegmentEventQueue.h:669-669 | A run of two threads and two orders: at its end nothing is active, one order is scheduled, and a thread sleeps without a time-out and unwoken |
| PrimaryWaiters.StepKeeps | exec/SegmentEventQueue.h:485-499 | Each step keeps the waiting count right, a deadline for exactly the threads inside the wait, and the scheduled orders sorted |
| PrimaryWaiters.GetExactly | exec/SegmentEventQueue.cpp:741-759 | With an order active, once the due ones are, a thread takes the next one; without, it sleeps with the first trigger that is left as its time-out; terminated, it leaves; nobody else wakes |
| PrimaryWaiters.AddWakes | exec/SegmentEventQueue.h:461-477 | A new active order wakes the thread that is picked; one scheduled before all others while none is active wakes everybody; any other wakes nobody |
| PrimaryWaiters.ReprioritizeWakes | exec/SegmentEventQueue.h:579-598 | A new priority wakes the thread that is picked if the order is active, and otherwise nobody |
| PrimaryWaiters.OthersWake | exec/SegmentEventQueue.h:479-482 | A new schedule for an order in the queue, a whole list and a wake-up wake everybody, a removal nobody |
| PrimaryWaiters.SubmitAllExactly | exec/SegmentEventQueue.cpp:149-180 | A whole list is submitted order by order |
| PrimaryQueueClass.PrimaryQueue.AddToScheduled | exec/SegmentEventQueue.h:656-675 | The order joins the scheduled list by trigger, behind equal ones, unless it is scheduled; true exactly if it is new and first and no order is active |
| PrimaryQueueClass.PrimaryQueue.Add | exec/SegmentEventQueue.h:461-477 | A trigger in the future schedules the order, anything else makes it active; with `signal`, a scheduled one wakes all waiters only if addToScheduled asks for it and an active one wakes one |
| PrimaryQueueClass.PrimaryQueue.InitPrimaryQueue | exec/SegmentEventQueue.cpp:149-180 | The whole list is submitted in its order without waking anybody, and then all waiters are woken |
| PrimaryQueueClass.PrimaryQueue.ActivateDue | exec/SegmentEventQueue.h:638-653 | The loop ends; exactly the due orders have become active, in trigger order, and the next trigger is in the future |
| PrimaryQueueClass.PrimaryQueue.GetEvent | exec/SegmentEventQueue.h:509-532 | The lowest priority number goes first, and within it the order that became active first |
| PrimaryQueueClass.PrimaryQueue.GetPrimaryEvent | exec/SegmentEventQueue.cpp:741-759 | One pass: a terminated thread returns; otherwise, after activation, the next order of the lowest priority, never one whose trigger is in the future; otherwise a wait, entered with nothing active, whose time-out ends at the first trigger and is positive, or without time-out exactly if nothing is scheduled |
| PrimaryQueueClass.PrimaryQueue.Reprioritize | exec/SegmentEventQueue.h:579-598 | A scheduled order keeps its place; an active one goes to the end of its new priority and one waiter is woken; found exactly if it is in the queue |
| PrimaryQueueClass.PrimaryQueue.Resched | exec/SegmentEventQueue.h:570-576 | The order leaves its place and is submitted again under the new schedule, and all waiters are woken; found exactly if it is in the queue |
| PrimaryQueueClass.PrimaryQueue.RemoveWorkflowOrder | exec/SegmentEventQueue.h:601-616 | An active order is removed. A scheduled one stays in the scheduled queue without its lookup entry: the fields agree with some lists afterwards if and only if the order was not scheduled |
| PrimaryQueueClass.ScheduledOrderStays | exec/SegmentEventQueue.h:601-608 | An order that is scheduled and removed at once is still first in the scheduled queue, and the fields agree with no lists |
| PrimaryQueues.AddedActiveAgrees | exec/SegmentEventQueue.h:684-694 | Filing an order under its priority is adding it at the end of the active list |
| PrimaryQueues.RemovedActiveAgrees | exec/SegmentEventQueue.h:746-761 | Erasing from the sub-queue of the order's priority is dropping it from the active list, and leaves no empty sub-queue |
| PrimaryQueues.AddedScheduledAgrees | exec/SegmentEventQueue.h:662-668 | Filing a trigger keeps scheduled queue and lookup one to one |
| PrimaryQueues.RemovedScheduledAgrees | exec/SegmentEventQueue.h:708-711 | Erasing a scheduled order keeps scheduled queue and lookup one to one |
| PrimaryQueues.HeadIsNext | exec/SegmentEventQueue.h:512-517 | The head of the first sub-queue is the first active order of the lowest priority number |
| PrimaryQueues.NextUnique | exec/SegmentEventQueue.h:512-517 | The order to run next is determined by the active list |
| PrimaryQueues.ActivateExactly | exec/SegmentEventQueue.h:638-653 | The active orders stay in front, behind them come exactly the due ones, and exactly the others stay scheduled |
| PrimaryQueues.SubmitExactly | exec/SegmentEventQueue.h:461-477 | An order with a trigger in the future is filed behind those due no later, unless it is scheduled; any other joins the end of the active ones, unless it is active |
| PrimaryQueues.ReprioritizedExactly | exec/SegmentEventQueue.h:579-598 | A scheduled order gets the new priority at its place and trigger, an active one goes to the end with it, and nothing else changes |
| TimedDataCaches.TimedDataCache.Set | exec/TimedDataCacheBase.h:59-135 | 0 with the pair at the end under the new time, all else in its order; or -1 with nothing changed, exactly when the pair is new and the maximum is reached; the listener is signalled exactly when the first entry has changed |
| TimedDataCaches.TimedDataCache.DeleteKey | exec/TimedDataCacheBase.h:137-170 | Exactly the pair goes and the rest keeps its order; the listener is signalled exactly when the first entry went |
| TimedDataCaches.TimedDataCache.PurgeClass | exec/TimedDataCacheBase.h:172-202 | Exactly the entries of the class go and the rest keeps its order; their keys are returned in ascending order; the code works out whether the first entry went, which it did exactly if it was of the class, and signals nobody |
| TimedDataCaches.PurgedFirst | exec/TimedDataCacheBase.h:172-202 | Purging a class takes the first entry exactly if that is of the class |
| TimedDataCaches.PurgeTakesFirst | exec/TimedDataCacheBase.h:172-202 | A run in which it does |
| TimedDataCaches.TimedDataCache.GetEvent | exec/TimedDataCacheBase.h:204-261 | Only the first entry is returned and only when its delay is over; otherwise how long that takes, or that there is nothing to wait for |
| TimedDataCaches.TimedDataCache.Remove | exec/TimedDataCacheBase.h:232-254 | One node leaves the list and both levels of the index, and an inner map that gets empty goes |
| TimedDataCaches.PurgedClass | exec/TimedDataCacheBase.h:172-202 | Dropping each pair of a class is dropping the class |
| TimedDataCaches.RunInOrder | exec/TimedDataCacheBase.h:59-257 | Under a clock that does not run backwards every run keeps the list sorted by time with distinct pairs, and never exceeds a fixed maximum that is not negative |
| TimedDataCaches.EntriesDateFromLastSet | exec/TimedDataCacheBase.h:59-135 | In every run an entry has the time of the last set of its pair |
| TimedDataCaches.NothingForgotten | exec/TimedDataCacheBase.h:59-135 | In every run a pair that is set while the cache is not full, or has it, stays with its time until it is set again, deleted, purged or returned |
| TimedDataCaches.ExpiresOldestDue | exec/TimedDataCacheBase.h:218-257 | In every run the pair getEvent returns was last set at least the delay ago, and no pair in the cache was last set before it |
| LinkedLists.List.PushBack | exec/TimedDataCacheBase.h:333-335 | A new node joins the end of the ring and the other nodes stay where they are |
| LinkedLists.List.Erase | exec/TimedDataCacheBase.h:333-335 | A node leaves the ring in constant time and the other nodes keep their order |
| OrderExpiryCaches.LateExpiryBound | exec/QC_OrderExpiryCache.h:47-113 | In any run, an order that getEvents leaves is younger than its workflow's service level, or 1800 seconds without one, plus the delay and 29 seconds for each submission between it and the head of its queue |
| OrderExpiryCaches.BoundIsTight | exec/QC_OrderExpiryCache.h:187-188 | At every distance from the head some run leaves an order one second below that bound |
| OrderExpiryCaches.EventsExactly | exec/QC_OrderExpiryCache.h:47-113 | A workflow reports exactly the orders at the head of its queue that have reached its own service level plus the delay, if that is given and not 0, and otherwise 1800 seconds plus the delay, and keeps the others |
| OrderExpiryCaches.QueuedAreSubmissions | exec/QC_OrderExpiryCache.h:179-189 | In every run the queued order with number n is the nth that came in for its workflow, and as many are counted as came in |
| OrderExpiryCaches.SubmittedExactly | exec/QC_OrderExpiryCache.h:179-189 | A submission joins the end of its workflow's queue, and no other queue changes |
| OrderExpiryCaches.ReportedExactly | exec/QC_OrderExpiryCache.h:75-108 | A report takes as many orders from the head of each queue as are counted |
| OrderExpiryCaches.RemovedExactly | exec/QC_OrderExpiryCache.h:116-133 | A removal takes the first entry of its order from the queue of its workflow, and nothing if there is none |
| OrderExpiryCaches.NothingLost | exec/QC_OrderExpiryCache.h:39-133 | In any run, as many orders as came in for a workflow are queued, were reported or were removed |
| OrderExpiryCaches.ReportsSplitQueues | exec/QC_OrderExpiryCache.h:75-108 | What is reported is the longest prefix of late orders, and the rest of the queue remains in its order |
| OrderExpiryCaches.RunKeeps | exec/QC_OrderExpiryCache.h:179-189 | Submissions that pass the assertion keep each queue roughly sorted, through removals and reports |
| OrderExpiryCaches.AllSettled | exec/QC_OrderExpiryCache.h:55-110 | Treating each workflow by itself gives the whole report and the whole remaining cache |
| OrderExpiryCaches.OrderExpiryCache.GetWorkflow | exec/QC_OrderExpiryCache.h:75-108 | One workflow's prefix is erased, and the workflow with it only if orders were reported and none is left |
| OrderExpiryCaches.OrderExpiryCache.GetEvents | exec/QC_OrderExpiryCache.h:47-113 | The counts and the cache after the loop over all workflows, each under its own threshold plus the delay |
| OrderExpiryCaches.OrderExpiryCache.RemoveOrder | exec/QC_OrderExpiryCache.h:116-133 | The first entry of the order goes and 0 is returned; 0 also for an unknown workflow, -1 for an unknown order; a queue left empty stays |
| OrderExpiryCaches.RemoveResultExactly | exec/QC_OrderExpiryCache.h:115-133 | 0 answers as documented, for an order that was queued, and for no other, exactly if the workflow is in the cache |
| OrderExpiryCaches.RemoveUnknown | exec/QC_OrderExpiryCache.h:115-133 | An empty cache answers 0 for an order that it does not have, and stays empty |
| SegmentWorkflowData.CountersCountReferences | Classes/AbstractCoreSegmentWorkflowData.qc:242-286 | Over every run `refs`, `qrefs` and `trefs` are the numbers of all, queue and temporary references held, qrefs + trefs <= refs, and the queue runs exactly while queue references are held and startStopWorkflow has not stopped it since it started; what is held is what HandlesExactly says of each step |
| SegmentWorkflowData.RunsExactlyForReferences | Classes/AbstractCoreSegmentWorkflowData.qc:345-392 | Without startStopWorkflow the queue runs exactly while `qrefs` is positive, through reset and restart |
| SegmentWorkflowData.ResetExcludesBlocks | Classes/AbstractCoreSegmentWorkflowData.qc:149-204 | Over every run no block is held or granted during a reset, and no reset begins under a block or another reset |
| SegmentWorkflowData.RestartsExactlyAlone | Classes/AbstractCoreSegmentWorkflowData.qc:209-239 | Over every run a restart goes through if and only if no block is held and its queue reference is the only one that is not temporary; otherwise its thread waits and nothing else changes hands |
| SegmentWorkflowData.RestartIsWoken | Classes/AbstractCoreSegmentWorkflowData.qc:273-277 | Over every run, whenever a waiting restart could go through, it is the only one and its wake-up is pending, whichever of the two conditions it waits on |
| SegmentWorkflowData.WaitersAreWoken | Classes/AbstractCoreSegmentWorkflowData.qc:182-204 | Over every run a thread sleeps for the end of a reset only during one, and for blocks only while one is held |
| SegmentWorkflowData.StepKeeps | Classes/AbstractCoreSegmentWorkflowData.qc:149-392 | Each step keeps accounting, exclusion, wake-ups, restarts and the running queue together |
| SegmentWorkflowData.HandlesExactly | Classes/AbstractCoreSegmentWorkflowData.qc:242-355 | A reference is held from the ref, or the blockRef that is granted, to its deref; a restart that goes through gives up one queue reference; no other step changes what is held |
| SegmentWorkflowData.BlocksExactly | Classes/AbstractCoreSegmentWorkflowData.qc:320-342 | A block is held from the blockRef or blockForDelete that finds no reset to its blockDeref |
| SegmentWorkflowData.ResetExactly | Classes/AbstractCoreSegmentWorkflowData.qc:149-189 | A reset is held from the startReset that finds neither a block nor another reset to its endReset |
| SegmentWorkflowData.QueueExactly | Classes/AbstractCoreSegmentWorkflowData.qc:242-392 | The queue starts with the first queue reference, is created for the first reference that is not temporary, stops with the last queue reference or when only temporary ones are left, runs again after a reset for queue references, and goes with a restart |
| SegmentWorkflowData.CounterExactly | Classes/AbstractCoreSegmentWorkflowData.qc:288-297 | The stop counter is there from startStopWorkflow until the orders can be purged, a signal or a restart |
| SegmentWorkflowData.RefusedSleeps | Classes/AbstractCoreSegmentWorkflowData.qc:149-239 | A thread that is not granted a reset, a block or a restart sleeps on the condition for blocks, the reset or references that it waits for |
| SegmentWorkflowData.StartsExactly | Classes/AbstractCoreSegmentWorkflowData.qc:66-87 | New data hold the first reference and nothing else, with the queue running for a queue reference and absent for a temporary one |
| SegmentWorkflowData.PurgesExactly | Classes/AbstractCoreSegmentWorkflowData.qc:244-271 | deref lets the cached orders be purged exactly when the last queue reference goes or the last of all |
| SegmentWorkflowData.LosesQueueExactly | Classes/AbstractCoreSegmentWorkflowData.qc:320-327 | The only step after which a workflow with a reference that is not temporary has no queue is a blockRef on one that has none |
| SegmentWorkflowData.QueueFoundExactly | Classes/AbstractCoreSegmentWorkflowData.qc:361-364 | The assertion that ref makes for a queue reference holds if and only if a workflow with a reference that is not temporary has its queue |
| SegmentWorkflowData.BlockedTemporary | Classes/AbstractCoreSegmentWorkflowData.qc:320-364 | A run to a state where they do not: a workflow held by a temporary reference is blocked, and the next queue reference finds no queue to start |
| SegmentWorkflowData.StopsMissingQueueExactly | Classes/AbstractCoreSegmentWorkflowData.qc:279-282 | deref stops a queue that does not exist if and only if there is none and only temporary references are left; the stop for the last queue reference always finds one |
| SegmentWorkflowData.TemporaryWithoutQueue | Classes/AbstractCoreSegmentWorkflowData.qc:279-282 | A run to a deref that stops a queue that was never created |
| SegmentWorkflowData.DeletableExactly | Classes/AbstractCoreSegmentWorkflowData.qc:394-396 | Over every run canDelete holds exactly when no reference and no block is held; then the queue does not run, no restart waits and no thread sleeps until blocks are gone |
| SegmentWorkflowData.DeletableInResetExactly | Classes/AbstractCoreSegmentWorkflowData.qc:394-396 | Over every run, during a reset canDelete holds exactly when no reference is held |
| SegmentWorkflowData.ResetKeepsData | Classes/SegmentManager.qc:279-334 | In every run in which the thread that resets keeps a reference, as its only caller does, canDelete never holds during a reset, and holds only when nobody sleeps on the data |
| SegmentWorkflowData.DeletableInReset | Classes/AbstractCoreSegmentWorkflowData.qc:394-396 | That premise is needed: a run in which the last reference goes during a reset and canDelete holds |
| SegmentWorkflowDataClass.CoreSegmentWorkflowData.Ref | Classes/AbstractCoreSegmentWorkflowData.qc:345-369 | The new state is the machine's step; refs has gone up by one and is returned |
| SegmentWorkflowDataClass.CoreSegmentWorkflowData.Deref | Classes/AbstractCoreSegmentWorkflowData.qc:242-286 | The new state is the machine's step; the answer says whether the data can be purged or that there was no queue to stop |
| SegmentWorkflowDataClass.CoreSegmentWorkflowData.StartReset | Classes/AbstractCoreSegmentWorkflowData.qc:149-172 | One turn of the loop of startReset: refused exactly if the data was deleted during the wait, otherwise the machine's step, granted exactly if the caller does not wait |
| SegmentWorkflowDataClass.CoreSegmentWorkflowData.Reset | Classes/AbstractCoreSegmentWorkflowData.qc:378-392 | The queue is replaced if a reference is not temporary, and runs if there are queue references |
| SegmentWorkflowDataClass.CoreSegmentWorkflowData.BlockRef | Classes/AbstractCoreSegmentWorkflowData.qc:320-327 | A block with a reference is refused exactly if the data was deleted during the wait for a reset, and otherwise granted exactly if no reset is in progress |
| SegmentWorkflowDataClass.CoreSegmentWorkflowData.BlockForDelete | Classes/AbstractCoreSegmentWorkflowData.qc:329-335 | The same for a block without a reference |
| SegmentWorkflowDataClass.CoreSegmentWorkflowData.DerefWaitRestart | Classes/AbstractCoreSegmentWorkflowData.qc:209-239 | The loop up to its return or wait takes the machine's step, and answers true exactly if the restart could go through |
| SegmentWorkflowDataClass.CoreSegmentWorkflowData.CanBeDeleted | Classes/AbstractCoreSegmentWorkflowData.qc:394-396 | While the invariant holds, true exactly if nobody holds a reference or a block |
| ServiceCalls.StoppedForGood | Classes/AbstractQorusCoreService.qc:803-816 | Once stopped a service stays stopped and has no references |
| ServiceCalls.NoCallsOnceStopped | Classes/AbstractQorusCoreService.qc:247-266 | In a run in which no abort meets a reference, references are the calls in progress and no call is in progress once stopped |
| ServiceCalls.AbortHarmlessExactly | Classes/AbstractQorusCoreService.qc:159-170 | In a run in which no abort has met a reference, an abort is harmless - no continuation without another such abort stops the service under a call - if and only if it meets no reference |
| ServiceCalls.AbortStrandsCalls | Classes/AbstractQorusCoreService.qc:159-170 | From every reachable state with a reference, an abort has a continuation that stops the service under the very calls that are in progress |
| ServiceCalls.ReferencesAreCalls | Classes/AbstractQorusCoreService.qc:754-777 | Over every run the references are never negative and never more than the calls in progress |
| ServiceCalls.StopWonOnce | Classes/AbstractQorusCoreService.qc:980-994 | At most one thread ever wins the stop, and it is the one recorded |
| ServiceCalls.StoppersAreWoken | Classes/AbstractQorusCoreService.qc:803-850 | A thread asleep in stop() has references to wait for: no wake-up is lost to returns or aborts |
| ServiceCalls.AbortLosesCall | Classes/AbstractQorusCoreService.qc:159-170 | A run with an abort in which a return gives back the reference of a later call, and the service stops under that call |
| ServiceCalls.StepKeeps | Classes/AbstractQorusCoreService.qc:754-850 | Each step keeps the accounting, the wake-ups and the single winner, and never undoes the stop |
| ServiceCalls.CallsExactly | Classes/AbstractQorusCoreService.qc:247-266 | A call begins with one more reference unless the service has stopped, ends with one less if there is one, and an abort drops all |
| ServiceCalls.StopsExactly | Classes/AbstractQorusCoreService.qc:980-994 | The first stop, or abort with a stop, wins for good; the service has stopped for good when a thread in the last wait finds no reference |
| ServiceCalls.StopperMoves | Classes/AbstractQorusCoreService.qc:803-850 | Only the winner tears down; an idle stop waits before the last wait, and each wait ends when there are no references |
| ServiceCalls.StopperSleeps | Classes/AbstractQorusCoreService.qc:808-813 | A turn of either wait puts the thread to sleep exactly if there are references |
| ServiceResources.StoppedAtMostOnce | Classes/AbstractQorusCoreService.qc:382-409 | However many threads add, remove and drain at once, the service stops each resource at most once, and has done so exactly if the resource is neither registered nor on its way to be stopped |
| ServiceResources.AllStopped | Classes/AbstractQorusCoreService.qc:910-928 | With the hash empty and nothing on its way, every resource handed to the service has been stopped |
| ServiceResources.DrainedOrTaken | Classes/AbstractQorusCoreService.qc:910-928 | From every state that keeps the partition and through any steps of any threads: when the hash is found empty, every resource handed over before has been stopped once, or exactly one thread has taken it out and is about to stop it |
| ServiceResources.RemovedIsStopped | Classes/AbstractQorusCoreService.qc:394-409 | Whatever other threads do between the removal and the stop, what was registered under the tag has been stopped once |
| ServiceResources.StepKeeps | Classes/AbstractQorusCoreService.qc:382-409 | Each resource is registered, on its way or stopped, and only one of these, after every step |
| ServiceResources.AddExactly | Classes/AbstractQorusCoreService.qc:382-392 | A resource with a new tag is registered last and not stopped, and one with a tag in use is stopped and not registered |
| ServiceResources.RemoveExactly | Classes/AbstractQorusCoreService.qc:394-409 | Exactly the resource with the tag leaves the hash and is on its way to be stopped, and nothing happens without one |
| ServiceResources.DrainExactly | Classes/AbstractQorusCoreService.qc:910-928 | A draining thread takes the first resource, or ends with the hash empty; what it has taken is stopped once more |
| ServiceClass.CoreService.Deref | Classes/AbstractQorusCoreService.qc:754-777 | One reference less and a broadcast for the last; with none left nothing is taken |
| ServiceClass.CoreService.Aborted | Classes/AbstractQorusCoreService.qc:159-185 | All references are dropped and the waiting woken; true exactly if a stop was asked for and is under way; without one the resources are drained here, whatever other threads do to them meanwhile |
| ServiceClass.CoreService.BeginStop | Classes/AbstractQorusCoreService.qc:822-828 | The first caller, and nobody else, tears the service down |
| ServiceClass.CoreService.AddResource | Classes/AbstractQorusCoreService.qc:375-392 | A new tag is registered; with one in use the new resource is stopped and the caller told |
| ServiceClass.CoreService.RemoveResource | Classes/AbstractQorusCoreService.qc:394-409 | There is no such resource, or it leaves the hash and is stopped, with any steps of other threads in between |
| ServiceClass.CoreService.TakeFirst | Classes/AbstractQorusCoreService.qc:917-926 | The locked part of a turn takes the first resource out, or ends the drain with the hash empty |
| ServiceClass.CoreService.StopTaken | Classes/AbstractQorusCoreService.qc:926-942 | What the thread has taken out is stopped, once |
| ServiceClass.CoreService.StopAllResources | Classes/AbstractQorusCoreService.qc:910-928 | With any steps of other threads between the steps of the loop, the loop ends, finds the hash empty, and the whole is a run of the machine whose other steps are those of the draining thread |

## Left out

- Waking of the listener of the timed cache: the methods say when it is signalled, nothing is claimed about delays; terminate and requeue are not modelled.
- The backend half of reprioritize: it searches by order id like the backend half of removeWorkflowOrder.
- merge_all and the merging of backend queues: they rebuild the lookup of the queue merged into, but overwrite the lookup of an order that both queues hold.
- PrimaryQueueClass.PrimaryQueue.Reprioritize: finds an active order in its sub-queue by its id. `pmap` holds std::deque iterators instead, which every insertion into the sub-queue invalidates, at its end too, and every erasure in its middle; the model does not say when a stored iterator can still be used.
- PrimaryQueueClass.PrimaryQueue.Resched: finds an active order by its id, as Reprioritize.
- PrimaryQueues.RemovedActiveAgrees: erases the order with the id, as Reprioritize.
- The primary queue beside the scheduler: they share one mutex and the termination of connections, which a pass and a broadcast take into account, and are a machine each; a scheduled order that removeWorkflowOrder has left in the queue is not followed further.
- Which of several sleeping threads a signal wakes is an argument of the step.
- SegmentEventQueueClass.SegmentEventQueue.GetRetryEvent: the delays are arguments; looking them up in the options is left out.
- init and add of whole lists of backend and retry events: a list of submissions is the submissions one by one with a broadcast at the end, both of which are steps.
- `classmap` is keyed by a 32-bit integer while class ids have 64 bits: class ids are taken to fit.
- OrderExpiryCaches.OrderExpiryCache.GetEvents: a missing hash of thresholds is an empty one.
- SegmentWorkflowDataClass.CoreSegmentWorkflowData.StartReset: that the data was deleted during a wait is an argument; the machine has no step that deletes, and `ResetKeepsData` says that nobody sleeps when it may be. Its stop counter is a flag.
- The processes and queues behind `startProcess`, `createWorkflowQueue` and `stopProcess`, and exceptions they throw: the model keeps whether the queue exists and was last started or stopped; a remote queue ignores both messages.
- Block counts of workflows that are not loaded (`BC` in Classes/SegmentManager.qc): they belong to the segment manager.
- resourceRemovedNotification: its local variable hides the resource hash, so that it changes nothing.
- disableResourcesForRestart of Classes/RemoteQorusService.qc: it takes resources that can be disabled out of the hash without stopping them.
- Service start, method locks, statistics and persistence; performance caches, jobs, the messaging client and process classes, and all value plumbing: no shared state machine of this kind, or a weaker twin of one above.
