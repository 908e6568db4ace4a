# Verified models of five Windows driver algorithms

Small concurrent or in-place algorithms from five Windows drivers, modelled in Dafny and proved correct, or
proved wrong exactly where they are:

- the **watchdog driver** (`watchdog/`): reference-counted watchdog objects whose client DPC carries events; the
  deferred watchdog, a polled state machine; the standard watchdog, a countdown in thread time; and the display
  driver's single-flight event handler;
- the **biometric device library** (`bio/bdl/`): the linked list of data handles with its drain and its
  all-or-nothing insert, the rate limit on control changes, and the notification pipeline from interrupt to request;
- the **WMI library** (`wmilib/`): the all-data query with its in-place expansion and retry, and the registration
  block;
- the **Dot4 USB driver** (`dot4/dot4usb/`): the ownership of the interrupt poll IRP;
- the **analog joystick** (`input/joystick/`): the sampling loop and its measurement error.

## How it is built

Each component has functions on values that say what one atomic step of the source does (a region under a lock, an
interlocked operation, one completion), a class or methods that update the fields, arrays and links in place and are
proved to take exactly those steps, and lemmas about the steps. `Runs.dfy` turns steps into runs: any number of steps
in any order that their guards allow. A theorem about a run therefore covers every interleaving of callers, timers,
DPCs, workers and completions. Kernel calls are steps or parameters: what a timer, a counter, the pool, the I/O
manager or the driver below answers is arbitrary within the contracts below.

| file | content |
|---|---|
| Base, Runs | sequences and 32-bit arithmetic; transition systems, invariants over runs |
| ThreadTime, WatchObject | thread-time measurement; the reference-counted object |
| DeferredSpec, DeferredReferences, DeferredTrigger, DeferredHistory, NoFalseTimeout, TimeoutComes, DeferredGuard, DeferredSuspend, DeferredExamples, DeferredWatch | the deferred watchdog |
| StandardSpec, StandardTimer, StandardHistory, StandardUnfired, StandardCountdown, StandardShortfall, StandardWatch | the standard watchdog |
| EventHandler, HandlerProgress, DisplayWatch | the display driver's event handler, alone and with a deferred watchdog |
| HandleList, DataHandles | the handle list, its drain and its all-or-nothing insert |
| RateLimit, NotificationSpec, NotificationFlow, NotificationEffects, Notification | the notification pipeline |
| PollLoopSpec, PollLoopSafety, PollLoopWaiting, PollLoopCancel, PollLoopRequests, PollLoop | the interrupt poll loop |
| WmiAllData, WmiRegInfo | the two WMI formats |
| Joystick | the analog poll |

## Main results

- **Watchdog references.** After every run the reference counts of object and threads are exactly owner + queued +
  delivered + lost events; the object is destroyed once, and exactly when nothing is outstanding
  (`DeferredReferences.DestroyedExactly`, `StandardTimer.ReferencesBalance`). Only Stop on a timed-out deferred watch
  loses an event, and it leaks the object for good (`LosesEventExactly`, `LostEventLeaks`).
- **Timeouts.** Every timeout of every run of the deferred watchdog has a tick that started it and a thread stuck in
  its section in between (`NoFalseTimeout.TimeoutMeansStuck`), and a thread that stays stuck gets its timeout at the
  first tick whose measure reaches the period (`TimeoutComes.FirstTickToReachRaises`).
- **Events.** In every run of either watchdog each event raised was delivered to the client, taken back by Stop,
  dropped because the client DPC was still queued, or is queued (`DeferredHistory.EventsAccounted`,
  `StandardHistory.TimeoutsAccounted`); and while the deferred watchdog waits for a completion nothing is raised
  (`DeferredTrigger.NothingRaisedWhileBlocked`).
- **Watchdog and client.** The display driver's handler completes exactly what its watch delivered, and while it has an
  incident under way the watch and its thread stay (`DisplayWatch.AliveUnderWay`); its assertion that a timeout has a
  thread holds in every run that raises no timeout under an unfinished recovery (`WorkersAssertionHolds`). Left alone
  it comes to rest with every event completed (`HandlerProgress.ComesToRest`).
- **Countdown.** The standard watchdog charges exactly the thread time between its readings, however its waits were
  cut, fires at the first tick whose charge reaches the request, and not before the requested thread time has passed,
  unless a full-time measurement runs ahead (`StandardCountdown`). What runs
  between the last reading and a suspend is never charged: the charge is the running time less exactly the sum of those
  stretches, and equal to it exactly if there were none (`StandardShortfall`).
- **Conservation and order.** No accepted control change is lost, duplicated, altered or reordered between interrupt
  and request, in every run; wakeups are lost exactly by failed allocations (`NotificationFlow.NothingLost`,
  `AwakeExactly`); and clients are handed exactly those items (`NotificationEffects.ClientsGetDelivered`).
- **Poll IRP ownership.** Buffers and IRPs are freed once, by their owners, and not touched after that, in every run
  that launches no loop while an IRP that a Stop waits for is still at the driver below; and any start that does can
  lead to a fault (`PollLoopSafety.RunSound`, `StartFaultsExactly`). What is leaked is stated exactly as well
  (`LeaksExactly`), and so is when a waiting Stop has neither the event nor an awaited IRP below that will set it
  (`PollLoopWaiting.FinishableThroughoutExactly`). Once a Stop has cancelled its IRP, the next completion of that IRP
  lets it finish, whatever came in between (`PollLoopCancel.CancelEnds`).
- **All or nothing.** A channel's products are all listed or the list is as it was, contents and order
  (`DataHandles.DoChannel`, `RollbackExactly`).
- **In-place formats.** The two loops of the all-data query keep every length and place disjoint, aligned intervals
  exactly as long as the last one starts below 2^32; a retry with the returned size succeeds exactly when that size
  did not wrap; the registration block reads back as it was written (`WmiAllData`, `WmiRegInfo`).
- **Measurement error.** A joystick time is within 100 microseconds of the truth whatever delayed the loop
  (`Joystick.AnalogPoll`).

## Where the code falls short of its intent

The code is modelled as it is; these lemmas say exactly when it misses, and give an input with which it does:

- The rollover branches subtract the old counter twice, so a rollover shortens the measured time; sums of two counters
  in 32 bits can lengthen it (`ThreadTime.FullTimeEarlyExactly`, `FullTimeCanBeEarly`).
- Suspending a standard watchdog reads no counter, so the time since the last tick is dropped; a watch for 60 seconds
  that is paused every 30 never fires (`StandardShortfall.ChargeIsRunningTimeExactly`, `PausedNeverFires`).
- A standard watchdog started with due time 0 never fires when it is suspended before its tick or was started while
  suspended: the resume takes the due time for one that was used up (`StandardUnfired.ServedThroughoutExactly`,
  `ForgottenNeverComes`, `ZeroDueTimeIsLost`).
- Stop of a deferred watchdog ignores whether a queued event was removed (`DeferredReferences.LosesEventExactly`,
  `DeferredExamples.StopLosesQueuedTimeout`).
- The trigger that should be 2 while an event is queued is cleared or overwritten under it, by a tick that queues a
  recovery among others (`DeferredGuard.GuardedExactly`, `DeferredExamples.TriggerOverwritten`). Then the branches that
  should never happen are taken, and a timeout finds a recovery in the queue (`DeferredGuard.DropsExactly`,
  `MatchesExactly`, `DeferredExamples.TimeoutDropped`).
- A handler reads the last event when it runs, which need not be its own. It finds a timeout and no thread exactly if a
  timeout was raised while a recovery was queued or being handled, for which no guard need be lost
  (`DeferredGuard.ThreadedThroughoutExactly`, `DeferredExamples.TimeoutWithoutThread`); events and handlers disagree
  exactly if one is dropped or overtaken (`DeferredGuard.AgreesThroughoutExactly`).
- Resuming a deferred watchdog takes two interlocked operations; two that overlap can leave a watch suspended that
  nobody suspended (`DeferredSuspend.CountExactly`, `TwoResumesSuspend`).
- The membership test of the handle list tests the head (`HandleList.List.ValidateHandleIsInList`).
- The rollback removes products that were never added (`DataHandles.RollbackExactly`). That shows only if NULL is in
  the list, which `NullNeverAdded` rules out for lists that are built by adding products.
- The rate limit on control changes admits nine calls in a window, where its comment speaks of ten, refuses one 2^32
  seconds later (`RateLimit.RefusedExactly`, `RefusedAfterAges`), and admits up to 18 calls in one tick
  (`AtMostEighteenInASecond`, `EighteenInOneTick`).
- A failed allocation ends the notification DPC early (`NotificationFlow.AwakeExactly`, `WakeupCanBeLost`).
- A poll loop started while an IRP of a stopped one is still below lets that IRP be freed in use; one started while a
  context is left leaks its buffers (`PollLoopWaiting.HarmfulStartHappens`, `LeakHappens`). Any start takes back the
  event that a Stop waits for: if it meets a remove, the Stop waits for nothing; if it succeeds, the Stop waits for the
  new loop, which nobody may stop (`FinishableExactly`, `StrandingHappens`, `DependenceHappens`).
- The space for the pairs of the all-data query is computed in 32 bits: 2^29 instances seem to need none
  (`WmiAllData.PairsFitExactly`, `PairsOverrun`).
- The registration block has no room for a name that comes with the PDO flag, and the size needed is written even
  where there are fewer than four bytes (`WmiRegInfo.SpillsExactly`, `WritesInsideExactly`, `SpillHappens`).

## Model

| member | source | states |
|---|---|---|
| ThreadTime.MeasureThreadTime | watchdog/dwd.c:816-881 | the switch of both timer callbacks, with its 32-bit sums and rollover branches, computes the true modular distance less what the branches lose |
| ThreadTime.SingleCounterNeverEarly | watchdog/dwd.c:822-850 | for kernel or user time the measure never exceeds the time that passed between true counts less than 2^32 apart, equals it exactly when the counter did not roll over, and falls short by the old reading when it did |
| ThreadTime.MovedIsDistance | watchdog/dwd.c:828-833 | the modular difference of two 32-bit readings is the distance of the true counts; the reading goes down exactly when a multiple of 2^32 was crossed |
| ThreadTime.FullTimeEarlyExactly | watchdog/dwd.c:856-872 | full time is exact without rollover and overflow, and runs ahead of the true time exactly when the old sum overflowed, the new one did not, and the rolled-over counters lose less than 2^32 |
| ThreadTime.FullTimeCanBeEarly | watchdog/watchdog.c:733-750 | two readings for which 2^31 ticks of full time are measured as 2^32 |
| ThreadTime.FullTimeMeasures | watchdog/dwd.c:856-872 | full time in true counts: the time that passed, less the old reading for each rollover, plus the carry that the old 32-bit sum lost, less that of the new one |
| ThreadTime.ScalingFits | watchdog/dwd.c:887-888 | for time increments below 2^30 the scaled measure stays inside a signed 64-bit integer |
| WatchObject.WatchdogObject.constructor | watchdog/object.c:593-618 | a new object has one reference, no event and no queued thread |
| WatchObject.WatchdogObject.ReferenceObject | watchdog/object.c:387-429 | adds one reference and changes nothing else |
| WatchObject.WatchdogObject.DereferenceObject | watchdog/object.c:197-204 | drops one reference and destroys the object exactly when none is left |
| WatchObject.WatchdogObject.CompleteEvent | watchdog/object.c:99-155 | drops the thread reference, if there is a thread, and one object reference |
| WatchObject.WatchdogObject.QueueClientDpc | watchdog/dwd.c:984-1066 | references are taken before the DPC is queued and given back if it was queued already; otherwise the queued thread is remembered |
| WatchObject.WatchdogObject.WithdrawQueuedEvent | watchdog/watchdog.c:382-392 | an event that leaves the DPC queue undelivered is completed here with the thread it was queued for |
| WatchObject.RaiseAccounted | watchdog/dwd.c:972-1079 | raising an event keeps the object and thread reference counts equal to owner + queued + delivered + discarded, and the object destroyed exactly at zero |
| WatchObject.DeliverAccounted | watchdog/gdisup.c:105-125 | delivering the client DPC keeps the object and thread reference counts equal to owner + queued + delivered + discarded, and the object destroyed exactly at zero |
| WatchObject.CompleteDeliveredAccounted | watchdog/object.c:124-155 | completing a delivered event keeps the object and thread reference counts equal to owner + queued + delivered + discarded, and the object destroyed exactly at zero |
| WatchObject.WithdrawAccounted | watchdog/dwd.c:381-388 | taking an event back with its references keeps the object and thread reference counts equal to owner + queued + delivered + discarded, and the object destroyed exactly at zero |
| WatchObject.DiscardAccounted | watchdog/dwd.c:376-380 | discarding a queued event keeps the object and thread reference counts equal to owner + queued + delivered + discarded, and the object destroyed exactly at zero |
| WatchObject.ReleaseAccounted | watchdog/dwd.c:179-182 | giving back the owner reference keeps the object and thread reference counts equal to owner + queued + delivered + discarded, and the object destroyed exactly at zero |
| DeferredWatch.DeferredWatchdog.constructor | watchdog/dwd.c:89-126 | a new deferred watchdog is stopped, with counters, trigger and snapshots zero |
| DeferredWatch.DeferredWatchdog.Start | watchdog/dwd.c:283-293 | counters, snapshots, trigger and thread are cleared, the period and the client DPC stored |
| DeferredWatch.DeferredWatchdog.Stop | watchdog/dwd.c:366-403 | a started watch takes its event back and is cleared; a stopped one is untouched |
| DeferredWatch.DeferredWatchdog.TakeBackEvent | watchdog/dwd.c:374-389 | after a timeout the queue entry is dropped whatever it was and a recovery is raised; any other queued event is completed; trigger, last queued thread and everything else of the new state |
| DeferredWatch.DeferredWatchdog.Suspend | watchdog/dwd.c:437-444 | adds one suspension in 32 bits |
| DeferredWatch.DeferredWatchdog.Resume | watchdog/dwd.c:474-494 | when nothing runs in between: takes one suspension away but not below zero, or all of them; its two interlocked operations are two steps, each keeping the invariant |
| DeferredWatch.DeferredWatchdog.Reset | watchdog/dwd.c:534-547 | clears the section counters and the trigger, inside or outside the section |
| DeferredWatch.DeferredWatchdog.EnterMonitoredSection | watchdog/dwd.c:591-617 | binds the section to the calling thread, clearing the trigger if it is a new one, then counts |
| DeferredWatch.DeferredWatchdog.ExitMonitoredSection | watchdog/dwd.c:646-661 | counts the exit |
| DeferredWatch.DeferredWatchdog.TimerDpcCallback | watchdog/dwd.c:712-919 | the polled state machine: by trigger, suspension, progress, section and measured thread time |
| DeferredWatch.DeferredWatchdog.QueueDeferredEvent | watchdog/dwd.c:958-1082 | stores the event, queues the client DPC with references and sets the trigger to 2 exactly when it was not queued |
| DeferredWatch.DeferredWatchdog.CompleteDeliveredEvent | watchdog/object.c:138-154 | a delivered event is completed: trigger cleared, references dropped |
| DeferredWatch.DeferredWatchdog.Free | watchdog/dwd.c:154-185 | stops the watch, lets a queued DPC run, then gives back the owner reference |
| DeferredReferences.StepSound | watchdog/dwd.c:330-1082 | every call, tick, delivery and completion keeps the state invariant: references, stopped watches, trigger range, event order |
| DeferredReferences.RunSound | watchdog/dwd.c:133-1082 | the invariant holds after every run, whatever the order of its steps |
| DeferredReferences.StopSound | watchdog/dwd.c:366-403 | Stop keeps the invariant and never destroys the object |
| DeferredReferences.TickSound | watchdog/dwd.c:712-919 | a tick keeps the invariant |
| DeferredReferences.QueueEventSound | watchdog/dwd.c:972-1079 | queueing an event keeps the invariant; a recovery only while a timeout stands |
| DeferredReferences.ReferencesBalance | watchdog/dwd.c:376-388 | after every run the reference count is owner + queued + delivered + discarded, and each thread has one reference per event that carries it |
| DeferredReferences.DestroyedExactly | watchdog/object.c:197-204 | the object is destroyed at most once, and is gone exactly when it was freed and every event ever queued was completed |
| DeferredReferences.LosesEventExactly | watchdog/dwd.c:376-380 | the events lost grow in exactly one step: Stop while the last event is a timeout and the DPC is queued |
| DeferredReferences.LostEventLeaks | watchdog/dwd.c:376-380 | once an event was lost, the object is never destroyed in any continuation |
| DeferredReferences.EventDiscipline | watchdog/dwd.c:735-750 | the events stored form a prefix of (Timeout+ Recovery)*, the last is the last event, and a stopped watch never has a standing timeout |
| DeferredReferences.TriggerTwoHasEvent | watchdog/dwd.c:901-907 | while trigger 2 blocks the watch some event is queued or delivered, so it can be completed |
| DeferredTrigger.BlockedExactly | watchdog/dwd.c:901-907 | trigger 2 stays 2, the event queued, delivered or being handled, until exactly a Start, a Reset, a completion, a Stop of a started watch, or another thread entering; and no step that leaves it raises anything |
| DeferredTrigger.NothingRaisedWhileBlocked | watchdog/dwd.c:901-907 | in every run, from a state with trigger 2 on, no event is raised until one of those steps comes |
| DeferredTrigger.TriggerTwoExactly | watchdog/dwd.c:989-1054 | the trigger becomes 2 exactly by a tick that queues an event and does not take a snapshot after it |
| DeferredTrigger.TriggerOneExactly | watchdog/dwd.c:766-809 | the trigger is 1 after a step exactly if the step took a snapshot, or found a watching watch and left it undisturbed without queueing an event |
| DeferredTrigger.SnapshotExactly | watchdog/dwd.c:771-775 | what a snapshot noted stays until the next one, a Start, or a Stop of a started watch |
| DeferredTrigger.TakesBackExactly | watchdog/dwd.c:374-389 | after a timeout a recovery is in the queue and the trigger 2; otherwise the queue is empty, and the trigger cleared if an event was completed |
| DeferredHistory.FieldsRecordCalls | watchdog/dwd.c:283-661 | in every run: started and period are those of the latest Start, the thread is the one that entered last, and the section counters count the enters and exits since the latest Start, Reset or effective Stop |
| DeferredHistory.NobodyInsideAfresh | watchdog/dwd.c:534-547 | nobody is inside the section after a Start, a Reset, or a Stop of a started watch |
| DeferredHistory.EventsAccounted | watchdog/dwd.c:972-1079 | in every run each event raised was delivered to the client, taken back by Stop, dropped at a full queue, or is queued |
| DeferredGuard.StepPlaces | watchdog/dwd.c:330-1082 | for every step: which event is raised, if any, and what is logged, last, queued and delivered after it |
| NoFalseTimeout.TimeoutExactly | watchdog/dwd.c:777-897 | a timeout is raised exactly by a tick of a started, unsuspended watch with trigger 1, inside the section, without progress, whose measured time reached the period |
| NoFalseTimeout.SnapshotInForce | watchdog/dwd.c:771-809 | whenever the trigger is 1, an earlier tick of the run took the snapshot in force and every step since left it alone |
| NoFalseTimeout.NoFalseTimeout | watchdog/dwd.c:712-897 | every timeout of every run has such a tick; between the two the same thread was inside, enters and exits are multiples of 2^32, and the measured time between the ticks reached the period |
| NoFalseTimeout.TimeoutMeansStuck | watchdog/dwd.c:802-897 | in runs of at most 2^32 steps nobody entered or left the section in between, and for kernel and user time the true thread time reached the period |
| DeferredExamples.StopLosesQueuedTimeout | watchdog/dwd.c:376-380 | a reachable state in which Stop loses a queued timeout |
| DeferredGuard.GuardedExactly | watchdog/dwd.c:735-775 | while an event is queued the trigger is 2, until exactly one of these steps: a Start, Reset or completion, or another thread entering, with an event queued; a Stop after a timeout; a tick that raises a recovery inside the section and then overwrites the trigger |
| DeferredGuard.DropsExactly | watchdog/dwd.c:1009-1066 | the branches that should never happen are taken exactly by a tick that raises a recovery with trigger 0, or a timeout with trigger 1, while the DPC is queued; the event is stored and the queue keeps the older one |
| DeferredGuard.DropsOnlyUnguarded | watchdog/dwd.c:1009-1066 | as long as the guard holds those branches are not taken |
| DeferredGuard.MatchesExactly | watchdog/dwd.c:972-1066 | the queued event and the last event come apart exactly when the dropped event is not of the kind of the queued one |
| DeferredGuard.GuardedRuns | watchdog/dwd.c:133-1082 | in every run without a step that loses the guard the trigger guards every queued event, nothing is dropped, and the queued event is of the kind of the last one |
| DeferredGuard.ClearExactly | watchdog/gdisup.c:193-267 | while queued and last event agree, the delivered events agree with the last one until exactly this: something is delivered, and a tick or Stop raises a recovery, or a tick raises a timeout after another event |
| DeferredGuard.AgreesThroughoutExactly | watchdog/gdisup.c:193-267 | queued, delivered and last event agree throughout exactly the runs in which no event of another kind is dropped or raised over one that is being handled |
| DeferredGuard.ThreadedExactly | watchdog/gdisup.c:259-267 | with a timeout as last event no event without a thread is queued or delivered, until exactly a tick that raises a timeout while a recovery is queued or being handled |
| DeferredGuard.ThreadedThroughoutExactly | watchdog/gdisup.c:259-267 | the assertion that a timeout has a thread cannot fail throughout exactly the runs without such a tick |
| DeferredSuspend.CountExactly | watchdog/dwd.c:477-493 | every step settles to the intended number of suspensions exactly if it is not a resume that sees the passing -1 of another or wipes out what another has yet to add |
| DeferredSuspend.UnderZeroExactly | watchdog/dwd.c:485-488 | with nothing suspended a resume leaves the count under zero exactly when it finds the passing -1 of another |
| DeferredSuspend.CountsSuspensions | watchdog/dwd.c:437-494 | in every run without such an overlap the settled count is the number of suspensions not yet resumed |
| DeferredSuspend.TwoResumesSuspend | watchdog/dwd.c:485-488 | a run of three steps, two resumes that overlap and no suspend, that ends with 2^32 - 1 suspensions where none is intended |
| DeferredExamples.TriggerOverwritten | watchdog/dwd.c:749-775 | a reachable state with trigger 1 although an event is queued |
| DeferredExamples.TimeoutDropped | watchdog/dwd.c:1058-1066 | a reachable state in which the last event is a timeout that was dropped, and a recovery is queued |
| DeferredExamples.TimeoutWithoutThread | watchdog/gdisup.c:259-267 | a state reached without losing the guard or dropping anything: another thread gets stuck while a recovery is being handled, whose handler finds a timeout and no thread |
| TimeoutComes.FirstTickToReachRaises | watchdog/dwd.c:777-897 | after a snapshot, as long as nothing disturbs the watch and nobody enters or leaves, a tick of the unsuspended watch raises the timeout exactly if its measure reaches the period, unless an earlier one did |
| StandardWatch.Watchdog.constructor | watchdog/watchdog.c:113-146 | a new watchdog has no starts, suspensions, due time or timer |
| StandardWatch.Watchdog.Start | watchdog/watchdog.c:251-305 | counts the start up to the maximum, makes the due time relative, reads the thread time, and arms the timer with the wait cut to WD_MAX_WAIT unless suspended |
| StandardWatch.Watchdog.Stop | watchdog/watchdog.c:359-406 | counts down, or to zero; at zero the timer is cancelled, a queued event completed and everything cleared |
| StandardWatch.Watchdog.Suspend | watchdog/watchdog.c:458-463 | the first suspension of a started watch cancels its timer |
| StandardWatch.Watchdog.Resume | watchdog/watchdog.c:514-562 | the resume that ends the suspension reads the thread time and rearms the timer if time is left |
| StandardWatch.Watchdog.Reset | watchdog/watchdog.c:609-631 | the due time and the reading start again, and the timer is armed unless suspended |
| StandardWatch.Watchdog.TimerDpcCallback | watchdog/watchdog.c:693-831 | charges the measured time; raises the timeout when none is left, else rearms |
| StandardWatch.Watchdog.Free | watchdog/watchdog.c:185-203 | stops the watch and gives back the owner reference; nothing is queued or set |
| StandardWatch.Watchdog.CompleteDeliveredEvent | watchdog/object.c:124-155 | a delivered event is completed: its references are dropped |
| StandardTimer.StepSound | watchdog/watchdog.c:207-831 | every call, tick, delivery and completion keeps the invariant: references without loss, timer, due times |
| StandardTimer.RunSound | watchdog/watchdog.c:207-831 | the invariant holds after every run |
| StandardTimer.ReferencesBalance | watchdog/watchdog.c:376-392 | after every run the reference count is exactly owner + queued + delivered, per thread likewise, and the object is destroyed exactly when none is left |
| StandardTimer.TimerAlwaysExact | watchdog/watchdog.c:297-831 | in every run with nonzero due times the timer is set exactly while the watch is started, unsuspended and has time left, to at most WD_MAX_WAIT |
| StandardTimer.StartExactly | watchdog/watchdog.c:297-305 | right after Start that rule holds exactly if the due time is not 0 or the watch is suspended |
| StandardUnfired.ServedExactly | watchdog/watchdog.c:514-562 | a started, unsuspended watch that was armed and has not fired has its timer set, until exactly a resume that ends the suspension of an unfired watch whose due time is 0 |
| StandardUnfired.ServedThroughoutExactly | watchdog/watchdog.c:251-831 | that holds throughout exactly the runs without such a resume |
| StandardUnfired.ForgetsOnlyZero | watchdog/watchdog.c:258-290 | in every run such a watch was asked for due time 0 |
| StandardUnfired.ForgottenNeverComes | watchdog/watchdog.c:540-562 | after such a resume nothing is raised until the next start or reset |
| StandardUnfired.ZeroDueTimeIsLost | watchdog/watchdog.c:251-562 | a start with due time 0 is lost when it is suspended before its tick, and also when it is made under suspension, by the resume |
| StandardTimer.StepRaises | watchdog/watchdog.c:771-811 | a step raises at most the timeout the watch was armed for |
| StandardTimer.OneTimeoutPerArm | watchdog/watchdog.c:771-811 | in any stretch of any run at most one timeout is raised per Start or Reset, and one left over from before |
| StandardHistory.FieldsRecordCalls | watchdog/watchdog.c:251-631 | in every run the start count is the number of starts not yet stopped, the suspend count that of suspensions not yet resumed, the thread and the request are those of the latest Start |
| StandardHistory.TimeoutReachesClient | watchdog/watchdog.c:777-808 | whenever a step raises anything it is a timeout: the client DPC is queued with the thread of the watch and a reference on thread and object, unless it was queued; then queue and references stay |
| StandardHistory.StepPlaces | watchdog/watchdog.c:359-808 | for every step: what is logged, queued and delivered after it |
| StandardHistory.TimeoutsAccounted | watchdog/watchdog.c:376-808 | in every run each timeout was delivered to the client, taken back by Stop, dropped at a full queue, or is queued |
| StandardHistory.DueTimeShows | watchdog/watchdog.c:697-831 | in every run, for all kinds of time and with rollovers: while time is left, the due time is the request plus what was measured between the readings since the latest start or reset |
| StandardHistory.FiresExactly | watchdog/watchdog.c:769-812 | a tick raises the timeout exactly if with its reading that much was measured |
| StandardCountdown.CountdownExact | watchdog/watchdog.c:761-831 | without rollover, however a wait is cut into timer chunks, the due time is the request plus the time increment times the thread time between the readings: from start, reset or resume up to the latest tick; what runs between a tick and a suspend is not charged |
| StandardCountdown.FiresAtFirstTick | watchdog/watchdog.c:769-812 | a tick raises the timeout exactly when the charge with it reaches the request, and before it the charge had not |
| StandardCountdown.TickAgrees | watchdog/watchdog.c:761-769 | one tick charges exactly the distance of the counter |
| StandardCountdown.StepAgrees | watchdog/watchdog.c:251-831 | every step keeps countdown and ideal meter in agreement |
| StandardCountdown.NeverEarly | watchdog/watchdog.c:697-771 | in every run, rollovers included, no timeout is raised before the requested thread time has passed: for kernel and user time always, for full time if no measurement ran ahead |
| StandardShortfall.ChargeFallsShort | watchdog/watchdog.c:458-562 | in every run the charge is the thread time that ran while the watch was counting, less the sum over suspends of the counter then minus the last reading |
| StandardShortfall.ChargeIsRunningTimeExactly | watchdog/watchdog.c:458-562 | without rollover the charge is never more than the running time, and equal to it exactly if no suspend found the counter moved since the last reading |
| StandardShortfall.PauseChargesNothing | watchdog/watchdog.c:540-562 | however long the thread ran since the last reading, a suspend and a resume leave the due time as it was and move the reading |
| StandardShortfall.PausedNeverFires | watchdog/watchdog.c:458-562 | a watch for 60 seconds, paused every 30 seconds any number of times, charges nothing and raises nothing while its thread runs on |
| EventHandler.StepKeeps | watchdog/gdisup.c:105-125 | every step of callbacks and workers keeps the single-flight invariant |
| EventHandler.RunKeeps | watchdog/gdisup.c:105-774 | the single-flight invariant holds in every interleaving |
| EventHandler.NeverReused | watchdog/gdisup.c:109-116 | the bugcheck data are not written while in use, the work item is queued at most once, and never while its worker runs |
| EventHandler.CompletedOnce | watchdog/gdisup.c:118-125 | completions and events under way add up to deliveries for each event; when nothing is under way each was completed exactly once |
| EventHandler.WorkerHandlesItsEvent | watchdog/gdisup.c:176-181 | a worker reads the data its own callback wrote |
| EventHandler.DisplayHandler.DdiWatchdogDpcCallback | watchdog/gdisup.c:105-125 | a callback that wins the exchange writes the data and queues the item; any other completes its event at once |
| EventHandler.DisplayHandler.BugCheckStuckDriver | watchdog/gdisup.c:761-774 | a worker ends in a bugcheck, or returns to IDLE and then completes its event |
| DisplayWatch.CompletesWhatItWasGiven | watchdog/gdisup.c:105-125 | the handler completes only events that the watch delivered and nobody completed, with their threads: what a client of the watch has to do |
| DisplayWatch.JointStepKeeps | watchdog/gdisup.c:105-774 | watch and handler together: in every step the events delivered and not completed are the incidents under way |
| DisplayWatch.WatchRuns | watchdog/gdisup.c:105-774 | beside the handler the watch goes through its own runs only, so what holds of those holds here |
| DisplayWatch.AliveUnderWay | watchdog/gdisup.c:105-774 | while an incident is under way, from its callback to its completion, the watch is not destroyed and its thread is referenced |
| DisplayWatch.WorkersAssertionHolds | watchdog/gdisup.c:193-267 | the worker finds a thread with a timeout in every run in which no timeout is raised while a recovery is queued or being handled; exact for watch and handler together |
| HandlerProgress.AcceptsExactly | watchdog/gdisup.c:105-125 | a callback wins the exchange exactly if the handler is idle, and is refused otherwise |
| HandlerProgress.IdleExactly | watchdog/gdisup.c:761-767 | a busy handler becomes idle exactly when a worker is done |
| HandlerProgress.WorkDecreases | watchdog/gdisup.c:105-774 | every step of callbacks and workers, a bugcheck apart, brings what is under way one step nearer to its end |
| HandlerProgress.ComesToRest | watchdog/gdisup.c:105-774 | without new events the handler can go on for exactly the steps that are left, in whatever order, and is then idle with every event completed |
| HandleList.List.constructor | bio/bdl/bdlutil.c:153-162 | a new list is empty |
| HandleList.List.Add | bio/bdl/bdlutil.c:165-211 | the handle goes to the front; without memory nothing changes; head, tail, links and count stay those of the sequence |
| HandleList.List.Remove | bio/bdl/bdlutil.c:214-273 | TRUE exactly if the handle was present; exactly its first occurrence goes, and its node is freed: no node is leaked and none of the list is freed |
| HandleList.List.UnlinkFirst | bio/bdl/bdlutil.c:221-268 | the node of the first occurrence taken out of the chain, not freed yet |
| HandleList.List.FreeNode | bio/bdl/bdlutil.c:270-270 | a node that is allocated is freed |
| HandleList.List.UnlinkHead | bio/bdl/bdlutil.c:230-242 | unlinking the head, alone or not |
| HandleList.List.Search | bio/bdl/bdlutil.c:243-257 | the walk stops at the first occurrence behind the head, with the node before it |
| HandleList.List.Unlink | bio/bdl/bdlutil.c:259-268 | unlinking a node behind the head, which may be the tail |
| HandleList.List.GetFirst | bio/bdl/bdlutil.c:275-291 | FALSE exactly for the empty list, else the first handle |
| HandleList.List.ValidateHandleIsInList | bio/bdl/bdlutil.c:293-315 | answers TRUE exactly for the empty list, so it is right exactly for a handle missing from a list that is not empty |
| HandleList.RemoveFirstAt | bio/bdl/bdlutil.c:247-259 | removing by value is removing at the first occurrence |
| HandleList.RemoveFirstAbsent | bio/bdl/bdlutil.c:254-257 | removing an absent handle changes nothing |
| DataHandles.CleanupDataHandles | bio/bdl/bdl.c:3239-3313 | the drain ends with an empty list and releases every handle of it in order, blocks and handles each their way |
| DataHandles.DrainedOnce | bio/bdl/bdl.c:3264-3304 | the drain frees each item as often as it was listed |
| DataHandles.DrainedInPairs | bio/bdl/bdl.c:3264-3304 | for each handle in list order, first the buffer is freed or the handle closed that its item holds, then the item is freed; nothing else |
| DataHandles.DiscardedContents | bio/bdl/bdlioctl.c:937-962 | the error path frees each buffer and closes each handle as often as products hold it, and never NULL |
| DataHandles.DiscardedInOrder | bio/bdl/bdlioctl.c:937-962 | and no item is freed before what it holds |
| DataHandles.HasRoomExactly | bio/bdl/bdlioctl.c:860-893 | there is room exactly if there is memory for each product that was requested |
| DataHandles.AddedCounts | bio/bdl/bdlioctl.c:860-893 | adding lists each product that is not NULL once more and leaves what was listed behind them |
| DataHandles.AddedOrder | bio/bdl/bdlioctl.c:860-893 | the product added last comes first |
| DataHandles.DoChannel | bio/bdl/bdlioctl.c:831-964 | all or nothing: every requested product in list and output, or the list as it was and every product given back; success exactly if the driver succeeded and memory sufficed |
| DataHandles.AddProducts | bio/bdl/bdlioctl.c:860-893 | the loop that adds the products, with its rollback |
| DataHandles.AddProduct | bio/bdl/bdlioctl.c:862-891 | one product: NULL is skipped, a refused one takes back those before it |
| DataHandles.Rollback | bio/bdl/bdlioctl.c:876-881 | the inner loop removes products 0 to x-1 in turn |
| DataHandles.RemoveAllUndoes | bio/bdl/bdlioctl.c:876-881 | removing the products undoes their additions wherever they stand in front, in any order, duplicates included |
| DataHandles.RollbackExactly | bio/bdl/bdlioctl.c:876-881 | adding and then removing the products restores contents and order exactly unless a product is NULL and NULL is listed |
| DataHandles.NullNeverAdded | bio/bdl/bdlioctl.c:865-869 | adding products never lists NULL |
| DataHandles.DiscardProducts | bio/bdl/bdlioctl.c:935-962 | the error path gives back what the driver put into each product, then the product |
| DataHandles.DiscardedOnce | bio/bdl/bdlioctl.c:937-962 | the error path frees each non-NULL product as often as it was requested, and never NULL |
| RateLimit.RefusedExactly | bio/bdl/bdl.c:2860-2895 | a control change is refused exactly when nine were admitted and the window is less than a second old, or a whole multiple of 2^32 seconds; the reversed subtraction is harmless |
| RateLimit.RefusedAfterAges | bio/bdl/bdl.c:2873-2890 | with one tick a second: 2^32 seconds after nine calls the next is refused, a second earlier it would not be |
| RateLimit.NineMoreEachSecond | bio/bdl/bdl.c:2857-2895 | on average: from start-up on at most nine calls are admitted, and nine more for every whole second that has passed |
| RateLimit.AtMostEighteenInASecond | bio/bdl/bdl.c:2857-2895 | in any stretch of less than a second at most 18 calls are admitted, one less for every call already counted |
| RateLimit.EighteenInOneTick | bio/bdl/bdl.c:2857-2895 | and that many are, in a single tick, once the window is a second old |
| NotificationSpec.FirstFree | bio/bdl/bdl.c:2900-2916 | the first slot that is not in use |
| Notification.NotificationPipe.constructor | bio/bdl/bdl.c:757-772 | 20 free slots, empty queues, no request |
| Notification.NotificationPipe.FindFree | bio/bdl/bdl.c:2900-2921 | the scan finds the first free slot |
| Notification.NotificationPipe.ControlChange | bio/bdl/bdl.c:2857-2937 | an admitted change takes the first free slot, joins the interrupt queue and queues the DPC; one that comes too often or finds no slot is lost |
| Notification.NotificationPipe.TakeNext | bio/bdl/bdl.c:3009-3027 | the head leaves the interrupt queue and frees its slot |
| Notification.NotificationPipe.PutItem | bio/bdl/bdl.c:3050-3055 | the item joins the tail of the second queue |
| Notification.NotificationPipe.FinishDpc | bio/bdl/bdl.c:3061-3097 | the pended request is completed with the head of the queue, both taken together: exactly the item delivered |
| Notification.NotificationPipe.Dpc | bio/bdl/bdl.c:2980-3097 | the whole DPC, for any number of allocations that succeed |
| Notification.NotificationPipe.GetNotification | bio/bdl/bdlioctl.c:2169-2247 | busy, nothing registered, pended, or the head of the queue, which leaves it as delivered: exactly the item answered |
| Notification.NotificationPipe.FindRegistration | bio/bdl/bdlioctl.c:1943-1956 | the search of the registrations |
| Notification.NotificationPipe.Purge | bio/bdl/bdlioctl.c:1983-2003 | the second queue without the items of one control, in order |
| Notification.NotificationPipe.Unregister | bio/bdl/bdlioctl.c:1943-2018 | a registered control is removed and its queued items purged; the last one completes the pended request |
| Notification.NotificationPipe.Register | bio/bdl/bdlioctl.c:1956-2066 | a control can be registered once |
| Notification.NotificationPipe.Cancel | bio/bdl/bdlioctl.c:2315-2337 | whatever request is pended is taken and completed |
| Notification.NotificationPipe.FreeSlots | bio/bdl/bdl.c:3199-3210 | the interrupt queue is emptied and its slots freed |
| Notification.NotificationPipe.CleanupQueues | bio/bdl/bdl.c:3195-3226 | both queues are emptied |
| Notification.RunDpcReachable | bio/bdl/bdl.c:2980-3097 | the uninterrupted DPC is a run of machine steps |
| Notification.DpcServes | bio/bdl/bdl.c:2980-3097 | with enough memory the DPC empties the interrupt queue and the pended request gets the oldest item there is; with less it moves as many items as it got memory for |
| NotificationFlow.Enqueue | bio/bdl/bdl.c:2904-2911 | the slot taken joins the queue: a slot is in use exactly when it is queued, once |
| NotificationFlow.Dequeue | bio/bdl/bdl.c:3014-3027 | the slot left is free again, and the rest keeps its order |
| NotificationFlow.AcceptConserves | bio/bdl/bdl.c:2897-2937 | an accepted change is added at the end of the flow |
| NotificationFlow.TakeConserves | bio/bdl/bdl.c:3009-3027 | taking an item moves it, and changes no order |
| NotificationFlow.PutConserves | bio/bdl/bdl.c:3050-3055 | putting it moves it on |
| NotificationFlow.DeliverConserves | bio/bdl/bdlioctl.c:2240-2247 | delivering the head moves it on |
| NotificationFlow.UnregisterConserves | bio/bdl/bdlioctl.c:1983-2003 | a purge removes exactly the queued items of the control |
| NotificationFlow.CleanConserves | bio/bdl/bdl.c:3195-3226 | a clean-up removes exactly what is in the queues |
| NotificationFlow.StepConserves | bio/bdl/bdl.c:2825-3236 | every step conserves: delivered ++ second queue ++ in hand ++ interrupt queue is what was accepted and not purged, in order |
| NotificationFlow.StepOrderly | bio/bdl/bdlioctl.c:2182-2337 | every step keeps the requests in order and the registrations distinct |
| NotificationFlow.RunSound | bio/bdl/bdl.c:2825-3236 | conservation, slot use and request order hold after every run |
| NotificationFlow.NothingLost | bio/bdl/bdl.c:2897-3076 | after every run each accepted change is purged or in exactly one place; delivery follows acceptance and alters nothing |
| NotificationFlow.FlowIsAccepted | bio/bdl/bdl.c:2897-3076 | with nothing purged the flow is exactly what was accepted |
| NotificationFlow.CompletedOnce | bio/bdl/bdlioctl.c:2182-2337 | every pended request is completed exactly once, by DPC, last unregister or cancel, or is the one pended now |
| NotificationFlow.AwakeExactly | bio/bdl/bdl.c:2984-3003 | the one step that loses a wakeup: the DPC finds no memory while something waits and no DPC is queued |
| NotificationFlow.NoLostWakeup | bio/bdl/bdl.c:2980-3097 | if the DPC always finds memory, whatever waits has a DPC queued or running, in every run |
| NotificationFlow.AsleepUntilChange | bio/bdl/bdl.c:2937-2937 | a DPC that is neither queued nor running is started by a control change only |
| NotificationFlow.WakeupCanBeLost | bio/bdl/bdl.c:2989-2998 | a reachable state in which a change and the request for it both wait and no DPC comes |
| NotificationFlow.PendedIsRegisteredExactly | bio/bdl/bdlioctl.c:2009-2014 | a pended request has a registration in every step except the clean-up of the last registration |
| NotificationEffects.HandsOver | bio/bdl/bdlioctl.c:2240-2247 | each step delivers exactly the items it hands to a client, as an answer or with a completion, and takes them from the head of the second queue |
| NotificationEffects.ClientsGetDelivered | bio/bdl/bdlioctl.c:2240-2247 | in every run the items handed to clients are the delivered ones: accepted, unaltered, in order, each once |
| NotificationEffects.AnswersExactly | bio/bdl/bdlioctl.c:2169-2247 | which of the four answers a request gets, and that exactly the third pends it |
| NotificationEffects.CompletesExactly | bio/bdl/bdlioctl.c:2009-2337 | a pended request is completed exactly by the DPC with an item, by unregistering the only control, or by cancelling, each with its outcome |
| NotificationEffects.AcceptsExactly | bio/bdl/bdl.c:2897-2937 | a control change is accepted exactly if it is admitted and a slot is free; the new item has its control and value and is last in the interrupt queue |
| NotificationEffects.QueuesDpcExactly | bio/bdl/bdl.c:2937-2937 | the DPC is queued exactly for an accepted change, until it starts |
| NotificationEffects.LimiterCharged | bio/bdl/bdl.c:2857-2895 | the rate limit counts every change, accepted or not, and nothing else |
| NotificationEffects.PurgesExactly | bio/bdl/bdlioctl.c:1983-2003 | unregistering purges what is queued about that control, a clean-up all that is queued; nothing else is purged |
| NotificationEffects.RegistersExactly | bio/bdl/bdlioctl.c:1956-2066 | a control is registered exactly from a registration with memory until it is unregistered or cleaned up |
| NotificationEffects.QueuesKept | bio/bdl/bdl.c:3009-3055 | what is not accepted, moved, handed over or purged stays in its queue |
| PollLoop.DeviceExtension.constructor | dot4/dot4usb/adddev.c:113-115 | no IRP, no context, the event not signalled |
| PollLoop.DeviceExtension.CompletionRoutine | dot4/dot4usb/usb.c:626-724 | resubmits or cleans up, with every nested completion inside the call |
| PollLoop.DeviceExtension.CallDriver | dot4/dot4usb/usb.c:690-694 | the IRP is kept, refused, or completed inside the call |
| PollLoop.DeviceExtension.TakeOutOfPlay | dot4/dot4usb/usb.c:714-719 | context cleared, the three buffers freed, the event set |
| PollLoop.DeviceExtension.IrpCompleted | dot4/dot4usb/usb.c:626-724 | the IRP comes back from the driver below |
| PollLoop.DeviceExtension.StartLoop | dot4/dot4usb/usb.c:887-1055 | every attempt, from no pipe to the first call: a failed one leaves no block behind |
| PollLoop.DeviceExtension.AllocateTrio | dot4/dot4usb/usb.c:929-948 | URB, context and scratch buffer, or none of them |
| PollLoop.DeviceExtension.StartWith | dot4/dot4usb/usb.c:982-1042 | IRP and remove lock, or everything freed |
| PollLoop.DeviceExtension.TakePollIrp | dot4/dot4usb/usb.c:771-794 | the IRP leaves the device extension for its Stop |
| PollLoop.DeviceExtension.Cancel | dot4/dot4usb/usb.c:798-799 | IoCancelIrp on the IRP taken: its Cancel flag is set |
| PollLoop.DeviceExtension.FinishStop | dot4/dot4usb/usb.c:811-821 | the IRP leaves the heap and one reference leaves the remove lock; the caller leaves the waiting ones |
| PollLoop.DeviceExtension.Connect | dot4/dot4usb/ioctl.c:283-294 | refused if connected already |
| PollLoop.DeviceExtension.AcceptEvent | dot4/dot4usb/ioctl.c:352-379 | the event is stored only while connected and without one, and the loop started if there is a pipe |
| PollLoop.DeviceExtension.ClearConnection | dot4/dot4usb/ioctl.c:324-333 | event and connection are cleared after the Stop |
| PollLoopSafety.CompleteSettles | dot4/dot4usb/usb.c:646-723 | however often the IRP is completed inside the call that reuses it, it ends at the driver below or parked with its buffers freed; below exactly if not cancelled, not disconnected and without a failure in the whole chain |
| PollLoopSafety.StartedSound | dot4/dot4usb/usb.c:1003-1042 | a launch that is not harmful is safe: the new IRP is below or has come back and set the event, or its call was refused; the buffers of a context that was still there are leaked |
| PollLoopSafety.StepSound | dot4/dot4usb/usb.c:626-1055 | every step but a harmful start keeps ownership, with any number of Stops waiting, and leaks exactly the buffers that a start forgets |
| PollLoopSafety.RunSound | dot4/dot4usb/usb.c:626-1055 | in every run without a harmful start no block is used after it was freed, freed twice, or freed while the driver below has it, Start never finds a loop, and each IRP has one owner and one lock reference |
| PollLoopSafety.StartFaultsExactly | dot4/dot4usb/usb.c:1003-1042 | a start can lead to a fault exactly if its first call is made, not refused, and an IRP that a Stop waits for is at the driver below |
| PollLoopSafety.AnyStartSafeExactly | dot4/dot4usb/ioctl.c:352-379 | whatever the start will meet, it is safe exactly if no IRP that a Stop waits for is at the driver below |
| PollLoopWaiting.HarmfulStartHappens | dot4/dot4usb/ioctl.c:312-379 | harmless steps lead to a harmful start: a PnP stop waits, dot4 disconnects, connects and signals |
| PollLoopSafety.LeaksExactly | dot4/dot4usb/usb.c:1003-1042 | buffers are leaked exactly when some start got to its first call while there still was a context |
| PollLoopWaiting.LeakHappens | dot4/dot4usb/usb.c:1003-1042 | a reachable start that leaks the three buffers of a loop in limbo |
| PollLoopSafety.NothingLeft | dot4/dot4usb/usb.c:807-821 | when no IRP is owned nothing but leaked buffers is allocated, none exactly if no start forgot any, and the remove lock is released |
| PollLoopSafety.FreedByItsStop | dot4/dot4usb/usb.c:782-821 | an IRP is freed by the Stop that took it and by nothing else, and only once the event is set and it is not below |
| PollLoopWaiting.CancelStops | dot4/dot4usb/usb.c:651-720 | once cancelled, the next completion lets the waiting Stop finish |
| PollLoopWaiting.WaitingProgress | dot4/dot4usb/usb.c:798-836 | a Stop that waits can be finished, the event being set or an IRP that a Stop waits for below, except in exactly three kinds of state, no two at once: a loop in limbo, the Stop stranded, or dependent on a loop that no Stop took, whose IRP alone is below |
| PollLoopWaiting.FinishableExactly | dot4/dot4usb/usb.c:1003-1042 | that is lost exactly by a start, with a Stop waiting, that meets a remove while the event is set, that leaves the new IRP below, or that is refused with no awaited IRP below; or by a Stop that takes an IRP in limbo |
| PollLoopWaiting.FinishableThroughoutExactly | dot4/dot4usb/usb.c:626-1055 | whoever waits can be finished throughout exactly the careful runs without such a step |
| PollLoopWaiting.DependentLasts | dot4/dot4usb/usb.c:798-836 | dependence on another loop ends exactly by a Stop of that loop or by a completion that takes its IRP out; nothing the waiting Stop does ends it |
| PollLoopWaiting.DependenceHappens | dot4/dot4usb/usb.c:1003-1042 | a reachable state in which the Stop of IRP 3, which has come back, waits for the loop of IRP 7, which no Stop took |
| PollLoopCancel.CancelCancels | dot4/dot4usb/usb.c:798-799 | cancelling sets the Cancel flag of the IRP that the Stop took, and does nothing else |
| PollLoopCancel.CancelledKept | dot4/dot4usb/usb.c:651-660 | the flag stays under every careful step until that IRP comes back |
| PollLoopCancel.BelowKept | dot4/dot4usb/usb.c:798-836 | an IRP that a Stop waits for stays below until it comes back, and the Stop goes on waiting for it |
| PollLoopCancel.AwayKept | dot4/dot4usb/usb.c:798-836 | an IRP that is not below does not get there again, unless it was just launched |
| PollLoopCancel.CancelEnds | dot4/dot4usb/usb.c:798-836 | in every careful run, once a Stop has cancelled its IRP, the next completion of that IRP lets this Stop finish, whatever came in between |
| PollLoopRequests.ConnectionRecordsRequests | dot4/dot4usb/ioctl.c:283-379 | in every careful run: connected from a connect until a disconnect clears it, with an event from a signal that had one and was made while connected |
| PollLoopRequests.EventAcceptedExactly | dot4/dot4usb/ioctl.c:352-379 | an event becomes stored exactly by a signal that has one while dot4 is connected and none is stored |
| PollLoopRequests.StartsExactly | dot4/dot4usb/ioctl.c:352-379 | a loop is to be started exactly for an event that becomes stored, if there is a pipe |
| PollLoopRequests.ClearsExactly | dot4/dot4usb/ioctl.c:312-333 | a disconnect clears event and connection exactly after it found no loop, or when its own Stop has finished |
| PollLoopRequests.OwnersExactly | dot4/dot4usb/usb.c:771-794 | the IRP is put into the device extension by a start that gets to its first call, and taken out by the next Stop, which joins those that wait |
| PollLoopSafety.CleanUpFaultsExactly | dot4/dot4usb/usb.c:714-719 | taking buffers away is a fault exactly if one of them is not allocated any more |
| PollLoopSafety.FinishFaultsExactly | dot4/dot4usb/usb.c:811-821 | finishing a Stop is a fault exactly if its IRP is below or was freed |
| PollLoopSafety.CancelFaultsExactly | dot4/dot4usb/usb.c:798-799 | cancelling is a fault exactly if the IRP was freed |
| PollLoopSafety.CompletionFaultsExactly | dot4/dot4usb/usb.c:646-720 | a completion of a cancelled IRP is a fault exactly if IRP or buffers are not allocated any more |
| PollLoopWaiting.LimboExactly | dot4/dot4usb/usb.c:1042-1055 | a loop gets into limbo exactly when its first call is refused without completing the IRP and no other IRP is below |
| PollLoopWaiting.LimboLasts | dot4/dot4usb/usb.c:798-836 | only launching another loop ends the limbo; no other step satisfies the wait |
| PollLoopWaiting.StrandedExactly | dot4/dot4usb/usb.c:1003-1020 | a waiting Stop is stranded exactly by a start that clears the event and then finds the device being removed |
| PollLoopWaiting.StrandedLasts | dot4/dot4usb/usb.c:798-836 | only a start that gets to its first call ends that; until then no step satisfies the wait |
| PollLoopWaiting.StrandingHappens | dot4/dot4usb/usb.c:1003-1020 | a reachable state from which that happens |
| Joystick.WithinThreshold | input/joystick/anajoyst.c:1508-1530 | a reported time differs from when the bit fell by at most the threshold, whatever the delays between samples |
| Joystick.SeenOnce | input/joystick/anajoyst.c:1508-1524 | exactly one sample is the first to see an axis fall |
| Joystick.TooLate | input/joystick/anajoyst.c:1499-1506 | after the time-out no axis that is left can be seen in time |
| Joystick.TakeAll | input/joystick/anajoyst.c:1508-1523 | the four tests clear the axes that fell and give them the time before the sample |
| Joystick.TryOnce | input/joystick/anajoyst.c:1473-1532 | one attempt: done exactly when every axis falls in time and is seen without too long a gap, retried exactly when one is seen in too long a gap |
| Joystick.NextSample | input/joystick/anajoyst.c:1490-1530 | one sample keeps measured axes measured and the others unseen |
| Joystick.Close | input/joystick/anajoyst.c:298-298 | a threshold in ticks is at most 100 microseconds |
| Joystick.LimitsExactly | input/joystick/anajoyst.c:298-305 | a number of ticks is within threshold or time-out exactly if it is within 100 or 16000 microseconds |
| Joystick.UsableExactly | input/joystick/anajoyst.c:1499-1530 | an attempt can be read exactly if every axis is seen to fall within 16000 microseconds, between clock readings at most 100 microseconds apart; it is retried exactly if some axis is seen in time but not so closely |
| Joystick.NothingTruncated | input/joystick/anajoyst.c:1117-1129 | times before the time-out lose nothing when converted to microseconds |
| Joystick.MeasuredAccurately | input/joystick/anajoyst.c:1543-1547 | the microseconds reported are those of the clock reading before the sample that saw the axis fall, within 100 of the truth |
| Joystick.AnalogPoll | input/joystick/anajoyst.c:1465-1547 | success exactly when one of the first 19 attempts can be read, in microseconds, after the ones before were delayed; then every axis has the time read before it was seen to fall, within 100 microseconds; in particular when the first attempt can be read |
| Joystick.NotBoth | input/joystick/anajoyst.c:1465-1540 | an attempt is not both readable and delayed |
| WmiAllData.PairsFitExactly | wmilib/wmilib.c:483-493 | the pairs lie before the data block exactly when their end does not wrap; where the data block fits the buffer, they fit exactly then, and for one other count, in a buffer of nearly 4 GB |
| WmiAllData.PairsOverrun | wmilib/wmilib.c:483-493 | 2^29 instances: the data block is taken to start at byte 64 of a minimal buffer, while the pairs need 4 GB |
| WmiAllData.BlockOffsetIs | wmilib/wmilib.c:483-493 | for every count the data block starts at the first multiple of 8 behind the pairs, modulo 2^32 |
| WmiAllData.StoredOffset | wmilib/wmilib.c:827-831 | the running 32-bit offset is the true offset modulo 2^32 |
| WmiAllData.StoredTruly | wmilib/wmilib.c:827-831 | below 2^32 it is the true offset; past it, at least 2^32 too low |
| WmiAllData.TrueOffsetsAscend | wmilib/wmilib.c:830-830 | true data intervals are ascending and disjoint |
| WmiAllData.TrueOffsetTight | wmilib/wmilib.c:830-830 | and they follow each other as closely as multiples of 8 can |
| WmiAllData.AscendingExactly | wmilib/wmilib.c:827-831 | the stored offsets keep all instances apart and in order exactly when the last one starts below 2^32 |
| WmiAllData.Spread | wmilib/wmilib.c:822-825 | the backward loop moves every packed length to its pair |
| WmiAllData.PlaceOffsets | wmilib/wmilib.c:827-831 | the forward loop puts the offsets between them |
| WmiAllData.BeginQuery | wmilib/wmilib.c:464-500 | count, flag and data offset are stored; the provider gets the pairs and the data only if the data block starts inside the buffer |
| WmiAllData.CompleteQuery | wmilib/wmilib.c:786-833 | failure, too small with the size needed, or every pair holding its offset and its own length, the header otherwise kept; the loops write all pairs of the count, inside the buffer or behind it |
| WmiAllData.QueryAllData | wmilib/wmilib.c:462-833 | a whole query: refused, too small with the size, or full with all pairs |
| WmiAllData.RetryFullExactly | wmilib/wmilib.c:788-804 | asking again with the size returned gives a full answer exactly when that size did not wrap |
| WmiAllData.RetryMinimal | wmilib/wmilib.c:788-804 | and no smaller buffer would have done |
| WmiAllData.DataInside | wmilib/wmilib.c:827-831 | instances that end below 2^32 lie apart, aligned to 8, between data start and end |
| WmiAllData.AnswerHoldsData | wmilib/wmilib.c:786-831 | a full answer of an honest provider holds pairs and data of every instance inside the buffer, apart |
| WmiRegInfo.BlockParts | wmilib/wmilib.c:342-385 | header, GUID records and strings tile the block without gap or overlap |
| WmiRegInfo.BlockLength | wmilib/wmilib.c:384-385 | the block is as long as bufferNeeded says |
| WmiRegInfo.HeaderRoundTrip | wmilib/wmilib.c:391-431 | reading at the stored offsets returns registry path, MOF name, instance name and GUID count |
| WmiRegInfo.GuidRoundTrip | wmilib/wmilib.c:398-409 | reading record i returns GUID, flags with the name flags, instance count and instance info of GUID i |
| WmiRegInfo.GuidFields | wmilib/wmilib.c:398-409 | record i by the fields of the registration: GUID, the flags of the GUID with those of the names, instance count, and the device object or the place of the name |
| WmiRegInfo.LowestByteFirst | wmilib/wmilib.c:391-431 | numbers stand with their lowest byte first |
| WmiRegInfo.WritesNameExactly | wmilib/wmilib.c:335-419 | the name is written unless there is a device object and no name flag |
| WmiRegInfo.RoundTrip | wmilib/wmilib.c:387-431 | a buffer determines the registration it starts with |
| WmiRegInfo.SpillsExactly | wmilib/wmilib.c:411-419 | a name is written behind the block exactly when the PDO flag is combined with a name flag and the name is longer than the other two strings by more than 2 |
| WmiRegInfo.WriteHeader | wmilib/wmilib.c:391-396 | the five header fields |
| WmiRegInfo.WriteGuids | wmilib/wmilib.c:398-409 | one record per GUID in order; one device reference each if asked for |
| WmiRegInfo.WriteStrings | wmilib/wmilib.c:411-431 | the counted strings at their offsets, and behind the block exactly the tail of a name that has no room |
| WmiRegInfo.Register | wmilib/wmilib.c:312-438 | error, the size needed in four bytes, or the whole block; exactly the bytes before WritesEnd are written, whatever the size of the buffer |
| WmiRegInfo.WritesInsideExactly | wmilib/wmilib.c:312-438 | every write lies inside the buffer exactly if it holds a spilt name as well as the block or, when it is too small for the block, the four bytes of the answer |
| WmiRegInfo.SpillHappens | wmilib/wmilib.c:411-419 | a name of three bytes that is written one byte behind a buffer of the size needed |

## Left out

Assumptions about the world, which the theorems about runs rest on:

- DeferredWatch.DeferredWatchdog.CompleteDeliveredEvent: clearing the trigger, which the source does outside its lock,
  and dropping the references are one step.
- Watchdogs: a watch has one client DPC; cancelling a timer also withdraws its DPC from the queue, so no tick follows
  Stop or Suspend; each locked region is one step, and so are the reads of the interlocked section counters within a
  tick.
- WatchObject.CompleteDeliveredAccounted: a client completes an event it was given, once, with the thread it was given;
  for the display driver's handler that is proved (DisplayWatch.CompletesWhatItWasGiven).
- DisplayWatch.WorkersAssertionHolds: one watch is followed, beside callbacks of others.
- WatchObject.WatchdogObject.ReferenceObject: the width of the reference count is not modelled.
- StandardWatch.Watchdog.Suspend: the suspend count is below its maximum, as the source asserts.
- StandardWatch.Watchdog.TimerDpcCallback: due times are unbounded, since adding the measured time stays far inside 64
  bits for every request below 2^62.
- DeferredWatch.DeferredWatchdog.Start: the conversion of the period to the timer's units, which can overflow 32 bits,
  is left out with the timer itself; ticks come at any time.
- StandardCountdown.CountdownExact: kernel and user time only, without rollover; with rollover the countdown is
  bounded by NeverEarly instead; full time is, if no measurement runs ahead (ThreadTime.FullTimeCanBeEarly).
- StandardShortfall.ChargeFallsShort: counters are compared as they are read, so a rollover between the last reading
  and a suspend counts as a negative stretch; ChargeIsRunningTimeExactly assumes there is none. The running time is
  taken up to the last tick or suspend.
- DeferredSuspend.CountExactly: the count wraps in 32 bits and so does the number it is compared with.
- Notification.NotificationPipe.Dpc: one instance of the DPC runs at a time, and the clean-up of the interrupt queue
  does not race with the interrupt routine, as the source assumes. Completing a request after its lock is released is
  one step with taking it.
- NotificationFlow.CompletedOnce: the cancel routine takes whatever request is pended, which can be a later one than
  the request that was cancelled; the theorem counts completions, not whose cancellation caused them.
- PollLoopSafety.RunSound: dot4 sends one IOCTL at a time; a completion with the calls nested in it is one step, so a
  cancellation is not lost between the test of the Cancel flag and the reuse of the IRP; a driver that returns from an
  inline completion returns pending or the status of that completion; the remove lock can refuse at any time.
- PollLoopWaiting.LimboLasts: a start is one step up to the return of its first call, although the completion of an
  older IRP does not take the lock of the start; one that comes after the start has cleared the event and before a
  refused first call returns leaves the event set with a context present, a state the model does not have.
- PollLoopSafety.CancelStops: that the driver below returns a cancelled IRP is not proved, so neither is the end of
  Stop's retry loop.
- PollLoop.DeviceExtension.StartLoop: the allocator gives out blocks that are not in use.
- WmiAllData.QueryAllData: the provider writes the lengths when it has space for the pairs as the library computes it,
  and reports too small exactly when its data do not fit.
- WmiAllData.CompleteQuery: the array is the memory from the start of the buffer on, as far as the loops write; that
  PairsFitExactly fails means that they write behind the buffer, and what they damage there is not modelled.
- WmiRegInfo.Register: the array is the memory from the start of the buffer on, as far as WritesEnd; sizes are 32-bit
  and the block is smaller than 4 GB; pointers have 32 bits.
- Joystick.AnalogPoll: clock readings never go back, may repeat but not for ever, and are less than 2^32 ticks apart; a
  port bit that fell stays down.

Parts of the repository that are not modelled:

- Device references, attached contexts, allocation failure, failure-test and trace code of the watchdog driver.
- What the display handler does between reading its data and going IDLE: registry, event log, dialogs and thread
  injection; a bugcheck is a final step.
- Plug and Play, power and I/O counting of the biometric library, argument checks, source lists and the exits of
  DoChannel before its driver call.
- Calls to the device driver when a control is registered, and their failure.
- The single-instance, method and event requests of the WMI library; the search for a GUID.
- Reads, writes, pipe resets, descriptors, Plug and Play and power of the Dot4 USB driver, and the remove-lock
  references of its dispatch routines.
- Buttons, the quiescence test and digital joysticks.
