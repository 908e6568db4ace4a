/** What each routine of the standard watchdog (watchdog/watchdog.c) does to its state, as functions on values. */
module StandardSpec {
  import opened Base
  import opened ThreadTime
  import opened WatchObject
  import opened Runs

  /** The longest single timer wait, in 100ns units. */
  const WD_MAX_WAIT: int := 0x3FFF_FFFF

  const MAX_COUNT: U32 := 0xFFFF_FFFF

  /** Due times are relative, so not positive; pending is the wait of the timer while it is set. */
  datatype Watch = Watch(
    h: Header,
    timeType: TimeType,
    timeIncrement: U32,
    startCount: U32,
    suspendCount: U32,
    dueTime: int,
    initialDueTime: int,
    lastReading: Reading,
    thread: Option<Thread>,
    clientDpc: bool,
    pending: Option<int>)

  const NO_READING := Reading(0, 0)

  function Allocate(timeType: TimeType, timeIncrement: U32): Watch {
    Watch(Initial(), timeType, timeIncrement, 0, 0, 0, 0, NO_READING, None, false, None)
  }

  function Capped(due: int): int {
    if due < -WD_MAX_WAIT then -WD_MAX_WAIT else due
  }

  function Relative(due: int): int {
    if due > 0 then -due else due
  }

  /** (Re)arm the timer for the due time, unless the watch is suspended. */
  function Arm(w: Watch): Watch {
    if w.suspendCount == 0 then w.(pending := Some(Capped(w.dueTime))) else w
  }

  function Start(w: Watch, due: int, thread: Thread, now: Reading): Watch {
    Arm(w.(startCount := if w.startCount < MAX_COUNT then w.startCount + 1 else w.startCount,
           thread := Some(thread), clientDpc := true,
           dueTime := Relative(due), initialDueTime := Relative(due), lastReading := now))
  }

  function Stopped(w: Watch): Watch {
    w.(h := (if w.clientDpc then Withdraw(w.h) else w.h).(lastQueuedThread := None),
       startCount := 0, dueTime := 0, initialDueTime := 0, lastReading := NO_READING,
       thread := None, clientDpc := false, pending := None)
  }

  function Stop(w: Watch, incremental: bool): Watch {
    if w.startCount == 0 then w
    else if incremental && w.startCount > 1 then w.(startCount := w.startCount - 1)
    else Stopped(w)
  }

  function Suspend(w: Watch): Watch {
    w.(pending := if w.suspendCount == 0 && w.startCount > 0 then None else w.pending,
       suspendCount := Wrap32(w.suspendCount + 1))
  }

  function AfterResume(suspendCount: U32, incremental: bool): U32 {
    if incremental && suspendCount > 0 then suspendCount - 1 else 0
  }

  /** A resume that ends the suspension goes on counting, from the thread time of now. */
  predicate EndsSuspension(w: Watch, incremental: bool) {
    w.suspendCount > 0 && AfterResume(w.suspendCount, incremental) == 0
  }

  function Resume(w: Watch, incremental: bool, now: Reading): Watch {
    var w1 := w.(suspendCount := AfterResume(w.suspendCount, incremental));
    if w.startCount > 0 && EndsSuspension(w, incremental) && w.dueTime != 0 then Arm(w1.(lastReading := now)) else w1
  }

  function Reset(w: Watch, now: Reading): Watch {
    if w.startCount == 0 then w else Arm(w.(dueTime := w.initialDueTime, lastReading := now))
  }

  /** The due time after charging the thread time since the last reading. */
  function Charged(w: Watch, now: Reading): int {
    w.dueTime + Measured(w.timeType, w.lastReading, now) * w.timeIncrement
  }

  function Fire(h: Header, clientDpc: bool, thread: Option<Thread>): Header {
    if clientDpc then Raise(h, TimeoutEvent, thread)
    else h.(lastEvent := TimeoutEvent, log := h.log + [TimeoutEvent])
  }

  /** The timer expired and its DPC runs. */
  function Tick(w: Watch, now: Reading): Watch {
    var due := Charged(w, now);
    if due >= 0
    then w.(h := Fire(w.h, w.clientDpc, w.thread), lastReading := now, dueTime := 0, pending := None)
    else w.(lastReading := now, dueTime := due, pending := Some(Capped(due)))
  }

  /** A suspend reads no counter; its step only records where the thread's counters stood. */
  datatype Step =
    | DoStart(due: int, thread: Thread, now: Reading)
    | DoStop(incremental: bool)
    | DoSuspend(now: Reading)
    | DoResume(incremental: bool, now: Reading)
    | DoReset(now: Reading)
    | DoTick(now: Reading)
    | DoDeliver
    | DoComplete(event: Option<Thread>)
    | DoRelease

  /** The source asserts that the suspend count is not at its maximum when a watch is suspended. */
  predicate Enabled(w: Watch, e: Step) {
    match e
    case DoTick(_) => w.pending.Some?
    case DoDeliver => w.h.queued.Some?
    case DoComplete(event) => event in w.h.delivered
    case DoRelease => w.h.owner && w.startCount == 0 && w.h.queued.None?
    case DoSuspend(_) => w.h.owner && w.suspendCount < MAX_COUNT
    case _ => w.h.owner
  }

  function Apply(w: Watch, e: Step): Watch {
    match e
    case DoStart(due, thread, now) => Start(w, due, thread, now)
    case DoStop(incremental) => Stop(w, incremental)
    case DoSuspend(_) => Suspend(w)
    case DoResume(incremental, now) => Resume(w, incremental, now)
    case DoReset(now) => Reset(w, now)
    case DoTick(now) => Tick(w, now)
    case DoDeliver => if w.h.queued.Some? then w.(h := Deliver(w.h)) else w
    case DoComplete(event) => w.(h := CompleteDelivered(w.h, event))
    case DoRelease => w.(h := Release(w.h))
  }

  ghost function Countdown(timeType: TimeType, timeIncrement: U32): Machine<Watch, Step> {
    Machine(Allocate(timeType, timeIncrement), Enabled, Apply)
  }
}
