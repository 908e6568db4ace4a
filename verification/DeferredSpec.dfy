/** What each routine of the deferred watchdog (watchdog/dwd.c) does to its state, as functions on values. */
module DeferredSpec {
  import opened Base
  import opened ThreadTime
  import opened WatchObject
  import opened Runs

  /**
   * Counters are kept as the 32-bit patterns of the source's LONGs: they are only ever compared for equality.
   * owing counts the incremental resumes that are between their two operations; it is not in the source.
   */
  datatype Watch = Watch(
    h: Header,
    timeType: TimeType,
    timeIncrement: U32,
    period: int,
    suspendCount: U32,
    inCount: U32,
    outCount: U32,
    lastInCount: U32,
    lastOutCount: U32,
    lastReading: Reading,
    trigger: nat,
    started: bool,
    thread: Option<Thread>,
    clientDpc: bool,
    owing: nat)

  const NO_READING := Reading(0, 0)

  function Allocate(timeType: TimeType, timeIncrement: U32): Watch {
    Watch(Initial(), timeType, timeIncrement, 0, 0, 0, 0, 0, 0, NO_READING, 0, false, None, false, 0)
  }

  /** Counters, snapshots, trigger and thread back to zero. */
  function Cleared(w: Watch): Watch {
    w.(inCount := 0, outCount := 0, lastInCount := 0, lastOutCount := 0, lastReading := NO_READING,
       trigger := 0, thread := None)
  }

  function Start(w: Watch, period: int): Watch {
    Cleared(w).(period := period, started := true, clientDpc := true)
  }

  /** A pending timeout is taken back by raising a recovery; any other queued event is completed here. */
  function TakenBack(w: Watch): Watch {
    if !w.clientDpc then w
    else if w.h.lastEvent == TimeoutEvent then QueueEvent(w.(h := Discard(w.h)), RecoveryEvent)
    else if w.h.queued.Some? then w.(h := Withdraw(w.h), trigger := 0)
    else w
  }

  function Stopped(w: Watch): Watch {
    Cleared(w).(h := w.h.(lastQueuedThread := None), period := 0, started := false, clientDpc := false)
  }

  function Stop(w: Watch): Watch {
    if w.started then Stopped(TakenBack(w)) else w
  }

  function Suspend(w: Watch): Watch {
    w.(suspendCount := Wrap32(w.suspendCount + 1))
  }

  /**
   * An incremental resume is two atomic steps: count down, and count up again if that gave -1; other calls may
   * come between them. A forced resume is one.
   */
  function ResumeDown(w: Watch): Watch {
    w.(suspendCount := Wrap32(w.suspendCount - 1), owing := w.owing + Count(w.suspendCount == 0))
  }

  function ResumeUp(w: Watch): Watch {
    if w.owing > 0 then w.(suspendCount := Wrap32(w.suspendCount + 1), owing := w.owing - 1) else w
  }

  function ResumeAll(w: Watch): Watch {
    w.(suspendCount := 0)
  }

  /** A resume with nothing in between. */
  function Resume(w: Watch, incremental: bool): Watch {
    if !incremental then ResumeAll(w)
    else if w.suspendCount == 0 then ResumeUp(ResumeDown(w))
    else ResumeDown(w)
  }

  function Reset(w: Watch): Watch {
    w.(inCount := 0, outCount := 0, trigger := 0)
  }

  /** Entering is two atomic steps: bind the section to the calling thread, then count. */
  function EnterBind(w: Watch, thread: Thread): Watch {
    if w.thread == Some(thread) then w else w.(trigger := 0, thread := Some(thread))
  }

  function EnterCount(w: Watch): Watch {
    w.(inCount := Wrap32(w.inCount + 1))
  }

  function Exit(w: Watch): Watch {
    w.(outCount := Wrap32(w.outCount + 1))
  }

  function QueueEvent(w: Watch, event: Event): Watch {
    if !w.clientDpc || event == NoEvent then w
    else w.(h := Raise(w.h, event, if event == TimeoutEvent then w.thread else None),
            trigger := if w.h.queued.None? then 2 else w.trigger)
  }

  predicate Inside(w: Watch) {
    w.inCount != w.outCount
  }

  predicate Progress(w: Watch) {
    w.inCount != w.lastInCount || w.outCount != w.lastOutCount
  }

  /** The measured thread time, in milliseconds, reached the period. */
  predicate StuckLongEnough(w: Watch, now: Reading) {
    TruncDiv(Measured(w.timeType, w.lastReading, now) * w.timeIncrement, 10000) >= w.period
  }

  function Snapshot(w: Watch, now: Reading): Watch {
    w.(trigger := 1, lastInCount := w.inCount, lastOutCount := w.outCount, lastReading := now)
  }

  function TickIdle(w: Watch, now: Reading): Watch {
    if w.suspendCount != 0 then w
    else
      var w1 := if w.h.lastEvent == TimeoutEvent && (Progress(w) || !Inside(w))
                then QueueEvent(w, RecoveryEvent) else w;
      if Inside(w) then Snapshot(w1, now) else w1
  }

  function TickWatching(w: Watch, now: Reading): Watch {
    if !Inside(w) || w.suspendCount != 0 then w.(trigger := 0)
    else if Progress(w) then Snapshot(w, now)
    else if StuckLongEnough(w, now) then QueueEvent(w, TimeoutEvent)
    else w
  }

  /** The timer callback; now is what it reads of the monitored thread's counters. */
  function Tick(w: Watch, now: Reading): Watch {
    if !w.started || w.thread.None? then w
    else match w.trigger
      case 0 => TickIdle(w, now)
      case 1 => TickWatching(w, now)
      case 2 => w
      case _ => w.(trigger := 0)
  }

  /** The client DPC runs. */
  function DpcDelivery(w: Watch): Watch {
    if w.h.queued.Some? then w.(h := Deliver(w.h)) else w
  }

  /** The client's handler calls WdCompleteEvent. */
  function Complete(w: Watch, thread: Option<Thread>): Watch {
    w.(h := CompleteDelivered(w.h, thread), trigger := 0)
  }

  /** What Free does after it stopped the watch and flushed the DPC queue. */
  function FreeRelease(w: Watch): Watch {
    w.(h := Release(w.h))
  }

  datatype Step =
    | DoStart(period: int)
    | DoStop
    | DoSuspend
    | DoResumeDown
    | DoResumeUp
    | DoResumeAll
    | DoReset
    | DoEnterBind(thread: Thread)
    | DoEnterCount
    | DoExit
    | DoTick(now: Reading)
    | DoDeliver
    | DoComplete(event: Option<Thread>)
    | DoRelease

  /**
   * The owner calls and the timer ticks until Free; Free gives the owner's reference back when the
   * watch is stopped and the DPC queue is flushed; the client completes an event it was given.
   */
  predicate Enabled(w: Watch, e: Step) {
    match e
    case DoDeliver => w.h.queued.Some?
    case DoComplete(event) => event in w.h.delivered
    case DoResumeUp => w.h.owner && w.owing > 0
    case DoRelease => w.h.owner && !w.started && w.h.queued.None?
    case _ => w.h.owner
  }

  function Apply(w: Watch, e: Step): Watch {
    match e
    case DoStart(period) => Start(w, period)
    case DoStop => Stop(w)
    case DoSuspend => Suspend(w)
    case DoResumeDown => ResumeDown(w)
    case DoResumeUp => ResumeUp(w)
    case DoResumeAll => ResumeAll(w)
    case DoReset => Reset(w)
    case DoEnterBind(thread) => EnterBind(w, thread)
    case DoEnterCount => EnterCount(w)
    case DoExit => Exit(w)
    case DoTick(now) => Tick(w, now)
    case DoDeliver => DpcDelivery(w)
    case DoComplete(event) => Complete(w, event)
    case DoRelease => FreeRelease(w)
  }

  ghost function Poller(timeType: TimeType, timeIncrement: U32): Machine<Watch, Step> {
    Machine(Allocate(timeType, timeIncrement), Enabled, Apply)
  }
}
