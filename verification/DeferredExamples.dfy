/** Reachable states of the deferred watchdog in which the code falls short. */
module DeferredExamples {
  import opened Base
  import opened ThreadTime
  import opened WatchObject
  import opened DeferredSpec
  import opened Runs
  import References = DeferredReferences
  import Guard = DeferredGuard

  /** States of watches on kernel time whose time increment is one millisecond. */
  ghost predicate Reached(w: Watch) {
    Reachable(Poller(KernelTime, 10000), w)
  }

  /** Those reached without ever losing the guard of the trigger. */
  ghost predicate GuardReached(w: Watch) {
    Reachable(Guard.GuardedPoller(KernelTime, 10000), w)
  }

  lemma Reach(w: Watch, e: Step)
    requires Reached(w) && Enabled(w, e)
    ensures Reached(Apply(w, e))
  {
    StepReachable(Poller(KernelTime, 10000), w, e);
  }

  lemma GuardReach(w: Watch, e: Step)
    requires GuardReached(w) && Enabled(w, e) && !Guard.Unguards(w, e)
    ensures GuardReached(Apply(w, e))
  {
    StepReachable(Guard.GuardedPoller(KernelTime, 10000), w, e);
  }

  lemma GuardReachedReached(w: Watch)
    requires GuardReached(w)
    ensures Reached(w)
  {
    LooserReaches(Guard.GuardedPoller(KernelTime, 10000), Poller(KernelTime, 10000), w);
  }

  /** A watch with a period of one millisecond that monitors thread 7, inside its section. */
  function Monitoring(h: Header, inCount: U32, lastInCount: U32, lastReading: Reading, trigger: nat): Watch {
    Watch(h, KernelTime, 10000, 1, 0, inCount, 0, lastInCount, 0, lastReading, trigger, true, Some(7), true, 0)
  }

  lemma Begun()
    ensures GuardReached(Start(Allocate(KernelTime, 10000), 1))
  {
    InitReachable(Guard.GuardedPoller(KernelTime, 10000));
    GuardReach(Allocate(KernelTime, 10000), DoStart(1));
  }

  lemma EnteredState()
    ensures EnterCount(EnterBind(Start(Allocate(KernelTime, 10000), 1), 7))
            == Monitoring(Initial(), 1, 0, NO_READING, 0)
  {
  }

  lemma Entered()
    ensures GuardReached(Monitoring(Initial(), 1, 0, NO_READING, 0))
  {
    Begun();
    var w := Start(Allocate(KernelTime, 10000), 1);
    GuardReach(w, DoEnterBind(7));
    GuardReach(EnterBind(w, 7), DoEnterCount);
    EnteredState();
  }

  lemma FirstTick(h: Header)
    requires h.lastEvent == NoEvent
    ensures Tick(Monitoring(h, 1, 0, NO_READING, 0), Reading(0, 0)) == Monitoring(h, 1, 1, Reading(0, 0), 1)
  {
  }

  lemma SecondTick(h: Header)
    requires h.queued.None?
    ensures Tick(Monitoring(h, 1, 1, Reading(0, 0), 1), Reading(1, 0))
            == Monitoring(Raise(h, TimeoutEvent, Some(7)), 1, 1, Reading(0, 0), 2)
  {
  }

  /** The thread is stuck for a millisecond: a timeout is queued. */
  function StuckState(): Watch {
    Monitoring(Raise(Initial(), TimeoutEvent, Some(7)), 1, 1, Reading(0, 0), 2)
  }

  lemma GetsStuck()
    ensures GuardReached(StuckState())
  {
    Entered();
    FirstTick(Initial());
    GuardReach(Monitoring(Initial(), 1, 0, NO_READING, 0), DoTick(Reading(0, 0)));
    SecondTick(Initial());
    GuardReach(Monitoring(Initial(), 1, 1, Reading(0, 0), 1), DoTick(Reading(1, 0)));
  }

  /** Stopping that watch before its timeout was delivered loses the event, and with it the object. */
  lemma StopLosesQueuedTimeout()
    ensures Reached(StuckState()) && Enabled(StuckState(), DoStop) && References.LosesEvent(StuckState(), DoStop)
  {
    GetsStuck();
    GuardReachedReached(StuckState());
  }

  function DeliveredHeader(): Header {
    CompleteDelivered(Deliver(Raise(Initial(), TimeoutEvent, Some(7))), Some(7))
  }

  /** The timeout is delivered and completed. */
  lemma Handled()
    ensures GuardReached(Monitoring(DeliveredHeader(), 1, 1, Reading(0, 0), 0))
  {
    GetsStuck();
    var w := StuckState();
    GuardReach(w, DoDeliver);
    GuardReach(DpcDelivery(w), DoComplete(Some(7)));
  }

  /** The thread enters once more. */
  lemma Reentered()
    ensures GuardReached(Monitoring(DeliveredHeader(), 2, 1, Reading(0, 0), 0))
  {
    Handled();
    GuardReach(Monitoring(DeliveredHeader(), 1, 1, Reading(0, 0), 0), DoEnterCount);
  }

  lemma RecoveryTick(h: Header)
    requires h.lastEvent == TimeoutEvent && h.queued.None?
    ensures Tick(Monitoring(h, 2, 1, Reading(0, 0), 0), Reading(1, 0))
            == Monitoring(Raise(h, RecoveryEvent, None), 2, 2, Reading(1, 0), 1)
  {
  }

  /** The tick that queues the recovery overwrites the trigger. */
  function OverwrittenState(): Watch {
    Monitoring(Raise(DeliveredHeader(), RecoveryEvent, None), 2, 2, Reading(1, 0), 1)
  }

  /** The trigger is 1 although an event is queued. */
  lemma TriggerOverwritten()
    ensures Reached(OverwrittenState())
    ensures OverwrittenState().trigger == 1 && OverwrittenState().h.queued == Some(None)
  {
    Reentered();
    GuardReachedReached(Monitoring(DeliveredHeader(), 2, 1, Reading(0, 0), 0));
    RecoveryTick(DeliveredHeader());
    Reach(Monitoring(DeliveredHeader(), 2, 1, Reading(0, 0), 0), DoTick(Reading(1, 0)));
  }

  lemma LateTick(h: Header)
    requires h.queued == Some(None)
    ensures Tick(Monitoring(h, 2, 2, Reading(1, 0), 1), Reading(2, 0))
            == Monitoring(Raise(h, TimeoutEvent, Some(7)), 2, 2, Reading(1, 0), 1)
  {
  }

  /** If the thread is stuck again before that recovery is delivered, its timeout is dropped: the recovery is queued. */
  lemma TimeoutDropped()
    ensures exists w :: Reached(w) && !Guard.Matches(w) && w.h.lastEvent == TimeoutEvent && w.h.queued == Some(None)
  {
    TriggerOverwritten();
    LateTick(OverwrittenState().h);
    Reach(OverwrittenState(), DoTick(Reading(2, 0)));
  }

  /** A recovery that is raised outside the section and delivered, but not completed. */
  function RecoveredHeader(): Header {
    Deliver(Raise(DeliveredHeader(), RecoveryEvent, None))
  }

  /** Thread 8 inside the section now, with one exit behind it. */
  function Second(h: Header, lastInCount: U32, lastOutCount: U32, trigger: nat): Watch {
    Watch(h, KernelTime, 10000, 1, 0, 2, 1, lastInCount, lastOutCount, Reading(0, 0), trigger, true, Some(8), true, 0)
  }

  /** Thread 7 has left the section. */
  function Left(h: Header, trigger: nat): Watch {
    Monitoring(h, 1, 1, Reading(0, 0), trigger).(outCount := 1)
  }

  lemma OutsideTick(h: Header)
    requires h.lastEvent == TimeoutEvent && h.queued.None?
    ensures Tick(Left(h, 0), Reading(0, 0)) == Left(Raise(h, RecoveryEvent, None), 2)
  {
  }

  lemma RecoversOutside()
    ensures GuardReached(Left(Raise(DeliveredHeader(), RecoveryEvent, None), 2))
  {
    Handled();
    GuardReach(Monitoring(DeliveredHeader(), 1, 1, Reading(0, 0), 0), DoExit);
    OutsideTick(DeliveredHeader());
    GuardReach(Left(DeliveredHeader(), 0), DoTick(Reading(0, 0)));
  }

  lemma EnterOther(h: Header)
    ensures EnterCount(EnterBind(Left(h, 2), 8)) == Second(h, 1, 0, 0)
  {
  }

  lemma RecoveryDelivered()
    ensures GuardReached(Left(RecoveredHeader(), 2))
  {
    RecoversOutside();
    GuardReach(Left(Raise(DeliveredHeader(), RecoveryEvent, None), 2), DoDeliver);
  }

  lemma SecondThread()
    ensures GuardReached(Second(RecoveredHeader(), 1, 0, 0))
  {
    RecoveryDelivered();
    var w := Left(RecoveredHeader(), 2);
    GuardReach(w, DoEnterBind(8));
    GuardReach(EnterBind(w, 8), DoEnterCount);
    EnterOther(RecoveredHeader());
  }

  lemma SnapshotTick(h: Header)
    requires h.lastEvent == RecoveryEvent
    ensures Tick(Second(h, 1, 0, 0), Reading(0, 0)) == Second(h, 2, 1, 1)
  {
  }

  lemma TimeoutTick(h: Header)
    requires h.queued.None?
    ensures Tick(Second(h, 2, 1, 1), Reading(1, 0)) == Second(Raise(h, TimeoutEvent, Some(8)), 2, 1, 2)
  {
  }

  /**
   * No guard is lost and nothing is dropped, but another thread gets stuck while the recovery is being handled:
   * a handler with an event without a thread finds that the last event is a timeout.
   */
  lemma TimeoutWithoutThread()
    ensures exists w :: GuardReached(w) && Guard.Matches(w) && w.h.lastEvent == TimeoutEvent && None in w.h.delivered
  {
    SecondThread();
    var h := RecoveredHeader();
    SnapshotTick(h);
    GuardReach(Second(h, 1, 0, 0), DoTick(Reading(0, 0)));
    TimeoutTick(h);
    GuardReach(Second(h, 2, 1, 1), DoTick(Reading(1, 0)));
    assert None in h.delivered;
  }
}
