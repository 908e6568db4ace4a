/** The deferred watchdog object (watchdog/dwd.c): its routines change the fields in place. */
module DeferredWatch {
  import opened Base
  import opened ThreadTime
  import opened WatchObject
  import Spec = DeferredSpec
  import References = DeferredReferences

  class DeferredWatchdog {
    const header: WatchdogObject
    const timeType: TimeType
    const timeIncrement: U32
    var period: int
    var suspendCount: U32
    var inCount: U32
    var outCount: U32
    var lastInCount: U32
    var lastOutCount: U32
    var lastReading: Reading
    var trigger: nat
    var started: bool
    var thread: Option<Thread>
    var clientDpc: bool
    /** Resumes of other threads that are between their two operations. */
    ghost var owing: nat

    ghost function View(): Spec.Watch
      reads this, header
    {
      Spec.Watch(header.View(), timeType, timeIncrement, period, suspendCount, inCount, outCount,
                 lastInCount, lastOutCount, lastReading, trigger, started, thread, clientDpc, owing)
    }

    ghost predicate Valid()
      reads this, header
    {
      References.Sound(View())
    }

    constructor (timeType: TimeType, timeIncrement: U32)
      ensures fresh(header)
      ensures View() == Spec.Allocate(timeType, timeIncrement)
      ensures Valid()
    {
      header := new WatchdogObject();
      this.timeType := timeType;
      this.timeIncrement := timeIncrement;
      period, suspendCount, inCount, outCount, lastInCount, lastOutCount := 0, 0, 0, 0, 0, 0;
      lastReading := Reading(0, 0);
      trigger, started, thread, clientDpc, owing := 0, false, None, false, 0;
      new;
      References.SoundInductive(timeType, timeIncrement);
    }

    method ClearCounters()
      modifies this
      ensures View() == Spec.Cleared(old(View()))
    {
      ClearSnapshots();
      inCount := 0;
      outCount := 0;
      trigger := 0;
      thread := None;
    }

    method ClearSnapshots()
      modifies this`lastInCount, this`lastOutCount, this`lastReading
      ensures lastInCount == lastOutCount == 0 && lastReading == Spec.NO_READING
    {
      lastInCount := 0;
      lastOutCount := 0;
      lastReading := Reading(0, 0);
    }

    method Start(lPeriod: int)
      requires Valid() && header.owner
      modifies this
      ensures View() == Spec.Start(old(View()), lPeriod)
      ensures Valid()
    {
      References.StepSound(View(), Spec.DoStart(lPeriod));
      period := lPeriod;
      ClearCounters();
      started := true;
      clientDpc := true;
    }

    method Stop()
      requires Valid() && header.owner
      modifies this, header
      ensures View() == Spec.Stop(old(View()))
      ensures Valid()
    {
      References.StopSound(View());
      if started {
        TakeBackEvent();
        ClearStarted();
      }
    }

    method ClearStarted()
      modifies this, header`lastQueuedThread
      ensures View() == Spec.Stopped(old(View()))
    {
      header.lastQueuedThread := None;
      ClearCounters();
      period := 0;
      started := false;
      clientDpc := false;
    }

    /** The part of Stop that deals with a queued event. */
    method TakeBackEvent()
      requires Valid() && header.owner
      modifies this`trigger, header
      ensures View() == Spec.TakenBack(old(View()))
    {
      if clientDpc {
        if header.lastEvent == TimeoutEvent {
          ghost var before := header.View();
          var ignored := header.RemoveQueueDpc();
          header.discarded := Discard(before).discarded;
          var queued := QueueDeferredEvent(RecoveryEvent);
        } else {
          var wasQueued := header.RemoveQueueDpc();
          if wasQueued {
            CompleteEvent(header.lastQueuedThread);
          }
        }
      }
    }

    method Suspend()
      requires Valid() && header.owner
      modifies this`suspendCount
      ensures View() == Spec.Suspend(old(View()))
      ensures Valid()
    {
      References.StepSound(View(), Spec.DoSuspend);
      suspendCount := Wrap32(suspendCount + 1);
    }

    method Resume(incremental: bool)
      requires Valid() && header.owner
      modifies this`suspendCount
      ensures View() == Spec.Resume(old(View()), incremental)
      ensures Valid()
    {
      if incremental {
        suspendCount := Wrap32(suspendCount - 1);
        if suspendCount == Wrap32(-1) {
          suspendCount := Wrap32(suspendCount + 1);
        }
      } else {
        suspendCount := 0;
      }
    }

    method Reset()
      requires Valid() && header.owner
      modifies this
      ensures View() == Spec.Reset(old(View()))
      ensures Valid()
    {
      References.StepSound(View(), Spec.DoReset);
      inCount := 0;
      outCount := 0;
      trigger := 0;
    }

    method EnterMonitoredSection(currentThread: Thread)
      requires Valid() && header.owner
      modifies this
      ensures View() == Spec.EnterCount(Spec.EnterBind(old(View()), currentThread))
      ensures Valid()
    {
      References.EnterSound(View(), currentThread);
      if thread != Some(currentThread) {
        trigger := 0;
        thread := Some(currentThread);
      }
      inCount := Wrap32(inCount + 1);
    }

    method ExitMonitoredSection()
      requires Valid() && header.owner
      modifies this`outCount
      ensures View() == Spec.Exit(old(View()))
      ensures Valid()
    {
      References.StepSound(View(), Spec.DoExit);
      outCount := Wrap32(outCount + 1);
    }

    method QueueDeferredEvent(event: Event) returns (queued: bool)
      requires header.referenceCount > 0
      modifies this`trigger, header
      ensures View() == Spec.QueueEvent(old(View()), event)
      ensures queued == (clientDpc && event != NoEvent && old(header.queued).None?)
    {
      queued := false;
      if clientDpc {
        match event {
          case RecoveryEvent =>
            header.SetLastEvent(RecoveryEvent);
            queued := header.QueueClientDpc(None);
            if queued {
              trigger := 2;
            }
          case TimeoutEvent =>
            header.SetLastEvent(TimeoutEvent);
            queued := header.QueueClientDpc(thread);
            if queued {
              trigger := 2;
            }
          case NoEvent =>
        }
      }
    }

    /** The timer DPC; now is what KeQueryRuntimeThread reports for the monitored thread. */
    method TimerDpcCallback(now: Reading)
      requires Valid() && header.owner
      modifies this, header
      ensures View() == Spec.Tick(old(View()), now)
      ensures Valid()
    {
      References.TickSound(View(), now);
      if started && thread.Some? {
        if trigger == 0 {
          if suspendCount != 0 {
            return;
          }
          if header.lastEvent == TimeoutEvent {
            if inCount != lastInCount || outCount != lastOutCount || inCount == outCount {
              var queued := QueueDeferredEvent(RecoveryEvent);
            }
          }
          if inCount == outCount {
            return;
          }
          TakeSnapshot(now);
        } else if trigger == 1 {
          if inCount == outCount || suspendCount != 0 {
            trigger := 0;
            return;
          }
          if inCount != lastInCount || outCount != lastOutCount {
            TakeSnapshot(now);
            return;
          }
          var threadTime := MeasureThreadTime(timeType, lastReading, now);
          threadTime := threadTime * timeIncrement;
          threadTime := TruncDiv(threadTime, 10000);
          if threadTime >= period {
            var queued := QueueDeferredEvent(TimeoutEvent);
          }
        } else {
          // An event is posted and waits for completion; the trigger has no other value.
          assert trigger == 2;
        }
      }
    }

    method TakeSnapshot(now: Reading)
      modifies this
      ensures View() == Spec.Snapshot(old(View()), now)
    {
      trigger := 1;
      lastInCount := inCount;
      lastOutCount := outCount;
      lastReading := now;
    }

    method CompleteEvent(eventThread: Option<Thread>)
      requires header.referenceCount > 0
      modifies this`trigger, header
      ensures View() == old(View()).(h := Completed(old(header.View()), eventThread), trigger := 0)
    {
      trigger := 0;
      header.CompleteEvent(eventThread);
    }

    /** The client's handler is done with an event that was delivered to it. */
    method CompleteDeliveredEvent(eventThread: Option<Thread>)
      requires Valid() && eventThread in header.delivered
      modifies this`trigger, header
      ensures View() == Spec.Complete(old(View()), eventThread)
      ensures Valid()
    {
      References.StepSound(View(), Spec.DoComplete(eventThread));
      TakeOne(header.delivered, eventThread);
      header.delivered := header.delivered - multiset{eventThread};
      CompleteEvent(eventThread);
    }

    /** The client DPC leaves its queue. */
    method DeliverDpc()
      requires Valid()
      modifies header
      ensures View() == Spec.DpcDelivery(old(View()))
      ensures Valid()
    {
      if header.queued.Some? {
        DeliverAccounted(header.View());
        header.delivered := header.delivered + multiset{header.queued.value};
        header.queued := None;
      }
    }

    /** Stop, let every queued DPC run to completion, and give the owner's reference back. */
    method Free()
      requires Valid() && header.owner
      modifies this, header
      ensures View() == Spec.FreeRelease(Spec.DpcDelivery(Spec.Stop(old(View()))))
      ensures Valid()
    {
      Stop();
      DeliverDpc();
      ReleaseAccounted(header.View());
      header.owner := false;
      header.DereferenceObject();
    }
  }
}
