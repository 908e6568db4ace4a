/** The standard watchdog object (watchdog/watchdog.c): its routines change the fields in place. */
module StandardWatch {
  import opened Base
  import opened ThreadTime
  import opened WatchObject
  import Spec = StandardSpec
  import Timer = StandardTimer

  class Watchdog {
    const header: WatchdogObject
    const timeType: TimeType
    const timeIncrement: U32
    var startCount: U32
    var suspendCount: U32
    var dueTime: int
    var initialDueTime: int
    var lastReading: Reading
    var thread: Option<Thread>
    var clientDpc: bool
    /** The kernel timer: the relative wait it is set to. */
    var timer: Option<int>

    ghost function View(): Spec.Watch
      reads this, header
    {
      Spec.Watch(header.View(), timeType, timeIncrement, startCount, suspendCount, dueTime, initialDueTime,
                 lastReading, thread, clientDpc, timer)
    }

    ghost predicate Valid()
      reads this, header
    {
      Timer.Sound(View())
    }

    constructor (timeType: TimeType, timeIncrement: U32)
      ensures fresh(header)
      ensures View() == Spec.Allocate(timeType, timeIncrement)
      ensures Valid()
    {
      header := new WatchdogObject();
      this.timeType := timeType;
      this.timeIncrement := timeIncrement;
      startCount, suspendCount, dueTime, initialDueTime := 0, 0, 0, 0;
      lastReading := Reading(0, 0);
      thread, clientDpc, timer := None, false, None;
      new;
      Timer.SoundInductive(timeType, timeIncrement);
    }

    /** KeSetTimerEx with the wait cut to at most WD_MAX_WAIT. */
    method SetTimer(due: int)
      modifies this`timer
      ensures timer == Some(Spec.Capped(due))
    {
      var wait := due;
      if wait < -Spec.WD_MAX_WAIT {
        wait := -Spec.WD_MAX_WAIT;
      }
      timer := Some(wait);
    }

    method SetDueTime(relative: int, now: Reading)
      modifies this`dueTime, this`initialDueTime, this`lastReading
      ensures dueTime == initialDueTime == relative && lastReading == now
    {
      dueTime := relative;
      initialDueTime := relative;
      lastReading := now;
    }

    method Start(due: int, currentThread: Thread, now: Reading)
      requires Valid() && header.owner
      modifies this
      ensures View() == Spec.Start(old(View()), due, currentThread, now)
      ensures Valid()
    {
      Timer.StepSound(View(), Spec.DoStart(due, currentThread, now));
      var relative := due;
      if relative > 0 {
        relative := -relative;
      }
      if startCount < Spec.MAX_COUNT {
        startCount := startCount + 1;
      }
      thread := Some(currentThread);
      clientDpc := true;
      SetDueTime(relative, now);
      if suspendCount == 0 {
        SetTimer(relative);
      }
    }

    method Stop(incremental: bool)
      requires Valid() && header.owner
      modifies this, header
      ensures View() == Spec.Stop(old(View()), incremental)
      ensures Valid()
    {
      Timer.StopSound(View(), incremental);
      if startCount > 0 {
        if incremental {
          startCount := startCount - 1;
        } else {
          startCount := 0;
        }
        if startCount == 0 {
          CancelAndClear();
        }
      }
    }

    /** The part of Stop for the last start: cancel the timer, take a queued event back, forget the thread. */
    method CancelAndClear()
      requires header.referenceCount > 0
      modifies this, header
      ensures View() == Spec.Stopped(old(View()))
    {
      if clientDpc {
        header.WithdrawQueuedEvent();
      }
      header.lastQueuedThread := None;
      ClearFields();
    }

    method ClearFields()
      modifies this
      ensures View() == Spec.Stopped(old(View())).(h := old(header.View()))
    {
      timer, startCount, thread, clientDpc := None, 0, None, false;
      SetDueTime(0, Reading(0, 0));
    }

    method Suspend()
      requires Valid() && header.owner && suspendCount < Spec.MAX_COUNT
      modifies this
      ensures View() == Spec.Suspend(old(View()))
      ensures Valid()
    {
      Timer.StepSound(View(), Spec.DoSuspend(lastReading));
      if suspendCount == 0 && startCount > 0 {
        timer := None;
      }
      suspendCount := Wrap32(suspendCount + 1);
    }

    method Resume(incremental: bool, now: Reading)
      requires Valid() && header.owner
      modifies this
      ensures View() == Spec.Resume(old(View()), incremental, now)
      ensures Valid()
    {
      Timer.StepSound(View(), Spec.DoResume(incremental, now));
      var resumed := false;
      if incremental {
        if suspendCount > 0 {
          suspendCount := suspendCount - 1;
          if suspendCount == 0 {
            resumed := true;
          }
        }
      } else if suspendCount > 0 {
        suspendCount := 0;
        resumed := true;
      }
      if startCount > 0 && resumed && dueTime != 0 {
        lastReading := now;
        SetTimer(dueTime);
      }
    }

    method Reset(now: Reading)
      requires Valid() && header.owner
      modifies this
      ensures View() == Spec.Reset(old(View()), now)
      ensures Valid()
    {
      Timer.StepSound(View(), Spec.DoReset(now));
      if startCount > 0 {
        dueTime := initialDueTime;
        lastReading := now;
        if suspendCount == 0 {
          SetTimer(dueTime);
        }
      }
    }

    /** The timer expired; now is what KeQueryRuntimeThread reports. */
    method TimerDpcCallback(now: Reading)
      requires Valid() && timer.Some?
      modifies this, header
      ensures View() == Spec.Tick(old(View()), now)
      ensures Valid()
    {
      Timer.TickSound(View(), now);
      assert suspendCount == 0 && thread.Some?;
      timer := None;
      var delta := MeasureThreadTime(timeType, lastReading, now);
      delta := delta * timeIncrement;
      lastReading := now;
      dueTime := dueTime + delta;
      if dueTime >= 0 {
        header.SetLastEvent(TimeoutEvent);
        if clientDpc {
          var inserted := header.QueueClientDpc(thread);
        }
        dueTime := 0;
      } else {
        SetTimer(dueTime);
      }
    }

    method DeliverDpc()
      requires Valid() && header.queued.Some?
      modifies header
      ensures View() == Spec.Apply(old(View()), Spec.DoDeliver)
      ensures Valid()
    {
      DeliverAccounted(header.View());
      header.delivered := header.delivered + multiset{header.queued.value};
      header.queued := None;
    }

    method CompleteDeliveredEvent(eventThread: Option<Thread>)
      requires Valid() && eventThread in header.delivered
      modifies header
      ensures View() == Spec.Apply(old(View()), Spec.DoComplete(eventThread))
      ensures Valid()
    {
      Timer.StepSound(View(), Spec.DoComplete(eventThread));
      TakeOne(header.delivered, eventThread);
      header.delivered := header.delivered - multiset{eventThread};
      header.CompleteEvent(eventThread);
    }

    /** Stop for good and give the owner's reference back; no DPC is left to flush. */
    method Free()
      requires Valid() && header.owner
      modifies this, header
      ensures Valid() && timer.None? && header.queued.None?
      ensures View() == Spec.Apply(Spec.Stop(old(View()), false), Spec.DoRelease)
    {
      Stop(false);
      ReleaseAccounted(header.View());
      header.owner := false;
      header.DereferenceObject();
    }
  }
}
