/** What every run of the deferred watchdog keeps: references, lifetime, and the order of events. */
module DeferredReferences {
  import opened Base
  import opened ThreadTime
  import opened WatchObject
  import opened DeferredSpec
  import opened Runs

  /** A word of (Timeout+ Recovery)*, or the beginning of one: a recovery comes right after a timeout. */
  ghost predicate Alternates(log: seq<Event>) {
    forall i :: 0 <= i < |log| ==> InOrder(log, i)
  }

  ghost predicate InOrder(log: seq<Event>, i: nat)
    requires i < |log|
  {
    match log[i]
    case NoEvent => false
    case TimeoutEvent => true
    case RecoveryEvent => i > 0 && log[i - 1] == TimeoutEvent
  }

  ghost predicate Sound(w: Watch) {
    && Accounted(w.h)
    && (w.started <==> w.clientDpc)
    && (w.started ==> w.h.owner)
    && (!w.started ==> w.h.lastEvent != TimeoutEvent)
    && w.trigger <= 2
    && (w.trigger == 1 ==> w.started && w.thread.Some?)
    && (w.trigger == 2 ==> w.h.queued.Some? || w.h.delivered != multiset{})
    && Alternates(w.h.log)
  }

  lemma AlternatesSnoc(log: seq<Event>, event: Event)
    requires Alternates(log)
    requires event == TimeoutEvent || (event == RecoveryEvent && log != [] && log[|log| - 1] == TimeoutEvent)
    ensures Alternates(log + [event])
  {
    forall i | 0 <= i <= |log| ensures InOrder(log + [event], i) {
      if i < |log| {
        assert InOrder(log, i);
      }
    }
  }

  lemma TakenBackAccounted(w: Watch)
    requires Accounted(w.h) && w.h.owner && w.clientDpc
    ensures var h := TakenBack(w).h.(lastQueuedThread := None);
            Accounted(h) && h.destroyed == w.h.destroyed && h.owner
  {
    if w.h.lastEvent == TimeoutEvent {
      DiscardAccounted(w.h);
      RaiseAccounted(Discard(w.h), RecoveryEvent, None);
      ForgetThread(Raise(Discard(w.h), RecoveryEvent, None));
    } else {
      WithdrawAccounted(w.h);
      ForgetThread(Withdraw(w.h));
    }
  }

  lemma ForgetThread(h: Header)
    requires Accounted(h) && (h.queued.Some? ==> h.queued.value == None)
    ensures Accounted(h.(lastQueuedThread := None))
  {
    forall t ensures ThreadAccounted(h.(lastQueuedThread := None), t) {
      assert ThreadAccounted(h, t);
    }
  }

  lemma StopSound(w: Watch)
    requires Sound(w) && w.h.owner
    ensures Sound(Stop(w)) && Stop(w).h.destroyed == w.h.destroyed
  {
    if w.started {
      TakenBackAccounted(w);
    }
    if w.h.lastEvent == TimeoutEvent {
      AlternatesSnoc(w.h.log, RecoveryEvent);
    }
  }

  lemma QueueEventSound(w: Watch, event: Event)
    requires Sound(w) && w.started && event != NoEvent
    requires event == RecoveryEvent ==> w.h.lastEvent == TimeoutEvent
    ensures Sound(QueueEvent(w, event))
  {
    AlternatesSnoc(w.h.log, event);
    RaiseAccounted(w.h, event, if event == TimeoutEvent then w.thread else None);
  }

  lemma TickSound(w: Watch, now: Reading)
    requires Sound(w) && w.h.owner
    ensures Sound(Tick(w, now))
  {
    if w.started && w.thread.Some? && w.trigger == 0 {
      TickIdleSound(w, now);
    } else if w.started && w.thread.Some? && w.trigger == 1 {
      QueueEventSound(w, TimeoutEvent);
    }
  }

  lemma TickIdleSound(w: Watch, now: Reading)
    requires Sound(w) && w.started && w.thread.Some?
    ensures Sound(TickIdle(w, now))
  {
    if w.h.lastEvent == TimeoutEvent {
      QueueEventSound(w, RecoveryEvent);
    }
  }

  lemma EnterSound(w: Watch, thread: Thread)
    requires Sound(w)
    ensures Sound(EnterCount(EnterBind(w, thread)))
  {
  }

  lemma StepSound(w: Watch, e: Step)
    requires Sound(w) && Enabled(w, e)
    ensures Sound(Apply(w, e))
  {
    match e
    case DoStop => StopSound(w);
    case DoTick(now) => TickSound(w, now);
    case DoDeliver => DeliverAccounted(w.h);
    case DoComplete(event) => CompleteDeliveredAccounted(w.h, event);
    case DoRelease => ReleaseAccounted(w.h);
    case _ =>
  }

  lemma SoundInductive(timeType: TimeType, timeIncrement: U32)
    ensures Inductive(Poller(timeType, timeIncrement), Sound)
  {
    var m := Poller(timeType, timeIncrement);
    forall t ensures ThreadAccounted(m.init.h, t) {
    }
    forall w, e | Sound(w) && m.enabled(w, e) ensures Sound(m.step(w, e)) {
      StepSound(w, e);
    }
  }

  /** Every reachable state is sound. */
  lemma {:induction false} RunSound(timeType: TimeType, timeIncrement: U32, run: seq<Step>)
    requires Legal(Poller(timeType, timeIncrement), run)
    ensures Sound(After(Poller(timeType, timeIncrement), run))
  {
    SoundInductive(timeType, timeIncrement);
    Invariance(Poller(timeType, timeIncrement), Sound, run);
  }

  /** The reference counts after any run, spelled out. */
  lemma {:induction false} ReferencesBalance(timeType: TimeType, timeIncrement: U32, run: seq<Step>)
    requires Legal(Poller(timeType, timeIncrement), run)
    ensures var h := After(Poller(timeType, timeIncrement), run).h;
            && h.refCount == Count(h.owner) + Count(h.queued.Some?) + |h.delivered| + |h.discarded|
            && (forall t ::
                  h.threadRefs[t] == Count(h.queued == Some(Some(t))) + h.delivered[Some(t)] + h.discarded[Some(t)])
  {
    RunSound(timeType, timeIncrement, run);
    var h := After(Poller(timeType, timeIncrement), run).h;
    forall t ensures h.threadRefs[t] == Count(h.queued == Some(Some(t))) + h.delivered[Some(t)] + h.discarded[Some(t)] {
      assert ThreadAccounted(h, t);
    }
  }

  /**
   * The object is destroyed at most once, and it is gone exactly when the owner freed it and every
   * event ever queued was completed: never under an outstanding event, never while one was lost.
   */
  lemma {:induction false} DestroyedExactly(timeType: TimeType, timeIncrement: U32, run: seq<Step>)
    requires Legal(Poller(timeType, timeIncrement), run)
    ensures var h := After(Poller(timeType, timeIncrement), run).h;
            && h.destroyed <= 1
            && (h.destroyed == 1
                <==> !h.owner && h.queued.None? && h.delivered == multiset{} && h.discarded == multiset{})
  {
    RunSound(timeType, timeIncrement, run);
    var h := After(Poller(timeType, timeIncrement), run).h;
    assert |h.delivered| == 0 <==> h.delivered == multiset{};
    assert |h.discarded| == 0 <==> h.discarded == multiset{};
  }

  /** The only step that loses an event: Stop, while the last event is a timeout and the client DPC is queued. */
  predicate LosesEvent(w: Watch, e: Step) {
    e == DoStop && w.started && w.h.lastEvent == TimeoutEvent && w.h.queued.Some?
  }

  lemma LosesEventExactly(w: Watch, e: Step)
    requires Sound(w) && Enabled(w, e)
    ensures Apply(w, e).h.discarded
         == w.h.discarded + (if LosesEvent(w, e) then multiset{w.h.queued.value} else multiset{})
  {
    match e
    case DoTick(now) => TickDiscardsNothing(w, now);
    case DoStop =>
      if w.started {
        StopDiscards(w);
      }
    case _ =>
  }

  lemma TickDiscardsNothing(w: Watch, now: Reading)
    ensures Tick(w, now).h.discarded == w.h.discarded
  {
  }

  lemma StopDiscards(w: Watch)
    requires w.started && w.clientDpc
    ensures Stop(w).h.discarded
         == w.h.discarded + (if LosesEvent(w, DoStop) then multiset{w.h.queued.value} else multiset{})
  {
  }

  lemma {:induction false} LostStaysLost(w: Watch, e: Step)
    requires Sound(w) && Enabled(w, e)
    requires w.h.discarded != multiset{} || LosesEvent(w, e)
    ensures Apply(w, e).h.discarded != multiset{}
  {
    LosesEventExactly(w, e);
    if LosesEvent(w, e) {
      assert w.h.queued.value in Apply(w, e).h.discarded;
    } else {
      assert Apply(w, e).h.discarded == w.h.discarded;
    }
  }

  /** A lost event keeps its references for good: whatever happens later, the object is never destroyed. */
  lemma {:induction false} LostEventLeaks(timeType: TimeType, timeIncrement: U32, run: seq<Step>, k: nat)
    requires Legal(Poller(timeType, timeIncrement), run)
    requires k < |run| && LosesEvent(After(Poller(timeType, timeIncrement), run[..k]), run[k])
    ensures After(Poller(timeType, timeIncrement), run).h.destroyed == 0
  {
    var m := Poller(timeType, timeIncrement);
    var lost := (w: Watch) => w.h.discarded != multiset{};
    SoundInductive(timeType, timeIncrement);
    forall w, e | Sound(w) && lost(w) && m.enabled(w, e) ensures lost(m.step(w, e)) {
      LostStaysLost(w, e);
    }
    LegalPrefix(m, run, k);
    RunSound(timeType, timeIncrement, run[..k]);
    LostStaysLost(After(m, run[..k]), run[k]);
    AfterSnoc(m, run, k);
    Persistence(m, Sound, lost, run, k + 1);
    DestroyedExactly(timeType, timeIncrement, run);
  }

  /** Event discipline: the log alternates, ends in the last event, and a stopped watch has no timeout standing. */
  lemma {:induction false} EventDiscipline(timeType: TimeType, timeIncrement: U32, run: seq<Step>)
    requires Legal(Poller(timeType, timeIncrement), run)
    ensures var w := After(Poller(timeType, timeIncrement), run);
            && Alternates(w.h.log)
            && w.h.lastEvent == (if w.h.log == [] then NoEvent else w.h.log[|w.h.log| - 1])
            && (!w.started ==> w.h.lastEvent != TimeoutEvent)
  {
    RunSound(timeType, timeIncrement, run);
  }

  /** Event generation is never switched off for good: while the trigger blocks it, some event can be completed. */
  lemma TriggerTwoHasEvent(timeType: TimeType, timeIncrement: U32, run: seq<Step>)
    requires Legal(Poller(timeType, timeIncrement), run)
    requires After(Poller(timeType, timeIncrement), run).trigger == 2
    ensures var w := After(Poller(timeType, timeIncrement), run);
            w.h.queued.Some? || exists event :: event in w.h.delivered
  {
    RunSound(timeType, timeIncrement, run);
    var w := After(Poller(timeType, timeIncrement), run);
    if w.h.queued.None? {
      var event :| event in w.h.delivered;
    }
  }
}
