/**
 * The trigger is meant to be 2 while an event of the deferred watchdog is in the DPC queue, so that no second one
 * is raised before it is delivered (watchdog/dwd.c). When it is not, and what comes of it.
 */
module DeferredGuard {
  import opened Base
  import opened ThreadTime
  import opened WatchObject
  import opened DeferredSpec
  import opened Runs
  import References = DeferredReferences

  ghost predicate Guarded(w: Watch) {
    w.h.queued.Some? ==> w.trigger == 2
  }

  /** A tick that raises a recovery, and one that raises a timeout; only they and Stop raise anything. */
  predicate TickRecovers(w: Watch, e: Step) {
    && e.DoTick? && w.started && w.thread.Some? && w.trigger == 0 && w.suspendCount == 0
    && w.h.lastEvent == TimeoutEvent && (Progress(w) || !Inside(w))
  }

  predicate TimesOut(w: Watch, e: Step) {
    && e.DoTick? && w.started && w.thread.Some? && w.trigger == 1 && w.suspendCount == 0
    && Inside(w) && !Progress(w) && StuckLongEnough(w, e.now)
  }

  /** A tick that queues a recovery inside the section and then takes a snapshot, which overwrites the trigger. */
  predicate RecoversInside(w: Watch, e: Step) {
    TickRecovers(w, e) && Progress(w) && Inside(w)
  }

  /** The steps that clear or overwrite the trigger under a queued event, or queue one and clear it. */
  predicate Unguards(w: Watch, e: Step) {
    match e
    case DoStart(_) => w.h.queued.Some?
    case DoReset => w.h.queued.Some?
    case DoComplete(_) => w.h.queued.Some?
    case DoEnterBind(thread) => w.h.queued.Some? && w.thread != Some(thread)
    case DoStop => w.started && w.h.lastEvent == TimeoutEvent
    case DoTick(_) => RecoversInside(w, e)
    case _ => false
  }

  /** The guard is lost exactly by one of those steps. */
  lemma GuardedExactly(w: Watch, e: Step)
    requires References.Sound(w) && Guarded(w) && Enabled(w, e)
    ensures Guarded(Apply(w, e)) <==> !Unguards(w, e)
  {
  }

  /** A recovery is raised, by a tick, while the client DPC is queued already. */
  predicate DropsRecovery(w: Watch, e: Step) {
    TickRecovers(w, e) && w.h.queued.Some?
  }

  /** A timeout is. */
  predicate DropsTimeout(w: Watch, e: Step) {
    TimesOut(w, e) && w.h.queued.Some?
  }

  /** The branches never to be taken: a tick stores an event, and the DPC that is queued is that of an older one. */
  ghost predicate Drops(w: Watch, e: Step) {
    e.DoTick? && w.h.queued.Some? && |Apply(w, e).h.log| == |w.h.log| + 1
  }

  lemma DropsExactly(w: Watch, e: Step)
    requires References.Sound(w) && Enabled(w, e)
    ensures Drops(w, e) <==> DropsRecovery(w, e) || DropsTimeout(w, e)
    ensures Drops(w, e) ==> Apply(w, e).h.queued == w.h.queued
    ensures DropsRecovery(w, e) ==> Apply(w, e).h.lastEvent == RecoveryEvent
    ensures DropsTimeout(w, e) ==> Apply(w, e).h.lastEvent == TimeoutEvent
  {
  }

  /** It takes a lost guard. */
  lemma DropsOnlyUnguarded(w: Watch, e: Step)
    requires References.Sound(w) && Guarded(w) && Enabled(w, e)
    ensures !Drops(w, e)
  {
  }

  /** Stop takes a timeout back by raising a recovery. */
  predicate StopRecovers(w: Watch, e: Step) {
    e.DoStop? && w.started && w.h.lastEvent == TimeoutEvent
  }

  /** The event that a step raises, if any. */
  function Raised(w: Watch, e: Step): Event {
    if TimesOut(w, e) then TimeoutEvent
    else if TickRecovers(w, e) || StopRecovers(w, e) then RecoveryEvent
    else NoEvent
  }

  function QueuedAfter(w: Watch, e: Step): Option<Option<Thread>> {
    if e.DoDeliver? || (e.DoStop? && w.started && !StopRecovers(w, e)) then None
    else if Raised(w, e) == NoEvent || (w.h.queued.Some? && !e.DoStop?) then w.h.queued
    else Some(if TimesOut(w, e) then w.thread else None)
  }

  function DeliveredAfter(w: Watch, e: Step): multiset<Option<Thread>> {
    if e.DoDeliver? && w.h.queued.Some? then w.h.delivered + multiset{w.h.queued.value}
    else if e.DoComplete? then w.h.delivered - multiset{e.event}
    else w.h.delivered
  }

  /** Where the events are after the step: logged, last, queued and delivered. */
  predicate Places(w: Watch, e: Step, h: Header) {
    && h.log == (if Raised(w, e) == NoEvent then w.h.log else w.h.log + [Raised(w, e)])
    && h.lastEvent == (if Raised(w, e) == NoEvent then w.h.lastEvent else Raised(w, e))
    && h.queued == QueuedAfter(w, e) && h.delivered == DeliveredAfter(w, e)
  }

  lemma StepPlaces(w: Watch, e: Step)
    requires References.Sound(w) && Enabled(w, e)
    ensures Places(w, e, Apply(w, e).h)
  {
    match e
    case DoTick(now) => TickPlaces(w, now);
    case DoStop => StopPlaces(w);
    case _ => OtherPlaces(w, e);
  }

  lemma OtherPlaces(w: Watch, e: Step)
    requires Enabled(w, e) && !e.DoTick? && !e.DoStop?
    ensures Places(w, e, Apply(w, e).h)
  {
    match e
    case DoDeliver =>
    case DoComplete(_) =>
    case DoRelease =>
    case _ => HeaderKept(w, e);
  }

  lemma HeaderKept(w: Watch, e: Step)
    requires !e.DoTick? && !e.DoStop? && !e.DoDeliver? && !e.DoComplete? && !e.DoRelease?
    ensures Apply(w, e).h == w.h
  {
  }

  lemma TickPlaces(w: Watch, now: Reading)
    requires References.Sound(w)
    ensures Places(w, DoTick(now), Tick(w, now).h)
  {
    if w.started && w.thread.Some? && w.trigger == 0 {
      IdlePlaces(w, now);
    } else if w.started && w.thread.Some? && w.trigger == 1 {
      WatchingPlaces(w, now);
    }
  }

  lemma IdlePlaces(w: Watch, now: Reading)
    requires References.Sound(w) && w.started && w.thread.Some? && w.trigger == 0
    ensures Places(w, DoTick(now), TickIdle(w, now).h)
  {
  }

  lemma WatchingPlaces(w: Watch, now: Reading)
    requires References.Sound(w) && w.started && w.thread.Some? && w.trigger == 1
    ensures Places(w, DoTick(now), TickWatching(w, now).h)
  {
  }

  lemma StopPlaces(w: Watch)
    requires References.Sound(w)
    ensures Places(w, DoStop, Stop(w).h)
  {
  }

  /** The event in the DPC queue is the last event: it carries a thread exactly if that is a timeout. */
  predicate Matches(w: Watch) {
    w.h.queued.Some? ==> (w.h.queued.value.Some? <==> w.h.lastEvent == TimeoutEvent)
  }

  /** An event is dropped that is not of the kind of the one that is queued. */
  predicate Mismatches(w: Watch, e: Step) {
    DropsRecovery(w, e) || (DropsTimeout(w, e) && w.h.lastEvent != TimeoutEvent)
  }

  lemma MatchesExactly(w: Watch, e: Step)
    requires References.Sound(w) && Matches(w) && Enabled(w, e)
    ensures Matches(Apply(w, e)) <==> !Mismatches(w, e)
  {
    StepPlaces(w, e);
    MatchesPlaced(w, e, Apply(w, e));
  }

  lemma MatchesPlaced(w: Watch, e: Step, w': Watch)
    requires References.Sound(w) && Matches(w) && Enabled(w, e) && Places(w, e, w'.h)
    ensures Matches(w') <==> !Mismatches(w, e)
  {
  }

  /** The runs without a step that loses the guard. */
  ghost function GuardedPoller(timeType: TimeType, timeIncrement: U32): Machine<Watch, Step> {
    Machine(Allocate(timeType, timeIncrement), (w: Watch, e: Step) => Enabled(w, e) && !Unguards(w, e), Apply)
  }

  ghost predicate Kept(w: Watch) {
    References.Sound(w) && Guarded(w) && Matches(w)
  }

  /** Then the trigger guards every queued event, nothing is dropped, and the queued event is the last one. */
  lemma {:induction false} GuardedRuns(timeType: TimeType, timeIncrement: U32, run: seq<Step>)
    requires Legal(GuardedPoller(timeType, timeIncrement), run)
    ensures Kept(After(GuardedPoller(timeType, timeIncrement), run))
  {
    var m := GuardedPoller(timeType, timeIncrement);
    References.SoundInductive(timeType, timeIncrement);
    forall w, e | Kept(w) && m.enabled(w, e)
      ensures Kept(m.step(w, e))
    {
      KeptStep(w, e);
    }
    assert Poller(timeType, timeIncrement).init == m.init;
    Invariance(m, Kept, run);
  }

  lemma KeptStep(w: Watch, e: Step)
    requires Kept(w) && Enabled(w, e) && !Unguards(w, e)
    ensures Kept(Apply(w, e))
  {
    References.StepSound(w, e);
    GuardedExactly(w, e);
    MatchesExactly(w, e);
    DropsExactly(w, e);
    DropsOnlyUnguarded(w, e);
  }

  // ---- What the client finds

  /** Whoever handles an event finds the last event of its kind: a thread exactly with a timeout. */
  ghost predicate Clear(w: Watch) {
    forall event :: event in w.h.delivered ==> (event.Some? <==> w.h.lastEvent == TimeoutEvent)
  }

  /** Another kind of event is raised while the client still handles one. */
  predicate Overtakes(w: Watch, e: Step) {
    && w.h.delivered != multiset{}
    && (TickRecovers(w, e) || StopRecovers(w, e) || (TimesOut(w, e) && w.h.lastEvent != TimeoutEvent))
  }

  /** While queued and last event agree, what is delivered ceases to agree exactly when it is overtaken. */
  lemma ClearExactly(w: Watch, e: Step)
    requires References.Sound(w) && Matches(w) && Clear(w) && Enabled(w, e)
    ensures Clear(Apply(w, e)) <==> !Overtakes(w, e)
  {
    StepPlaces(w, e);
    ClearPlaced(w, e, Apply(w, e));
  }

  lemma ClearPlaced(w: Watch, e: Step, w': Watch)
    requires References.Sound(w) && Matches(w) && Clear(w) && Enabled(w, e) && Places(w, e, w'.h)
    ensures Clear(w') <==> !Overtakes(w, e)
  {
    if Overtakes(w, e) {
      var event :| event in w.h.delivered;
      assert event in w'.h.delivered;
    }
  }

  ghost predicate Agrees(w: Watch) {
    Matches(w) && Clear(w)
  }

  predicate Misleads(w: Watch, e: Step) {
    Mismatches(w, e) || Overtakes(w, e)
  }

  lemma AgreesExactly(w: Watch, e: Step)
    requires References.Sound(w) && Agrees(w) && Enabled(w, e)
    ensures Agrees(Apply(w, e)) <==> !Misleads(w, e)
  {
    MatchesExactly(w, e);
    ClearExactly(w, e);
  }

  /** Queued, delivered and last event agree throughout exactly the runs in which nothing is dropped or overtaken. */
  lemma {:induction false} AgreesThroughoutExactly(timeType: TimeType, timeIncrement: U32, run: seq<Step>)
    requires Legal(Poller(timeType, timeIncrement), run)
    ensures Throughout(Poller(timeType, timeIncrement), Agrees, run)
       <==> Never(Poller(timeType, timeIncrement), Misleads, run)
  {
    var m := Poller(timeType, timeIncrement);
    References.SoundInductive(timeType, timeIncrement);
    forall w, e | References.Sound(w) && Agrees(w) && m.enabled(w, e)
      ensures Agrees(m.step(w, e)) <==> !Misleads(w, e)
    {
      AgreesExactly(w, e);
    }
    ThroughoutExactly(m, References.Sound, Agrees, Misleads, run);
  }

  /** While the last event is a timeout no event without a thread is on its way: a handler asserts that it has one. */
  ghost predicate Threaded(w: Watch) {
    w.h.lastEvent == TimeoutEvent ==> w.h.queued != Some(None) && None !in w.h.delivered
  }

  /** A timeout is raised while a recovery is queued or being handled. */
  ghost predicate LosesThread(w: Watch, e: Step) {
    TimesOut(w, e) && (w.h.queued == Some(None) || None in w.h.delivered)
  }

  lemma ThreadedExactly(w: Watch, e: Step)
    requires References.Sound(w) && Threaded(w) && Enabled(w, e)
    ensures Threaded(Apply(w, e)) <==> !LosesThread(w, e)
  {
    StepPlaces(w, e);
    ThreadedPlaced(w, e, Apply(w, e));
  }

  lemma ThreadedPlaced(w: Watch, e: Step, w': Watch)
    requires References.Sound(w) && Threaded(w) && Enabled(w, e) && Places(w, e, w'.h)
    ensures Threaded(w') <==> !LosesThread(w, e)
  {
  }

  /** No timeout is ever without its thread exactly in the runs that raise none under an unfinished recovery. */
  lemma {:induction false} ThreadedThroughoutExactly(timeType: TimeType, timeIncrement: U32, run: seq<Step>)
    requires Legal(Poller(timeType, timeIncrement), run)
    ensures Throughout(Poller(timeType, timeIncrement), Threaded, run)
       <==> Never(Poller(timeType, timeIncrement), LosesThread, run)
  {
    var m := Poller(timeType, timeIncrement);
    References.SoundInductive(timeType, timeIncrement);
    forall w, e | References.Sound(w) && Threaded(w) && m.enabled(w, e)
      ensures Threaded(m.step(w, e)) <==> !LosesThread(w, e)
    {
      ThreadedExactly(w, e);
    }
    ThroughoutExactly(m, References.Sound, Threaded, LosesThread, run);
  }
}
