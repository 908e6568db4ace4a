/**
 * The trigger of the deferred watchdog (watchdog/dwd.c): exactly which steps leave it at 1, watching, and at 2,
 * waiting for completion; and that nothing is raised while it waits.
 */
module DeferredTrigger {
  import opened Base
  import opened ThreadTime
  import opened WatchObject
  import opened DeferredSpec
  import opened Runs
  import opened NoFalseTimeout
  import Guard = DeferredGuard
  import References = DeferredReferences

  /** What ends the wait for completion, besides the completion itself. */
  predicate EndsBlock(w: Watch, e: Step) {
    match e
    case DoStart(_) => true
    case DoReset => true
    case DoComplete(_) => true
    case DoStop => w.started
    case DoEnterBind(thread) => w.thread != Some(thread)
    case _ => false
  }

  /** Delivered or not, the event blocks further ones until exactly one of these steps comes. */
  lemma BlockedExactly(w: Watch, e: Step)
    requires References.Sound(w) && Enabled(w, e) && w.trigger == 2
    ensures Apply(w, e).trigger == 2 <==> !EndsBlock(w, e)
    ensures !EndsBlock(w, e) ==> Apply(w, e).h.log == w.h.log
  {
  }

  /** A tick queues an event and does not take a snapshot after it. */
  predicate QueuesEvent(w: Watch, e: Step) {
    (Guard.TimesOut(w, e) || (Guard.TickRecovers(w, e) && !Inside(w))) && w.h.queued.None?
  }

  lemma TriggerTwoExactly(w: Watch, e: Step)
    requires References.Sound(w) && Enabled(w, e)
    ensures Apply(w, e).trigger == 2 <==> if w.trigger == 2 then !EndsBlock(w, e) else QueuesEvent(w, e)
  {
    match e
    case DoTick(now) => TickTriggers(w, now);
    case _ =>
  }

  lemma TickTriggers(w: Watch, now: Reading)
    requires References.Sound(w)
    ensures Tick(w, now).trigger == 2 <==> w.trigger == 2 || QueuesEvent(w, DoTick(now))
    ensures Tick(w, now).trigger == 1
       <==> || TakesSnapshot(w, DoTick(now))
            || (w.trigger == 1 && w.suspendCount == 0 && Inside(w) && !QueuesEvent(w, DoTick(now)))
  {
  }

  /** The watch goes on watching exactly if the step takes a snapshot, or leaves one alone and raises no event. */
  lemma TriggerOneExactly(w: Watch, e: Step)
    requires References.Sound(w) && Enabled(w, e)
    ensures Apply(w, e).trigger == 1
       <==> || TakesSnapshot(w, e)
            || (w.trigger == 1 && Undisturbed(w, e, w.thread.value) && !QueuesEvent(w, e))
  {
    match e
    case DoTick(now) => TickTriggers(w, now);
    case _ =>
  }

  ghost predicate Blocked(w: Watch, log: seq<Event>) {
    References.Sound(w) && w.trigger == 2 && w.h.log == log
  }

  /** From a state that waits for completion on, nothing is raised until one of those steps comes. */
  lemma {:induction false} NothingRaisedWhileBlocked(tt: TimeType, inc: U32, run: seq<Step>, j: nat, k: nat)
    requires Legal(Poller(tt, inc), run) && j <= k <= |run|
    requires After(Poller(tt, inc), run[..j]).trigger == 2
    requires Between(Poller(tt, inc), (w, e) => !EndsBlock(w, e), run, j, k)
    ensures After(Poller(tt, inc), run[..k]).trigger == 2
    ensures After(Poller(tt, inc), run[..k]).h.log == After(Poller(tt, inc), run[..j]).h.log
  {
    var m := Poller(tt, inc);
    var log := After(m, run[..j]).h.log;
    var blocked := (w: Watch) => Blocked(w, log);
    var blocks := (w: Watch, e: Step) => Enabled(w, e) && !EndsBlock(w, e);
    LegalPrefix(m, run, j);
    References.RunSound(tt, inc, run[..j]);
    forall w, e | blocked(w) && blocks(w, e)
      ensures blocked(m.step(w, e))
    {
      References.StepSound(w, e);
      BlockedExactly(w, e);
    }
    forall i | j <= i < k
      ensures blocks(After(m, run[..i]), run[i])
    {
      LegalPrefix(m, run, i);
    }
    Lasting(m, blocked, blocks, run, j, k);
  }

  /** In particular no second event is queued while the first one is being handled. */
  lemma HandledAlone(w: Watch, e: Step)
    requires References.Sound(w) && Enabled(w, e) && w.trigger == 2 && e.DoTick?
    ensures Apply(w, e) == w
  {
  }

  /** What a snapshot noted stays noted until the next one, a start, or a stop of the started watch. */
  lemma SnapshotExactly(w: Watch, e: Step)
    requires References.Sound(w) && Enabled(w, e)
    ensures var w' := Apply(w, e);
            (w'.lastInCount, w'.lastOutCount, w'.lastReading)
            == if TakesSnapshot(w, e) then (w.inCount, w.outCount, e.now)
               else if e.DoStart? || (e.DoStop? && w.started) then (0, 0, Reading(0, 0))
               else (w.lastInCount, w.lastOutCount, w.lastReading)
  {
  }

  /** Taking an event back for a stop leaves the trigger at 2 with a recovery in the queue, and at 0 without one. */
  lemma TakesBackExactly(w: Watch)
    requires References.Sound(w) && w.started
    ensures var w' := TakenBack(w);
            && (w.h.lastEvent == TimeoutEvent ==> w'.trigger == 2 && w'.h.queued == Some(None))
            && (w.h.lastEvent != TimeoutEvent ==> w'.h.queued == None)
            && (w.h.lastEvent != TimeoutEvent ==> w'.trigger == if w.h.queued.Some? then 0 else w.trigger)
  {
  }
}
