/**
 * The deferred watchdog of a display driver together with the handler of its events (watchdog/dwd.c and
 * watchdog/gdisup.c): the handler is a client as the watchdog needs it, and finds what it relies on.
 */
module DisplayWatch {
  import opened Base
  import opened ThreadTime
  import opened WatchObject
  import opened EventHandler
  import opened Runs
  import D = DeferredSpec
  import References = DeferredReferences
  import Guard = DeferredGuard

  /** The handler serves several watches; this is the number of the one at hand. */
  const ID: nat := 0

  datatype Pair = Pair(w: D.Watch, s: Handler)

  /** A call or tick of the watch, its client DPC, or a step of the handler, for this watch or another. */
  datatype JointStep =
    | OfWatch(e: D.Step)
    | Callback
    | OfHandler(step: Step)

  predicate JointEnabled(p: Pair, j: JointStep) {
    !p.s.crashed
    && match j
       case OfWatch(e) => !e.DoDeliver? && !e.DoComplete? && D.Enabled(p.w, e)
       case Callback => p.w.h.queued.Some?
       case OfHandler(step) => Enabled(p.s, step) && (step.Deliver? ==> step.e.watch != ID)
  }

  /** What the step is for the watch, if anything. */
  function WatchStep(p: Pair, j: JointStep): Option<D.Step> {
    match j
    case OfWatch(e) => Some(e)
    case Callback => Some(D.DoDeliver)
    case OfHandler(CompleteHandled(e)) => if e.watch == ID then Some(D.DoComplete(e.thread)) else None
    case OfHandler(CompleteRefused(e)) => if e.watch == ID then Some(D.DoComplete(e.thread)) else None
    case _ => None
  }

  /** And for the handler. */
  function HandlerStep(p: Pair, j: JointStep): Option<Step> {
    match j
    case OfWatch(_) => None
    case Callback => if p.w.h.queued.Some? then Some(Deliver(Incident(p.w.h.queued.value, ID))) else None
    case OfHandler(step) => Some(step)
  }

  predicate Completes(step: Step) {
    step.CompleteHandled? || step.CompleteRefused?
  }

  function WatchAfter(w: D.Watch, j: JointStep): D.Watch {
    match j
    case OfWatch(e) => D.Apply(w, e)
    case Callback => D.DpcDelivery(w)
    case OfHandler(step) => if Completes(step) && step.e.watch == ID then D.Complete(w, step.e.thread) else w
  }

  function JointApply(p: Pair, j: JointStep): Pair {
    var step := HandlerStep(p, j);
    Pair(WatchAfter(p.w, j), if step.Some? then Apply(p.s, step.value) else p.s)
  }

  ghost function Display(tt: TimeType, inc: U32): Machine<Pair, JointStep> {
    Machine(Pair(D.Allocate(tt, inc), Idle()), JointEnabled, JointApply)
  }

  /** What the client was given and has not completed is what the handler was called with and has not completed. */
  ghost predicate SameEvents(p: Pair, thread: Option<Thread>) {
    p.w.h.delivered[thread] + p.s.completed[Incident(thread, ID)] == p.s.delivered[Incident(thread, ID)]
  }

  ghost predicate Joined(p: Pair) {
    References.Sound(p.w) && SingleFlight(p.s) && forall thread :: SameEvents(p, thread)
  }

  /** The handler completes only what the watch delivered: the obligation of a client. */
  lemma CompletesWhatItWasGiven(p: Pair, j: JointStep)
    requires Joined(p) && JointEnabled(p, j) && WatchStep(p, j).Some?
    ensures D.Enabled(p.w, WatchStep(p, j).value) && WatchAfter(p.w, j) == D.Apply(p.w, WatchStep(p, j).value)
  {
    if j.OfHandler? {
      var e := j.step.e;
      assert BalancedFor(p.s, e);
      assert SameEvents(p, e.thread);
      assert Incident(e.thread, ID) == e;
    }
  }

  lemma WatchSideSound(p: Pair, j: JointStep, w': D.Watch)
    requires Joined(p) && JointEnabled(p, j) && w' == WatchAfter(p.w, j)
    ensures References.Sound(w')
  {
    if WatchStep(p, j).Some? {
      CompletesWhatItWasGiven(p, j);
      SoundAfter(p.w, WatchStep(p, j).value, w');
    } else {
      assert w' == p.w;
    }
  }

  lemma SoundAfter(w: D.Watch, e: D.Step, w': D.Watch)
    requires References.Sound(w) && D.Enabled(w, e) && w' == D.Apply(w, e)
    ensures References.Sound(w')
  {
    References.StepSound(w, e);
  }

  lemma HandlerSideKeeps(p: Pair, j: JointStep)
    requires SingleFlight(p.s) && JointEnabled(p, j)
    ensures SingleFlight(JointApply(p, j).s)
  {
    var step := HandlerStep(p, j);
    if step.Some? {
      StepKeeps(p.s, step.value);
    }
  }

  lemma JointStepKeeps(p: Pair, j: JointStep)
    requires Joined(p) && JointEnabled(p, j)
    ensures Joined(JointApply(p, j))
  {
    WatchSideSound(p, j, WatchAfter(p.w, j));
    HandlerSideKeeps(p, j);
    forall thread
      ensures SameEvents(JointApply(p, j), thread)
    {
      assert SameEvents(p, thread);
      if WatchStep(p, j).Some? {
        CompletesWhatItWasGiven(p, j);
      }
      EventsMove(p, j, thread);
    }
  }

  lemma HandlerMoves(s: Handler, step: Step)
    ensures Apply(s, step).delivered == if step.Deliver? then s.delivered + multiset{step.e} else s.delivered
    ensures Apply(s, step).completed == if Completes(step) then s.completed + multiset{step.e} else s.completed
  {
  }

  lemma EventsMove(p: Pair, j: JointStep, thread: Option<Thread>)
    requires JointEnabled(p, j) && SameEvents(p, thread)
    requires WatchStep(p, j).Some? ==> D.Enabled(p.w, WatchStep(p, j).value)
    ensures SameEvents(JointApply(p, j), thread)
  {
    match j
    case OfWatch(e) => KeepsDelivered(p.w, e);
    case Callback => CallbackMoves(p, thread);
    case OfHandler(step) => HandlerStepMoves(p, step, thread);
  }

  lemma CallbackMoves(p: Pair, thread: Option<Thread>)
    requires p.w.h.queued.Some? && SameEvents(p, thread)
    ensures SameEvents(JointApply(p, Callback), thread)
  {
    HandlerMoves(p.s, Deliver(Incident(p.w.h.queued.value, ID)));
  }

  lemma HandlerStepMoves(p: Pair, step: Step, thread: Option<Thread>)
    requires JointEnabled(p, OfHandler(step)) && SameEvents(p, thread)
    requires Completes(step) && step.e.watch == ID ==> step.e.thread in p.w.h.delivered
    ensures SameEvents(JointApply(p, OfHandler(step)), thread)
  {
    HandlerMoves(p.s, step);
    if Completes(step) {
      CompletionMoves(p, step.e, thread);
    }
  }

  lemma CompletionMoves(p: Pair, e: Incident, thread: Option<Thread>)
    requires SameEvents(p, thread) && (e.watch == ID ==> e.thread in p.w.h.delivered)
    ensures var delivered := if e.watch == ID then p.w.h.delivered - multiset{e.thread} else p.w.h.delivered;
            delivered[thread] + (p.s.completed + multiset{e})[Incident(thread, ID)]
            == p.s.delivered[Incident(thread, ID)]
  {
  }

  lemma KeepsDelivered(w: D.Watch, e: D.Step)
    requires !e.DoDeliver? && !e.DoComplete?
    ensures D.Apply(w, e).h.delivered == w.h.delivered
  {
  }

  lemma JoinedInductive(tt: TimeType, inc: U32)
    ensures Inductive(Display(tt, inc), Joined)
  {
    References.SoundInductive(tt, inc);
    forall e
      ensures BalancedFor(Idle(), e)
    {
    }
    assert forall thread :: SameEvents(Display(tt, inc).init, thread);
    forall p, j | Joined(p) && Display(tt, inc).enabled(p, j)
      ensures Joined(Display(tt, inc).step(p, j))
    {
      JointStepKeeps(p, j);
    }
  }

  lemma {:induction false} RunJoined(tt: TimeType, inc: U32, run: seq<JointStep>)
    requires Legal(Display(tt, inc), run)
    ensures Joined(After(Display(tt, inc), run))
  {
    JoinedInductive(tt, inc);
    Invariance(Display(tt, inc), Joined, run);
  }

  /** Beside the handler the watch does nothing that it does not do with any client. */
  lemma {:induction false} WatchRuns(tt: TimeType, inc: U32, run: seq<JointStep>)
    requires Legal(Display(tt, inc), run)
    ensures Reachable(D.Poller(tt, inc), After(Display(tt, inc), run).w)
  {
    if run == [] {
      InitReachable(D.Poller(tt, inc));
    } else {
      var n := |run| - 1;
      var p := After(Display(tt, inc), run[..n]);
      WatchRuns(tt, inc, run[..n]);
      RunJoined(tt, inc, run[..n]);
      WatchReaches(tt, inc, p, run[n]);
    }
  }

  lemma WatchReaches(tt: TimeType, inc: U32, p: Pair, j: JointStep)
    requires Joined(p) && JointEnabled(p, j) && Reachable(D.Poller(tt, inc), p.w)
    ensures Reachable(D.Poller(tt, inc), JointApply(p, j).w)
  {
    if WatchStep(p, j).Some? {
      CompletesWhatItWasGiven(p, j);
      StepReachable(D.Poller(tt, inc), p.w, WatchStep(p, j).value);
    }
  }

  /** While an incident is under way, from its callback to its completion, neither watch nor thread goes away. */
  lemma {:induction false} AliveUnderWay(tt: TimeType, inc: U32, run: seq<JointStep>, thread: Option<Thread>)
    requires Legal(Display(tt, inc), run)
    requires Outstanding(After(Display(tt, inc), run).s, Incident(thread, ID)) > 0
    ensures var h := After(Display(tt, inc), run).w.h;
            h.destroyed == 0 && h.refCount > 0 && (thread.Some? ==> thread.value in h.threadRefs)
  {
    RunJoined(tt, inc, run);
    var p := After(Display(tt, inc), run);
    assert BalancedFor(p.s, Incident(thread, ID));
    assert SameEvents(p, thread);
    assert thread in p.w.h.delivered;
    assert |p.w.h.delivered| > 0;
    if thread.Some? {
      assert ThreadAccounted(p.w.h, thread.value);
    }
  }

  /** What a worker asserts: if the last event is a timeout, no incident of this watch under way lacks a thread. */
  ghost predicate WorkerFindsThread(p: Pair) {
    p.w.h.lastEvent == TimeoutEvent ==> Outstanding(p.s, Incident(None, ID)) == 0
  }

  ghost predicate ThreadedPair(p: Pair) {
    Guard.Threaded(p.w)
  }

  ghost predicate LosesThread(p: Pair, j: JointStep) {
    j.OfWatch? && Guard.LosesThread(p.w, j.e)
  }

  lemma ThreadedFound(p: Pair)
    requires Joined(p)
    ensures ThreadedPair(p)
       <==> WorkerFindsThread(p) && (p.w.h.lastEvent == TimeoutEvent ==> p.w.h.queued != Some(None))
  {
    assert BalancedFor(p.s, Incident(None, ID));
    assert SameEvents(p, None);
  }

  lemma JointThreadedExactly(p: Pair, j: JointStep)
    requires Joined(p) && ThreadedPair(p) && JointEnabled(p, j)
    ensures ThreadedPair(JointApply(p, j)) <==> !LosesThread(p, j)
  {
    if WatchStep(p, j).Some? {
      CompletesWhatItWasGiven(p, j);
      Guard.ThreadedExactly(p.w, WatchStep(p, j).value);
    }
  }

  /** The worker's assertion holds in every run in which no timeout is raised under an unfinished recovery. */
  lemma {:induction false} WorkersAssertionHolds(tt: TimeType, inc: U32, run: seq<JointStep>)
    requires Legal(Display(tt, inc), run)
    ensures Throughout(Display(tt, inc), ThreadedPair, run) <==> Never(Display(tt, inc), LosesThread, run)
    ensures Never(Display(tt, inc), LosesThread, run) ==> WorkerFindsThread(After(Display(tt, inc), run))
  {
    var m := Display(tt, inc);
    JoinedInductive(tt, inc);
    forall p, j | Joined(p) && ThreadedPair(p) && m.enabled(p, j)
      ensures ThreadedPair(m.step(p, j)) <==> !LosesThread(p, j)
    {
      JointThreadedExactly(p, j);
    }
    ThroughoutExactly(m, Joined, ThreadedPair, LosesThread, run);
    RunJoined(tt, inc, run);
    ThreadedFound(After(m, run));
    assert run[..|run|] == run;
  }
}
