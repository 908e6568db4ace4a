/**
 * The display driver's event handler (watchdog/gdisup.c) takes an event exactly when it is idle, and whatever is
 * under way gets done: without new events it comes to rest with every event completed.
 */
module HandlerProgress {
  import opened Base
  import opened WatchObject
  import opened EventHandler
  import opened Runs

  /** A callback wins the exchange exactly if the handler is idle, and is refused otherwise. */
  lemma AcceptsExactly(s: Handler, e: Incident)
    ensures var s' := Apply(s, Deliver(e));
            && s'.busy && s'.delivered == s.delivered + multiset{e}
            && s'.claims == (if s.busy then s.claims else s.claims + multiset{e})
            && s'.refused == (if s.busy then s.refused + multiset{e} else s.refused)
            && s'.accepted == if s.busy then s.accepted else s.accepted + 1
  {
  }

  /** The handler becomes idle exactly when a worker is done. */
  lemma IdleExactly(s: Handler, step: Step)
    requires Enabled(s, step) && s.busy
    ensures !Apply(s, step).busy <==> step.GoIdle?
  {
  }

  lemma BusyExactly(s: Handler, step: Step)
    requires Enabled(s, step) && !s.busy
    ensures Apply(s, step).busy <==> step.Deliver?
  {
  }

  /** Only a bugcheck stops the machine. */
  lemma CrashesExactly(s: Handler, step: Step)
    requires Enabled(s, step)
    ensures Apply(s, step).crashed <==> step.BugCheck?
  {
  }

  /** The steps still to do for all that is under way. */
  function Work(s: Handler): nat {
    5 * |s.claims| + 4 * |s.writers| + 3 * s.items + 2 * |s.running| + |s.finishing| + |s.refused|
  }

  /** A step of the handler itself that does not end in a bugcheck. */
  predicate Works(s: Handler, step: Step) {
    Enabled(s, step) && !step.Deliver? && !step.BugCheck?
  }

  lemma WorkDecreases(s: Handler, step: Step)
    requires Works(s, step)
    ensures Work(Apply(s, step)) == Work(s) - 1
  {
    match step
    case WriteData(e) => TakeOne(s.claims, e);
    case QueueItem(e) => TakeOne(s.writers, e);
    case StartWorker =>
    case GoIdle(e) => TakeOne(s.running, e);
    case CompleteHandled(e) => TakeOne(s.finishing, e);
    case CompleteRefused(e) => TakeOne(s.refused, e);
  }

  lemma NeverStuck(s: Handler) returns (step: Step)
    requires !s.crashed && Work(s) > 0
    ensures Works(s, step)
  {
    if s.claims != multiset{} {
      var e :| e in s.claims;
      step := WriteData(e);
    } else if s.writers != multiset{} {
      var e :| e in s.writers;
      step := QueueItem(e);
    } else if s.items > 0 {
      step := StartWorker;
    } else if s.running != multiset{} {
      var e :| e in s.running;
      step := GoIdle(e);
    } else if s.finishing != multiset{} {
      var e :| e in s.finishing;
      step := CompleteHandled(e);
    } else {
      assert s.refused != multiset{};
      var e :| e in s.refused;
      step := CompleteRefused(e);
    }
  }

  /** The handler left alone, from some state on. */
  ghost function LeftAlone(s: Handler): Machine<Handler, Step> {
    Machine(s, Works, Apply)
  }

  /** However its steps fall, it has as many left as it had less those it made. */
  lemma {:induction false} WorkLeft(s: Handler, run: seq<Step>)
    requires Legal(LeftAlone(s), run)
    ensures Work(After(LeftAlone(s), run)) == Work(s) - |run|
  {
    if run != [] {
      WorkLeft(s, run[..|run| - 1]);
      WorkDecreases(After(LeftAlone(s), run[..|run| - 1]), run[|run| - 1]);
    }
  }

  ghost predicate Going(s: Handler) {
    SingleFlight(s) && !s.crashed
  }

  lemma {:induction false} GoesOn(s: Handler, run: seq<Step>)
    requires Going(s) && Legal(LeftAlone(s), run)
    ensures Going(After(LeftAlone(s), run))
  {
    forall t, step | Going(t) && Works(t, step)
      ensures Going(Apply(t, step))
    {
      StepKeeps(t, step);
    }
    Invariance(LeftAlone(s), Going, run);
  }

  /**
   * Left alone, the handler can go on until it has made exactly Work(s) steps, in whatever order, and then it is
   * idle with every event that was ever delivered completed as often.
   */
  lemma {:induction false} ComesToRest(s: Handler, run: seq<Step>)
    requires Going(s) && Legal(LeftAlone(s), run)
    ensures |run| <= Work(s)
    ensures |run| < Work(s) ==> exists step :: Legal(LeftAlone(s), run + [step])
    ensures |run| == Work(s) ==> var t := After(LeftAlone(s), run); !t.busy && t.completed == t.delivered
  {
    WorkLeft(s, run);
    GoesOn(s, run);
    var t := After(LeftAlone(s), run);
    if |run| < Work(s) {
      var step := NeverStuck(t);
      Grow(LeftAlone(s), run, step);
    } else {
      AtRest(t);
    }
  }

  lemma AtRest(t: Handler)
    requires SingleFlight(t) && Work(t) == 0
    ensures !t.busy && t.completed == t.delivered
  {
    forall e
      ensures t.completed[e] == t.delivered[e]
    {
      assert BalancedFor(t, e);
    }
  }
}
