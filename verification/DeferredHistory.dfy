/** The fields of the deferred watchdog (watchdog/dwd.c) as the history of its calls, whatever the run. */
module DeferredHistory {
  import opened Base
  import opened ThreadTime
  import opened WatchObject
  import opened DeferredSpec
  import opened Runs
  import Guard = DeferredGuard
  import References = DeferredReferences

  /** Started and not stopped since. */
  predicate Running(run: seq<Step>) {
    run != []
    && match run[|run| - 1]
       case DoStart(_) => true
       case DoStop => false
       case _ => Running(run[..|run| - 1])
  }

  /** The period of the latest start, unless it was stopped. */
  function LatestPeriod(run: seq<Step>): int {
    if run == [] then 0
    else match run[|run| - 1]
      case DoStart(period) => period
      case DoStop => 0
      case _ => LatestPeriod(run[..|run| - 1])
  }

  /** The step starts the section counters and the thread afresh. */
  predicate Afresh(run: seq<Step>)
    requires run != []
  {
    run[|run| - 1].DoStart? || (run[|run| - 1].DoStop? && Running(run[..|run| - 1]))
  }

  /** The thread that entered last. */
  function LatestThread(run: seq<Step>): Option<Thread> {
    if run == [] || Afresh(run) then None
    else if run[|run| - 1].DoEnterBind? then Some(run[|run| - 1].thread)
    else LatestThread(run[..|run| - 1])
  }

  /** How often the section was entered, or left, since the latest start, reset, or stop of a started watch. */
  function Occurred(run: seq<Step>, e: Step): nat {
    if run == [] || Afresh(run) || run[|run| - 1].DoReset? then 0
    else Occurred(run[..|run| - 1], e) + Count(run[|run| - 1] == e)
  }

  ghost predicate Records(run: seq<Step>, w: Watch) {
    && w.started == Running(run)
    && w.period == LatestPeriod(run)
    && w.thread == LatestThread(run)
    && w.inCount == Wrap32(Occurred(run, DoEnterCount))
    && w.outCount == Wrap32(Occurred(run, DoExit))
    && (!w.started ==> w.period == 0)
  }

  /** What a step does to those fields. */
  predicate Keeps(w: Watch, w': Watch) {
    w'.started == w.started && w'.period == w.period && w'.thread == w.thread
    && w'.inCount == w.inCount && w'.outCount == w.outCount
  }

  predicate Changes(w: Watch, e: Step, w': Watch) {
    match e
    case DoStart(period) =>
      w'.started && w'.period == period && w'.thread == None && w'.inCount == w'.outCount == 0
    case DoStop =>
      if w.started then !w'.started && w'.period == 0 && w'.thread == None && w'.inCount == w'.outCount == 0
      else Keeps(w, w')
    case DoReset => Keeps(w.(inCount := 0, outCount := 0), w')
    case DoEnterBind(thread) => Keeps(w.(thread := Some(thread)), w')
    case DoEnterCount => Keeps(w.(inCount := Wrap32(w.inCount + 1)), w')
    case DoExit => Keeps(w.(outCount := Wrap32(w.outCount + 1)), w')
    case _ => Keeps(w, w')
  }

  lemma StepChanges(w: Watch, e: Step)
    ensures Changes(w, e, Apply(w, e))
  {
    match e
    case DoTick(now) => TickKeeps(w, now);
    case DoStop => StopKeeps(w);
    case _ =>
  }

  lemma RecordsStep(run: seq<Step>, w: Watch, w': Watch)
    requires run != [] && Records(run[..|run| - 1], w) && Changes(w, run[|run| - 1], w')
    ensures Records(run, w')
  {
    var before := run[..|run| - 1];
    WrapNext(Occurred(before, DoEnterCount));
    WrapNext(Occurred(before, DoExit));
  }

  lemma WrapNext(n: nat)
    ensures Wrap32(Wrap32(n) + 1) == Wrap32(n + 1)
  {
  }

  lemma TickKeeps(w: Watch, now: Reading)
    ensures Keeps(w, Tick(w, now))
  {
  }

  lemma StopKeeps(w: Watch)
    ensures var w' := Stop(w);
            if w.started then !w'.started && w'.period == 0 && w'.thread == None && w'.inCount == w'.outCount == 0
            else w' == w
  {
  }

  /** In every run: started, period, thread and section counters are what the calls so far have made them. */
  lemma {:induction false} FieldsRecordCalls(tt: TimeType, inc: U32, run: seq<Step>)
    ensures Records(run, After(Poller(tt, inc), run))
  {
    if run != [] {
      FieldsRecordCalls(tt, inc, run[..|run| - 1]);
      StepChanges(After(Poller(tt, inc), run[..|run| - 1]), run[|run| - 1]);
      RecordsStep(run, After(Poller(tt, inc), run[..|run| - 1]), After(Poller(tt, inc), run));
    }
  }

  /** Nobody is inside after a start, a reset, or a stop of a started watch. */
  lemma NobodyInsideAfresh(tt: TimeType, inc: U32, run: seq<Step>)
    requires run != [] && (Afresh(run) || run[|run| - 1].DoReset?)
    ensures !Inside(After(Poller(tt, inc), run))
  {
    FieldsRecordCalls(tt, inc, run);
  }

  // ---- Where events go

  predicate TakesBack(w: Watch, e: Step) {
    e.DoStop? && w.started && w.h.queued.Some?
  }

  predicate Drops(w: Watch, e: Step) {
    e.DoTick? && Guard.Raised(w, e) != NoEvent && w.h.queued.Some?
  }

  /** What becomes of events, counted over a run. */
  datatype Tally = Tally(raised: nat, dropped: nat, delivered: nat, takenBack: nat)

  function TallyStep(t: Tally, w: Watch, e: Step): Tally {
    Tally(t.raised + Count(Guard.Raised(w, e) != NoEvent), t.dropped + Count(Drops(w, e)),
          t.delivered + Count(e.DoDeliver?), t.takenBack + Count(TakesBack(w, e)))
  }

  ghost function Tallied(tt: TimeType, inc: U32, run: seq<Step>): Tally {
    if run == [] then Tally(0, 0, 0, 0)
    else
      var before := run[..|run| - 1];
      TallyStep(Tallied(tt, inc, before), After(Poller(tt, inc), before), run[|run| - 1])
  }

  ghost predicate Balanced(t: Tally, h: Header) {
    t.raised == |h.log| == t.dropped + t.delivered + t.takenBack + Count(h.queued.Some?)
  }

  lemma BalancedStep(t: Tally, w: Watch, e: Step, h: Header)
    requires Balanced(t, w.h) && Enabled(w, e) && Guard.Places(w, e, h)
    ensures Balanced(TallyStep(t, w, e), h)
  {
  }

  /** In every run each event raised was delivered to the client, taken back by Stop, dropped, or is queued. */
  lemma {:induction false} EventsAccounted(tt: TimeType, inc: U32, run: seq<Step>)
    requires Legal(Poller(tt, inc), run)
    ensures Balanced(Tallied(tt, inc, run), After(Poller(tt, inc), run).h)
  {
    if run != [] {
      var before := run[..|run| - 1];
      EventsAccounted(tt, inc, before);
      References.RunSound(tt, inc, before);
      BalancedNext(Tallied(tt, inc, before), After(Poller(tt, inc), before), run[|run| - 1]);
    }
  }

  lemma BalancedNext(t: Tally, w: Watch, e: Step)
    requires Balanced(t, w.h) && Enabled(w, e) && References.Sound(w)
    ensures Balanced(TallyStep(t, w, e), Apply(w, e).h)
  {
    Guard.StepPlaces(w, e);
    BalancedStep(t, w, e, Apply(w, e).h);
  }
}
