/**
 * The standard watchdog (watchdog/watchdog.c) as the history of its calls and ticks: nested starts and suspensions,
 * the thread, what is charged, and that every timeout reaches the client.
 */
module StandardHistory {
  import opened Base
  import opened ThreadTime
  import opened WatchObject
  import opened StandardSpec
  import opened Runs
  import Timer = StandardTimer

  /** The starts that are not stopped: an incremental stop ends one, any other all of them. */
  function OpenStarts(run: seq<Step>): nat {
    if run == [] then 0
    else
      var before := OpenStarts(run[..|run| - 1]);
      match run[|run| - 1]
      case DoStart(_, _, _) => if before < 0xFFFF_FFFF then before + 1 else before
      case DoStop(incremental) => if incremental && before > 0 then before - 1 else 0
      case _ => before
  }

  /** The suspensions that are not resumed. */
  function OpenSuspensions(run: seq<Step>): nat {
    if run == [] then 0
    else
      var before := OpenSuspensions(run[..|run| - 1]);
      match run[|run| - 1]
      case DoSuspend(_) => before + 1
      case DoResume(incremental, _) => if incremental && before > 0 then before - 1 else 0
      case _ => before
  }

  /** The thread of the latest start, while one is open. */
  function StartedBy(run: seq<Step>): Option<Thread> {
    if OpenStarts(run) == 0 then None
    else if run[|run| - 1].DoStart? then Some(run[|run| - 1].thread)
    else StartedBy(run[..|run| - 1])
  }

  /** What the latest start asked for, as a relative time. */
  function Requested(run: seq<Step>): int {
    if OpenStarts(run) == 0 then 0
    else if run[|run| - 1].DoStart? then
      var due := run[|run| - 1].due; if due > 0 then -due else due
    else Requested(run[..|run| - 1])
  }

  ghost predicate Records(run: seq<Step>, w: Watch) {
    && w.startCount == OpenStarts(run)
    && w.suspendCount == OpenSuspensions(run)
    && w.thread == StartedBy(run)
    && w.initialDueTime == Requested(run)
  }

  /** What a step does to those fields. */
  predicate Keeps(w: Watch, w': Watch) {
    && w'.startCount == w.startCount && w'.suspendCount == w.suspendCount
    && w'.thread == w.thread && w'.initialDueTime == w.initialDueTime
  }

  lemma StepRecords(run: seq<Step>, w: Watch, w': Watch)
    requires run != [] && Records(run[..|run| - 1], w) && Timer.Sound(w) && Enabled(w, run[|run| - 1])
    requires w.startCount == 0 ==> w.thread == None
    requires w' == Apply(w, run[|run| - 1])
    ensures Records(run, w') && (w'.startCount == 0 ==> w'.thread == None)
  {
    match run[|run| - 1]
    case DoTick(now) => assert Keeps(w, w');
    case _ =>
  }

  lemma {:induction false} FieldsRecordCalls(tt: TimeType, inc: U32, run: seq<Step>)
    requires Legal(Countdown(tt, inc), run)
    ensures Records(run, After(Countdown(tt, inc), run))
    ensures var w := After(Countdown(tt, inc), run); w.startCount == 0 ==> w.thread == None
  {
    if run != [] {
      var before := run[..|run| - 1];
      FieldsRecordCalls(tt, inc, before);
      Timer.RunSound(tt, inc, before);
      StepRecords(run, After(Countdown(tt, inc), before), After(Countdown(tt, inc), run));
    }
  }

  // ---- Where timeouts go

  /** The timer expired and the thread time measured since the last reading uses up the due time. */
  predicate Fires(w: Watch, e: Step) {
    e.DoTick? && w.dueTime + Measured(w.timeType, w.lastReading, e.now) * w.timeIncrement >= 0
  }

  /** The stop that ends the last start. */
  predicate StopsForGood(w: Watch, e: Step) {
    e.DoStop? && w.startCount > 0 && (e.incremental ==> w.startCount == 1)
  }

  predicate TakesBack(w: Watch, e: Step) {
    StopsForGood(w, e) && w.h.queued.Some?
  }

  /** A timeout that finds the client DPC in its queue is dropped there. */
  predicate Drops(w: Watch, e: Step) {
    Fires(w, e) && w.h.queued.Some?
  }

  /**
   * What a timeout does: it is stored, and the client DPC is queued with the thread, with a reference on thread and
   * object; but if the DPC was queued already, it stays as it was, and so do the references.
   */
  lemma TimeoutReachesClient(w: Watch, e: Step)
    requires Timer.Sound(w) && Enabled(w, e) && |Apply(w, e).h.log| > |w.h.log|
    ensures Fires(w, e)
    ensures var h, h' := w.h, Apply(w, e).h;
            && h'.lastEvent == TimeoutEvent && h'.log == h.log + [TimeoutEvent] && h'.delivered == h.delivered
            && if h.queued.None? then
                 && w.thread.Some? && h'.queued == Some(w.thread) && h'.lastQueuedThread == w.thread
                 && h'.refCount == h.refCount + 1 && h'.threadRefs == h.threadRefs + multiset{w.thread.value}
               else
                 && h'.queued == h.queued && h'.lastQueuedThread == h.lastQueuedThread
                 && h'.refCount == h.refCount && h'.threadRefs == h.threadRefs
  {
  }

  /** Where the events are after the step. */
  predicate Places(w: Watch, e: Step, h: Header) {
    && h.log == (if Fires(w, e) then w.h.log + [TimeoutEvent] else w.h.log)
    && h.queued == (if e.DoDeliver? || TakesBack(w, e) then None
                    else if Fires(w, e) && w.h.queued.None? then Some(w.thread)
                    else w.h.queued)
    && h.delivered == (if e.DoDeliver? && w.h.queued.Some? then w.h.delivered + multiset{w.h.queued.value}
                       else if e.DoComplete? then w.h.delivered - multiset{e.event}
                       else w.h.delivered)
  }

  lemma StepPlaces(w: Watch, e: Step)
    requires Timer.Sound(w) && Enabled(w, e)
    ensures Places(w, e, Apply(w, e).h)
  {
    match e
    case DoTick(now) => TickPlaces(w, now);
    case DoStop(incremental) => StopPlaces(w, incremental);
    case _ => OtherPlaces(w, e);
  }

  lemma TickPlaces(w: Watch, now: Reading)
    requires Timer.Sound(w) && w.pending.Some?
    ensures Places(w, DoTick(now), Tick(w, now).h)
  {
  }

  lemma StopPlaces(w: Watch, incremental: bool)
    requires Timer.Sound(w)
    ensures Places(w, DoStop(incremental), Stop(w, incremental).h)
  {
  }

  lemma OtherPlaces(w: Watch, e: Step)
    requires Enabled(w, e) && !e.DoTick? && !e.DoStop?
    ensures Places(w, e, Apply(w, e).h)
  {
  }

  /** What becomes of timeouts, counted over a run. */
  datatype Tally = Tally(raised: nat, dropped: nat, delivered: nat, takenBack: nat)

  function TallyStep(t: Tally, w: Watch, e: Step): Tally {
    Tally(t.raised + Count(Fires(w, e)), t.dropped + Count(Drops(w, e)),
          t.delivered + Count(e.DoDeliver?), t.takenBack + Count(TakesBack(w, e)))
  }

  ghost function Tallied(tt: TimeType, inc: U32, run: seq<Step>): Tally {
    if run == [] then Tally(0, 0, 0, 0)
    else
      var before := run[..|run| - 1];
      TallyStep(Tallied(tt, inc, before), After(Countdown(tt, inc), before), run[|run| - 1])
  }

  ghost predicate Balanced(t: Tally, h: Header) {
    t.raised == |h.log| == t.dropped + t.delivered + t.takenBack + Count(h.queued.Some?)
  }

  lemma BalancedStep(t: Tally, w: Watch, e: Step, h: Header)
    requires Balanced(t, w.h) && Enabled(w, e) && Places(w, e, h)
    ensures Balanced(TallyStep(t, w, e), h)
  {
  }

  lemma BalancedNext(t: Tally, w: Watch, e: Step)
    requires Balanced(t, w.h) && Enabled(w, e) && Timer.Sound(w)
    ensures Balanced(TallyStep(t, w, e), Apply(w, e).h)
  {
    StepPlaces(w, e);
    BalancedStep(t, w, e, Apply(w, e).h);
  }

  /** In every run each timeout was delivered to the client, taken back by Stop, dropped, or is queued. */
  lemma {:induction false} TimeoutsAccounted(tt: TimeType, inc: U32, run: seq<Step>)
    requires Legal(Countdown(tt, inc), run)
    ensures Balanced(Tallied(tt, inc, run), After(Countdown(tt, inc), run).h)
  {
    if run != [] {
      var before := run[..|run| - 1];
      TimeoutsAccounted(tt, inc, before);
      Timer.RunSound(tt, inc, before);
      BalancedNext(Tallied(tt, inc, before), After(Countdown(tt, inc), before), run[|run| - 1]);
    }
  }

  // ---- What is charged

  /** The sum of what was measured, from reading to reading, since the latest start or reset; and the last reading. */
  datatype Charge = Charge(sum: int, since: Reading)

  /** A resume that ends a suspension begins from a new reading. */
  function ChargeStep(run: seq<Step>, tt: TimeType, c: Charge): Charge
    requires run != []
  {
    var before := run[..|run| - 1];
    match run[|run| - 1]
    case DoStart(_, _, now) => Charge(0, now)
    case DoReset(now) => Charge(0, now)
    case DoResume(incremental, now) =>
      if OpenSuspensions(before) > 0 && OpenSuspensions(run) == 0 then Charge(c.sum, now) else c
    case DoTick(now) => Charge(c.sum + Measured(tt, c.since, now), now)
    case _ => c
  }

  function Charged(tt: TimeType, run: seq<Step>): Charge {
    if run == [] then Charge(0, Reading(0, 0))
    else ChargeStep(run, tt, Charged(tt, run[..|run| - 1]))
  }

  /** While time is left, the due time is the request less what was charged, of whatever kind of time. */
  ghost predicate Shows(tt: TimeType, inc: U32, run: seq<Step>, w: Watch) {
    && w.timeType == tt && w.timeIncrement == inc
    && (w.pending.Some? || w.dueTime < 0 ==>
          && w.dueTime == w.initialDueTime + Charged(tt, run).sum * inc
          && w.lastReading == Charged(tt, run).since)
  }

  lemma {:induction false} TickShows(tt: TimeType, inc: U32, run: seq<Step>, w: Watch)
    requires run != [] && Shows(tt, inc, run[..|run| - 1], w)
    requires run[|run| - 1].DoTick? && w.pending.Some?
    ensures Shows(tt, inc, run, Apply(w, run[|run| - 1]))
    ensures Fires(w, run[|run| - 1]) <==> w.initialDueTime + Charged(tt, run).sum * inc >= 0
  {
    var c, now := Charged(tt, run[..|run| - 1]), run[|run| - 1].now;
    TimesSum(c.sum, Measured(tt, c.since, now), inc);
    TickAdds(w, now, c.sum * inc, Measured(tt, c.since, now) * inc);
  }

  lemma TimesSum(a: int, b: int, c: int)
    ensures (a + b) * c == a * c + b * c
  {
  }

  lemma TickAdds(w: Watch, now: Reading, charged: int, more: int)
    requires w.dueTime == w.initialDueTime + charged
    requires more == Measured(w.timeType, w.lastReading, now) * w.timeIncrement
    ensures var w' := Tick(w, now);
            && w'.initialDueTime == w.initialDueTime && w'.lastReading == now
            && w'.timeType == w.timeType && w'.timeIncrement == w.timeIncrement
            && (Fires(w, DoTick(now)) <==> w.initialDueTime + (charged + more) >= 0)
            && if Fires(w, DoTick(now)) then w'.dueTime == 0 && w'.pending == None
               else w'.dueTime == w.initialDueTime + (charged + more)
  {
  }

  lemma {:induction false} StepShows(tt: TimeType, inc: U32, run: seq<Step>, w: Watch)
    requires run != [] && Timer.Sound(w) && Enabled(w, run[|run| - 1])
    requires Shows(tt, inc, run[..|run| - 1], w)
    requires Records(run[..|run| - 1], w) && Records(run, Apply(w, run[|run| - 1]))
    ensures Shows(tt, inc, run, Apply(w, run[|run| - 1]))
  {
    match run[|run| - 1]
    case DoTick(_) => TickShows(tt, inc, run, w);
    case _ =>
  }

  /**
   * In every run, rollovers and full time included: the due time that is left is the request less what was measured
   * between the readings since the latest start or reset.
   */
  lemma {:induction false} DueTimeShows(tt: TimeType, inc: U32, run: seq<Step>)
    requires Legal(Countdown(tt, inc), run)
    ensures Shows(tt, inc, run, After(Countdown(tt, inc), run))
  {
    if run != [] {
      var before := run[..|run| - 1];
      DueTimeShows(tt, inc, before);
      FieldsRecordCalls(tt, inc, before);
      FieldsRecordCalls(tt, inc, run);
      Timer.RunSound(tt, inc, before);
      StepShows(tt, inc, run, After(Countdown(tt, inc), before));
    }
  }

  /** And a tick raises the timeout exactly if, with its reading, that much was measured. */
  lemma {:induction false} FiresExactly(tt: TimeType, inc: U32, run: seq<Step>)
    requires Legal(Countdown(tt, inc), run) && run != [] && run[|run| - 1].DoTick?
    ensures var w, w' := After(Countdown(tt, inc), run[..|run| - 1]), After(Countdown(tt, inc), run);
            w'.h.log == if Requested(run) + Charged(tt, run).sum * inc >= 0 then w.h.log + [TimeoutEvent] else w.h.log
  {
    var before := run[..|run| - 1];
    var w := After(Countdown(tt, inc), before);
    DueTimeShows(tt, inc, before);
    FieldsRecordCalls(tt, inc, before);
    FieldsRecordCalls(tt, inc, run);
    Timer.RunSound(tt, inc, before);
    TickShows(tt, inc, run, w);
    TickPlaces(w, run[|run| - 1].now);
  }
}
