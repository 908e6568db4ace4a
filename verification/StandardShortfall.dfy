/**
 * Suspending a standard watchdog reads no counter and resuming it overwrites the last reading (watchdog/watchdog.c),
 * so the thread time between the last reading and the suspend is never charged. By how much the charge falls short.
 */
module StandardShortfall {
  import opened Base
  import opened ThreadTime
  import opened WatchObject
  import opened StandardSpec
  import opened Runs
  import opened StandardCountdown
  import Timer = StandardTimer

  /** The thread time that passed while the watch was counting: finished stretches, and where the current one starts. */
  datatype Running = Running(banked: int, since: int)

  /** A stretch is measured up to each tick and up to the suspend that ends it. */
  function RunningStep(tt: TimeType, w: Watch, r: Running, e: Step): Running {
    match e
    case DoStart(_, _, now) => Running(0, Counter(tt, now))
    case DoReset(now) => Running(0, Counter(tt, now))
    case DoSuspend(now) =>
      if w.pending.Some? then Running(r.banked + Counter(tt, now) - r.since, Counter(tt, now)) else r
    case DoResume(incremental, now) =>
      if EndsSuspension(w, incremental) then r.(since := Counter(tt, now)) else r
    case DoTick(now) => Running(r.banked + Counter(tt, now) - r.since, Counter(tt, now))
    case _ => r
  }

  ghost function RunningTime(tt: TimeType, inc: U32, run: seq<Step>): Running {
    if run == [] then Running(0, 0)
    else
      var before := run[..|run| - 1];
      RunningStep(tt, After(Countdown(tt, inc), before), RunningTime(tt, inc, before), run[|run| - 1])
  }

  /** What a suspend drops: the counter then, less the last reading. */
  function Dropped(tt: TimeType, w: Watch, e: Step): int {
    if e.DoSuspend? && w.pending.Some? then Counter(tt, e.now) - Counter(tt, w.lastReading) else 0
  }

  /** The sum of what was dropped since the last start or reset. */
  ghost function Shortfall(tt: TimeType, inc: U32, run: seq<Step>): int {
    if run == [] || run[|run| - 1].DoStart? || run[|run| - 1].DoReset? then 0
    else
      var before := run[..|run| - 1];
      Shortfall(tt, inc, before) + Dropped(tt, After(Countdown(tt, inc), before), run[|run| - 1])
  }

  /** The charge, the running time and the shortfall fit together, and all three measure from the last reading. */
  ghost predicate Fits(tt: TimeType, w: Watch, m: Meter, r: Running, shortfall: int) {
    && Charge(m) == r.banked - shortfall
    && (w.pending.Some? ==> m.latest == Counter(tt, w.lastReading) == r.since)
  }

  lemma StepFits(tt: TimeType, w: Watch, m: Meter, r: Running, shortfall: int, e: Step)
    requires Timer.Sound(w) && Enabled(w, e) && Fits(tt, w, m, r, shortfall)
    ensures Fits(tt, Apply(w, e), MeterStep(tt, w, m, e), RunningStep(tt, w, r, e),
                 if e.DoStart? || e.DoReset? then 0 else shortfall + Dropped(tt, w, e))
  {
  }

  /**
   * In every run: the charge is the running time less the shortfall. The running time is measured up to the last
   * tick or suspend, the charge up to the last tick.
   */
  lemma {:induction false} ChargeFallsShort(tt: TimeType, inc: U32, run: seq<Step>)
    requires Legal(Countdown(tt, inc), run)
    ensures Charge(Metered(tt, inc, run)) == RunningTime(tt, inc, run).banked - Shortfall(tt, inc, run)
    ensures Fits(tt, After(Countdown(tt, inc), run),
                 Metered(tt, inc, run), RunningTime(tt, inc, run), Shortfall(tt, inc, run))
  {
    if run != [] {
      var before := run[..|run| - 1];
      ChargeFallsShort(tt, inc, before);
      Timer.RunSound(tt, inc, before);
      StepFits(tt, After(Countdown(tt, inc), before), Metered(tt, inc, before), RunningTime(tt, inc, before),
               Shortfall(tt, inc, before), run[|run| - 1]);
    }
  }

  /** The counter did not roll over between the last reading and a suspend. */
  ghost predicate SuspendsForward(tt: TimeType, inc: U32, run: seq<Step>) {
    run == []
    || (SuspendsForward(tt, inc, run[..|run| - 1])
        && Dropped(tt, After(Countdown(tt, inc), run[..|run| - 1]), run[|run| - 1]) >= 0)
  }

  /** Since the last start or reset, no suspend found the counter moved since the last reading. */
  ghost predicate SuspendsPromptly(tt: TimeType, inc: U32, run: seq<Step>) {
    run == [] || run[|run| - 1].DoStart? || run[|run| - 1].DoReset?
    || (SuspendsPromptly(tt, inc, run[..|run| - 1])
        && Dropped(tt, After(Countdown(tt, inc), run[..|run| - 1]), run[|run| - 1]) == 0)
  }

  /** Without rollover nothing is gained, and the charge is the running time exactly if no suspend dropped anything. */
  lemma {:induction false} ChargeIsRunningTimeExactly(tt: TimeType, inc: U32, run: seq<Step>)
    requires Legal(Countdown(tt, inc), run) && SuspendsForward(tt, inc, run)
    ensures Charge(Metered(tt, inc, run)) <= RunningTime(tt, inc, run).banked
    ensures Charge(Metered(tt, inc, run)) == RunningTime(tt, inc, run).banked <==> SuspendsPromptly(tt, inc, run)
  {
    ChargeFallsShort(tt, inc, run);
    ShortfallSign(tt, inc, run);
  }

  lemma {:induction false} ShortfallSign(tt: TimeType, inc: U32, run: seq<Step>)
    requires SuspendsForward(tt, inc, run)
    ensures Shortfall(tt, inc, run) >= 0
    ensures Shortfall(tt, inc, run) == 0 <==> SuspendsPromptly(tt, inc, run)
  {
    if run != [] {
      ShortfallSign(tt, inc, run[..|run| - 1]);
    }
  }

  /** However long the thread ran since the last reading, a suspend and a resume leave the due time as it was. */
  lemma PauseChargesNothing(w: Watch, later: Reading)
    requires Timer.Sound(w) && w.startCount > 0 && w.suspendCount == 0 && w.dueTime < 0
    ensures var resumed := Resume(Suspend(w), true, later);
            resumed == w.(lastReading := later)
  {
  }

  /** Started once for 60 seconds, nothing charged, nothing raised. */
  ghost predicate Untouched(w: Watch) {
    && w.startCount == 1 && w.dueTime == -600000000 && w.suspendCount == 0 && w.h.owner && w.h.log == []
    && w.pending == Some(-600000000)
  }

  /** The run leaves such a watch (its time increment is 10 ms), and so many ticks did run. */
  ghost predicate RanFor(run: seq<Step>, ticks: nat) {
    && Legal(Countdown(KernelTime, 100000), run) && Untouched(After(Countdown(KernelTime, 100000), run))
    && RunningTime(KernelTime, 100000, run) == Running(ticks, ticks)
  }

  /**
   * A watch for 60 seconds that is suspended and at once resumed every 30 seconds never fires, although with two
   * such pauses its 6000 ticks are over.
   */
  lemma {:induction false} PausedNeverFires(n: nat) returns (run: seq<Step>)
    requires 3000 * n < TWO32
    ensures RanFor(run, 3000 * n)
  {
    if n == 0 {
      run := [DoStart(-600000000, 0, Reading(0, 0))];
      StartedOnce();
    } else {
      run := PausedNeverFires(n - 1);
      run := PausedOnce(run, 3000 * (n - 1), 3000 * n);
    }
  }

  lemma StartedOnce()
    ensures RanFor([DoStart(-600000000, 0, Reading(0, 0))], 0)
  {
    var start := DoStart(-600000000, 0, Reading(0, 0));
    Grow(Countdown(KernelTime, 100000), [], start);
    assert [] + [start] == [start];
    assert [start][..0] == [];
  }

  lemma PausedOnce(run: seq<Step>, ran: nat, now: U32) returns (paused: seq<Step>)
    requires RanFor(run, ran)
    ensures RanFor(paused, now)
  {
    var suspended := run + [DoSuspend(Reading(now, 0))];
    paused := suspended + [DoResume(true, Reading(now, 0))];
    Grow(Countdown(KernelTime, 100000), run, DoSuspend(Reading(now, 0)));
    Grow(Countdown(KernelTime, 100000), suspended, DoResume(true, Reading(now, 0)));
    assert suspended[..|suspended| - 1] == run;
    assert paused[..|paused| - 1] == suspended;
  }
}
