/**
 * However a wait is cut into timer chunks, the countdown charges exactly the thread time between the readings it
 * takes: at start, reset, resume and every tick. What runs between a reading and a suspend is not charged.
 */
module StandardCountdown {
  import opened Base
  import opened ThreadTime
  import opened WatchObject
  import opened StandardSpec
  import opened Runs
  import Timer = StandardTimer

  /** The monitored counter, for kernel or user time. */
  function Counter(tt: TimeType, r: Reading): U32 {
    if tt == KernelTime then r.kernel else r.user
  }

  /**
   * An ideal meter of the thread time charged since the last start or reset: the time of finished
   * stretches, and the current stretch from the reading it began with to the latest timer tick.
   */
  datatype Meter = Meter(banked: int, since: int, latest: int)

  function Charge(m: Meter): int {
    m.banked + (m.latest - m.since)
  }

  /**
   * A start or reset sets the meter to zero, a tick reads it, a resume begins a new stretch: what lies
   * between is not charged.
   */
  function MeterStep(tt: TimeType, w: Watch, m: Meter, e: Step): Meter {
    match e
    case DoStart(_, _, now) => Meter(0, Counter(tt, now), Counter(tt, now))
    case DoReset(now) => Meter(0, Counter(tt, now), Counter(tt, now))
    case DoResume(incremental, now) =>
      if EndsSuspension(w, incremental) then Meter(Charge(m), Counter(tt, now), Counter(tt, now)) else m
    case DoTick(now) => m.(latest := Counter(tt, now))
    case _ => m
  }

  ghost function Metered(tt: TimeType, inc: U32, run: seq<Step>): Meter {
    if run == [] then Meter(0, 0, 0)
    else
      var before := run[..|run| - 1];
      MeterStep(tt, After(Countdown(tt, inc), before), Metered(tt, inc, before), run[|run| - 1])
  }

  /** The thread's counter did not roll over between the last reading and this tick. */
  predicate NoRollover(tt: TimeType, w: Watch, e: Step) {
    e.DoTick? ==> Counter(tt, w.lastReading) <= Counter(tt, e.now)
  }

  ghost predicate NeverRollsOver(tt: TimeType, inc: U32, run: seq<Step>) {
    run == []
    || (NeverRollsOver(tt, inc, run[..|run| - 1])
        && NoRollover(tt, After(Countdown(tt, inc), run[..|run| - 1]), run[|run| - 1]))
  }

  /** What the countdown should show: the request less the scaled charge, held at zero once it is used up. */
  function Shown(initial: int, inc: U32, charge: int): int {
    if initial + inc * charge < 0 then initial + inc * charge else 0
  }

  ghost predicate Agrees(tt: TimeType, inc: U32, w: Watch, m: Meter) {
    && w.timeType == tt && w.timeIncrement == inc
    && m.since <= m.latest
    && (w.startCount > 0 ==> w.dueTime == Shown(w.initialDueTime, inc, Charge(m)))
    && (w.pending.Some? || w.dueTime < 0 ==> m.latest == Counter(tt, w.lastReading))
  }

  lemma {:induction false} TickAgrees(tt: TimeType, inc: U32, w: Watch, m: Meter, now: Reading)
    requires tt != FullTime && Agrees(tt, inc, w, m) && w.startCount > 0 && w.pending.Some?
    requires Counter(tt, w.lastReading) <= Counter(tt, now)
    ensures Agrees(tt, inc, Tick(w, now), m.(latest := Counter(tt, now)))
    ensures w.dueTime < 0 ==> Charged(w, now) == w.initialDueTime + inc * Charge(m.(latest := Counter(tt, now)))
    ensures Charged(w, now) >= 0 <==> w.initialDueTime + inc * Charge(m.(latest := Counter(tt, now))) >= 0
  {
    var d := Counter(tt, now) - Counter(tt, w.lastReading);
    MovedCases(w.lastReading.kernel, now.kernel);
    MovedCases(w.lastReading.user, now.user);
    assert Measured(tt, w.lastReading, now) == d;
    assert Charge(m.(latest := Counter(tt, now))) == Charge(m) + d;
    assert inc * (Charge(m) + d) == inc * Charge(m) + d * inc;
    MulMonotone(0, d, inc);
  }

  lemma {:induction false} CountdownAgrees(tt: TimeType, inc: U32, run: seq<Step>)
    requires tt != FullTime
    requires Legal(Countdown(tt, inc), run) && NeverRollsOver(tt, inc, run)
    ensures Agrees(tt, inc, After(Countdown(tt, inc), run), Metered(tt, inc, run))
  {
    if run != [] {
      var n := |run| - 1;
      CountdownAgrees(tt, inc, run[..n]);
      Timer.RunSound(tt, inc, run[..n]);
      StepAgrees(tt, inc, After(Countdown(tt, inc), run[..n]), Metered(tt, inc, run[..n]), run[n]);
    }
  }

  lemma {:induction false} ResumeAgrees(tt: TimeType, inc: U32, w: Watch, m: Meter, incremental: bool, now: Reading)
    requires Timer.Sound(w) && Agrees(tt, inc, w, m)
    ensures Agrees(tt, inc, Resume(w, incremental, now), MeterStep(tt, w, m, DoResume(incremental, now)))
  {
    assert Charge(Meter(Charge(m), Counter(tt, now), Counter(tt, now))) == Charge(m);
  }

  lemma {:induction false} RestartAgrees(tt: TimeType, inc: U32, w: Watch, m: Meter, e: Step)
    requires Timer.Sound(w) && Agrees(tt, inc, w, m) && (e.DoStart? || e.DoReset?)
    ensures Agrees(tt, inc, Apply(w, e), MeterStep(tt, w, m, e))
  {
    assert Charge(MeterStep(tt, w, m, e)) == 0;
  }

  lemma {:induction false} StepAgrees(tt: TimeType, inc: U32, w: Watch, m: Meter, e: Step)
    requires tt != FullTime
    requires Timer.Sound(w) && Enabled(w, e) && NoRollover(tt, w, e)
    requires Agrees(tt, inc, w, m)
    ensures Agrees(tt, inc, Apply(w, e), MeterStep(tt, w, m, e))
  {
    match e
    case DoStart(_, _, _) => RestartAgrees(tt, inc, w, m, e);
    case DoReset(_) => RestartAgrees(tt, inc, w, m, e);
    case DoResume(incremental, now) => ResumeAgrees(tt, inc, w, m, incremental, now);
    case DoTick(now) => TickAgrees(tt, inc, w, m, now);
    case _ =>
  }

  /** Countdown exactness in every run: the due time is the request less the charge, wherever the ticks fell. */
  lemma {:induction false} CountdownExact(tt: TimeType, inc: U32, run: seq<Step>)
    requires tt != FullTime
    requires Legal(Countdown(tt, inc), run) && NeverRollsOver(tt, inc, run)
    ensures var w := After(Countdown(tt, inc), run);
            w.startCount > 0 ==> w.dueTime == Shown(w.initialDueTime, inc, Charge(Metered(tt, inc, run)))
  {
    CountdownAgrees(tt, inc, run);
  }

  /**
   * A tick raises the timeout exactly when the charge, this tick included, reaches the request; before the
   * tick it had not.
   */
  lemma {:induction false} FiresAtFirstTick(tt: TimeType, inc: U32, run: seq<Step>)
    requires tt != FullTime && run != [] && run[|run| - 1].DoTick?
    requires Legal(Countdown(tt, inc), run) && NeverRollsOver(tt, inc, run)
    ensures var before := run[..|run| - 1];
            var w, w' := After(Countdown(tt, inc), before), After(Countdown(tt, inc), run);
            && (w'.h.log == (if w.initialDueTime + inc * Charge(Metered(tt, inc, run)) >= 0
                             then w.h.log + [TimeoutEvent] else w.h.log))
            && (w.dueTime < 0 ==> w.initialDueTime + inc * Charge(Metered(tt, inc, before)) < 0)
  {
    var n := |run| - 1;
    CountdownAgrees(tt, inc, run[..n]);
    Timer.RunSound(tt, inc, run[..n]);
    var w := After(Countdown(tt, inc), run[..n]);
    TickAgrees(tt, inc, w, Metered(tt, inc, run[..n]), run[n].now);
  }

  /** The thread time that truly passed over the ticks since the last start or reset, rollovers included. */
  function TrueChargeStep(tt: TimeType, w: Watch, charge: nat, e: Step): nat {
    match e
    case DoStart(_, _, _) => 0
    case DoReset(_) => 0
    case DoTick(now) => charge + TrueTime(tt, w.lastReading, now)
    case _ => charge
  }

  ghost function TrueCharge(tt: TimeType, inc: U32, run: seq<Step>): nat {
    if run == [] then 0
    else
      var before := run[..|run| - 1];
      TrueChargeStep(tt, After(Countdown(tt, inc), before), TrueCharge(tt, inc, before), run[|run| - 1])
  }

  ghost predicate NotAhead(tt: TimeType, inc: U32, w: Watch, charge: nat) {
    && w.timeType == tt && w.timeIncrement == inc
    && (w.pending.Some? || w.dueTime < 0 ==> w.dueTime <= w.initialDueTime + inc * charge)
  }

  /** The measurement does not run ahead of the thread time that passed; for kernel and user time it never does. */
  predicate Trusted(tt: TimeType, w: Watch, e: Step) {
    tt != FullTime || (e.DoTick? ==> Measured(tt, w.lastReading, e.now) <= TrueTime(tt, w.lastReading, e.now))
  }

  ghost predicate AlwaysTrusted(tt: TimeType, inc: U32, run: seq<Step>) {
    run == []
    || (AlwaysTrusted(tt, inc, run[..|run| - 1])
        && Trusted(tt, After(Countdown(tt, inc), run[..|run| - 1]), run[|run| - 1]))
  }

  lemma {:induction false} TickNotAhead(tt: TimeType, inc: U32, w: Watch, charge: nat, now: Reading)
    requires Trusted(tt, w, DoTick(now)) && w.pending.Some? && NotAhead(tt, inc, w, charge)
    ensures Charged(w, now) <= w.initialDueTime + inc * (charge + TrueTime(tt, w.lastReading, now))
    ensures NotAhead(tt, inc, Tick(w, now), charge + TrueTime(tt, w.lastReading, now))
  {
    var passed := TrueTime(tt, w.lastReading, now);
    MulMonotone(Measured(tt, w.lastReading, now), passed, inc);
    assert inc * (charge + passed) == inc * charge + passed * inc;
  }

  lemma {:induction false} StepNotAhead(tt: TimeType, inc: U32, w: Watch, charge: nat, e: Step)
    requires Timer.Sound(w) && Enabled(w, e) && Trusted(tt, w, e) && NotAhead(tt, inc, w, charge)
    ensures NotAhead(tt, inc, Apply(w, e), TrueChargeStep(tt, w, charge, e))
  {
    if e.DoTick? {
      TickNotAhead(tt, inc, w, charge, e.now);
    }
  }

  lemma {:induction false} CountdownNotAhead(tt: TimeType, inc: U32, run: seq<Step>)
    requires Legal(Countdown(tt, inc), run) && AlwaysTrusted(tt, inc, run)
    ensures NotAhead(tt, inc, After(Countdown(tt, inc), run), TrueCharge(tt, inc, run))
  {
    if run != [] {
      var n := |run| - 1;
      CountdownNotAhead(tt, inc, run[..n]);
      Timer.RunSound(tt, inc, run[..n]);
      StepNotAhead(tt, inc, After(Countdown(tt, inc), run[..n]), TrueCharge(tt, inc, run[..n]), run[n]);
    }
  }

  /**
   * In every run, rollovers or not: no timeout is raised before the requested thread time has passed, as long as no
   * measurement ran ahead; for kernel and user time that is every run.
   */
  lemma {:induction false} NeverEarly(tt: TimeType, inc: U32, run: seq<Step>)
    requires run != [] && Legal(Countdown(tt, inc), run)
    requires tt != FullTime || AlwaysTrusted(tt, inc, run)
    requires |After(Countdown(tt, inc), run).h.log| > |After(Countdown(tt, inc), run[..|run| - 1]).h.log|
    ensures -After(Countdown(tt, inc), run[..|run| - 1]).initialDueTime <= inc * TrueCharge(tt, inc, run)
  {
    var n := |run| - 1;
    if tt != FullTime {
      SingleTrusted(tt, inc, run);
    }
    CountdownNotAhead(tt, inc, run[..n]);
    StepNeverEarly(tt, inc, After(Countdown(tt, inc), run[..n]), TrueCharge(tt, inc, run[..n]), run[n]);
  }

  lemma {:induction false} SingleTrusted(tt: TimeType, inc: U32, run: seq<Step>)
    requires tt != FullTime
    ensures AlwaysTrusted(tt, inc, run)
  {
    if run != [] {
      SingleTrusted(tt, inc, run[..|run| - 1]);
    }
  }

  lemma StepNeverEarly(tt: TimeType, inc: U32, w: Watch, charge: nat, e: Step)
    requires Enabled(w, e) && Trusted(tt, w, e) && NotAhead(tt, inc, w, charge)
    requires |Apply(w, e).h.log| > |w.h.log|
    ensures -w.initialDueTime <= inc * TrueChargeStep(tt, w, charge, e)
  {
    OnlyTicksRaise(w, e);
    TickNotAhead(tt, inc, w, charge, e.now);
  }

  lemma OnlyTicksRaise(w: Watch, e: Step)
    requires Enabled(w, e) && |Apply(w, e).h.log| > |w.h.log|
    ensures e.DoTick? && Charged(w, e.now) >= 0
  {
  }
}
