/** What every run of the standard watchdog keeps: its timer, its references, and one timeout per start or reset. */
module StandardTimer {
  import opened Base
  import opened ThreadTime
  import opened WatchObject
  import opened StandardSpec
  import opened Runs

  ghost predicate Sound(w: Watch) {
    && Accounted(w.h) && w.h.discarded == multiset{}
    && (w.startCount > 0 <==> w.clientDpc)
    && (w.startCount > 0 ==> w.thread.Some? && w.h.owner)
    && (w.startCount == 0 ==> w.dueTime == w.initialDueTime == 0 && w.h.queued.None?)
    && w.initialDueTime <= 0 && w.dueTime <= 0
    && (w.pending.Some? ==> w.startCount > 0 && w.suspendCount == 0 && w.pending.value == Capped(w.dueTime))
    && (w.startCount > 0 && w.suspendCount == 0 && w.dueTime < 0 ==> w.pending.Some?)
  }

  lemma ForgetNothingQueued(h: Header)
    requires Accounted(h) && h.queued.None?
    ensures Accounted(h.(lastQueuedThread := None))
  {
    forall t ensures ThreadAccounted(h.(lastQueuedThread := None), t) {
      assert ThreadAccounted(h, t);
    }
  }

  lemma StopSound(w: Watch, incremental: bool)
    requires Sound(w) && w.h.owner
    ensures Sound(Stop(w, incremental))
  {
    WithdrawAccounted(w.h);
    ForgetNothingQueued(Withdraw(w.h));
  }

  lemma TickSound(w: Watch, now: Reading)
    requires Sound(w) && w.pending.Some?
    ensures Sound(Tick(w, now))
  {
    RaiseAccounted(w.h, TimeoutEvent, w.thread);
  }

  lemma StepSound(w: Watch, e: Step)
    requires Sound(w) && Enabled(w, e)
    ensures Sound(Apply(w, e))
  {
    match e
    case DoStop(incremental) => StopSound(w, incremental);
    case DoTick(now) => TickSound(w, now);
    case DoDeliver => DeliverAccounted(w.h);
    case DoComplete(event) => CompleteDeliveredAccounted(w.h, event);
    case DoRelease => ReleaseAccounted(w.h);
    case _ =>
  }

  lemma SoundInductive(timeType: TimeType, timeIncrement: U32)
    ensures Inductive(Countdown(timeType, timeIncrement), Sound)
  {
    var m := Countdown(timeType, timeIncrement);
    forall t ensures ThreadAccounted(m.init.h, t) {
    }
    forall w, e | Sound(w) && m.enabled(w, e) ensures Sound(m.step(w, e)) {
      StepSound(w, e);
    }
  }

  lemma {:induction false} RunSound(timeType: TimeType, timeIncrement: U32, run: seq<Step>)
    requires Legal(Countdown(timeType, timeIncrement), run)
    ensures Sound(After(Countdown(timeType, timeIncrement), run))
  {
    SoundInductive(timeType, timeIncrement);
    Invariance(Countdown(timeType, timeIncrement), Sound, run);
  }

  /** No event is ever lost: the references are exactly the owner's, the queued event's and the delivered events'. */
  lemma {:induction false} ReferencesBalance(timeType: TimeType, timeIncrement: U32, run: seq<Step>)
    requires Legal(Countdown(timeType, timeIncrement), run)
    ensures var h := After(Countdown(timeType, timeIncrement), run).h;
            && h.refCount == Count(h.owner) + Count(h.queued.Some?) + |h.delivered|
            && (forall t :: h.threadRefs[t] == Count(h.queued == Some(Some(t))) + h.delivered[Some(t)])
            && (h.destroyed == if !h.owner && h.queued.None? && h.delivered == multiset{} then 1 else 0)
  {
    RunSound(timeType, timeIncrement, run);
    var h := After(Countdown(timeType, timeIncrement), run).h;
    forall t ensures h.threadRefs[t] == Count(h.queued == Some(Some(t))) + h.delivered[Some(t)] {
      assert ThreadAccounted(h, t);
    }
    assert |h.delivered| == 0 <==> h.delivered == multiset{};
  }

  /** The timer is set exactly while a started, unsuspended watch has time left, to that time or to the longest wait. */
  predicate TimerExact(w: Watch) {
    && (w.pending.Some? <==> w.startCount > 0 && w.suspendCount == 0 && w.dueTime < 0)
    && (w.pending.Some? ==> w.pending.value == if w.dueTime < -0x3FFF_FFFF then -0x3FFF_FFFF else w.dueTime)
  }

  predicate NonzeroStart(e: Step) {
    e.DoStart? ==> e.due != 0
  }

  ghost predicate SoundNonzero(w: Watch) {
    Sound(w) && TimerExact(w) && (w.startCount > 0 ==> w.initialDueTime < 0)
  }

  /** Restricting the callers of Start to nonzero due times. */
  ghost function NonzeroCountdown(timeType: TimeType, timeIncrement: U32): Machine<Watch, Step> {
    Machine(Allocate(timeType, timeIncrement), (w: Watch, e: Step) => Enabled(w, e) && NonzeroStart(e), Apply)
  }

  lemma {:induction false} NonzeroStepSound(w: Watch, e: Step)
    requires SoundNonzero(w) && Enabled(w, e) && NonzeroStart(e)
    ensures SoundNonzero(Apply(w, e))
  {
    StepSound(w, e);
  }

  /** Across nested starts and stops, both kinds of suspend and resume, resets and ticks. */
  lemma {:induction false} TimerAlwaysExact(timeType: TimeType, timeIncrement: U32, run: seq<Step>)
    requires Legal(NonzeroCountdown(timeType, timeIncrement), run)
    ensures TimerExact(After(NonzeroCountdown(timeType, timeIncrement), run))
  {
    var m := NonzeroCountdown(timeType, timeIncrement);
    SoundInductive(timeType, timeIncrement);
    forall w, e | SoundNonzero(w) && m.enabled(w, e) ensures SoundNonzero(m.step(w, e)) {
      NonzeroStepSound(w, e);
    }
    Invariance(m, SoundNonzero, run);
  }

  /** The restriction is what it takes: a start with due time 0 breaks the rule unless the watch is suspended. */
  lemma StartExactly(w: Watch, due: int, thread: Thread, now: Reading)
    requires Sound(w) && w.h.owner
    ensures TimerExact(Start(w, due, thread, now)) <==> due != 0 || w.suspendCount > 0
  {
  }

  function Arms(run: seq<Step>): nat {
    if run == [] then 0
    else Arms(run[..|run| - 1]) + Count(run[|run| - 1].DoStart? || run[|run| - 1].DoReset?)
  }

  /** 1 while the watch can still raise the timeout it was armed for. */
  function Charges(w: Watch): nat {
    Count(w.pending.Some? || w.dueTime < 0)
  }

  lemma StepRaises(w: Watch, e: Step)
    requires Sound(w) && Enabled(w, e)
    ensures var w' := Apply(w, e);
            |w'.h.log| + Charges(w') <= |w.h.log| + Charges(w) + Count(e.DoStart? || e.DoReset?)
  {
    match e
    case DoTick(now) => TickRaises(w, now);
    case DoStop(incremental) => StopRaises(w, incremental);
    case _ =>
  }

  lemma TickRaises(w: Watch, now: Reading)
    requires w.pending.Some?
    ensures |Tick(w, now).h.log| + Charges(Tick(w, now)) <= |w.h.log| + 1
  {
  }

  lemma StopRaises(w: Watch, incremental: bool)
    ensures Stop(w, incremental).h.log == w.h.log && Charges(Stop(w, incremental)) <= Charges(w)
  {
  }

  /** From one watch to the other at most one timeout per arming was raised, and one that was charged before. */
  predicate Bounded(w: Watch, w': Watch, arms: nat) {
    |w'.h.log| + Charges(w') <= |w.h.log| + Charges(w) + arms
  }

  lemma BoundedStep(w: Watch, w': Watch, e: Step, arms: nat)
    requires Bounded(w, w', arms) && Sound(w') && Enabled(w', e)
    ensures Bounded(w, Apply(w', e), arms + Count(e.DoStart? || e.DoReset?))
  {
    StepRaises(w', e);
  }

  lemma {:induction false} RaisesBounded(tt: TimeType, inc: U32, run: seq<Step>, k: nat)
    requires Legal(Countdown(tt, inc), run) && k <= |run|
    ensures Bounded(After(Countdown(tt, inc), run[..k]), After(Countdown(tt, inc), run), Arms(run[k..]))
  {
    var m, n := Countdown(tt, inc), |run| - 1;
    if k == |run| {
      assert run[..k] == run;
    } else {
      RaisesBounded(tt, inc, run[..n], k);
      assert run[..n][..k] == run[..k];
      RunSound(tt, inc, run[..n]);
      ArmsNext(run, k);
      BoundedStep(After(m, run[..k]), After(m, run[..n]), run[n], Arms(run[..n][k..]));
    }
  }

  lemma {:induction false} ArmsNext(run: seq<Step>, k: nat)
    requires k < |run|
    ensures var n := |run| - 1;
            Arms(run[k..]) == Arms(run[..n][k..]) + Count(run[n].DoStart? || run[n].DoReset?)
  {
    var n := |run| - 1;
    assert run[k..][..n - k] == run[..n][k..];
  }

  /** In any stretch of any run: at most one timeout per start or reset, and one left over from before the stretch. */
  lemma {:induction false} OneTimeoutPerArm(tt: TimeType, inc: U32, run: seq<Step>, k: nat)
    requires Legal(Countdown(tt, inc), run) && k <= |run|
    ensures |After(Countdown(tt, inc), run).h.log| <= Arms(run)
    ensures |After(Countdown(tt, inc), run).h.log| <= |After(Countdown(tt, inc), run[..k]).h.log| + 1 + Arms(run[k..])
  {
    RaisesBounded(tt, inc, run, k);
    RaisesBounded(tt, inc, run, 0);
    assert run[0..] == run;
  }
}
