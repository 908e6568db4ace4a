/**
 * A standard watchdog that was armed and has not raised its timeout yet should have its timer set whenever it is
 * started and not suspended (watchdog/watchdog.c). When that fails, and that such a timeout never comes.
 */
module StandardUnfired {
  import opened Base
  import opened ThreadTime
  import opened WatchObject
  import opened StandardSpec
  import opened Runs
  import Timer = StandardTimer

  /** A watch, and whether it was armed by a start or reset and has raised no timeout since. */
  datatype Armed = Armed(w: Watch, unfired: bool)

  function ArmedStep(a: Armed, e: Step): Armed {
    Armed(Apply(a.w, e),
          match e
          case DoStart(_, _, _) => true
          case DoReset(_) => a.unfired || a.w.startCount > 0
          case DoStop(_) => a.unfired && Apply(a.w, e).startCount > 0
          case DoTick(now) => a.unfired && Charged(a.w, now) < 0
          case _ => a.unfired)
  }

  predicate ArmedEnabled(a: Armed, e: Step) {
    Enabled(a.w, e)
  }

  ghost function Arming(tt: TimeType, inc: U32): Machine<Armed, Step> {
    Machine(Armed(Allocate(tt, inc), false), ArmedEnabled, ArmedStep)
  }

  ghost predicate Sound(a: Armed) {
    Timer.Sound(a.w) && (a.unfired ==> a.w.startCount > 0)
  }

  /** The timeout is on its way. */
  predicate Served(a: Armed) {
    a.unfired && a.w.startCount > 0 && a.w.suspendCount == 0 ==> a.w.pending.Some?
  }

  /** A resume goes on with a watch that is due at once, and takes the due time 0 for one that was used up. */
  predicate Forgets(a: Armed, e: Step) {
    e.DoResume? && EndsSuspension(a.w, e.incremental) && a.unfired && a.w.dueTime == 0
  }

  lemma ServedExactly(a: Armed, e: Step)
    requires Sound(a) && Served(a) && Enabled(a.w, e)
    ensures Served(ArmedStep(a, e)) <==> !Forgets(a, e)
  {
  }

  lemma StepSound(a: Armed, e: Step)
    requires Sound(a) && Enabled(a.w, e)
    ensures Sound(ArmedStep(a, e))
  {
    Timer.StepSound(a.w, e);
  }

  lemma SoundInductive(tt: TimeType, inc: U32)
    ensures Inductive(Arming(tt, inc), Sound)
  {
    Timer.SoundInductive(tt, inc);
    forall a, e | Sound(a) && Arming(tt, inc).enabled(a, e)
      ensures Sound(Arming(tt, inc).step(a, e))
    {
      StepSound(a, e);
    }
  }

  /** The timer is set for every timeout still to come exactly in the runs without such a resume. */
  lemma {:induction false} ServedThroughoutExactly(tt: TimeType, inc: U32, run: seq<Step>)
    requires Legal(Arming(tt, inc), run)
    ensures Throughout(Arming(tt, inc), Served, run) <==> Never(Arming(tt, inc), Forgets, run)
  {
    var m := Arming(tt, inc);
    SoundInductive(tt, inc);
    forall a, e | Sound(a) && Served(a) && m.enabled(a, e)
      ensures Served(m.step(a, e)) <==> !Forgets(a, e)
    {
      ServedExactly(a, e);
    }
    ThroughoutExactly(m, Sound, Served, Forgets, run);
  }

  /** An unfired watch with due time 0 was asked for 0; with another due time nothing is forgotten. */
  lemma {:induction false} ForgetsOnlyZero(tt: TimeType, inc: U32, run: seq<Step>, k: nat)
    requires Legal(Arming(tt, inc), run) && k < |run| && Forgets(After(Arming(tt, inc), run[..k]), run[k])
    ensures After(Arming(tt, inc), run[..k]).w.initialDueTime == 0
  {
    var m := Arming(tt, inc);
    SoundInductive(tt, inc);
    LegalPrefix(m, run, k);
    forall a, e | ZeroAsked(a) && m.enabled(a, e)
      ensures ZeroAsked(m.step(a, e))
    {
      ZeroAskedStep(a, e);
    }
    Invariance(m, ZeroAsked, run[..k]);
  }

  ghost predicate ZeroAsked(a: Armed) {
    Sound(a) && (a.unfired && a.w.dueTime == 0 ==> a.w.initialDueTime == 0)
  }

  lemma ZeroAskedStep(a: Armed, e: Step)
    requires ZeroAsked(a) && Enabled(a.w, e)
    ensures ZeroAsked(ArmedStep(a, e))
  {
    StepSound(a, e);
  }

  /** A timeout that was forgotten never comes: until the next start or reset the watch raises nothing. */
  lemma {:induction false} ForgottenNeverComes(tt: TimeType, inc: U32, run: seq<Step>, k: nat)
    requires Legal(Arming(tt, inc), run) && k < |run|
    requires Forgets(After(Arming(tt, inc), run[..k]), run[k])
    requires Timer.Arms(run[k + 1..]) == 0
    ensures After(Arming(tt, inc), run).w.h.log == After(Arming(tt, inc), run[..k]).w.h.log
  {
    var m := Arming(tt, inc);
    LegalPrefix(m, run, k);
    SoundInductive(tt, inc);
    Invariance(m, Sound, run[..k]);
    AfterSnoc(m, run, k);
    ForgottenSilent(After(m, run[..k]), run[k]);
    LegalPrefix(m, run, k + 1);
    SilentOn(tt, inc, run, k + 1);
  }

  /** Nothing is raised any more without a start or reset. */
  predicate Silent(w: Watch) {
    w.pending.None? && w.dueTime == 0
  }

  lemma ForgottenSilent(a: Armed, e: Step)
    requires Sound(a) && Enabled(a.w, e) && Forgets(a, e)
    ensures Silent(ArmedStep(a, e).w) && ArmedStep(a, e).w.h.log == a.w.h.log
  {
  }

  lemma SilentStep(w: Watch, e: Step)
    requires Timer.Sound(w) && Enabled(w, e) && Silent(w) && !e.DoStart? && !e.DoReset?
    ensures Silent(Apply(w, e)) && Apply(w, e).h.log == w.h.log
  {
  }

  lemma {:induction false} SilentOn(tt: TimeType, inc: U32, run: seq<Step>, k: nat)
    requires Legal(Arming(tt, inc), run) && k <= |run|
    requires Silent(After(Arming(tt, inc), run[..k]).w) && Timer.Arms(run[k..]) == 0
    ensures Silent(After(Arming(tt, inc), run).w)
    ensures After(Arming(tt, inc), run).w.h.log == After(Arming(tt, inc), run[..k]).w.h.log
  {
    var m, n := Arming(tt, inc), |run| - 1;
    if k == |run| {
      assert run[..k] == run;
    } else {
      assert run[..n][..k] == run[..k];
      assert run[k..][..n - k] == run[..n][k..];
      SilentOn(tt, inc, run[..n], k);
      SoundInductive(tt, inc);
      Invariance(m, Sound, run[..n]);
      SilentStep(After(m, run[..n]).w, run[n]);
    }
  }

  /** A start with due time 0 is forgotten if it is suspended before its tick, and if it is made under suspension. */
  lemma ZeroDueTimeIsLost(w: Watch, thread: Thread, now: Reading, later: Reading)
    requires Timer.Sound(w) && w.h.owner
    ensures w.suspendCount == 0 ==> Unserved(w, Resume(Suspend(Start(w, 0, thread, now)), true, later))
    ensures w.suspendCount == 1 ==> Unserved(w, Resume(Start(w, 0, thread, now), true, later))
  {
  }

  /** Started, not suspended, and silent, with nothing raised since. */
  predicate Unserved(before: Watch, w: Watch) {
    w.startCount > 0 && w.suspendCount == 0 && Silent(w) && w.h.log == before.h.log
  }
}
