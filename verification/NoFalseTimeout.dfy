/** A deferred watchdog raises a timeout only against a thread that really was stuck in its section. */
module NoFalseTimeout {
  import opened Base
  import opened ThreadTime
  import opened WatchObject
  import opened DeferredSpec
  import opened Runs
  import References = DeferredReferences

  ghost predicate RaisesTimeout(w: Watch, e: Step) {
    Apply(w, e).h.log == w.h.log + [TimeoutEvent]
  }

  function Enters(run: seq<Step>): nat {
    if run == [] then 0
    else Enters(run[..|run| - 1]) + Count(run[|run| - 1] == DoEnterCount)
  }

  function Exits(run: seq<Step>): nat {
    if run == [] then 0
    else Exits(run[..|run| - 1]) + Count(run[|run| - 1] == DoExit)
  }

  /** A tick that finds the running watch inside its section, not suspended, and notes where it stands. */
  ghost predicate TakesSnapshot(w: Watch, e: Step) {
    && e.DoTick?
    && w.started && w.thread.Some? && w.suspendCount == 0 && Inside(w)
    && (w.trigger == 0 || (w.trigger == 1 && Progress(w)))
  }

  /**
   * A step that leaves the watch where the snapshot put it: no start, stop, reset or completion, no
   * other thread, and if it is a tick, then one that sees neither suspension nor progress.
   */
  ghost predicate Undisturbed(w: Watch, e: Step, thread: Thread) {
    match e
    case DoEnterBind(t) => t == thread
    case DoTick(_) => w.suspendCount == 0 && Inside(w) && !Progress(w)
    case DoSuspend => true
    case DoResumeDown => true
    case DoResumeUp => true
    case DoResumeAll => true
    case DoEnterCount => true
    case DoExit => true
    case DoDeliver => true
    case _ => false
  }

  /** The state end still rests on the snapshot taken in state before; rest are the steps in between. */
  ghost predicate Held(before: Watch, now: Reading, rest: seq<Step>, end: Watch) {
    && before.thread.Some?
    && end.trigger == 1
    && end.thread == before.thread && end.period == before.period
    && end.lastInCount == before.inCount && end.lastOutCount == before.outCount
    && end.lastReading == now
    && end.inCount == Wrap32(before.inCount + Enters(rest))
    && end.outCount == Wrap32(before.outCount + Exits(rest))
  }

  ghost predicate UndisturbedFrom(m: Machine<Watch, Step>, run: seq<Step>, from: nat, thread: Thread) {
    forall i :: from <= i < |run| ==> Undisturbed(After(m, run[..i]), run[i], thread)
  }

  lemma WatchingStep(w: Watch, e: Step)
    requires References.Sound(w) && Enabled(w, e)
    requires Apply(w, e).trigger == 1
    ensures TakesSnapshot(w, e) || (w.trigger == 1 && Undisturbed(w, e, w.thread.value))
  {
  }

  lemma WrapAdd(a: U32, b: nat, c: nat)
    ensures Wrap32(Wrap32(a + b) + c) == Wrap32(a + (b + c))
  {
  }

  lemma SnapshotHeld(w: Watch, e: Step)
    requires TakesSnapshot(w, e)
    ensures Held(w, e.now, [], Apply(w, e))
  {
  }

  lemma {:induction false} HeldExtends(before: Watch, now: Reading, rest: seq<Step>, w: Watch, e: Step)
    requires Held(before, now, rest, w)
    requires Undisturbed(w, e, before.thread.value) && Apply(w, e).trigger == 1
    ensures Held(before, now, rest + [e], Apply(w, e))
  {
    assert (rest + [e])[..|rest|] == rest;
    WrapAdd(before.inCount, Enters(rest), Count(e == DoEnterCount));
    WrapAdd(before.outCount, Exits(rest), Count(e == DoExit));
  }

  lemma ExtendHeld(run: seq<Step>, j: nat, before: Watch, w: Watch, end: Watch)
    requires j < |run| - 1
    requires run[j].DoTick?
    requires var n := |run| - 1;
             && Held(before, run[..n][j].now, run[..n][j + 1..], w)
             && Undisturbed(w, run[n], before.thread.value)
             && end == Apply(w, run[n])
    requires end.trigger == 1
    ensures Held(before, run[j].now, run[j + 1..], end)
  {
    var n := |run| - 1;
    var rest := run[..n][j + 1..];
    HeldExtends(before, run[j].now, rest, w, run[n]);
    assert rest + [run[n]] == run[j + 1..];
  }

  lemma UndisturbedExtends(m: Machine<Watch, Step>, run: seq<Step>, from: nat, thread: Thread)
    requires run != []
    requires UndisturbedFrom(m, run[..|run| - 1], from, thread)
    requires Undisturbed(After(m, run[..|run| - 1]), run[|run| - 1], thread)
    ensures UndisturbedFrom(m, run, from, thread)
  {
    var n := |run| - 1;
    forall i | from <= i < |run| ensures Undisturbed(After(m, run[..i]), run[i], thread) {
      if i < n {
        assert run[..n][..i] == run[..i] && run[..n][i] == run[i];
      }
    }
  }

  lemma {:induction false} WatchingStepInRun(tt: TimeType, inc: U32, run: seq<Step>)
    requires run != [] && Legal(Poller(tt, inc), run)
    requires After(Poller(tt, inc), run).trigger == 1
    ensures var w, e := After(Poller(tt, inc), run[..|run| - 1]), run[|run| - 1];
            TakesSnapshot(w, e) || (w.trigger == 1 && w.thread.Some? && Undisturbed(w, e, w.thread.value))
  {
    References.RunSound(tt, inc, run[..|run| - 1]);
    WatchingStep(After(Poller(tt, inc), run[..|run| - 1]), run[|run| - 1]);
  }

  /** Whenever the trigger is 1, an earlier tick j took the snapshot in force, and nothing disturbed it since. */
  lemma {:induction false} SnapshotInForce(tt: TimeType, inc: U32, run: seq<Step>)
    returns (j: nat, before: Watch, rest: seq<Step>)
    requires Legal(Poller(tt, inc), run)
    requires After(Poller(tt, inc), run).trigger == 1
    ensures j < |run| && rest == run[j + 1..] && before == After(Poller(tt, inc), run[..j])
    ensures TakesSnapshot(before, run[j])
    ensures Held(before, run[j].now, rest, After(Poller(tt, inc), run))
    ensures UndisturbedFrom(Poller(tt, inc), run, j + 1, before.thread.value)
  {
    var m := Poller(tt, inc);
    var n := |run| - 1;
    var w := After(m, run[..n]);
    WatchingStepInRun(tt, inc, run);
    if TakesSnapshot(w, run[n]) {
      j, before, rest := n, w, [];
      SnapshotHeld(w, run[n]);
    } else {
      j, before, rest := SnapshotInForce(tt, inc, run[..n]);
      ExtendHeld(run, j, before, w, After(m, run));
      rest := run[j + 1..];
      assert run[..n][..j] == run[..j];
      UndisturbedExtends(m, run, j + 1, w.thread.value);
    }
  }

  /**
   * Between tick j and tick k the monitored thread stayed in the section: tick j took a snapshot inside it,
   * every step in between left it alone, the numbers of enters and exits are multiples of 2^32, and the thread
   * time measured between the two ticks reached the period.
   */
  ghost predicate StuckBetween(tt: TimeType, inc: U32, run: seq<Step>, j: nat, k: nat)
    requires j < k < |run|
  {
    var m := Poller(tt, inc);
    var before, end := After(m, run[..j]), After(m, run[..k]);
    && TakesSnapshot(before, run[j])
    && UndisturbedFrom(m, run[..k], j + 1, before.thread.value)
    && Enters(run[j + 1..k]) % TWO32 == 0 && Exits(run[j + 1..k]) % TWO32 == 0
    && run[k].DoTick? && end.suspendCount == 0 && Inside(end) && end.thread == before.thread
    && TruncDiv(Measured(tt, run[j].now, run[k].now) * inc, 10000) >= end.period == before.period
  }

  lemma {:induction false} ConfigKept(tt: TimeType, inc: U32, run: seq<Step>)
    requires Legal(Poller(tt, inc), run)
    ensures After(Poller(tt, inc), run).timeType == tt && After(Poller(tt, inc), run).timeIncrement == inc
  {
    Invariance(Poller(tt, inc), (w: Watch) => w.timeType == tt && w.timeIncrement == inc, run);
  }

  lemma DistinctSnoc(log: seq<Event>, a: Event, b: Event)
    requires a != b
    ensures log + [a] != log + [b] && log + [a] != log
  {
    assert (log + [a])[|log|] != (log + [b])[|log|];
  }

  /** The one situation that raises a timeout. */
  lemma TimeoutExactly(w: Watch, e: Step)
    requires References.Sound(w) && Enabled(w, e)
    ensures RaisesTimeout(w, e)
            <==> && e.DoTick? && w.started && w.thread.Some? && w.trigger == 1
                 && w.suspendCount == 0 && Inside(w) && !Progress(w) && StuckLongEnough(w, e.now)
  {
    DistinctSnoc(w.h.log, TimeoutEvent, RecoveryEvent);
  }

  lemma {:induction false} HeldStill(before: Watch, now: Reading, rest: seq<Step>, end: Watch)
    requires Held(before, now, rest, end) && !Progress(end)
    ensures Enters(rest) % TWO32 == 0 && Exits(rest) % TWO32 == 0
  {
    WrapFixed(before.inCount, Enters(rest));
    WrapFixed(before.outCount, Exits(rest));
  }

  lemma {:induction false} WrapFixed(a: U32, n: nat)
    requires Wrap32(a + n) == a
    ensures n % TWO32 == 0
  {
    assert (a + n) / TWO32 * TWO32 == n;
  }

  /** The main result: every timeout in every run has the tick that started it, and a thread stuck in between. */
  lemma {:induction false} NoFalseTimeout(tt: TimeType, inc: U32, run: seq<Step>, k: nat) returns (j: nat)
    requires Legal(Poller(tt, inc), run)
    requires k < |run| && RaisesTimeout(After(Poller(tt, inc), run[..k]), run[k])
    ensures j < k && StuckBetween(tt, inc, run, j, k)
  {
    var m := Poller(tt, inc);
    LegalPrefix(m, run, k);
    References.RunSound(tt, inc, run[..k]);
    var end := After(m, run[..k]);
    TimeoutExactly(end, run[k]);
    ConfigKept(tt, inc, run[..k]);
    var before, rest;
    j, before, rest := SnapshotInForce(tt, inc, run[..k]);
    HeldStill(before, run[j].now, rest, end);
    assert run[..k][..j] == run[..j];
    assert rest == run[j + 1..k];
  }

  lemma {:induction false} NoneCounted(run: seq<Step>)
    ensures Enters(run) <= |run| && Exits(run) <= |run|
    ensures Enters(run) == 0 ==> DoEnterCount !in run
    ensures Exits(run) == 0 ==> DoExit !in run
  {
    if run != [] {
      var n := |run| - 1;
      NoneCounted(run[..n]);
      assert run == run[..n] + [run[n]];
    }
  }

  lemma ToMillisMonotone(a: int, b: nat)
    requires a <= b
    ensures TruncDiv(a, 10000) <= b / 10000
  {
  }

  lemma {:induction false} TrueTimeReached(tt: TimeType, last: Reading, now: Reading, inc: U32, period: int)
    requires TruncDiv(Measured(tt, last, now) * inc, 10000) >= period
    requires tt != FullTime || Measured(tt, last, now) <= TrueTime(tt, last, now)
    ensures TrueTime(tt, last, now) * inc / 10000 >= period
  {
    MulMonotone(Measured(tt, last, now), TrueTime(tt, last, now), inc);
    MulMonotone(0, TrueTime(tt, last, now), inc);
    ToMillisMonotone(Measured(tt, last, now) * inc, TrueTime(tt, last, now) * inc);
  }

  lemma NoneBetween(rest: seq<Step>)
    requires |rest| < TWO32 && Enters(rest) % TWO32 == 0 && Exits(rest) % TWO32 == 0
    ensures DoEnterCount !in rest && DoExit !in rest
  {
    NoneCounted(rest);
  }

  /**
   * In runs of at most 2^32 steps the section was not entered or left at all between the two ticks; and the
   * thread time that really passed reached the period, whenever the measurement does not run ahead of it,
   * which is always so for kernel and user time.
   */
  lemma {:induction false} TimeoutMeansStuck(tt: TimeType, inc: U32, run: seq<Step>, k: nat) returns (j: nat)
    requires Legal(Poller(tt, inc), run) && |run| <= TWO32
    requires k < |run| && RaisesTimeout(After(Poller(tt, inc), run[..k]), run[k])
    ensures j < k && StuckBetween(tt, inc, run, j, k)
    ensures DoEnterCount !in run[j + 1..k] && DoExit !in run[j + 1..k]
    ensures tt != FullTime || Measured(tt, run[j].now, run[k].now) <= TrueTime(tt, run[j].now, run[k].now)
            ==> TrueTime(tt, run[j].now, run[k].now) * inc / 10000 >= After(Poller(tt, inc), run[..k]).period
  {
    j := NoFalseTimeout(tt, inc, run, k);
    NoneBetween(run[j + 1..k]);
    if tt != FullTime || Measured(tt, run[j].now, run[k].now) <= TrueTime(tt, run[j].now, run[k].now) {
      TrueTimeReached(tt, run[j].now, run[k].now, inc, After(Poller(tt, inc), run[..k]).period);
    }
  }
}
