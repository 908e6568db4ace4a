/** The converse of NoFalseTimeout: a thread that stays stuck in its section does get its timeout. */
module TimeoutComes {
  import opened Base
  import opened ThreadTime
  import opened WatchObject
  import opened DeferredSpec
  import opened Runs
  import opened NoFalseTimeout
  import References = DeferredReferences

  /** The thread time measured since a reading, in milliseconds, reached the period. */
  predicate Reaches(tt: TimeType, inc: U32, last: Reading, now: Reading, period: int) {
    TruncDiv(Measured(tt, last, now) * inc, 10000) >= period
  }

  /** The watch still rests on the snapshot of a thread that has not moved since. */
  ghost predicate RestsOn(before: Watch, now: Reading, w: Watch) {
    && w.started && w.trigger == 1 && Inside(w)
    && w.thread == before.thread && w.period == before.period && w.lastReading == now
    && w.timeType == before.timeType && w.timeIncrement == before.timeIncrement
    && w.inCount == w.lastInCount == before.inCount && w.outCount == w.lastOutCount == before.outCount
  }

  lemma SnapshotRests(w: Watch, e: Step)
    requires TakesSnapshot(w, e)
    ensures RestsOn(w, e.now, Apply(w, e))
  {
  }

  /** A tick that finds the period reached, counting from the reading of the snapshot. */
  predicate ReachedBy(before: Watch, now: Reading, e: Step) {
    e.DoTick? && Reaches(before.timeType, before.timeIncrement, now, e.now, before.period)
  }

  /** A step that neither disturbs the watch nor enters or leaves the section, nor reaches the period. */
  ghost predicate StaysStuck(before: Watch, now: Reading, w: Watch, e: Step) {
    && before.thread.Some? && Undisturbed(w, e, before.thread.value)
    && e != DoEnterCount && e != DoExit && !ReachedBy(before, now, e)
  }

  lemma StillRests(before: Watch, now: Reading, w: Watch, e: Step)
    requires RestsOn(before, now, w) && StaysStuck(before, now, w, e)
    ensures RestsOn(before, now, Apply(w, e))
  {
  }

  lemma {:induction false} StillRestsInRun(m: Machine<Watch, Step>, before: Watch, now: Reading, run: seq<Step>,
                                           j: nat, k: nat)
    requires m.step == Apply && j < k <= |run|
    requires Between(m, (w, e) => StaysStuck(before, now, w, e), run, j + 1, k)
    requires RestsOn(before, now, After(m, run[..j + 1]))
    ensures RestsOn(before, now, After(m, run[..k]))
  {
    var rests := (w: Watch) => RestsOn(before, now, w);
    var stuck := (w: Watch, e: Step) => StaysStuck(before, now, w, e);
    forall w, e | rests(w) && stuck(w, e)
      ensures rests(m.step(w, e))
    {
      StillRests(before, now, w, e);
    }
    forall i | j + 1 <= i < k
      ensures stuck(After(m, run[..i]), run[i])
    {
    }
    Lasting(m, rests, stuck, run, j + 1, k);
  }

  /**
   * After a snapshot at j, as long as the thread stays stuck and no tick has reached the period, a tick of the
   * unsuspended watch raises the timeout exactly if it reaches the period: the first that does, does.
   */
  lemma {:induction false} FirstTickToReachRaises(tt: TimeType, inc: U32, run: seq<Step>, j: nat, k: nat)
    requires Legal(Poller(tt, inc), run) && j < k < |run|
    requires TakesSnapshot(After(Poller(tt, inc), run[..j]), run[j])
    requires var before, now := After(Poller(tt, inc), run[..j]), run[j].now;
             Between(Poller(tt, inc), (w, e) => StaysStuck(before, now, w, e), run, j + 1, k)
    requires run[k].DoTick? && After(Poller(tt, inc), run[..k]).suspendCount == 0
    ensures RaisesTimeout(After(Poller(tt, inc), run[..k]), run[k])
       <==> Reaches(tt, inc, run[j].now, run[k].now, After(Poller(tt, inc), run[..j]).period)
  {
    var m := Poller(tt, inc);
    var before := After(m, run[..j]);
    AfterSnoc(m, run, j);
    SnapshotRests(before, run[j]);
    StillRestsInRun(m, before, run[j].now, run, j, k);
    LegalPrefix(m, run, j);
    ConfigKept(tt, inc, run[..j]);
    LegalPrefix(m, run, k);
    References.RunSound(tt, inc, run[..k]);
    RestingRaises(before, run[j].now, After(m, run[..k]), run[k]);
  }

  lemma RestingRaises(before: Watch, now: Reading, w: Watch, e: Step)
    requires References.Sound(w) && Enabled(w, e) && RestsOn(before, now, w)
    requires e.DoTick? && w.suspendCount == 0
    ensures RaisesTimeout(w, e) <==> ReachedBy(before, now, e)
  {
    TimeoutExactly(w, e);
  }
}
