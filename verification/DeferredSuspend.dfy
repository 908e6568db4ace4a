/** What the suspend count of the deferred watchdog is worth when calls overlap (watchdog/dwd.c). */
module DeferredSuspend {
  import opened Base
  import opened ThreadTime
  import opened DeferredSpec
  import opened Runs

  /** The count once every resume has finished. */
  function Settled(w: Watch): U32 {
    Wrap32(w.suspendCount + w.owing)
  }

  /** What a step should do to the number of suspensions: a resume takes one away, but not below zero. */
  function Intended(count: U32, e: Step): U32 {
    match e
    case DoSuspend => Wrap32(count + 1)
    case DoResumeDown => if count == 0 then 0 else count - 1
    case DoResumeAll => 0
    case _ => count
  }

  /** A resume overlaps others in a way that shows: it sees their passing -1, or what they still have to add. */
  predicate Overlaps(w: Watch, e: Step) {
    match e
    case DoResumeDown => (w.suspendCount == 0) != (Settled(w) == 0)
    case DoResumeAll => Wrap32(w.owing) != 0
    case _ => false
  }

  lemma WrapSum(a: int, b: int)
    ensures Wrap32(Wrap32(a) + b) == Wrap32(a + b)
  {
  }

  lemma WrapUp(s: int, owing: int)
    ensures Wrap32(Wrap32(s + 1) + owing) == Wrap32(Wrap32(s + owing) + 1)
    ensures Wrap32(Wrap32(s + 1) + (owing - 1)) == Wrap32(s + owing)
  {
    WrapSum(s + 1, owing);
    WrapSum(s + 1, owing - 1);
    WrapSum(s + owing, 1);
  }

  lemma WrapDown(s: int, owing: int)
    ensures Wrap32(Wrap32(s - 1) + owing) == Wrap32(Wrap32(s + owing) - 1)
    ensures Wrap32(Wrap32(s - 1) + (owing + 1)) == Wrap32(s + owing)
  {
    WrapSum(s - 1, owing);
    WrapSum(s - 1, owing + 1);
    WrapSum(s + owing, -1);
  }

  lemma OneLess(n: U32)
    ensures Wrap32(n - 1) == if n == 0 then TWO32 - 1 else n - 1
  {
  }

  lemma DownSettles(w: Watch)
    ensures Settled(ResumeDown(w)) == if w.suspendCount == 0 then Settled(w) else Wrap32(Settled(w) - 1)
  {
    WrapDown(w.suspendCount, w.owing);
  }

  lemma DownExactly(w: Watch)
    ensures Settled(ResumeDown(w)) == Intended(Settled(w), DoResumeDown) <==> !Overlaps(w, DoResumeDown)
  {
    DownSettles(w);
    OneLess(Settled(w));
  }

  lemma UpExactly(w: Watch)
    ensures Settled(Apply(w, DoSuspend)) == Wrap32(Settled(w) + 1)
    ensures Settled(Apply(w, DoResumeUp)) == Settled(w)
  {
    WrapUp(w.suspendCount, w.owing);
  }

  lemma AllExactly(w: Watch)
    ensures Settled(Apply(w, DoResumeAll)) == 0 <==> !Overlaps(w, DoResumeAll)
  {
  }

  /** Every step settles to the intended count exactly if it does not overlap another resume. */
  lemma CountExactly(w: Watch, e: Step)
    requires Enabled(w, e)
    ensures Settled(Apply(w, e)) == Intended(Settled(w), e) <==> !Overlaps(w, e)
  {
    match e
    case DoResumeDown => DownExactly(w);
    case DoSuspend => UpExactly(w);
    case DoResumeUp => UpExactly(w);
    case DoResumeAll => AllExactly(w);
    case _ => OthersKeepCount(w, e);
  }

  lemma OthersKeepCount(w: Watch, e: Step)
    requires !e.DoSuspend? && !e.DoResumeDown? && !e.DoResumeUp? && !e.DoResumeAll?
    ensures Apply(w, e).suspendCount == w.suspendCount && Apply(w, e).owing == w.owing
  {
  }

  /** The count goes under zero exactly when a resume finds the passing -1 of another and nothing is suspended. */
  lemma UnderZeroExactly(w: Watch)
    requires Settled(w) == 0
    ensures Settled(ResumeDown(w)) == 0xFFFF_FFFF <==> w.suspendCount != 0
  {
    DownSettles(w);
    OneLess(Settled(w));
  }

  function IntendedAfter(run: seq<Step>): U32 {
    if run == [] then 0 else Intended(IntendedAfter(run[..|run| - 1]), run[|run| - 1])
  }

  ghost predicate OverlapsNowhere(tt: TimeType, inc: U32, run: seq<Step>) {
    run == []
    || (OverlapsNowhere(tt, inc, run[..|run| - 1])
        && !Overlaps(After(Poller(tt, inc), run[..|run| - 1]), run[|run| - 1]))
  }

  /** In every run without such an overlap the count is the number of suspensions not yet resumed. */
  lemma {:induction false} CountsSuspensions(tt: TimeType, inc: U32, run: seq<Step>)
    requires Legal(Poller(tt, inc), run) && OverlapsNowhere(tt, inc, run)
    ensures Settled(After(Poller(tt, inc), run)) == IntendedAfter(run)
  {
    if run != [] {
      var before := run[..|run| - 1];
      CountsSuspensions(tt, inc, before);
      CountExactly(After(Poller(tt, inc), before), run[|run| - 1]);
    }
  }

  /** Two resumes of a watch that nobody suspends, one between the operations of the other, leave it suspended. */
  lemma TwoResumesSuspend(tt: TimeType, inc: U32) returns (run: seq<Step>)
    ensures run == [DoResumeDown, DoResumeDown, DoResumeUp] && Legal(Poller(tt, inc), run)
    ensures IntendedAfter(run) == 0
    ensures After(Poller(tt, inc), run) == Allocate(tt, inc).(suspendCount := 0xFFFF_FFFF)
  {
    var m, w0 := Poller(tt, inc), Allocate(tt, inc);
    Grow(m, [], DoResumeDown);
    assert [] + [DoResumeDown] == [DoResumeDown];
    assert After(m, [DoResumeDown]) == w0.(suspendCount := 0xFFFF_FFFF, owing := 1);
    Grow(m, [DoResumeDown], DoResumeDown);
    assert [DoResumeDown] + [DoResumeDown] == [DoResumeDown, DoResumeDown];
    assert After(m, [DoResumeDown, DoResumeDown]) == w0.(suspendCount := 0xFFFF_FFFE, owing := 1);
    run := [DoResumeDown, DoResumeDown, DoResumeUp];
    Grow(m, [DoResumeDown, DoResumeDown], DoResumeUp);
    assert [DoResumeDown, DoResumeDown] + [DoResumeUp] == run;
    NothingIntended();
  }

  lemma NothingIntended()
    ensures IntendedAfter([DoResumeDown, DoResumeDown, DoResumeUp]) == 0
  {
    var run := [DoResumeDown, DoResumeDown, DoResumeUp];
    assert run[..|run| - 1] == [DoResumeDown, DoResumeDown];
    assert [DoResumeDown, DoResumeDown][..1] == [DoResumeDown];
    assert IntendedAfter([DoResumeDown]) == 0;
    assert IntendedAfter([DoResumeDown, DoResumeDown]) == 0;
  }
}
