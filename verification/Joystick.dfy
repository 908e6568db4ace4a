/**
 * The analog joystick poll (input/joystick/anajoyst.c, AnajoystAnalogPoll): how long each axis holds its
 * port bit is measured by reading clock and port in turn, with any delay between two readings.
 */
module Joystick {
  import opened Base

  const RESOLUTION: nat := 100
  const TIMEOUT: nat := 16000
    datatype Axis = X | Y | Z | R

  /**
   * One attempt, in ticks of the performance counter since its start: when the clock is read for the k-th
   * time after the timers were started, when the port is read after that, and when the bit of an axis falls.
   */
  datatype Attempt = Attempt(elapsed: nat -> nat, sampled: nat -> nat, falls: Axis -> nat)

  /** The clock never goes back, and the port is read between two readings of it, which may be the same. */
  ghost predicate InOrder(t: Attempt) {
    forall k: nat :: t.elapsed(k) <= t.sampled(k) <= t.elapsed(k + 1)
  }

  /** The clock does not stand still for ever. */
  ghost predicate Advances(t: Attempt, timeout: U32) {
    exists k: nat :: t.elapsed(k) > timeout
  }

  /** No delay is so long that the difference of two 32-bit counters loses it. */
  ghost predicate NoWrap(t: Attempt, timeout: U32) {
    && t.elapsed(1) < TWO32
    && forall k: nat :: t.elapsed(k) <= timeout ==> t.elapsed(k + 1) < TWO32
  }

  /** Sample k is the first to find the bit of the axis fallen. */
  ghost predicate Seen(t: Attempt, axis: Axis, k: nat) {
    t.falls(axis) <= t.sampled(k) && (k > 0 ==> t.sampled(k - 1) < t.falls(axis))
  }

  /** The time between the clock readings on either side of samples k - 1 and k. */
  function Gap(t: Attempt, k: nat): int {
    t.elapsed(k + 1) - if k == 0 then 0 else t.elapsed(k - 1)
  }

  /**
   * The time of an axis was taken at the clock reading before sample k, which saw it fall in time and
   * without too long a gap.
   */
  ghost predicate TakenAt(t: Attempt, axis: Axis, time: nat, k: nat, threshold: nat, timeout: nat) {
    Seen(t, axis, k) && time == t.elapsed(k) && t.elapsed(k + 1) <= timeout && Gap(t, k) <= threshold
  }

  ghost predicate Measured(t: Attempt, axis: Axis, time: nat, threshold: nat, timeout: nat) {
    exists k: nat :: TakenAt(t, axis, time, k, threshold, timeout)
  }

  /** Every axis falls in time, and is seen to without too long a gap. */
  ghost predicate Readable(t: Attempt, axes: set<Axis>, threshold: nat, timeout: nat) {
    forall axis :: axis in axes ==> exists time: nat :: Measured(t, axis, time, threshold, timeout)
  }

  ghost predicate SeenLate(t: Attempt, axis: Axis, k: nat, threshold: nat, timeout: nat) {
    Seen(t, axis, k) && t.elapsed(k + 1) <= timeout && Gap(t, k) > threshold
  }

  /** Some axis falls in time, but in too long a gap. */
  ghost predicate Delayed(t: Attempt, axes: set<Axis>, threshold: nat, timeout: nat) {
    exists axis, k: nat :: axis in axes && SeenLate(t, axis, k, threshold, timeout)
  }

  lemma {:induction false} ClockAdvances(t: Attempt, j: nat, k: nat)
    requires InOrder(t) && j <= k
    ensures t.elapsed(j) <= t.elapsed(k) && t.sampled(j) <= t.sampled(k)
    ensures j < k ==> t.sampled(j) <= t.elapsed(k)
    decreases k
  {
    if j < k {
      assert t.elapsed(k - 1) <= t.sampled(k - 1) <= t.elapsed(k - 1 + 1);
      assert t.elapsed(k) <= t.sampled(k);
      ClockAdvances(t, j, k - 1);
    }
  }

  lemma SeenOnce(t: Attempt, axis: Axis, j: nat, k: nat)
    requires InOrder(t) && Seen(t, axis, j) && Seen(t, axis, k)
    ensures j == k
  {
    if j < k {
      ClockAdvances(t, j, k - 1);
    } else if k < j {
      ClockAdvances(t, k, j - 1);
    }
  }

  /** What is reported differs from when the bit fell by at most the threshold, whatever the delays were. */
  lemma {:induction false} WithinThreshold(t: Attempt, axis: Axis, time: nat, threshold: nat, timeout: nat)
    requires InOrder(t) && Measured(t, axis, time, threshold, timeout)
    ensures t.falls(axis) - threshold <= time <= t.falls(axis) + threshold
  {
    var k: nat :| TakenAt(t, axis, time, k, threshold, timeout);
    assert t.elapsed(k) <= t.sampled(k) <= t.elapsed(k + 1);
    if k > 0 {
      assert t.elapsed(k - 1) <= t.sampled(k - 1) <= t.elapsed(k - 1 + 1);
    }
  }

  datatype Outcome = Done | Redo | TimedOut

  /** No axis is seen late before sample k. */
  ghost predicate OnTime(t: Attempt, axes: set<Axis>, k: nat, threshold: nat, timeout: nat) {
    forall axis, j: nat :: axis in axes && j < k ==> !SeenLate(t, axis, j, threshold, timeout)
  }

  /** No sample before k saw the axis fall. */
  ghost predicate StillUp(t: Attempt, axis: Axis, k: nat) {
    k > 0 ==> t.sampled(k - 1) < t.falls(axis)
  }

  /** The axes that are left have not fallen yet; the others have their times. */
  ghost predicate Progress(t: Attempt, axes: set<Axis>, left: set<Axis>, times: map<Axis, U32>,
                           k: nat, threshold: nat, timeout: nat)
  {
    && left <= axes
    && (forall axis :: axis in left ==> StillUp(t, axis, k))
    && (forall axis :: axis in axes - left ==> axis in times && Measured(t, axis, times[axis], threshold, timeout))
  }

  /** A time-out: an axis that is left cannot be seen in time any more. */
  lemma TooLate(t: Attempt, axis: Axis, k: nat, threshold: nat, timeout: nat)
    requires InOrder(t) && StillUp(t, axis, k) && t.elapsed(k + 1) > timeout
    ensures forall j: nat :: Seen(t, axis, j) ==> t.elapsed(j + 1) > timeout
  {
    forall j: nat | Seen(t, axis, j)
      ensures t.elapsed(j + 1) > timeout
    {
      if j < k {
        ClockAdvances(t, j, k - 1);
      } else {
        ClockAdvances(t, k + 1, j + 1);
      }
    }
  }

  /** One axis: if its bit has fallen, it is done and its time is the one before the sample. */
  method Take(axis: Axis, fallen: set<Axis>, left: set<Axis>, times: map<Axis, U32>, time: U32)
    returns (left': set<Axis>, times': map<Axis, U32>)
    ensures left' == if axis in fallen then left - {axis} else left
    ensures times' == if axis in fallen then times[axis := time] else times
  {
    left', times' := left, times;
    if axis in fallen {
      left' := left' - {axis};
      times' := times'[axis := time];
    }
  }

  method TakeAll(fallen: set<Axis>, left: set<Axis>, times: map<Axis, U32>, time: U32)
    returns (left': set<Axis>, times': map<Axis, U32>)
    ensures left' == left - fallen
    ensures forall axis :: axis in fallen ==> axis in times' && times'[axis] == time
    ensures forall axis :: axis !in fallen ==>
               (axis in times' <==> axis in times) && (axis in times ==> times'[axis] == times[axis])
  {
    left', times' := Take(X, fallen, left, times, time);
    left', times' := Take(Y, fallen, left', times', time);
    left', times' := Take(Z, fallen, left', times', time);
    left', times' := Take(R, fallen, left', times', time);
    forall axis
      ensures axis in left' <==> axis in left - fallen
      ensures axis in times' <==> axis in fallen || axis in times
      ensures axis in times' ==> times'[axis] == if axis in fallen then time else times[axis]
    {
      match axis
      case X =>
      case Y =>
      case Z =>
      case R =>
    }
  }

  /** KeQueryPerformanceCounter(NULL).LowPart - StartTime. */
  method ReadClock(t: Attempt, k: nat) returns (time: U32)
    ensures t.elapsed(k) < TWO32 ==> time == t.elapsed(k)
  {
    time := Wrap32(t.elapsed(k));
  }

  /** What an attempt keeps from one sample to the next. */
  ghost predicate Continues(t: Attempt, axes: set<Axis>, left: set<Axis>, times: map<Axis, U32>, k: nat,
                            threshold: U32, timeout: U32)
  {
    Progress(t, axes, left, times, k, threshold, timeout) && OnTime(t, axes, k, threshold, timeout)
  }

  /** The attempt is over for want of an axis: it is late, or was seen too late. */
  ghost predicate Fails(t: Attempt, axes: set<Axis>, outcome: Outcome, threshold: U32, timeout: U32) {
    && !Readable(t, axes, threshold, timeout)
    && (outcome.Redo? <==> Delayed(t, axes, threshold, timeout))
  }

  /** The body of the sampling loop, for sample k: Done tells that the attempt goes on. */
  method Sample(t: Attempt, axes: set<Axis>, left: set<Axis>, times: map<Axis, U32>, k: nat,
                previous: U32, previousButOne: U32, threshold: U32, timeout: U32)
    returns (outcome: Outcome, left': set<Axis>, times': map<Axis, U32>, current: U32)
    requires InOrder(t) && t.elapsed(k + 1) < TWO32 && left != {}
    requires previous == t.elapsed(k) && previousButOne == (if k == 0 then 0 else t.elapsed(k - 1))
    requires Continues(t, axes, left, times, k, threshold, timeout)
    ensures !outcome.Done? ==> Fails(t, axes, outcome, threshold, timeout)
    ensures outcome.Done? ==> Continues(t, axes, left', times', k + 1, threshold, timeout)
    ensures outcome.Done? ==> current == t.elapsed(k + 1) <= timeout
  {
    var fallen := set axis | axis in left && t.falls(axis) <= t.sampled(k);
    current := ReadClock(t, k + 1);
    left', times' := left, times;
    if current > timeout {
      GivesUp(t, axes, left, times, k, threshold, timeout);
      return TimedOut, left', times', current;
    }
    left', times' := TakeAll(fallen, left, times, previous);
    if fallen != {} && current - previousButOne > threshold {
      LateNow(t, axes, left, fallen, k, threshold, timeout);
      return Redo, left', times', current;
    }
    NextSample(t, axes, left, left', times, times', fallen, k, threshold, timeout);
    return Done, left', times', current;
  }

  lemma ClockOrdered(t: Attempt, k: nat)
    requires InOrder(t)
    ensures t.elapsed(k) <= t.elapsed(k + 1)
  {
    assert t.elapsed(k) <= t.sampled(k) <= t.elapsed(k + 1);
  }

  /** The sampling loop: until no axis is left, or the attempt fails. */
  method SampleAll(t: Attempt, axes: set<Axis>, threshold: U32, timeout: U32, before: map<Axis, U32>, ghost end: nat)
    returns (outcome: Outcome, times: map<Axis, U32>, ghost k: nat)
    requires InOrder(t) && NoWrap(t, timeout) && t.elapsed(end) > timeout
    requires Continues(t, axes, axes, before, 0, threshold, timeout)
    ensures !outcome.Done? ==> Fails(t, axes, outcome, threshold, timeout)
    ensures outcome.Done? ==> Continues(t, axes, {}, times, k, threshold, timeout)
  {
    var left := axes;
    outcome, times := Done, before;
    var i: nat := 0;
    k := 0;
    ClockOrdered(t, 0);
    var previousButOne: U32 := 0;
    var previous := ReadClock(t, 0);
    while left != {}
      invariant k == i && previous == t.elapsed(i) && previousButOne == (if i == 0 then 0 else t.elapsed(i - 1))
      invariant t.elapsed(i + 1) < TWO32
      invariant Continues(t, axes, left, times, i, threshold, timeout)
      decreases end - i
    {
      var current;
      outcome, left, times, current := Sample(t, axes, left, times, i, previous, previousButOne, threshold, timeout);
      if !outcome.Done? {
        return outcome, times, k;
      }
      if end <= i + 1 {
        ClockAdvances(t, end, i + 1);
      }
      previousButOne, previous := previous, current;
      i := i + 1;
      k := i;
    }
    return Done, times, k;
  }

  /** One attempt: done exactly when every axis can be read, given up for another exactly when one is seen late. */
  method TryOnce(t: Attempt, axes: set<Axis>, threshold: U32, timeout: U32, before: map<Axis, U32>)
    returns (outcome: Outcome, times: map<Axis, U32>)
    requires InOrder(t) && NoWrap(t, timeout) && Advances(t, timeout)
    ensures outcome.Done? <==> Readable(t, axes, threshold, timeout)
    ensures outcome.Redo? <==> Delayed(t, axes, threshold, timeout)
    ensures outcome.Done? ==> forall axis :: axis in axes ==>
              axis in times && Measured(t, axis, times[axis], threshold, timeout)
  {
    ghost var end: nat :| t.elapsed(end) > timeout;
    ghost var k;
    outcome, times, k := SampleAll(t, axes, threshold, timeout, before, end);
    if outcome.Done? {
      Finished(t, axes, times, k, threshold, timeout);
    }
  }

  lemma GivesUp(t: Attempt, axes: set<Axis>, left: set<Axis>, times: map<Axis, U32>, k: nat,
                threshold: nat, timeout: nat)
    requires InOrder(t) && Progress(t, axes, left, times, k, threshold, timeout) && left != {}
    requires OnTime(t, axes, k, threshold, timeout) && t.elapsed(k + 1) > timeout
    ensures !Readable(t, axes, threshold, timeout) && !Delayed(t, axes, threshold, timeout)
  {
    var lost :| lost in left;
    TooLate(t, lost, k, threshold, timeout);
    assert forall time: nat :: !Measured(t, lost, time, threshold, timeout);
    forall axis, j: nat | axis in axes
      ensures !SeenLate(t, axis, j, threshold, timeout)
    {
      if j >= k {
        ClockAdvances(t, k + 1, j + 1);
      }
    }
  }

  lemma LateNow(t: Attempt, axes: set<Axis>, left: set<Axis>, fallen: set<Axis>, k: nat, threshold: nat, timeout: nat)
    requires InOrder(t) && left <= axes && fallen != {} && t.elapsed(k + 1) <= timeout && Gap(t, k) > threshold
    requires forall axis :: axis in fallen ==> axis in left && StillUp(t, axis, k) && t.falls(axis) <= t.sampled(k)
    ensures Delayed(t, axes, threshold, timeout) && !Readable(t, axes, threshold, timeout)
  {
    var axis :| axis in fallen;
    assert SeenLate(t, axis, k, threshold, timeout);
    forall time: nat, j: nat
      ensures !TakenAt(t, axis, time, j, threshold, timeout)
    {
      if Seen(t, axis, j) {
        SeenOnce(t, axis, j, k);
      }
    }
  }

  lemma NextSample(t: Attempt, axes: set<Axis>, left: set<Axis>, left': set<Axis>,
                   times: map<Axis, U32>, times': map<Axis, U32>,
                   fallen: set<Axis>, k: nat, threshold: nat, timeout: nat)
    requires InOrder(t) && Progress(t, axes, left, times, k, threshold, timeout)
    requires OnTime(t, axes, k, threshold, timeout)
    requires t.elapsed(k + 1) <= timeout && (fallen == {} || Gap(t, k) <= threshold)
    requires forall axis :: axis in fallen <==> axis in left && t.falls(axis) <= t.sampled(k)
    requires left' == left - fallen
    requires forall axis :: axis in fallen ==> axis in times' && times'[axis] == t.elapsed(k)
    requires forall axis :: axis !in fallen ==>
               (axis in times' <==> axis in times) && (axis in times ==> times'[axis] == times[axis])
    ensures Progress(t, axes, left', times', k + 1, threshold, timeout) && OnTime(t, axes, k + 1, threshold, timeout)
  {
    forall axis | axis in fallen
      ensures Measured(t, axis, times'[axis], threshold, timeout)
    {
      assert StillUp(t, axis, k);
      assert TakenAt(t, axis, times'[axis], k, threshold, timeout);
    }
    forall axis | axis in axes
      ensures !SeenLate(t, axis, k, threshold, timeout)
    {
      if Seen(t, axis, k) && axis !in fallen {
        var j: nat :| TakenAt(t, axis, times[axis], j, threshold, timeout);
        SeenOnce(t, axis, j, k);
      }
    }
  }

  lemma Finished(t: Attempt, axes: set<Axis>, times: map<Axis, U32>, k: nat, threshold: nat, timeout: nat)
    requires InOrder(t) && Progress(t, axes, {}, times, k, threshold, timeout)
    ensures Readable(t, axes, threshold, timeout) && !Delayed(t, axes, threshold, timeout)
    ensures forall axis :: axis in axes ==> axis in times && Measured(t, axis, times[axis], threshold, timeout)
  {
    assert axes - {} == axes;
    forall axis, j: nat | axis in axes
      ensures !SeenLate(t, axis, j, threshold, timeout)
    {
      if Seen(t, axis, j) {
        var i: nat :| TakenAt(t, axis, times[axis], i, threshold, timeout);
        SeenOnce(t, axis, i, j);
      }
    }
  }

  // ---- The poll

  const MICRO: nat := 1000000

  /** ThresholdInTicks. */
  function Threshold(frequency: U32): (ticks: U32)
    ensures ticks * MICRO <= RESOLUTION * frequency
  {
    RESOLUTION * frequency / MICRO
  }

  /** MaxTimeoutInTicks. */
  function MaxTimeout(frequency: U32): (ticks: U32)
    ensures ticks * MICRO <= TIMEOUT * frequency
  {
    TIMEOUT * frequency / MICRO
  }

  /** The whole microseconds in a time. */
  function WholeMicroSeconds(time: nat, frequency: U32): nat
    requires frequency > 0
  {
    time * MICRO / frequency
  }

  /** TimeInMicroSeconds. */
  function MicroSeconds(time: U32, frequency: U32): U32
    requires frequency > 0
  {
    Wrap32(WholeMicroSeconds(time, frequency))
  }

  lemma {:induction false} QuotientBound(a: nat, b: nat, n: nat, d: nat)
    requires d > 0 && a <= b + n * d
    ensures a / d <= b / d + n
  {
    var q, r := a / d, b / d;
    assert q * d <= a && b < r * d + d;
    assert (r + n + 1) * d == r * d + n * d + d;
    CancelFactor(q, r + n + 1, d);
  }

  lemma {:induction false} CancelFactor(q: nat, s: nat, d: nat)
    requires q * d < s * d
    ensures q < s
  {
    if q >= s {
      MulMonotone(s, q, d);
    }
  }

  /** Times a threshold apart are at most the resolution apart in microseconds. */
  lemma {:induction false} Close(a: nat, b: nat, frequency: U32)
    requires frequency > 0 && a <= b + Threshold(frequency)
    ensures WholeMicroSeconds(a, frequency) <= WholeMicroSeconds(b, frequency) + RESOLUTION
  {
    QuotientBound(a * MICRO, b * MICRO, RESOLUTION, frequency);
  }

  /** A time before the time-out is at most 16000 microseconds, so nothing is lost. */
  lemma {:induction false} NothingTruncated(time: U32, frequency: U32)
    requires frequency > 0 && time <= MaxTimeout(frequency)
    ensures MicroSeconds(time, frequency) == WholeMicroSeconds(time, frequency) <= TIMEOUT
  {
    QuotientBound(time * MICRO, 0, TIMEOUT, frequency);
  }

  /** Converting cuts off less than a microsecond. */
  lemma {:induction false} Converted(time: nat, frequency: U32)
    requires frequency > 0
    ensures var r := WholeMicroSeconds(time, frequency);
            r * frequency <= time * 1000000 < r * frequency + frequency
  {
  }

  /** The clock is read within 16000 microseconds after sample k. */
  predicate InTime(t: Attempt, k: nat, frequency: U32) {
    t.elapsed(k + 1) * 1000000 <= 16000 * frequency
  }

  /** The clock readings around samples k - 1 and k are at most 100 microseconds apart. */
  predicate Closely(t: Attempt, k: nat, frequency: U32) {
    Gap(t, k) * 1000000 <= 100 * frequency
  }

  lemma {:induction false} LimitsExactly(ticks: int, frequency: U32)
    ensures ticks <= Threshold(frequency) <==> ticks * 1000000 <= 100 * frequency
    ensures ticks <= MaxTimeout(frequency) <==> ticks * 1000000 <= 16000 * frequency
  {
  }

  ghost predicate SeenWell(t: Attempt, axis: Axis, k: nat, frequency: U32) {
    Seen(t, axis, k) && InTime(t, k, frequency) && Closely(t, k, frequency)
  }

  /** So many whole microseconds. */
  predicate Reports(time: nat, reported: U32, frequency: U32) {
    reported * frequency <= time * 1000000 < (reported + 1) * frequency
  }

  /**
   * The microseconds reported for an axis are those of the clock reading before the sample that first saw its bit
   * fallen, and so within 100 of when it fell, and one less for cutting off the fraction: all times the frequency.
   */
  ghost predicate Accurate(t: Attempt, axis: Axis, reported: U32, frequency: U32) {
    && (exists k: nat :: SeenWell(t, axis, k, frequency) && Reports(t.elapsed(k), reported, frequency))
    && t.falls(axis) * 1000000 - 101 * frequency < reported * frequency <= t.falls(axis) * 1000000 + 100 * frequency
  }

  lemma {:induction false} MeasuredAccurately(t: Attempt, axis: Axis, time: U32, frequency: U32)
    requires frequency > 0 && InOrder(t)
    requires Measured(t, axis, time, Threshold(frequency), MaxTimeout(frequency))
    ensures Accurate(t, axis, MicroSeconds(time, frequency), frequency)
  {
    WithinThreshold(t, axis, time, Threshold(frequency), MaxTimeout(frequency));
    var k: nat :| TakenAt(t, axis, time, k, Threshold(frequency), MaxTimeout(frequency));
    ClockAdvances(t, k, k + 1);
    NothingTruncated(time, frequency);
    Converted(time, frequency);
    LimitsExactly(t.elapsed(k + 1), frequency);
    LimitsExactly(Gap(t, k), frequency);
    assert SeenWell(t, axis, k, frequency);
    assert Reports(t.elapsed(k), MicroSeconds(time, frequency), frequency);
    Close(time, t.falls(axis), frequency);
    Close(t.falls(axis), time, frequency);
  }

  ghost predicate SeenBadly(t: Attempt, axis: Axis, k: nat, frequency: U32) {
    Seen(t, axis, k) && InTime(t, k, frequency) && !Closely(t, k, frequency)
  }

  /** Every axis is seen to fall in time and closely. */
  ghost predicate Usable(t: Attempt, axes: set<Axis>, frequency: U32) {
    forall axis :: axis in axes ==> exists k: nat :: SeenWell(t, axis, k, frequency)
  }

  /** Some axis is seen to fall in time, but not closely. */
  ghost predicate Retried(t: Attempt, axes: set<Axis>, frequency: U32) {
    exists axis, k: nat :: axis in axes && SeenBadly(t, axis, k, frequency)
  }

  /** The limits in ticks are as good as those in microseconds. */
  lemma {:induction false} UsableExactly(t: Attempt, axes: set<Axis>, frequency: U32)
    ensures Usable(t, axes, frequency) <==> Readable(t, axes, Threshold(frequency), MaxTimeout(frequency))
    ensures Retried(t, axes, frequency) <==> Delayed(t, axes, Threshold(frequency), MaxTimeout(frequency))
  {
    forall axis, k: nat
      ensures SeenWell(t, axis, k, frequency)
         <==> TakenAt(t, axis, t.elapsed(k), k, Threshold(frequency), MaxTimeout(frequency))
      ensures SeenBadly(t, axis, k, frequency)
         <==> SeenLate(t, axis, k, Threshold(frequency), MaxTimeout(frequency))
    {
      LimitsExactly(Gap(t, k), frequency);
      LimitsExactly(t.elapsed(k + 1), frequency);
    }
    UsableReadable(t, axes, frequency);
  }

  lemma {:induction false} UsableReadable(t: Attempt, axes: set<Axis>, frequency: U32)
    requires forall axis, k: nat :: SeenWell(t, axis, k, frequency)
                               <==> TakenAt(t, axis, t.elapsed(k), k, Threshold(frequency), MaxTimeout(frequency))
    ensures Usable(t, axes, frequency) <==> Readable(t, axes, Threshold(frequency), MaxTimeout(frequency))
  {
    forall axis | axis in axes
      ensures (exists k: nat :: SeenWell(t, axis, k, frequency))
         <==> exists time: nat :: Measured(t, axis, time, Threshold(frequency), MaxTimeout(frequency))
    {
      if k: nat :| SeenWell(t, axis, k, frequency) {
        assert TakenAt(t, axis, t.elapsed(k), k, Threshold(frequency), MaxTimeout(frequency));
        assert Measured(t, axis, t.elapsed(k), Threshold(frequency), MaxTimeout(frequency));
      }
      if time: nat :| Measured(t, axis, time, Threshold(frequency), MaxTimeout(frequency)) {
        var k: nat :| TakenAt(t, axis, time, k, Threshold(frequency), MaxTimeout(frequency));
        assert SeenWell(t, axis, k, frequency);
      }
    }
  }

  /** The clock goes on for 16000 microseconds at least, and in no longer leaps than a 32-bit difference can tell. */
  ghost predicate Regular(t: Attempt, frequency: U32) {
    && InOrder(t) && t.elapsed(1) < TWO32
    && (exists k: nat :: t.elapsed(k) * 1000000 > 16000 * frequency)
    && forall k: nat :: t.elapsed(k) * 1000000 <= 16000 * frequency ==> t.elapsed(k + 1) < TWO32
  }

  lemma {:induction false} RegularClock(t: Attempt, frequency: U32)
    requires Regular(t, frequency)
    ensures NoWrap(t, MaxTimeout(frequency)) && Advances(t, MaxTimeout(frequency))
  {
    forall k: nat
      ensures t.elapsed(k) <= MaxTimeout(frequency) <==> t.elapsed(k) * 1000000 <= 16000 * frequency
    {
      LimitsExactly(t.elapsed(k), frequency);
    }
    var k: nat :| t.elapsed(k) * 1000000 > 16000 * frequency;
    assert t.elapsed(k) > MaxTimeout(frequency);
  }

  ghost predicate AllRetried(attempts: nat -> Attempt, axes: set<Axis>, frequency: U32, n: nat) {
    forall j: nat :: j < n ==> Retried(attempts(j), axes, frequency)
  }

  /** The first attempts were all retried and this one can be read. */
  ghost predicate Succeeds(attempts: nat -> Attempt, axes: set<Axis>, frequency: U32, n: nat) {
    Usable(attempts(n), axes, frequency) && AllRetried(attempts, axes, frequency, n)
  }

  /** An attempt is not both read and retried, so there is one first attempt that decides. */
  lemma NotBoth(t: Attempt, axes: set<Axis>, threshold: nat, timeout: nat)
    requires InOrder(t) && Delayed(t, axes, threshold, timeout)
    ensures !Readable(t, axes, threshold, timeout)
  {
    var axis, k: nat :| axis in axes && SeenLate(t, axis, k, threshold, timeout);
    forall time: nat, j: nat
      ensures !TakenAt(t, axis, time, j, threshold, timeout)
    {
      if Seen(t, axis, j) {
        SeenOnce(t, axis, j, k);
      }
    }
  }

  lemma NoneSucceeds(attempts: nat -> Attempt, axes: set<Axis>, frequency: U32, last: nat)
    requires forall n: nat :: Regular(attempts(n), frequency)
    requires AllRetried(attempts, axes, frequency, last)
    requires last == 19
             || (!Usable(attempts(last), axes, frequency) && !Retried(attempts(last), axes, frequency))
    ensures forall n: nat :: n < 19 ==> !Succeeds(attempts, axes, frequency, n)
    ensures !Usable(attempts(0), axes, frequency)
  {
    if Usable(attempts(0), axes, frequency) {
      ReadAtLast(attempts, axes, frequency, 0);
    }
    forall n: nat | n < 19
      ensures !Succeeds(attempts, axes, frequency, n)
    {
      assert Regular(attempts(n), frequency);
      if n < last {
        UsableExactly(attempts(n), axes, frequency);
        NotBoth(attempts(n), axes, Threshold(frequency), MaxTimeout(frequency));
      }
    }
  }

  lemma OneMoreRetried(attempts: nat -> Attempt, axes: set<Axis>, frequency: U32, n: nat)
    requires AllRetried(attempts, axes, frequency, n) && Retried(attempts(n), axes, frequency)
    ensures AllRetried(attempts, axes, frequency, n + 1)
  {
    forall j: nat | j < n + 1
      ensures Retried(attempts(j), axes, frequency)
    {
      assert j < n || j == n;
    }
  }

  lemma ReadAtLast(attempts: nat -> Attempt, axes: set<Axis>, frequency: U32, n: nat)
    requires AllRetried(attempts, axes, frequency, n) && Usable(attempts(n), axes, frequency)
    ensures Succeeds(attempts, axes, frequency, n)
  {
  }

  /** The times of the axes that were measured, in microseconds. */
  method Report(ghost t: Attempt, axes: set<Axis>, times: map<Axis, U32>, frequency: U32)
    returns (reported: map<Axis, U32>)
    requires frequency > 0 && InOrder(t)
    requires forall axis :: axis in axes ==>
               axis in times && Measured(t, axis, times[axis], Threshold(frequency), MaxTimeout(frequency))
    ensures reported.Keys == axes
    ensures forall axis :: axis in axes ==> Accurate(t, axis, reported[axis], frequency)
  {
    reported := map axis | axis in axes :: MicroSeconds(times[axis], frequency);
    forall axis | axis in axes
      ensures Accurate(t, axis, reported[axis], frequency)
    {
      MeasuredAccurately(t, axis, times[axis], frequency);
    }
  }

  /** One attempt, for what the poll makes of it. */
  method TryToRead(t: Attempt, axes: set<Axis>, frequency: U32, before: map<Axis, U32>)
    returns (outcome: Outcome, times: map<Axis, U32>, reported: map<Axis, U32>)
    requires frequency > 0 && Regular(t, frequency)
    ensures outcome.Done? <==> Usable(t, axes, frequency)
    ensures outcome.Redo? <==> Retried(t, axes, frequency)
    ensures outcome.Done? ==> AllReported(t, axes, reported, frequency)
  {
    RegularClock(t, frequency);
    UsableExactly(t, axes, frequency);
    outcome, times := TryOnce(t, axes, Threshold(frequency), MaxTimeout(frequency), before);
    reported := map[];
    if outcome.Done? {
      reported := Report(t, axes, times, frequency);
    }
  }

  /** Every axis has a time, and it is accurate. */
  ghost predicate AllReported(t: Attempt, axes: set<Axis>, reported: map<Axis, U32>, frequency: U32)
    requires frequency > 0
  {
    reported.Keys == axes && forall axis :: axis in axes ==> Accurate(t, axis, reported[axis], frequency)
  }

  /**
   * AnajoystAnalogPoll from its loops on. It succeeds exactly when one of the first 19 attempts can be read
   * after the ones before it were delayed, and then every axis is within the resolution in that attempt.
   */
  method AnalogPoll(attempts: nat -> Attempt, axes: set<Axis>, frequency: U32)
    returns (ok: bool, reported: map<Axis, U32>, ghost last: nat)
    requires frequency > 0 && forall n: nat :: Regular(attempts(n), frequency)
    ensures ok ==> last < 19 && Succeeds(attempts, axes, frequency, last)
    ensures ok ==> AllReported(attempts(last), axes, reported, frequency)
    ensures !ok ==> forall n: nat :: n < 19 ==> !Succeeds(attempts, axes, frequency, n)
    ensures Usable(attempts(0), axes, frequency) ==> ok
  {
    var maxRedos := 20;
    var times: map<Axis, U32> := map[];
    last := 0;
    while maxRedos > 1
      invariant 1 <= maxRedos <= 20 && last == 20 - maxRedos
      invariant AllRetried(attempts, axes, frequency, last)
    {
      var outcome;
      outcome, times, reported := TryToRead(attempts(20 - maxRedos), axes, frequency, times);
      if outcome.Done? {
        ReadAtLast(attempts, axes, frequency, last);
        return true, reported, last;
      }
      if outcome.TimedOut? {
        NoneSucceeds(attempts, axes, frequency, last);
        return false, map[], last;
      }
      OneMoreRetried(attempts, axes, frequency, last);
      maxRedos := maxRedos - 1;
      last := last + 1;
    }
    NoneSucceeds(attempts, axes, frequency, last);
    return false, map[], last;
  }
}
