/** The guard that keeps a device driver from reporting control changes too often (bio/bdl/bdl.c, bdliControlChange). */
module RateLimit {
  import opened Base

  const SECOND: nat := 10000000

  /** NumCalls and StartTime; times are tick counts, and one tick lasts `increment` units of 100 ns. */
  datatype Limiter = Limiter(numCalls: nat, start: int)

  /** The seconds since the window started, as the source computes them: the difference is negative, and ULONG. */
  function TimeInSec(start: int, now: int, increment: nat): U32 {
    Wrap32(TruncDiv((start - now) * increment, SECOND))
  }

  predicate Admits(l: Limiter, now: int, increment: nat) {
    l.numCalls <= 8 || TimeInSec(l.start, now, increment) != 0
  }

  function Charge(l: Limiter, now: int, increment: nat): Limiter {
    if l.numCalls <= 8 then l.(numCalls := l.numCalls + 1)
    else if TimeInSec(l.start, now, increment) != 0 then Limiter(1, now)
    else l
  }

  /**
   * A call is refused exactly when nine were admitted in the window and the window is less than a second
   * old, or has the age of a whole multiple of 2^32 seconds. The wrong order of the subtraction is harmless.
   */
  lemma {:induction false} RefusedExactly(l: Limiter, now: int, increment: nat)
    requires l.start <= now
    ensures !Admits(l, now, increment) <==> l.numCalls > 8 && ((now - l.start) * increment / SECOND) % TWO32 == 0
  {
    var elapsed := (now - l.start) * increment;
    assert (l.start - now) * increment == -elapsed;
    assert elapsed >= 0;
    assert TruncDiv(-elapsed, SECOND) == -(elapsed / SECOND);
    NegatedMultiple(elapsed / SECOND);
  }

  /** With one tick a second: 2^32 seconds after nine calls the next one is refused. */
  lemma RefusedAfterAges()
    ensures !Admits(Limiter(9, 0), TWO32, SECOND) && Admits(Limiter(9, 0), TWO32 - 1, SECOND)
  {
    RefusedExactly(Limiter(9, 0), TWO32, SECOND);
    RefusedExactly(Limiter(9, 0), TWO32 - 1, SECOND);
  }

  lemma NegatedMultiple(x: int)
    ensures (-x) % TWO32 == 0 <==> x % TWO32 == 0
  {
  }

  /** The calls admitted and the window left by calls at the given times. */
  function ChargeAll(l: Limiter, times: seq<int>, increment: nat): (r: (nat, Limiter)) {
    if times == [] then (0, l)
    else
      var (admitted, before) := ChargeAll(l, times[..|times| - 1], increment);
      var now := times[|times| - 1];
      (admitted + if Admits(before, now, increment) then 1 else 0, Charge(before, now, increment))
  }

  ghost predicate Ascending(times: seq<int>, from: int) {
    && (forall i :: 0 <= i < |times| ==> from <= times[i])
    && (forall i, j :: 0 <= i < j < |times| ==> times[i] <= times[j])
  }

  /** On average: from start-up on at most nine calls are admitted, and nine more for every second that has passed. */
  lemma {:induction false} NineMoreEachSecond(start: int, times: seq<int>, increment: nat)
    requires Ascending(times, start)
    ensures var (admitted, l) := ChargeAll(Limiter(0, start), times, increment);
            && l.numCalls <= 9 && start <= l.start && (times != [] ==> l.start <= times[|times| - 1])
            && admitted <= l.numCalls + 9 * ((l.start - start) * increment / SECOND)
    ensures times != []
        ==> ChargeAll(Limiter(0, start), times, increment).0
            <= 9 + 9 * ((times[|times| - 1] - start) * increment / SECOND)
  {
    if times != [] {
      var n := |times| - 1;
      NineMoreEachSecond(start, times[..n], increment);
      var (_, before) := ChargeAll(Limiter(0, start), times[..n], increment);
      assert before.start <= times[n] by {
        if n > 0 {
          assert times[n - 1] == times[..n][n - 1];
        }
      }
      NextWindow(start, before.start, times[n], increment);
      NextWindow(start, Charge(before, times[n], increment).start, times[n], increment);
    }
  }

  /** How the window moves within less than a second: at most once. */
  predicate MovedOnce(l: Limiter, first: int, admitted: nat, l': Limiter) {
    || (l'.start == l.start && l'.numCalls == l.numCalls + admitted && l'.numCalls <= 9)
    || (first <= l'.start && l'.numCalls <= 9 && l.numCalls + admitted == 9 + l'.numCalls)
  }

  lemma {:induction false} MovesOnce(l: Limiter, times: seq<int>, increment: nat)
    requires l.numCalls <= 9 && Ascending(times, l.start) && times != []
    requires (times[|times| - 1] - times[0]) * increment < SECOND
    ensures var (admitted, l') := ChargeAll(l, times, increment);
            MovedOnce(l, times[0], admitted, l') && l'.start <= times[|times| - 1]
  {
    var n, now := |times| - 1, times[|times| - 1];
    if n == 0 {
      assert ChargeAll(l, times[..n], increment) == (0, l);
    } else {
      MulMonotone(times[n - 1] - times[0], now - times[0], increment);
      assert times[..n][n - 1] == times[n - 1];
      MovesOnce(l, times[..n], increment);
      var (_, before) := ChargeAll(l, times[..n], increment);
      if times[0] <= before.start {
        MulMonotone(now - before.start, now - times[0], increment);
        TooSoon(before.start, now, increment);
      }
    }
  }

  lemma {:induction false} TooSoon(start: int, now: int, increment: nat)
    requires start <= now && (now - start) * increment < SECOND
    ensures TimeInSec(start, now, increment) == 0
  {
    assert (start - now) * increment == -((now - start) * increment);
  }

  /** In less than a second at most 18 calls are admitted, one less for every call already counted. */
  lemma {:induction false} AtMostEighteenInASecond(l: Limiter, times: seq<int>, increment: nat)
    requires l.numCalls <= 9 && Ascending(times, l.start)
    requires times != [] ==> (times[|times| - 1] - times[0]) * increment < SECOND
    ensures ChargeAll(l, times, increment).0 <= 18 - l.numCalls
  {
    if times != [] {
      MovesOnce(l, times, increment);
    }
  }

  function Repeat(now: int, n: nat): (s: seq<int>)
    ensures |s| == n && forall i :: 0 <= i < n ==> s[i] == now
  {
    if n == 0 then [] else Repeat(now, n - 1) + [now]
  }

  lemma ChargeNext(l: Limiter, times: seq<int>, now: int, increment: nat, admitted: nat, before: Limiter)
    requires ChargeAll(l, times, increment) == (admitted, before)
    ensures ChargeAll(l, times + [now], increment)
         == (admitted + if Admits(before, now, increment) then 1 else 0, Charge(before, now, increment))
  {
    assert (times + [now])[..|times|] == times;
  }

  /** That many can come in a single tick, once the window is a second old. */
  lemma {:induction false} EighteenInOneTick(l: Limiter, now: int, increment: nat, n: nat)
    requires l.numCalls <= 9 && l.numCalls + n <= 18 && TimeInSec(l.start, now, increment) != 0
    ensures ChargeAll(l, Repeat(now, n), increment) == (n, Burst(l, now, n))
  {
    if n > 0 {
      EighteenInOneTick(l, now, increment, n - 1);
      ChargeNext(l, Repeat(now, n - 1), now, increment, n - 1, Burst(l, now, n - 1));
    }
  }

  function Burst(l: Limiter, now: int, n: nat): Limiter {
    if l.numCalls + n <= 9 then l.(numCalls := l.numCalls + n) else Limiter(l.numCalls + n - 9, now)
  }

  /** A new window opens at least a second after the last one. */
  lemma {:induction false} NextWindow(first: int, start: int, now: int, increment: nat)
    requires first <= start <= now
    ensures (start - first) * increment / SECOND <= (now - first) * increment / SECOND
    ensures TimeInSec(start, now, increment) != 0 ==>
            (start - first) * increment / SECOND + 1 <= (now - first) * increment / SECOND
  {
    var a, b := (start - first) * increment, (now - start) * increment;
    assert (now - first) * increment == a + b;
    assert (start - now) * increment == -b;
    assert b >= 0 && a >= 0;
    assert TimeInSec(start, now, increment) != 0 ==> b >= SECOND;
  }
}
