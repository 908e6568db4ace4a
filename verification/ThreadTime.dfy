/**
 * The elapsed thread time both watchdogs compute from two readings of a thread's
 * 32-bit kernel and user tick counters (watchdog/dwd.c, watchdog/watchdog.c).
 */
module ThreadTime {
  import opened Base

  datatype TimeType = KernelTime | UserTime | FullTime

  /** One call of KeQueryRuntimeThread. */
  datatype Reading = Reading(kernel: U32, user: U32)

  /** How far a 32-bit counter really moved, given that it moved by less than 2^32. */
  function Moved(last: U32, now: U32): (d: U32) {
    Wrap32(now - last)
  }

  /** The thread time that really passed between two readings, for the monitored kind of time. */
  function TrueTime(tt: TimeType, last: Reading, now: Reading): nat {
    match tt
    case KernelTime => Moved(last.kernel, now.kernel)
    case UserTime => Moved(last.user, now.user)
    case FullTime => Moved(last.kernel, now.kernel) + Moved(last.user, now.user)
  }

  /** What the rollover branch of one counter loses: it subtracts the old value a second time. */
  function Lost(last: U32, now: U32): nat {
    if now < last then last else 0
  }

  /** What a full-time measurement is off by because each sum of two counters is taken in 32 bits. */
  function SumError(last: Reading, now: Reading): int {
    (if last.kernel + last.user >= TWO32 then TWO32 else 0)
    - (if now.kernel + now.user >= TWO32 then TWO32 else 0)
  }

  /** The 64-bit value the driver ends up with. */
  function Measured(tt: TimeType, last: Reading, now: Reading): int {
    match tt
    case KernelTime => Moved(last.kernel, now.kernel) - Lost(last.kernel, now.kernel)
    case UserTime => Moved(last.user, now.user) - Lost(last.user, now.user)
    case FullTime =>
      TrueTime(FullTime, last, now) + SumError(last, now)
      - Lost(last.kernel, now.kernel) - Lost(last.user, now.user)
  }

  lemma {:induction false} MovedCases(last: U32, now: U32)
    ensures Moved(last, now) == if last <= now then now - last else now - last + TWO32
    ensures now < last ==> Wrap32(Wrap32(-1) - last + 1) == TWO32 - last
  {
    assert Wrap32(-1) == TWO32 - 1;
  }

  lemma SumCases(a: U32, b: U32)
    ensures Wrap32(a + b) == if a + b < TWO32 then a + b else a + b - TWO32
  {
  }

  /** The measuring switch of both timer callbacks, statement by statement. */
  method MeasureThreadTime(tt: TimeType, last: Reading, now: Reading) returns (threadTime: int)
    ensures threadTime == Measured(tt, last, now)
  {
    MovedCases(last.kernel, now.kernel);
    MovedCases(last.user, now.user);
    SumCases(last.kernel, last.user);
    SumCases(now.kernel, now.user);
    match tt {
      case KernelTime =>
        threadTime := now.kernel;
        if now.kernel < last.kernel {
          threadTime := threadTime + Wrap32(Wrap32(-1) - last.kernel + 1);
        }
        threadTime := threadTime - last.kernel;
      case UserTime =>
        threadTime := now.user;
        if now.user < last.user {
          threadTime := threadTime + Wrap32(Wrap32(-1) - last.user + 1);
        }
        threadTime := threadTime - last.user;
      case FullTime =>
        threadTime := Wrap32(now.kernel + now.user);
        if now.kernel < last.kernel {
          threadTime := threadTime + Wrap32(Wrap32(-1) - last.kernel + 1);
        }
        if now.user < last.user {
          threadTime := threadTime + Wrap32(Wrap32(-1) - last.user + 1);
        }
        threadTime := threadTime - Wrap32(last.kernel + last.user);
    }
  }

  /** The counters of a thread move freely and wrap: what the driver reads of true counts. */
  function Read(kernel: nat, user: nat): Reading {
    Reading(Wrap32(kernel), Wrap32(user))
  }

  /**
   * For kernel or user time: exact without a rollover, strictly short with one, for true
   * counts that are less than 2^32 apart. So the measurement alone never ends a wait early.
   */
  lemma {:induction false} SingleCounterNeverEarly(tt: TimeType, k0: nat, u0: nat, k1: nat, u1: nat)
    requires tt != FullTime
    requires k0 <= k1 < k0 + TWO32 && u0 <= u1 < u0 + TWO32
    ensures TrueTime(tt, Read(k0, u0), Read(k1, u1)) == (if tt == KernelTime then k1 - k0 else u1 - u0)
    ensures Measured(tt, Read(k0, u0), Read(k1, u1)) <= TrueTime(tt, Read(k0, u0), Read(k1, u1))
    ensures Measured(tt, Read(k0, u0), Read(k1, u1)) == TrueTime(tt, Read(k0, u0), Read(k1, u1))
            <==> (if tt == KernelTime then k0 / TWO32 == k1 / TWO32 else u0 / TWO32 == u1 / TWO32)
    ensures Measured(tt, Read(k0, u0), Read(k1, u1))
         == if tt == KernelTime then k1 - k0 - RolledOver(k0, k1) else u1 - u0 - RolledOver(u0, u1)
  {
    MovedIsDistance(k0, k1);
    MovedIsDistance(u0, u1);
  }

  /** What a rollover between two true counts costs: the old reading. */
  function RolledOver(a: nat, b: nat): nat {
    if a / 0x1_0000_0000 == b / 0x1_0000_0000 then 0 else a % 0x1_0000_0000
  }

  /** Full time in true counts: each rollover costs the old reading, and each 32-bit sum loses its carry. */
  lemma {:induction false} FullTimeMeasures(k0: nat, u0: nat, k1: nat, u1: nat)
    requires k0 <= k1 < k0 + TWO32 && u0 <= u1 < u0 + TWO32
    ensures Measured(FullTime, Read(k0, u0), Read(k1, u1))
         == (k1 - k0) + (u1 - u0) - RolledOver(k0, k1) - RolledOver(u0, u1) + Carry(k0, u0) - Carry(k1, u1)
  {
    MovedIsDistance(k0, k1);
    MovedIsDistance(u0, u1);
  }

  /** The carry of the sum of two readings, as a number of ticks. */
  function Carry(k: nat, u: nat): nat {
    if k % 0x1_0000_0000 + u % 0x1_0000_0000 >= 0x1_0000_0000 then 0x1_0000_0000 else 0
  }

  lemma MovedIsDistance(a: nat, b: nat)
    requires a <= b < a + TWO32
    ensures Moved(Wrap32(a), Wrap32(b)) == b - a
    ensures Wrap32(b) < Wrap32(a) <==> a / TWO32 != b / TWO32
  {
  }

  /**
   * Full time is exact when neither counter rolled over and both sums stay below 2^32, and
   * exactly one family of readings makes it run ahead of the true time: the old sum
   * overflowed 32 bits, the new one did not, and the rolled-over counters lose less than 2^32.
   */
  lemma FullTimeEarlyExactly(last: Reading, now: Reading)
    ensures last.kernel <= now.kernel && last.user <= now.user && now.kernel + now.user < TWO32
            ==> Measured(FullTime, last, now) == (now.kernel - last.kernel) + (now.user - last.user)
    ensures Measured(FullTime, last, now) > TrueTime(FullTime, last, now)
            <==> && last.kernel + last.user >= TWO32 > now.kernel + now.user
                 && Lost(last.kernel, now.kernel) + Lost(last.user, now.user) < TWO32
  {
  }

  /** The family is not empty: 2^31 ticks of thread time measured as 2^32. */
  lemma FullTimeCanBeEarly()
    ensures var last, now := Reading(0x8000_0000, 0x8000_0000), Reading(0, 0x8000_0000);
            TrueTime(FullTime, last, now) == 0x8000_0000 && Measured(FullTime, last, now) == TWO32
  {
  }

  /** Scaling a measurement to 100ns units stays inside a signed 64-bit integer. */
  lemma {:induction false} ScalingFits(tt: TimeType, last: Reading, now: Reading, timeIncrement: nat)
    requires timeIncrement < 0x4000_0000
    ensures -0x2_0000_0000 < Measured(tt, last, now) < 0x2_0000_0000
    ensures -0x8000_0000_0000_0000 < Measured(tt, last, now) * timeIncrement < 0x8000_0000_0000_0000
  {
    var t := Measured(tt, last, now);
    assert -0x2_0000_0000 < t < 0x2_0000_0000;
    ScaleBound(t, timeIncrement);
  }

  lemma {:induction false} ScaleBound(t: int, inc: nat)
    requires -0x2_0000_0000 < t < 0x2_0000_0000 && inc < 0x4000_0000
    ensures -0x2_0000_0000 * 0x4000_0000 < t * inc < 0x2_0000_0000 * 0x4000_0000
  {
    MulMonotone(t, 0x2_0000_0000 - 1, inc);
    MulMonotone(-0x2_0000_0000 + 1, t, inc);
  }
}
