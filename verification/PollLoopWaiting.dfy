/**
 * When a Stop that waits for the poll event can be finished (dot4/dot4usb/usb.c). One event serves every loop of a
 * device, and a start clears it; so a Stop can be left waiting for an event that its own IRP will never set.
 */
module PollLoopWaiting {
  import opened Base
  import opened PollLoopSpec
  import opened PollLoopSafety
  import opened Runs

  /** The call that starts a loop was refused without the IRP being completed. */
  ghost predicate InLimbo(p: Poll) {
    p.interruptContext.Some? && p.outstanding == {}
  }

  /** The event that a Stop waits for was taken back, and no completion is to come that would set it. */
  ghost predicate Stranded(p: Poll) {
    p.waiting != [] && p.interruptContext.None? && !p.pollIrpEvent
  }

  /** The event was taken back, and the only IRP below belongs to a loop that no Stop has taken. */
  ghost predicate Dependent(p: Poll) {
    p.waiting != [] && !p.pollIrpEvent && p.outstanding != {} && !Unreturned(p)
  }

  /** If a Stop waits, the event is set, or an IRP that a Stop waits for is below and sets it once it comes back. */
  ghost predicate Finishable(p: Poll) {
    p.waiting != [] ==> p.pollIrpEvent || Unreturned(p)
  }

  /** A Stop that waits can be finished as soon as its IRP comes back once more after it was cancelled. */
  lemma CancelStops(p: Poll, irp: nat, succeeded: bool, rest: Outcome, k: nat)
    requires Sound(p) && k < |p.waiting| && irp in p.cancelled && Enabled(p, Completes(irp, succeeded, rest))
    ensures Enabled(Step(p, Completes(irp, succeeded, rest)), Finishes(k))
  {
    CompletesSound(p, irp, succeeded, rest);
    CompleteSettles(p.(outstanding := p.outstanding - {irp}), irp, succeeded, rest);
  }

  /** A Stop cannot be finished exactly in three kinds of state. */
  lemma WaitingProgress(p: Poll)
    requires Sound(p) && p.waiting != []
    ensures !Finishable(p) <==> InLimbo(p) || Stranded(p) || Dependent(p)
    ensures !(InLimbo(p) && Stranded(p)) && !(InLimbo(p) && Dependent(p)) && !(Stranded(p) && Dependent(p))
    ensures Dependent(p) ==> p.pollIrp.Some? && p.outstanding == {p.pollIrp.value}
  {
    if p.outstanding != {} {
      var irp :| irp in p.outstanding;
      assert irp in OwnedIrps(p);
      assert p.outstanding == {irp};
    }
  }

  /**
   * The event is taken back from a Stop that waits: by a start that meets a remove, that leaves its own IRP below,
   * or that is refused; or a Stop takes an IRP that is in limbo.
   */
  ghost predicate Stalls(p: Poll, e: Event) {
    match e
    case Starts(BeingRemoved) => p.waiting != [] && p.pollIrpEvent
    case Starts(Started(outcome)) =>
      p.waiting != [] && (EndsBelow(outcome) || (outcome.Refuses? && !Unreturned(p)))
    case PnpStops => p.pollIrp.Some? && InLimbo(p)
    case Disconnects => p.pollIrp.Some? && InLimbo(p)
    case _ => false
  }

  lemma FinishableExactly(p: Poll, e: Event)
    requires Sound(p) && Finishable(p) && Careful(p, e)
    ensures Finishable(Step(p, e)) <==> !Stalls(p, e)
  {
    match e
    case Starts(attempt) =>
      if attempt.Started? {
        StartFinishable(p, attempt.outcome);
      }
    case PnpStops => TakeFinishable(p);
    case Disconnects => TakeFinishable(p);
    case Finishes(k) => FinishSound(p, k);
    case Completes(irp, succeeded, rest) => CompletesFinishable(p, irp, succeeded, rest);
    case _ =>
  }

  lemma StartFinishable(p: Poll, outcome: Outcome)
    requires Sound(p) && Finishable(p) && Careful(p, Starts(Started(outcome)))
    ensures Finishable(Step(p, Starts(Started(outcome)))) <==> !Stalls(p, Starts(Started(outcome)))
  {
    StartStep(p, Started(outcome));
    StartedSound(p, outcome);
    LaunchSound(p);
    NoneBelow(p);
  }

  lemma TakeFinishable(p: Poll)
    requires Sound(p) && Finishable(p)
    ensures Finishable(Take(p)) <==> !(p.pollIrp.Some? && InLimbo(p))
  {
    var q := Take(p);
    if p.pollIrp.Some? {
      assert q.waiting[|p.waiting|] == p.pollIrp.value;
      if Unreturned(p) {
        var k :| 0 <= k < |p.waiting| && p.waiting[k] in p.outstanding;
        assert q.waiting[k] in q.outstanding;
      }
    }
  }

  lemma CompletesFinishable(p: Poll, irp: nat, succeeded: bool, rest: Outcome)
    requires Sound(p) && Finishable(p) && irp in p.outstanding
    ensures Finishable(Step(p, Completes(irp, succeeded, rest)))
  {
    CompletesSound(p, irp, succeeded, rest);
  }

  /** Whoever waits can be finished throughout exactly the careful runs without such a step. */
  lemma {:induction false} FinishableThroughoutExactly(run: seq<Event>)
    requires Legal(CarefulOrder, run)
    ensures Throughout(CarefulOrder, Finishable, run) <==> Never(CarefulOrder, Stalls, run)
  {
    assert OwnedIrps(INITIAL) == {};
    SoundInductive(INITIAL);
    forall p, e | Sound(p) && Finishable(p) && CarefulOrder.enabled(p, e)
      ensures Finishable(CarefulOrder.step(p, e)) <==> !Stalls(p, e)
    {
      FinishableExactly(p, e);
    }
    ThroughoutExactly(CarefulOrder, Sound, Finishable, Stalls, run);
  }

  /**
   * What ends a dependence on another loop: a Stop of that loop, or a completion that takes its IRP out. Nothing
   * that the waiting Stop does is among them, however often it cancels its own IRP.
   */
  lemma DependentLasts(p: Poll, e: Event)
    requires Sound(p) && Dependent(p) && Careful(p, e)
    ensures Dependent(Step(p, e))
       <==> !e.PnpStops? && !e.Disconnects? && (e.Completes? ==> Reuses(p, e.irp, e.succeeded, e.rest))
  {
    WaitingProgress(p);
    match e
    case PnpStops => assert Take(p).waiting[|p.waiting|] in p.outstanding;
    case Disconnects => assert Take(p).waiting[|p.waiting|] in p.outstanding;
    case Completes(irp, succeeded, rest) => CompletesSound(p, irp, succeeded, rest);
    case _ =>
  }

  /** A loop gets into limbo exactly when the call that starts it is refused and no other IRP is below. */
  lemma LimboExactly(p: Poll, e: Event)
    requires Sound(p) && Careful(p, e) && !InLimbo(p)
    ensures InLimbo(Step(p, e))
        <==> e.Starts? && e.attempt.Started? && e.attempt.outcome.Refuses? && p.outstanding == {}
  {
    match e
    case Starts(attempt) =>
      if attempt.Started? {
        StartStep(p, attempt);
        StartedSound(p, attempt.outcome);
      }
    case Completes(irp, succeeded, rest) => CompletesSound(p, irp, succeeded, rest);
    case _ =>
  }

  /** And only launching another loop gets it out: no other step satisfies the wait of a Stop that took it. */
  lemma LimboLasts(p: Poll, e: Event)
    requires Sound(p) && InLimbo(p) && Careful(p, e)
    ensures InLimbo(Step(p, e)) <==> !Launches(e)
    ensures InLimbo(Step(p, e)) ==> !Step(p, e).pollIrpEvent
  {
    if e.Starts? && e.attempt.Started? {
      StartStep(p, e.attempt);
      StartedSound(p, e.attempt.outcome);
    }
  }

  /** A waiting Stop is stranded exactly by a start that clears the event and then finds the device being removed. */
  lemma StrandedExactly(p: Poll, e: Event)
    requires Sound(p) && Careful(p, e) && p.waiting != [] && !Stranded(p)
    ensures Stranded(Step(p, e)) <==> e == Starts(BeingRemoved) && p.pollIrpEvent
  {
    match e
    case Starts(attempt) =>
      if attempt.Started? {
        StartStep(p, attempt);
        StartedSound(p, attempt.outcome);
      }
    case Completes(irp, succeeded, rest) => CompletesSound(p, irp, succeeded, rest);
    case _ =>
  }

  /** And only a start that gets to the first call ends that: until then no step satisfies the wait. */
  lemma StrandedLasts(p: Poll, e: Event)
    requires Sound(p) && Stranded(p) && Careful(p, e)
    ensures Stranded(Step(p, e)) <==> !(e.Starts? && e.attempt.Started?)
  {
    if e.Starts? && e.attempt.Started? {
      StartStep(p, e.attempt);
      StartedSound(p, e.attempt.outcome);
    }
  }

  // ---- All of this happens

  lemma Next(p: Poll, e: Event, q: Poll)
    requires Reachable(CarefulOrder, p) && Careful(p, e) && Step(p, e) == q
    ensures Reachable(CarefulOrder, q)
  {
    StepReachable(CarefulOrder, p, e);
  }

  /** The first loop: its first call keeps or refuses IRP 3. */
  lemma FirstLoop(outcome: Outcome) returns (p: Poll)
    requires outcome.Pends? || outcome.Refuses?
    ensures Reachable(CarefulOrder, p)
    ensures p == Poll(Some(3), Some(Trio(0, 1, 2)), false, true, true, Ready, [], 4, {0, 1, 2, 3},
                      if outcome.Pends? then {3} else {}, {}, 1, false, false)
  {
    InitReachable(CarefulOrder);
    var p1 := INITIAL.(connected := true);
    Next(INITIAL, Connects, p1);
    var p2 := p1.(dot4Event := true, ioctl := Starting);
    Next(p1, Signals(true, true), p2);
    p := Poll(Some(3), Some(Trio(0, 1, 2)), false, true, true, Ready, [], 4, {0, 1, 2, 3},
              if outcome.Pends? then {3} else {}, {}, 1, false, false);
    Next(p2, Starts(Started(outcome)), p);
  }

  /** After a PnP request's Stop took the IRP, dot4 may disconnect, connect and signal while that Stop still waits. */
  lemma Reconnected(p: Poll) returns (q: Poll)
    requires Reachable(CarefulOrder, p) && p.pollIrp.None? && p.ioctl.Ready?
    ensures Reachable(CarefulOrder, q)
    ensures q == p.(connected := true, dot4Event := true, ioctl := Starting)
  {
    var p0 := Disconnected(p);
    var p1 := p0.(connected := true);
    Next(p0, Connects, p1);
    q := p.(connected := true, dot4Event := true, ioctl := Starting);
    Next(p1, Signals(true, true), q);
  }

  lemma Disconnected(p: Poll) returns (q: Poll)
    requires Reachable(CarefulOrder, p) && p.pollIrp.None? && p.ioctl.Ready?
    ensures Reachable(CarefulOrder, q)
    ensures q == p.(dot4Event := false, connected := false)
  {
    var p1 := p.(ioctl := Clearing);
    Next(p, Disconnects, p1);
    q := p.(dot4Event := false, connected := false);
    Next(p1, Clears, q);
  }

  lemma TakenByPnp(outcome: Outcome) returns (p: Poll)
    requires outcome.Pends? || outcome.Refuses?
    ensures Reachable(CarefulOrder, p)
    ensures p == Poll(None, Some(Trio(0, 1, 2)), false, true, true, Ready, [3], 4, {0, 1, 2, 3},
                      if outcome.Pends? then {3} else {}, {}, 1, false, false)
  {
    var p0 := FirstLoop(outcome);
    p := p0.(pollIrp := None, waiting := [3]);
    Next(p0, PnpStops, p);
  }

  /** A harmful start is reached by harmless steps, and from there an IRP in use is freed. */
  lemma HarmfulStartHappens()
    ensures exists p :: Reachable(CarefulOrder, p) && Enabled(p, Starts(Started(Pends)))
                        && CanFault(Step(p, Starts(Started(Pends))))
  {
    var p0 := TakenByPnp(Pends);
    var p := Reconnected(p0);
    ReachableSound(p);
    assert p.waiting[0] in p.outstanding;
    StartFaultsExactly(p, Started(Pends));
  }

  lemma ReachableSound(p: Poll)
    requires Reachable(CarefulOrder, p)
    ensures Sound(p)
  {
    var run :| Legal(CarefulOrder, run) && After(CarefulOrder, run) == p;
    RunSound(run);
  }

  /** A second start leaks the buffers of a loop in limbo. */
  lemma LeakHappens()
    ensures exists p :: Reachable(CarefulOrder, p) && Careful(p, Starts(Started(Pends)))
                        && Forgotten(p, Starts(Started(Pends))) == {0, 1, 2}
  {
    var p0 := TakenByPnp(Refuses);
    var p := Reconnected(p0);
    assert Forgotten(p, Starts(Started(Pends))) == {0, 1, 2};
  }

  /** The IRP of the first loop has come back, and its Stop has not noticed yet. */
  lemma Parked() returns (p: Poll)
    ensures Reachable(CarefulOrder, p)
    ensures p == Poll(None, None, true, true, true, Ready, [3], 4, {3}, {}, {}, 1, false, false)
  {
    var p0 := TakenByPnp(Pends);
    p := p0.(interruptContext := None, live := {3}, pollIrpEvent := true, outstanding := {});
    Next(p0, Completes(3, false, Pends), p);
  }

  /** A second start that finds the device being removed strands the Stop of the first loop. */
  lemma StrandingHappens()
    ensures exists p :: Reachable(CarefulOrder, p) && Careful(p, Starts(BeingRemoved))
                        && p.waiting != [] && p.pollIrpEvent
  {
    var p0 := Parked();
    var p := Reconnected(p0);
    assert Careful(p, Starts(BeingRemoved));
  }

  /** A second start that succeeds leaves the Stop of the first loop waiting for the second loop. */
  lemma DependenceHappens()
    ensures exists p :: Reachable(CarefulOrder, p) && Dependent(p) && p.waiting == [3] && p.outstanding == {7}
  {
    var p0 := Parked();
    var p := Reconnected(p0);
    var q := Launched(p).(outstanding := {7}, ioctl := Ready);
    Next(p, Starts(Started(Pends)), q);
    assert Dependent(q);
  }
}
