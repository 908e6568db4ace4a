/**
 * The poll IRP and its buffers are freed once each, by their owners, and never used after that: in every order
 * of steps exactly as long as no loop is launched while an IRP that a Stop waits for is at the driver below.
 */
module PollLoopSafety {
  import opened Base
  import opened PollLoopSpec
  import opened Runs

  /** The IRPs of the device extension and of the calls of Stop that wait. */
  ghost function OwnedIrps(p: Poll): set<nat> {
    (set i | i in p.waiting) + if p.pollIrp.Some? then {p.pollIrp.value} else {}
  }

  function Blocks(t: Trio): set<nat> {
    {t.urb, t.context, t.scratch}
  }

  /** The buffers that the completion routine can find. */
  function HeldBlocks(p: Poll): set<nat> {
    if p.interruptContext.Some? then Blocks(p.interruptContext.value) else {}
  }

  ghost predicate Intact(p: Poll, t: Trio) {
    && t.urb != t.context && t.urb != t.scratch && t.context != t.scratch
    && Blocks(t) <= p.live && Blocks(t) !! OwnedIrps(p)
  }

  /** Blocks that are allocated although nobody knows them any more. */
  ghost function Leaked(p: Poll): set<nat> {
    p.live - OwnedIrps(p) - HeldBlocks(p)
  }

  /** Where IRPs and buffers are: at most one IRP is below, with its buffers; an event that is set means none is. */
  ghost predicate Placed(p: Poll) {
    && OwnedIrps(p) <= p.live
    && p.outstanding <= OwnedIrps(p)
    && (forall i, j :: i in p.outstanding && j in p.outstanding ==> i == j)
    && (p.interruptContext.None? ==> p.outstanding == {} && (p.pollIrp.Some? ==> p.pollIrpEvent))
    && (p.interruptContext.Some? ==> Intact(p, p.interruptContext.value) && !p.pollIrpEvent && OwnedIrps(p) != {})
  }

  /** What the callers know: each IRP has one owner, and a loop in the device extension has an event and no IOCTL. */
  ghost predicate Orderly(p: Poll) {
    && Distinct(p.waiting)
    && p.lockRefs == |p.waiting| + (if p.pollIrp.Some? then 1 else 0)
    && (p.pollIrp.Some? ==> p.pollIrp.value !in p.waiting && p.dot4Event && p.ioctl.Ready?)
    && (p.ioctl.Starting? ==> p.pollIrp.None? && p.dot4Event)
    && (p.ioctl.Stopping? ==> p.ioctl.irp in p.waiting)
  }

  ghost predicate Allocated(p: Poll) {
    && (forall b :: b in p.live ==> b < p.next)
    && (forall irp :: irp in p.cancelled ==> irp < p.next)
  }

  ghost predicate Sound(p: Poll) {
    !p.fault && !p.assertFailed && Placed(p) && Orderly(p) && Allocated(p)
  }

  /** Nothing but the whereabouts of one IRP and its buffers differs. */
  ghost predicate SameCallers(p: Poll, q: Poll) {
    && q.pollIrp == p.pollIrp && q.waiting == p.waiting && q.ioctl == p.ioctl && q.connected == p.connected
    && q.dot4Event == p.dot4Event && q.lockRefs == p.lockRefs && q.next == p.next
    && q.fault == p.fault && q.assertFailed == p.assertFailed
  }

  // ---- What a fault is

  /** The three blocks are allocated, and they are three. */
  predicate ThreeLive(p: Poll, t: Trio) {
    {t.urb, t.context, t.scratch} <= p.live && t.urb != t.context && t.urb != t.scratch && t.context != t.scratch
  }

  /** Taking buffers away is a fault exactly if one of them is not allocated any more. */
  lemma CleanUpFaultsExactly(p: Poll, t: Trio)
    ensures CleanUp(p, t).fault <==> p.fault || !ThreeLive(p, t)
  {
  }

  /** Finishing a Stop is a fault exactly if its IRP is at the driver below, or was freed. */
  lemma FinishFaultsExactly(p: Poll, k: nat)
    requires k < |p.waiting|
    ensures Finish(p, k).fault <==> p.fault || p.waiting[k] in p.outstanding || p.waiting[k] !in p.live
  {
  }

  /** So is cancelling one that was freed. */
  lemma CancelFaultsExactly(p: Poll, k: nat)
    requires k < |p.waiting|
    ensures Step(p, Cancels(k)).fault <==> p.fault || p.waiting[k] !in p.live
  {
  }

  /** What the completion routine uses: the context, the URB it points to, and the IRP. */
  function Used(p: Poll, t: Trio, irp: nat): Poll {
    Touch(Touch(Touch(p, t.context), t.urb), irp)
  }

  lemma UsedFaultsExactly(p: Poll, t: Trio, irp: nat)
    ensures Used(p, t, irp) == p.(fault := p.fault || !({t.context, t.urb, irp} <= p.live))
  {
  }

  lemma {:induction false} CancelledCleansUp(p: Poll, irp: nat, succeeded: bool, rest: Outcome)
    requires p.interruptContext.Some? && irp in p.cancelled
    ensures var t := p.interruptContext.value;
            Complete(p, irp, succeeded, rest) == CleanUp(Used(p, t, irp), t)
  {
  }

  /** And a completion that uses a block that is not allocated. */
  lemma {:induction false} CompletionFaultsExactly(p: Poll, irp: nat, succeeded: bool, rest: Outcome)
    requires p.interruptContext.Some? && irp in p.cancelled
    ensures Complete(p, irp, succeeded, rest).fault
       <==> p.fault || irp !in p.live || !ThreeLive(p, p.interruptContext.value)
  {
    var t := p.interruptContext.value;
    var used := Used(p, t, irp);
    CancelledCleansUp(p, irp, succeeded, rest);
    UsedFaultsExactly(p, t, irp);
    CleanUpFaultsExactly(used, t);
    UsedThree(p, used, t, irp);
  }

  lemma UsedThree(p: Poll, used: Poll, t: Trio, irp: nat)
    requires used == p.(fault := p.fault || !({t.context, t.urb, irp} <= p.live))
    ensures used.fault || !ThreeLive(used, t) <==> p.fault || irp !in p.live || !ThreeLive(p, t)
  {
  }

  // ---- A completion

  /** The completion routine may use the IRP and its buffers. */
  ghost predicate InHand(p: Poll, irp: nat) {
    && p.interruptContext.Some? && !p.pollIrpEvent
    && Intact(p, p.interruptContext.value)
    && irp in p.live && irp !in Blocks(p.interruptContext.value)
  }

  /** The IRP went back to the driver below. */
  ghost predicate Resubmitted(p: Poll, q: Poll, irp: nat) {
    && q.interruptContext == p.interruptContext && q.live == p.live && !q.pollIrpEvent
    && q.outstanding == p.outstanding + {irp}
  }

  /** The buffers are gone and the event tells that the IRP may be freed. */
  ghost predicate TakenOut(p: Poll, q: Poll) {
    && p.interruptContext.Some? && q.interruptContext.None? && q.pollIrpEvent
    && q.live == p.live - Blocks(p.interruptContext.value) && q.outstanding == p.outstanding
  }

  lemma CleanUpTakesOut(p: Poll, irp: nat)
    requires InHand(p, irp)
    ensures var q := CleanUp(p, p.interruptContext.value); SameCallers(p, q) && TakenOut(p, q)
  {
    var t := p.interruptContext.value;
    assert p.live - Blocks(t) == p.live - {t.urb} - {t.context} - {t.scratch};
  }

  /** Not cancelled, no failure anywhere in the chain, and the loop still wanted. */
  predicate Reuses(p: Poll, irp: nat, succeeded: bool, rest: Outcome) {
    irp !in p.cancelled && p.dot4Event && succeeded && EndsBelow(rest)
  }

  /** The IRP settled: below exactly if it was reused to the end, and taken out otherwise. */
  ghost predicate Settles(p: Poll, q: Poll, irp: nat, below: bool) {
    && SameCallers(p, q) && p.cancelled - {irp} <= q.cancelled <= p.cancelled
    && if below then Resubmitted(p, q, irp) else TakenOut(p, q)
  }

  /** What the completion routine does after it called the driver below again. */
  function Checked(called: Poll, t: Trio, rest: Outcome): Poll {
    if Failed(rest) && called.interruptContext.Some? then CleanUp(called, t) else called
  }

  lemma {:induction false} CompleteCases(p: Poll, irp: nat, succeeded: bool, rest: Outcome)
    requires InHand(p, irp)
    ensures var t := p.interruptContext.value;
            Complete(p, irp, succeeded, rest)
            == if irp !in p.cancelled && p.dot4Event && succeeded
               then Checked(Call(p.(cancelled := p.cancelled - {irp}), irp, rest), t, rest)
               else CleanUp(p, t)
  {
    assert Touch(Touch(Touch(p, p.interruptContext.value.context), p.interruptContext.value.urb), irp) == p;
  }

  /**
   * However often the IRP is completed inside the call that reuses it, it ends at the driver below or taken out,
   * and at the driver below exactly if the whole chain went well.
   */
  lemma {:induction false} CompleteSettles(p: Poll, irp: nat, succeeded: bool, rest: Outcome)
    requires InHand(p, irp)
    ensures Settles(p, Complete(p, irp, succeeded, rest), irp, Reuses(p, irp, succeeded, rest))
    decreases rest, 1
  {
    CompleteCases(p, irp, succeeded, rest);
    if irp !in p.cancelled && p.dot4Event && succeeded {
      CalledSettles(p.(cancelled := p.cancelled - {irp}), irp, rest);
    } else {
      CleanUpTakesOut(p, irp);
    }
  }

  lemma {:induction false} CalledSettles(p: Poll, irp: nat, rest: Outcome)
    requires InHand(p, irp) && irp !in p.cancelled && p.dot4Event
    ensures Settles(p, Checked(Call(p, irp, rest), p.interruptContext.value, rest), irp, EndsBelow(rest))
    decreases rest, 0
  {
    match rest
    case Pends =>
    case Refuses => CleanUpTakesOut(p, irp);
    case Inline(again, next, _) => CompleteSettles(p, irp, again, next);
  }

  /** Either way the IRPs and buffers are in their places, if no other IRP was below. */
  lemma SettledPlaced(p: Poll, q: Poll, irp: nat)
    requires InHand(p, irp) && SameCallers(p, q) && p.outstanding == {} && irp in OwnedIrps(p)
    requires OwnedIrps(p) <= p.live
    requires TakenOut(p, q) || Resubmitted(p, q, irp)
    ensures Placed(q) && Leaked(q) == Leaked(p) && q.live <= p.live
    ensures q.outstanding == {} <==> TakenOut(p, q)
  {
    assert OwnedIrps(q) == OwnedIrps(p);
  }

  lemma CompletesSound(p: Poll, irp: nat, succeeded: bool, rest: Outcome)
    requires Sound(p) && irp in p.outstanding
    ensures var q := Complete(p.(outstanding := p.outstanding - {irp}), irp, succeeded, rest);
            && Sound(q) && Leaked(q) == Leaked(p)
            && OwnedIrps(q) == OwnedIrps(p)
            && SameCallers(p, q) && p.cancelled - {irp} <= q.cancelled
            && if Reuses(p, irp, succeeded, rest) then q.outstanding == {irp} else q.outstanding == {} && q.pollIrpEvent
  {
    var returned := p.(outstanding := p.outstanding - {irp});
    assert returned.outstanding == {};
    assert OwnedIrps(returned) == OwnedIrps(p) && Leaked(returned) == Leaked(p);
    CompleteSettles(returned, irp, succeeded, rest);
    SettledPlaced(returned, Complete(returned, irp, succeeded, rest), irp);
  }

  // ---- Starting

  /** What Start finds when it makes the first call: fresh buffers; the old ones, if there were any, are leaked. */
  lemma LaunchSound(p: Poll)
    requires Sound(p) && p.ioctl.Starting?
    ensures var q := Launched(p);
            && InHand(q, p.next + 3) && p.next + 3 in OwnedIrps(q) && p.next + 3 !in p.waiting
            && q.outstanding == p.outstanding && !q.fault && !q.assertFailed
            && Placed(q) && Allocated(q) && Orderly(q.(ioctl := Ready))
            && Leaked(q) == Leaked(p) + HeldBlocks(p)
  {
    var q, n := Launched(p), p.next;
    assert OwnedIrps(q) == OwnedIrps(p) + {n + 3};
    assert HeldBlocks(q) == {n, n + 1, n + 2};
  }

  lemma ReadySound(p: Poll)
    requires Placed(p) && Allocated(p) && Orderly(p.(ioctl := Ready)) && !p.fault && !p.assertFailed
    ensures Sound(p.(ioctl := Ready)) && Leaked(p.(ioctl := Ready)) == Leaked(p)
  {
    var q := p.(ioctl := Ready);
    assert OwnedIrps(q) == OwnedIrps(p) && HeldBlocks(q) == HeldBlocks(p);
  }

  /** The driver below has at most one IRP before the call, unless the start is harmful. */
  lemma NoneBelow(p: Poll)
    requires Sound(p) && p.ioctl.Starting?
    ensures Unreturned(p) <==> p.outstanding != {}
    ensures p.interruptContext.Some? ==> p.waiting != []
  {
    if p.outstanding != {} {
      var irp :| irp in p.outstanding;
      assert irp in p.waiting;
    }
  }

  lemma StartedSound(p: Poll, outcome: Outcome)
    requires Sound(p) && p.ioctl.Starting? && (outcome.Refuses? || !Unreturned(p))
    ensures var q := Call(Launched(p), p.next + 3, outcome).(ioctl := Ready);
            && Sound(q) && Leaked(q) == Leaked(p) + HeldBlocks(p) && q.waiting == p.waiting
            && q.next == p.next + 4 && p.cancelled <= q.cancelled
            && (outcome.Refuses? ==> q.outstanding == p.outstanding && q.interruptContext.Some?)
            && (!outcome.Refuses? ==> if EndsBelow(outcome) then q.outstanding == {p.next + 3} && !q.pollIrpEvent
                                      else q.outstanding == {} && q.pollIrpEvent)
  {
    var launched, irp := Launched(p), p.next + 3;
    LaunchSound(p);
    NoneBelow(p);
    match outcome
    case Refuses => ReadySound(launched);
    case Pends => PendsSound(launched, irp);
    case Inline(succeeded, rest, _) =>
      var q := Complete(launched, irp, succeeded, rest);
      CompleteSettles(launched, irp, succeeded, rest);
      SettledPlaced(launched, q, irp);
      ReadySound(q);
  }

  lemma PendsSound(p: Poll, irp: nat)
    requires InHand(p, irp) && irp in OwnedIrps(p) && p.outstanding == {} && !p.fault && !p.assertFailed
    requires Placed(p) && Allocated(p) && Orderly(p.(ioctl := Ready))
    ensures var q := p.(outstanding := p.outstanding + {irp}, ioctl := Ready); Sound(q) && Leaked(q) == Leaked(p)
  {
    var q := p.(outstanding := p.outstanding + {irp});
    assert OwnedIrps(q) == OwnedIrps(p) && HeldBlocks(q) == HeldBlocks(p);
    ReadySound(q);
  }

  /** The buffers that the step forgets: a start that gets to the first call replaces the context. */
  ghost function Forgotten(p: Poll, e: Event): set<nat> {
    if e.Starts? && e.attempt.Started? then HeldBlocks(p) else {}
  }

  lemma StartSound(p: Poll, attempt: Attempt)
    requires Sound(p) && Careful(p, Starts(attempt))
    ensures Sound(Step(p, Starts(attempt)))
    ensures Leaked(Step(p, Starts(attempt))) == Leaked(p) + Forgotten(p, Starts(attempt))
  {
    if attempt.Started? {
      StartStep(p, attempt);
      StartedSound(p, attempt.outcome);
    } else {
      assert OwnedIrps(Step(p, Starts(attempt))) == OwnedIrps(p);
    }
  }

  // ---- Every careful step is safe

  lemma TakeSound(p: Poll)
    requires Sound(p)
    ensures OwnedIrps(Take(p)) == OwnedIrps(p) && Leaked(Take(p)) == Leaked(p)
    ensures Sound(Take(p))
    ensures p.ioctl.Ready? ==> Sound(Disconnect(p)) && Leaked(Disconnect(p)) == Leaked(p)
  {
    assert OwnedIrps(Take(p)) == OwnedIrps(p);
    if p.ioctl.Ready? {
      assert OwnedIrps(Disconnect(p)) == OwnedIrps(p);
    }
  }

  lemma FinishSound(p: Poll, k: nat)
    requires Sound(p) && k < |p.waiting| && p.pollIrpEvent
    ensures Sound(Finish(p, k)) && Leaked(Finish(p, k)) == Leaked(p)
    ensures OwnedIrps(Finish(p, k)) == OwnedIrps(p) - {p.waiting[k]} && Finish(p, k).live == p.live - {p.waiting[k]}
  {
    var q, irp := Finish(p, k), p.waiting[k];
    assert forall i :: i in q.waiting <==> i in p.waiting && i != irp;
    assert OwnedIrps(q) == OwnedIrps(p) - {irp};
  }

  lemma QuietStepSound(p: Poll, e: Event)
    requires Sound(p) && Enabled(p, e) && (e.Connects? || e.Signals? || e.Clears? || e.Cancels?)
    ensures Sound(Step(p, e)) && Leaked(Step(p, e)) == Leaked(p)
  {
    assert OwnedIrps(Step(p, e)) == OwnedIrps(p);
  }

  /** A careful step keeps the invariant, and leaks exactly the buffers that a start forgets. */
  lemma StepSound(p: Poll, e: Event)
    requires Sound(p) && Careful(p, e)
    ensures Sound(Step(p, e)) && Leaked(Step(p, e)) == Leaked(p) + Forgotten(p, e)
  {
    match e
    case Starts(attempt) => StartSound(p, attempt);
    case Disconnects => TakeSound(p);
    case PnpStops => TakeSound(p);
    case Finishes(k) => FinishSound(p, k);
    case Completes(irp, succeeded, rest) => CompletesSound(p, irp, succeeded, rest);
    case _ => QuietStepSound(p, e);
  }

  lemma SoundInductive(p: Poll)
    requires Sound(p)
    ensures Inductive(CarefulFrom(p), Sound)
  {
    forall q, e | Sound(q) && CarefulFrom(p).enabled(q, e)
      ensures Sound(CarefulFrom(p).step(q, e))
    {
      StepSound(q, e);
    }
  }

  /**
   * In every run without a harmful start no block is used after it was freed or freed twice, no IRP is freed
   * while the driver below has it, Start never finds a loop, and each IRP owns one remove-lock reference.
   */
  lemma {:induction false} RunSound(run: seq<Event>)
    requires Legal(CarefulOrder, run)
    ensures Sound(After(CarefulOrder, run))
  {
    assert OwnedIrps(INITIAL) == {};
    SoundInductive(INITIAL);
    Invariance(CarefulOrder, Sound, run);
  }

  // ---- And no other start is

  /** Some continuation without a further harmful start ends in a fault. */
  ghost predicate CanFault(p: Poll) {
    exists q :: Reachable(CarefulFrom(p), q) && q.fault
  }

  lemma SoundCannotFault(p: Poll)
    requires Sound(p)
    ensures !CanFault(p)
  {
    forall q | Reachable(CarefulFrom(p), q)
      ensures !q.fault
    {
      var run :| Legal(CarefulFrom(p), run) && After(CarefulFrom(p), run) == q;
      SoundInductive(p);
      Invariance(CarefulFrom(p), Sound, run);
    }
  }

  /** An event that is set while an IRP that a Stop waits for is below: the Stop frees the IRP. */
  lemma EventSetTooEarly(p: Poll, q: Poll, k: nat)
    requires Reachable(CarefulFrom(p), q) && q.pollIrpEvent && k < |q.waiting| && q.waiting[k] in q.outstanding
    ensures CanFault(p)
  {
    StepReachable(CarefulFrom(p), q, Finishes(k));
  }

  /** Two IRPs below, one pair of buffers: the first to come back takes the buffers away and sets the event. */
  lemma TwoBelow(p: Poll, irp: nat, k: nat)
    requires InHand(p, irp) && k < |p.waiting| && p.waiting[k] == irp
    requires p.pollIrp.Some? && p.pollIrp.value != irp && {irp, p.pollIrp.value} <= p.outstanding
    ensures CanFault(p)
  {
    var m := CarefulFrom(p);
    InitReachable(m);
    var p1 := Step(p, Completes(irp, false, Pends));
    StepReachable(m, p, Completes(irp, false, Pends));
    CleanUpTakesOut(p.(outstanding := p.outstanding - {irp}), irp);
    var p2 := Take(p1);
    StepReachable(m, p1, PnpStops);
    EventSetTooEarly(p, p2, |p.waiting|);
  }

  /** The launch in detail: the new IRP is below beside the old one, or it has come back and set the event. */
  lemma HarmfulCanFault(p: Poll, outcome: Outcome, k: nat)
    requires Sound(p) && p.ioctl.Starting? && !outcome.Refuses?
    requires k < |p.waiting| && p.waiting[k] in p.outstanding
    ensures CanFault(Call(Launched(p), p.next + 3, outcome).(ioctl := Ready))
  {
    var launched, new_, irp := Launched(p), p.next + 3, p.waiting[k];
    var q := Call(launched, new_, outcome).(ioctl := Ready);
    LaunchSound(p);
    assert irp in OwnedIrps(launched);
    if outcome.Inline? {
      CompleteSettles(launched, new_, outcome.succeeded, outcome.rest);
    }
    if q.pollIrpEvent {
      InitReachable(CarefulFrom(q));
      EventSetTooEarly(q, q, k);
    } else {
      assert OwnedIrps(q) == OwnedIrps(launched);
      TwoBelow(q, irp, k);
    }
  }

  /**
   * The exact condition, in the state before the call: a start can lead to a fault exactly if it launches a
   * loop while an IRP that a Stop waits for is at the driver below. A waiting Stop whose IRP is parked or in
   * limbo does no harm, and neither does an attempt that fails, nor one whose first call is refused.
   */
  lemma StartFaultsExactly(p: Poll, attempt: Attempt)
    requires Sound(p) && Enabled(p, Starts(attempt))
    ensures CanFault(Step(p, Starts(attempt))) <==> Harmful(p, Starts(attempt))
  {
    if Harmful(p, Starts(attempt)) {
      HarmfulStart(p, attempt);
    } else {
      StepSound(p, Starts(attempt));
      SoundCannotFault(Step(p, Starts(attempt)));
    }
  }

  lemma HarmfulStart(p: Poll, attempt: Attempt)
    requires Sound(p) && p.ioctl.Starting? && Harmful(p, Starts(attempt))
    ensures CanFault(Step(p, Starts(attempt)))
  {
    var k :| 0 <= k < |p.waiting| && p.waiting[k] in p.outstanding;
    HarmfulCanFault(p, attempt.outcome, k);
    StartStep(p, attempt);
  }

  /** What the step is when Start finds no loop and gets to the first call. */
  lemma StartStep(p: Poll, attempt: Attempt)
    requires p.pollIrp.None? && attempt.Started?
    ensures Step(p, Starts(attempt)) == Call(Launched(p), p.next + 3, attempt.outcome).(ioctl := Ready)
  {
    assert p.(assertFailed := p.assertFailed || p.pollIrp.Some?) == p;
  }

  /** For a caller, who cannot know what the driver below will answer: safe exactly if no such IRP is below. */
  lemma AnyStartSafeExactly(p: Poll)
    requires Sound(p) && p.ioctl.Starting?
    ensures (forall attempt :: !CanFault(Step(p, Starts(attempt)))) <==> !Unreturned(p)
  {
    StartFaultsExactly(p, Started(Pends));
    forall attempt
      ensures CanFault(Step(p, Starts(attempt))) ==> Unreturned(p)
    {
      StartFaultsExactly(p, attempt);
    }
  }

  // ---- What is left

  ghost predicate ForgetsNothing(run: seq<Event>) {
    run == []
    || (ForgetsNothing(run[..|run| - 1])
        && Forgotten(After(CarefulOrder, run[..|run| - 1]), run[|run| - 1]) == {})
  }

  /** Buffers are leaked exactly when some start of the run got to the first call while there still was a context. */
  lemma {:induction false} LeaksExactly(run: seq<Event>)
    requires Legal(CarefulOrder, run)
    ensures Leaked(After(CarefulOrder, run)) == {} <==> ForgetsNothing(run)
  {
    if run == [] {
      assert Leaked(INITIAL) == {};
    } else {
      var before := run[..|run| - 1];
      LeaksExactly(before);
      RunSound(before);
      StepSound(After(CarefulOrder, before), run[|run| - 1]);
    }
  }

  /** Once every loop has been stopped nothing is left but what was leaked: blocks freed, remove lock released. */
  lemma {:induction false} NothingLeft(run: seq<Event>)
    requires Legal(CarefulOrder, run) && OwnedIrps(After(CarefulOrder, run)) == {}
    ensures After(CarefulOrder, run).live == Leaked(After(CarefulOrder, run)) && After(CarefulOrder, run).lockRefs == 0
    ensures After(CarefulOrder, run).live == {} <==> ForgetsNothing(run)
  {
    RunSound(run);
    LeaksExactly(run);
    var p := After(CarefulOrder, run);
    WaitersOwn(p);
  }

  lemma WaitersOwn(p: Poll)
    ensures p.waiting != [] ==> OwnedIrps(p) != {}
  {
    if p.waiting != [] {
      assert p.waiting[0] in OwnedIrps(p);
    }
  }

  /** An IRP is freed by the Stop that took it and by nothing else, once the event is set and it is not below. */
  lemma FreedByItsStop(p: Poll, e: Event, irp: nat)
    requires Sound(p) && Careful(p, e) && irp in OwnedIrps(p)
    ensures irp in p.live
    ensures irp !in Step(p, e).live <==> e.Finishes? && p.waiting[e.k] == irp
    ensures e.Finishes? ==> p.pollIrpEvent && p.waiting[e.k] !in p.outstanding
  {
    StepSound(p, e);
    match e
    case Starts(attempt) => StartKeepsOwned(p, attempt);
    case Disconnects => TakeSound(p);
    case PnpStops => TakeSound(p);
    case Finishes(k) => FinishSound(p, k);
    case Completes(i, succeeded, rest) => CompletesSound(p, i, succeeded, rest);
    case _ =>
  }

  lemma StartKeepsOwned(p: Poll, attempt: Attempt)
    requires Sound(p) && Careful(p, Starts(attempt))
    ensures OwnedIrps(p) <= Step(p, Starts(attempt)).live
  {
    if attempt.Started? {
      StartedKeepsOwned(p, attempt.outcome);
      StartStep(p, attempt);
    }
  }

  lemma StartedKeepsOwned(p: Poll, outcome: Outcome)
    requires Sound(p) && p.ioctl.Starting? && (outcome.Refuses? || !Unreturned(p))
    ensures OwnedIrps(p) <= Call(Launched(p), p.next + 3, outcome).live
  {
    var q := Call(Launched(p), p.next + 3, outcome).(ioctl := Ready);
    StartedSound(p, outcome);
    assert OwnedIrps(p) <= OwnedIrps(q);
  }
}
