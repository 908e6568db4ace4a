/**
 * The interrupt poll loop of the Dot4 USB driver (dot4/dot4usb/usb.c) and the requests that start and stop
 * it (dot4/dot4usb/ioctl.c): who owns the poll IRP and its buffers. The heap is the set of blocks that are
 * allocated; using or freeing a block that is not is a fault.
 */
module PollLoopSpec {
  import opened Base
  import opened Runs

  /** The URB, the context that points to it, and the buffer that the URB points to. */
  datatype Trio = Trio(urb: nat, context: nat, scratch: nat)

  /**
   * What becomes of the IRP when the driver below is called: it keeps it, refuses it without completing it,
   * or completes it before it returns; then the completion routine runs inside the call and may call again.
   * Such a call returns pending, or the status with which the IRP was completed.
   */
  datatype Outcome = Pends | Refuses | Inline(succeeded: bool, rest: Outcome, pending: bool)

  /** Where the handling of an IOCTL by DispatchInternalDeviceControl has got to. */
  datatype Ioctl = Ready | Starting | Stopping(irp: nat) | Clearing

  datatype Poll = Poll(
    // device extension
    pollIrp: Option<nat>,
    interruptContext: Option<Trio>,
    pollIrpEvent: bool,
    connected: bool,
    dot4Event: bool,
    // the callers: an IOCTL, and the calls of Stop that took an IRP and wait
    ioctl: Ioctl,
    waiting: seq<nat>,
    // the world
    next: nat,
    live: set<nat>,
    outstanding: set<nat>,
    cancelled: set<nat>,
    lockRefs: int,
    fault: bool,
    assertFailed: bool
  )

  const INITIAL := Poll(None, None, false, false, false, Ready, [], 0, {}, {}, {}, 0, false, false)

  function Touch(p: Poll, block: nat): Poll {
    if block in p.live then p else p.(fault := true)
  }

  function Free(p: Poll, block: nat): Poll {
    Touch(p, block).(live := p.live - {block})
  }

  function FreeTrio(p: Poll, t: Trio): Poll {
    Free(Free(Free(p, t.urb), t.context), t.scratch)
  }

  /** The completion routine takes the IRP out of play. */
  function CleanUp(p: Poll, t: Trio): Poll {
    FreeTrio(p.(interruptContext := None), t).(pollIrpEvent := true)
  }

  predicate Failed(outcome: Outcome) {
    outcome.Refuses? || (outcome.Inline? && !outcome.pending && !outcome.succeeded)
  }

  /** IoCallDriver. */
  function Call(p: Poll, irp: nat, outcome: Outcome): Poll
    decreases outcome, 0
  {
    match outcome
    case Pends => p.(outstanding := p.outstanding + {irp})
    case Refuses => p
    case Inline(succeeded, rest, _) => Complete(p, irp, succeeded, rest)
  }

  /** The chain of calls and completions ends with the IRP at the driver below. */
  predicate EndsBelow(outcome: Outcome) {
    match outcome
    case Pends => true
    case Refuses => false
    case Inline(succeeded, rest, _) => succeeded && EndsBelow(rest)
  }

  /** UsbReadInterruptPipeLoopCompletionRoutine, with all that happens inside it when it reuses the IRP. */
  function Complete(p: Poll, irp: nat, succeeded: bool, rest: Outcome): Poll
    decreases rest, 1
  {
    if p.interruptContext.None? then p
    else
      var t := p.interruptContext.value;
      var used := Touch(Touch(Touch(p, t.context), t.urb), irp);
      if irp !in p.cancelled && p.dot4Event && succeeded then
        var called := Call(used.(cancelled := p.cancelled - {irp}), irp, rest);
        if Failed(rest) && called.interruptContext.Some? then CleanUp(called, t) else called
      else CleanUp(used, t)
  }

  /** How far UsbStartReadInterruptPipeLoop gets. */
  datatype Attempt = NoPipe | NoUrb | NoContext | NoScratch | NoIrp | BeingRemoved | Started(outcome: Outcome)

  /** The blocks that an attempt which fails has allocated and freed again. */
  function Returned(attempt: Attempt): nat {
    match attempt
    case NoContext => 1
    case NoScratch => 2
    case NoIrp => 3
    case BeingRemoved => 4
    case _ => 0
  }

  function Start(p: Poll, attempt: Attempt): Poll {
    Attempted(p.(assertFailed := p.assertFailed || p.pollIrp.Some?), attempt)
  }

  function Attempted(p: Poll, attempt: Attempt): Poll {
    if attempt.Started? then Call(Launched(p), p.next + 3, attempt.outcome)
    else p.(next := p.next + Returned(attempt), pollIrpEvent := p.pollIrpEvent && !attempt.BeingRemoved?)
  }

  /** The state in which Start makes the first call. */
  function Launched(p: Poll): Poll {
    var n := p.next;
    p.(next := n + 4, live := p.live + {n, n + 1, n + 2, n + 3}, pollIrpEvent := false, lockRefs := p.lockRefs + 1,
       pollIrp := Some(n + 3), interruptContext := Some(Trio(n, n + 1, n + 2)))
  }

  /** The start of UsbStopReadInterruptPipeLoop: the IRP has a new owner. */
  function Take(p: Poll): Poll {
    if p.pollIrp.Some? then p.(pollIrp := None, waiting := p.waiting + [p.pollIrp.value]) else p
  }

  function CancelIrp(p: Poll, irp: nat): Poll {
    Touch(p, irp).(cancelled := p.cancelled + {irp})
  }

  /** The end of UsbStopReadInterruptPipeLoop, once its wait is satisfied. */
  function Finish(p: Poll, k: nat): Poll
    requires k < |p.waiting|
  {
    var irp := p.waiting[k];
    var freed := Free(if irp in p.outstanding then p.(fault := true) else p, irp);
    freed.(lockRefs := p.lockRefs - 1, waiting := p.waiting[..k] + p.waiting[k + 1..],
           ioctl := if p.ioctl == Stopping(irp) then Clearing else p.ioctl)
  }

  /** IOCTL_INTERNAL_PARDOT3_SIGNAL up to the call of Start; valid tells whether the request holds an event. */
  function Signal(p: Poll, valid: bool, hasPipe: bool): Poll {
    if p.connected && !p.dot4Event && valid then p.(dot4Event := true, ioctl := if hasPipe then Starting else Ready)
    else p
  }

  function Disconnect(p: Poll): Poll {
    Take(p).(ioctl := if p.pollIrp.Some? then Stopping(p.pollIrp.value) else Clearing)
  }

  datatype Event =
    | Connects
    | Signals(valid: bool, hasPipe: bool)
    | Starts(attempt: Attempt)
    | Disconnects
    | Clears
    | PnpStops
    | Cancels(k: nat)
    | Finishes(k: nat)
    | Completes(irp: nat, succeeded: bool, rest: Outcome)

  predicate Enabled(p: Poll, e: Event) {
    match e
    case Connects => p.ioctl.Ready?
    case Signals(_, _) => p.ioctl.Ready?
    case Starts(_) => p.ioctl.Starting?
    case Disconnects => p.ioctl.Ready?
    case Clears => p.ioctl.Clearing?
    case PnpStops => true
    case Cancels(k) => k < |p.waiting|
    case Finishes(k) => k < |p.waiting| && p.pollIrpEvent
    case Completes(irp, _, _) => irp in p.outstanding
  }

  function Step(p: Poll, e: Event): Poll {
    match e
    case Connects => p.(connected := true)
    case Signals(valid, hasPipe) => Signal(p, valid, hasPipe)
    case Starts(attempt) => Start(p, attempt).(ioctl := Ready)
    case Disconnects => Disconnect(p)
    case Clears => p.(dot4Event := false, connected := false, ioctl := Ready)
    case PnpStops => Take(p)
    case Cancels(k) => if k < |p.waiting| then CancelIrp(p, p.waiting[k]) else p
    case Finishes(k) => if k < |p.waiting| then Finish(p, k) else p
    case Completes(irp, succeeded, rest) => Complete(p.(outstanding := p.outstanding - {irp}), irp, succeeded, rest)
  }

  /** IOCTLs come one at a time; stops, completions and waits interleave with them in any order. */
  ghost const AnyOrder: Machine<Poll, Event> := Machine(INITIAL, Enabled, Step)

  /** An IRP that a Stop waits for is still at the driver below. */
  predicate Unreturned(p: Poll) {
    exists k :: 0 <= k < |p.waiting| && p.waiting[k] in p.outstanding
  }

  /** The attempt gets as far as the first call of the driver below, and that call does not refuse the IRP. */
  predicate Launches(e: Event) {
    e.Starts? && e.attempt.Started? && !e.attempt.outcome.Refuses?
  }

  /** A loop is launched although an IRP that a Stop waits for has not come back. */
  predicate Harmful(p: Poll, e: Event) {
    Launches(e) && Unreturned(p)
  }

  predicate Careful(p: Poll, e: Event) {
    Enabled(p, e) && !Harmful(p, e)
  }

  /** All orders but for harmful starts, from any state. */
  ghost function CarefulFrom(p: Poll): Machine<Poll, Event> {
    Machine(p, Careful, Step)
  }

  ghost const CarefulOrder: Machine<Poll, Event> := CarefulFrom(INITIAL)
}
