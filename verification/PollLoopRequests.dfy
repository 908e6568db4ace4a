/**
 * The requests of dot4 and of Plug and Play (dot4/dot4usb/ioctl.c, usb.c): when there is a connection and an event,
 * when a loop is started for it, and whom the poll IRP belongs to.
 */
module PollLoopRequests {
  import opened Base
  import opened PollLoopSpec
  import opened PollLoopSafety
  import opened Runs

  /** A connect that no disconnect has cleared. */
  predicate Connected(run: seq<Event>) {
    run != []
    && match run[|run| - 1]
       case Connects => true
       case Clears => false
       case _ => Connected(run[..|run| - 1])
  }

  /** A signal with an event, made while connected, that no disconnect has cleared: only the first one counts. */
  predicate Signalled(run: seq<Event>) {
    run != []
    && match run[|run| - 1]
       case Signals(valid, _) => Signalled(run[..|run| - 1]) || (valid && Connected(run[..|run| - 1]))
       case Clears => false
       case _ => Signalled(run[..|run| - 1])
  }

  lemma StepConnection(p: Poll, e: Event)
    requires Sound(p) && Careful(p, e)
    ensures Step(p, e).connected == match e case Connects => true case Clears => false case _ => p.connected
    ensures Step(p, e).dot4Event
         == match e case Signals(valid, _) => p.dot4Event || (valid && p.connected)
                    case Clears => false
                    case _ => p.dot4Event
  {
    match e
    case Starts(attempt) => StartKeepsCallers(p, attempt);
    case Completes(irp, succeeded, rest) => CompletesSound(p, irp, succeeded, rest);
    case _ =>
  }

  lemma StartKeepsCallers(p: Poll, attempt: Attempt)
    requires Sound(p) && Careful(p, Starts(attempt))
    ensures var q := Step(p, Starts(attempt));
            && q.connected == p.connected && q.dot4Event == p.dot4Event && q.waiting == p.waiting && q.ioctl == Ready
            && q.pollIrp == if attempt.Started? then Some(p.next + 3) else None
  {
    if attempt.Started? {
      StartStep(p, attempt);
      LaunchSound(p);
      LaunchedKeeps(Launched(p), p.next + 3, attempt.outcome);
    }
  }

  lemma LaunchedKeeps(p: Poll, irp: nat, outcome: Outcome)
    requires InHand(p, irp)
    ensures var q := Call(p, irp, outcome);
            q.connected == p.connected && q.dot4Event == p.dot4Event && q.waiting == p.waiting && q.pollIrp == p.pollIrp
  {
    if outcome.Inline? {
      CompleteSettles(p, irp, outcome.succeeded, outcome.rest);
    }
  }

  /** In every careful run dot4 is connected, and its event stored, exactly by what it asked for. */
  lemma {:induction false} ConnectionRecordsRequests(run: seq<Event>)
    requires Legal(CarefulOrder, run)
    ensures After(CarefulOrder, run).connected == Connected(run)
    ensures After(CarefulOrder, run).dot4Event == Signalled(run)
  {
    if run != [] {
      ConnectionRecordsRequests(run[..|run| - 1]);
      RunSound(run[..|run| - 1]);
      StepConnection(After(CarefulOrder, run[..|run| - 1]), run[|run| - 1]);
    }
  }

  /** The event becomes stored exactly by a signal that has one while dot4 is connected and has none stored. */
  lemma EventAcceptedExactly(p: Poll, e: Event)
    requires Sound(p) && Careful(p, e) && !p.dot4Event
    ensures Step(p, e).dot4Event <==> e.Signals? && e.valid && p.connected
  {
    StepConnection(p, e);
  }

  /** A loop is started exactly for an event that becomes stored, if there is a pipe. */
  lemma StartsExactly(p: Poll, e: Event)
    requires Sound(p) && Careful(p, e) && !p.ioctl.Starting?
    ensures Step(p, e).ioctl.Starting? <==> !p.dot4Event && Step(p, e).dot4Event && e.Signals? && e.hasPipe
  {
    StepConnection(p, e);
    match e
    case Completes(irp, succeeded, rest) => CompletesSound(p, irp, succeeded, rest);
    case _ =>
  }

  /** The connection may be cleared exactly after a disconnect that found no loop, or once its own Stop has finished. */
  lemma ClearsExactly(p: Poll, e: Event)
    requires Sound(p) && Careful(p, e) && !p.ioctl.Clearing?
    ensures Step(p, e).ioctl.Clearing?
       <==> || (e.Disconnects? && p.pollIrp.None?)
            || (e.Finishes? && p.ioctl == Stopping(p.waiting[e.k]))
    ensures e.Disconnects? && p.pollIrp.Some? ==> Step(p, e).ioctl == Stopping(p.pollIrp.value)
  {
    match e
    case Starts(attempt) => StartKeepsCallers(p, attempt);
    case Completes(irp, succeeded, rest) => CompletesSound(p, irp, succeeded, rest);
    case _ =>
  }

  /** Whose the IRP is: a start that gets to the first call puts it into the extension, the next Stop takes it out. */
  lemma OwnersExactly(p: Poll, e: Event)
    requires Sound(p) && Careful(p, e)
    ensures Step(p, e).pollIrp
         == match e case Starts(attempt) => (if attempt.Started? then Some(p.next + 3) else None)
                    case PnpStops => None
                    case Disconnects => None
                    case _ => p.pollIrp
    ensures (e.PnpStops? || e.Disconnects?) && p.pollIrp.Some? ==> Step(p, e).waiting == p.waiting + [p.pollIrp.value]
    ensures !e.PnpStops? && !e.Disconnects? && !e.Finishes? ==> Step(p, e).waiting == p.waiting
    ensures e.Finishes? ==> Step(p, e).waiting == p.waiting[..e.k] + p.waiting[e.k + 1..]
  {
    match e
    case Starts(attempt) => StartKeepsCallers(p, attempt);
    case Completes(irp, succeeded, rest) => CompletesSound(p, irp, succeeded, rest);
    case _ =>
  }
}
