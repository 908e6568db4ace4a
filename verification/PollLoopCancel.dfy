/** Stop's cancellation of the poll IRP (dot4/dot4usb/usb.c): it is not forgotten, and it ends the loop. */
module PollLoopCancel {
  import opened Base
  import opened PollLoopSpec
  import opened PollLoopSafety
  import opened Runs

  /** Cancelling sets the Cancel flag of the IRP that the Stop took, and does nothing else. */
  lemma CancelCancels(p: Poll, k: nat)
    requires Sound(p) && k < |p.waiting|
    ensures Step(p, Cancels(k)) == p.(cancelled := p.cancelled + {p.waiting[k]})
  {
    assert p.waiting[k] in OwnedIrps(p);
  }

  predicate Returns(e: Event, irp: nat) {
    e.Completes? && e.irp == irp
  }

  /** The flag stays until the IRP comes back. */
  lemma CancelledKept(p: Poll, e: Event, irp: nat)
    requires Sound(p) && Careful(p, e) && irp in p.cancelled && !Returns(e, irp)
    ensures irp in Step(p, e).cancelled
  {
    match e
    case Starts(attempt) =>
      if attempt.Started? {
        StartStep(p, attempt);
        StartedSound(p, attempt.outcome);
      }
    case Completes(other, succeeded, rest) => CompletesSound(p, other, succeeded, rest);
    case _ =>
  }

  /** An IRP that a Stop waits for stays below until it comes back, and the Stop goes on waiting for it. */
  lemma BelowKept(p: Poll, e: Event, irp: nat)
    requires Sound(p) && Careful(p, e) && irp in p.waiting && irp in p.outstanding && !Returns(e, irp)
    ensures irp in Step(p, e).waiting && irp in Step(p, e).outstanding
  {
    match e
    case Starts(attempt) =>
      if attempt.Started? {
        NoneBelow(p);
        StartStep(p, attempt);
        StartedSound(p, attempt.outcome);
      }
    case _ =>
  }

  /** And one that is not below does not get there any more. */
  lemma AwayKept(p: Poll, e: Event, irp: nat)
    requires Sound(p) && Careful(p, e) && irp < p.next && irp !in p.outstanding
    ensures irp < Step(p, e).next && irp !in Step(p, e).outstanding
  {
    match e
    case Starts(attempt) =>
      if attempt.Started? {
        StartStep(p, attempt);
        StartedSound(p, attempt.outcome);
      }
    case Completes(other, succeeded, rest) => CompletesSound(p, other, succeeded, rest);
    case _ =>
  }

  /** Cancelled, and either below for a Stop that waits or not below. */
  ghost predicate Pursued(p: Poll, irp: nat, below: bool) {
    && Sound(p) && irp in p.cancelled && irp < p.next
    && if below then irp in p.waiting && irp in p.outstanding else irp !in p.outstanding
  }

  lemma PursuedKept(p: Poll, e: Event, irp: nat, below: bool)
    requires Pursued(p, irp, below) && Careful(p, e) && !Returns(e, irp)
    ensures Pursued(Step(p, e), irp, below)
  {
    StepSound(p, e);
    CancelledKept(p, e, irp);
    if below {
      BelowKept(p, e, irp);
      assert irp in OwnedIrps(Step(p, e));
    } else {
      AwayKept(p, e, irp);
    }
  }

  /** A cancelled IRP that comes back to its waiting Stop is taken out: the event is set, the Stop can be finished. */
  lemma PursuedReturns(p: Poll, irp: nat, succeeded: bool, rest: Outcome)
    requires Pursued(p, irp, true)
    ensures CanFinish(Step(p, Completes(irp, succeeded, rest)), irp)
  {
    CompletesSound(p, irp, succeeded, rest);
    var k :| 0 <= k < |p.waiting| && p.waiting[k] == irp;
    assert Step(p, Completes(irp, succeeded, rest)).waiting[k] == irp;
  }

  /** The Stop that waits for the IRP finds its wait satisfied. */
  ghost predicate CanFinish(p: Poll, irp: nat) {
    p.pollIrpEvent && exists k :: 0 <= k < |p.waiting| && p.waiting[k] == irp && Enabled(p, Finishes(k))
  }

  /**
   * In every careful run: once a Stop has cancelled its IRP, the next completion of that IRP, whatever its status and
   * whatever came in between, lets this Stop finish.
   */
  lemma {:induction false} CancelEnds(run: seq<Event>, k: nat, n: nat, irp: nat)
    requires Legal(CarefulOrder, run) && k < n < |run|
    requires run[k].Cancels? && run[k].k < |After(CarefulOrder, run[..k]).waiting|
    requires After(CarefulOrder, run[..k]).waiting[run[k].k] == irp
    requires Returns(run[n], irp) && Between(CarefulOrder, (p, e) => !Returns(e, irp), run, k + 1, n)
    ensures CanFinish(After(CarefulOrder, run[..n + 1]), irp)
  {
    var below := CancelledBefore(run, k, n, irp);
    LegalPrefix(CarefulOrder, run, n);
    AfterSnoc(CarefulOrder, run, n);
    PursuedReturns(After(CarefulOrder, run[..n]), irp, run[n].succeeded, run[n].rest);
  }

  lemma {:induction false} CancelledBefore(run: seq<Event>, k: nat, n: nat, irp: nat) returns (below: bool)
    requires Legal(CarefulOrder, run) && k < n <= |run|
    requires run[k].Cancels? && run[k].k < |After(CarefulOrder, run[..k]).waiting|
    requires After(CarefulOrder, run[..k]).waiting[run[k].k] == irp
    requires Between(CarefulOrder, (p, e) => !Returns(e, irp), run, k + 1, n)
    ensures Pursued(After(CarefulOrder, run[..n]), irp, below)
  {
    var p := After(CarefulOrder, run[..k]);
    below := irp in p.outstanding;
    LegalPrefix(CarefulOrder, run, k);
    RunSound(run[..k]);
    CancelPursues(p, run[k].k);
    AfterSnoc(CarefulOrder, run, k);
    PursuedOn(run, k + 1, n, irp, below);
  }

  lemma CancelPursues(p: Poll, k: nat)
    requires Sound(p) && k < |p.waiting|
    ensures Pursued(Step(p, Cancels(k)), p.waiting[k], p.waiting[k] in p.outstanding)
  {
    assert p.waiting[k] in OwnedIrps(p);
    CancelCancels(p, k);
    StepSound(p, Cancels(k));
  }

  lemma {:induction false} PursuedOn(run: seq<Event>, j: nat, n: nat, irp: nat, below: bool)
    requires Legal(CarefulOrder, run) && j <= n <= |run| && Pursued(After(CarefulOrder, run[..j]), irp, below)
    requires Between(CarefulOrder, (p, e) => !Returns(e, irp), run, j, n)
    ensures Pursued(After(CarefulOrder, run[..n]), irp, below)
  {
    var pursued := (p: Poll) => Pursued(p, irp, below);
    var others := (p: Poll, e: Event) => Careful(p, e) && !Returns(e, irp);
    forall p, e | pursued(p) && others(p, e)
      ensures pursued(CarefulOrder.step(p, e))
    {
      PursuedKept(p, e, irp, below);
    }
    forall i | j <= i < n
      ensures others(After(CarefulOrder, run[..i]), run[i])
    {
      LegalPrefix(CarefulOrder, run, i);
    }
    Lasting(CarefulOrder, pursued, others, run, j, n);
  }
}
