/** The routines of the poll loop, over the device extension they update in place. */
module PollLoop {
  import opened Base
  import opened PollLoopSpec

  /** The first three blocks that an attempt allocates. */
  function NewTrio(p: Poll): Trio {
    Trio(p.next, p.next + 1, p.next + 2)
  }

  ghost function WithTrio(p: Poll): Poll {
    p.(next := p.next + 3, live := p.live + {p.next, p.next + 1, p.next + 2})
  }

  class DeviceExtension {
    var pollIrp: Option<nat>
    var interruptContext: Option<Trio>
    var pollIrpEvent: bool
    var connected: bool
    var dot4Event: bool
    /** The allocator, the Cancel flags of the IRPs, and the references on the remove lock. */
    var next: nat
    var live: set<nat>
    var cancelled: set<nat>
    var lockRefs: int
    /** The state of the machine, with the callers and what went wrong. */
    ghost var state: Poll

    ghost predicate Valid()
      reads this
    {
      && pollIrp == state.pollIrp
      && interruptContext == state.interruptContext
      && pollIrpEvent == state.pollIrpEvent
      && connected == state.connected
      && dot4Event == state.dot4Event
      && next == state.next
      && live == state.live
      && cancelled == state.cancelled
      && lockRefs == state.lockRefs
    }

    constructor ()
      ensures Valid() && state == INITIAL
    {
      pollIrp, interruptContext, pollIrpEvent := None, None, false;
      connected, dot4Event, next, live, cancelled, lockRefs := false, false, 0, {}, {}, 0;
      state := INITIAL;
    }

    method Allocate() returns (block: nat)
      requires Valid()
      modifies this`next, this`live, this`state
      ensures block == old(state).next
      ensures state == old(state).(next := block + 1, live := old(state).live + {block})
      ensures Valid()
    {
      block := next;
      next := next + 1;
      live := live + {block};
      state := state.(next := block + 1, live := live);
    }

    /** A block is freed, or used: either is a fault if it is not allocated. */
    method FreeBlock(block: nat)
      requires Valid()
      modifies this`live, this`state
      ensures state == Free(old(state), block) && Valid()
    {
      state := Free(state, block);
      live := live - {block};
    }

    method UseBlock(block: nat)
      requires Valid()
      modifies this`state
      ensures state == Touch(old(state), block) && Valid()
    {
      state := Touch(state, block);
    }

    method SetContext(context: Option<Trio>)
      requires Valid()
      modifies this`interruptContext, this`state
      ensures state == old(state).(interruptContext := context) && Valid()
    {
      interruptContext := context;
      state := state.(interruptContext := context);
    }

    method SetEvent(signalled: bool)
      requires Valid()
      modifies this`pollIrpEvent, this`state
      ensures state == old(state).(pollIrpEvent := signalled) && Valid()
    {
      pollIrpEvent := signalled;
      state := state.(pollIrpEvent := signalled);
    }

    method TakeOutOfPlay(t: Trio)
      requires Valid()
      modifies this
      ensures state == CleanUp(old(state), t) && Valid()
    {
      SetContext(None);
      FreeBlock(t.urb);
      FreeBlock(t.context);
      FreeBlock(t.scratch);
      SetEvent(true);
    }

    /** IoCallDriver: the outcome is what the driver below does with the IRP before the call returns. */
    method CallDriver(irp: nat, outcome: Outcome) returns (failed: bool)
      requires Valid()
      modifies this
      ensures state == Call(old(state), irp, outcome) && failed == Failed(outcome)
      ensures Valid()
      decreases outcome, 0
    {
      match outcome {
        case Pends =>
          state := state.(outstanding := state.outstanding + {irp});
          return false;
        case Refuses =>
          return true;
        case Inline(succeeded, rest, pending) =>
          CompletionRoutine(irp, succeeded, rest);
          return !pending && !succeeded;
      }
    }

    /** UsbReadInterruptPipeLoopCompletionRoutine. */
    method CompletionRoutine(irp: nat, succeeded: bool, rest: Outcome)
      requires Valid()
      modifies this
      ensures state == Complete(old(state), irp, succeeded, rest)
      ensures Valid()
      decreases rest, 1
    {
      if interruptContext.None? {
        return;
      }
      var t := interruptContext.value;
      UseBlock(t.context);
      UseBlock(t.urb);
      UseBlock(irp);
      if irp !in cancelled && dot4Event && succeeded {
        cancelled := cancelled - {irp};
        state := state.(cancelled := cancelled);
        var failed := CallDriver(irp, rest);
        if failed {
          if interruptContext.Some? {
            TakeOutOfPlay(t);
          }
        }
      } else {
        if interruptContext.Some? {
          TakeOutOfPlay(t);
        }
      }
    }

    /** The IRP of the loop comes back from the driver below. */
    method IrpCompleted(irp: nat, succeeded: bool, rest: Outcome)
      requires Valid() && Enabled(state, Completes(irp, succeeded, rest))
      modifies this
      ensures state == Step(old(state), Completes(irp, succeeded, rest)) && Valid()
    {
      state := state.(outstanding := state.outstanding - {irp});
      CompletionRoutine(irp, succeeded, rest);
    }

    /** The buffers that Start needs before there is an IRP; what was allocated is freed if one is missing. */
    method AllocateTrio(attempt: Attempt) returns (trio: Option<Trio>)
      requires Valid() && forall b :: b in state.live ==> b < state.next
      modifies this`next, this`live, this`state
      ensures Valid()
      ensures trio.None? <==> attempt.NoUrb? || attempt.NoContext? || attempt.NoScratch?
      ensures trio.None? ==> state == old(state).(next := old(state).next + Returned(attempt))
      ensures trio.Some? ==> trio.value == NewTrio(old(state)) && state == WithTrio(old(state))
    {
      if attempt.NoUrb? {
        return None;
      }
      ghost var before := state;
      var urb := Allocate();
      if attempt.NoContext? {
        FreeNew(urb, before.live);
        return None;
      }
      trio := AllocateRest(urb, attempt, before);
    }

    method AllocateRest(urb: nat, attempt: Attempt, ghost before: Poll) returns (trio: Option<Trio>)
      requires Valid() && forall b :: b in before.live ==> b < before.next
      requires urb == before.next && state == before.(next := urb + 1, live := before.live + {urb})
      modifies this`next, this`live, this`state
      ensures Valid()
      ensures trio.None? <==> attempt.NoScratch?
      ensures trio.None? ==> state == before.(next := before.next + 2)
      ensures trio.Some? ==> trio.value == NewTrio(before) && state == WithTrio(before)
    {
      var context := Allocate();
      if attempt.NoScratch? {
        assert before.live + {urb} + {context} == before.live + {context} + {urb};
        FreeNew(urb, before.live + {context});
        FreeNew(context, before.live);
        return None;
      }
      var scratch := Allocate();
      assert before.live + {urb} + {context} + {scratch} == before.live + {urb, context, scratch};
      return Some(Trio(urb, context, scratch));
    }

    /** UsbStartReadInterruptPipeLoop: there is a block for everything, or none at all. */
    method StartLoop(attempt: Attempt)
      requires Valid() && forall b :: b in state.live ==> b < state.next
      modifies this
      ensures state == Start(old(state), attempt)
      ensures Valid()
    {
      state := state.(assertFailed := state.assertFailed || pollIrp.Some?);
      TryStart(attempt);
    }

    method TryStart(attempt: Attempt)
      requires Valid() && forall b :: b in state.live ==> b < state.next
      modifies this
      ensures state == Attempted(old(state), attempt)
      ensures Valid()
    {
      if attempt.NoPipe? {
        return;
      }
      ghost var before := state;
      var trio := AllocateTrio(attempt);
      if trio.Some? {
        StartWith(trio.value, attempt, before);
      }
    }

    /** Start once it has its buffers. */
    method StartWith(trio: Trio, attempt: Attempt, ghost before: Poll)
      requires Valid() && forall b :: b in before.live ==> b < before.next
      requires attempt.NoIrp? || attempt.BeingRemoved? || attempt.Started?
      requires trio == NewTrio(before) && state == WithTrio(before)
      modifies this
      ensures state == Attempted(before, attempt)
      ensures Valid()
    {
      if attempt.NoIrp? {
        FreeAll(trio, before.live);
      } else {
        StartWithIrp(trio, attempt, before);
      }
    }

    /** The IRP, and the remove lock that it needs. */
    method StartWithIrp(trio: Trio, attempt: Attempt, ghost before: Poll)
      requires Valid() && forall b :: b in before.live ==> b < before.next
      requires attempt.BeingRemoved? || attempt.Started?
      requires trio == NewTrio(before) && state == WithTrio(before)
      modifies this
      ensures state == Attempted(before, attempt)
      ensures Valid()
    {
      var irp := Allocate();
      SetEvent(false);
      if attempt.BeingRemoved? {
        FreeNew(irp, before.live + {trio.urb, trio.context, trio.scratch});
        FreeAll(trio, before.live);
      } else {
        Launch(irp, trio, attempt.outcome, before);
      }
    }

    /** The first call. */
    method Launch(irp: nat, trio: Trio, outcome: Outcome, ghost before: Poll)
      requires Valid() && irp == before.next + 3 && trio == NewTrio(before)
      requires state == WithTrio(before).(next := irp + 1, live := WithTrio(before).live + {irp}, pollIrpEvent := false)
      modifies this
      ensures state == Call(Launched(before), irp, outcome)
      ensures Valid()
    {
      assert state.live == before.live + {trio.urb, trio.context, trio.scratch, irp};
      Publish(irp, trio);
      assert state == Launched(before);
      var failed := CallDriver(irp, outcome);
    }

    /** The IRP blocks a remove and is in the device extension for Stop to find. */
    method Publish(irp: nat, trio: Trio)
      requires Valid()
      modifies this
      ensures state == old(state).(lockRefs := old(state).lockRefs + 1,
                                   pollIrp := Some(irp), interruptContext := Some(trio))
      ensures Valid()
    {
      lockRefs := lockRefs + 1;
      pollIrp := Some(irp);
      state := state.(lockRefs := lockRefs, pollIrp := pollIrp);
      SetContext(Some(trio));
    }

    method FreeNew(block: nat, ghost left: set<nat>)
      requires Valid() && state.live == left + {block} && block !in left
      modifies this`live, this`state
      ensures state == old(state).(live := left) && Valid()
    {
      FreeBlock(block);
      assert left + {block} - {block} == left;
    }

    method FreeAll(t: Trio, ghost left: set<nat>)
      requires Valid() && state.live == left + {t.urb, t.context, t.scratch}
      requires t.urb !in left && t.context !in left && t.scratch !in left
      requires t.urb != t.context && t.urb != t.scratch && t.context != t.scratch
      modifies this`live, this`state
      ensures state == old(state).(live := left) && Valid()
    {
      FreeBlock(t.urb);
      FreeBlock(t.context);
      FreeBlock(t.scratch);
      assert left + {t.urb, t.context, t.scratch} - {t.urb} - {t.context} - {t.scratch} == left;
    }

    /** UsbStopReadInterruptPipeLoop until it waits: None tells that there is nothing to stop. */
    method TakePollIrp() returns (irp: Option<nat>)
      requires Valid()
      modifies this
      ensures state == Take(old(state)) && irp == old(state).pollIrp
      ensures Valid()
    {
      irp := pollIrp;
      ghost var taken := Take(state);
      if pollIrp.Some? {
        pollIrp := None;
      }
      state := taken;
    }

    /** IoCancelIrp, once for every turn of the wait. */
    method Cancel(irp: nat, ghost k: nat)
      requires Valid() && k < |state.waiting| && state.waiting[k] == irp
      modifies this
      ensures state == Step(old(state), Cancels(k)) && Valid()
    {
      UseBlock(irp);
      cancelled := cancelled + {irp};
      state := state.(cancelled := cancelled);
    }

    /** The end of UsbStopReadInterruptPipeLoop: the IRP goes, and with it its reference on the remove lock. */
    method FinishStop(irp: nat, ghost k: nat)
      requires Valid() && k < |state.waiting| && state.waiting[k] == irp && pollIrpEvent
      modifies this`live, this`lockRefs, this`state
      ensures live == old(live) - {irp} && lockRefs == old(lockRefs) - 1
      ensures state == Finish(old(state), k)
      ensures Valid()
    {
      ghost var finished := Finish(state, k);
      FreeBlock(irp);
      lockRefs := lockRefs - 1;
      state := finished;
    }

    /** IOCTL_INTERNAL_PARDOT3_CONNECT; false if dot4 is connected already. */
    method Connect() returns (ok: bool)
      requires Valid() && state.ioctl.Ready?
      modifies this
      ensures state == Step(old(state), Connects) && ok == !old(state).connected && Valid()
    {
      ok := !connected;
      connected := true;
      state := state.(connected := true);
    }

    /** IOCTL_INTERNAL_PARDOT3_SIGNAL up to the start of the loop. */
    method AcceptEvent(valid: bool, hasPipe: bool) returns (mustStart: bool)
      requires Valid() && state.ioctl.Ready?
      modifies this
      ensures state == Signal(old(state), valid, hasPipe) && (mustStart <==> state.ioctl.Starting?)
      ensures Valid()
    {
      ghost var next := Signal(state, valid, hasPipe);
      if connected && !dot4Event && valid {
        dot4Event := true;
        mustStart := hasPipe;
      } else {
        mustStart := false;
      }
      state := next;
    }

    /** The rest of IOCTL_INTERNAL_PARDOT3_DISCONNECT, after its Stop. */
    method ClearConnection()
      requires Valid() && state.ioctl.Clearing?
      modifies this
      ensures state == Step(old(state), Clears) && Valid()
    {
      dot4Event, connected := false, false;
      state := state.(dot4Event := false, connected := false, ioctl := Ready);
    }
  }
}
