/** The notification routines of the biometric device library, over the pool and the queues they update in place. */
module Notification {
  import opened Base
  import opened RateLimit
  import opened Runs
  import opened NotificationSpec
  import opened NotificationFlow

  /** BDLControlChangeDpc from start to end when nothing comes between; `room` allocations succeed. */
  function RunDpc(p: Pipe, room: nat): Pipe
    decreases room
  {
    if room == 0 then p.(phase := Idle)
    else if p.isr == [] then DpcFinish(DpcTake(p))
    else RunDpc(DpcPut(DpcTake(p)), room - 1)
  }

  /** The run of the DPC is made of steps of the machine. */
  lemma {:induction false} RunDpcReachable(start: int, slots: seq<Slot>, p: Pipe, room: nat)
    requires FreshPool(slots) && Reachable(M(start, slots), p) && p.phase.Draining?
    ensures Reachable(M(start, slots), RunDpc(p, room))
    decreases room
  {
    if room == 0 {
      StepReachable(M(start, slots), p, AllocationFails);
    } else if p.isr == [] {
      EndReachable(start, slots, p);
    } else {
      MoveReachable(start, slots, p);
      RunDpcReachable(start, slots, DpcPut(DpcTake(p)), room - 1);
    }
  }

  lemma {:induction false} EndReachable(start: int, slots: seq<Slot>, p: Pipe)
    requires Reachable(M(start, slots), p) && p.phase.Draining? && p.isr == []
    ensures Reachable(M(start, slots), DpcFinish(DpcTake(p)))
  {
    StepReachable(M(start, slots), p, TakesNext);
    StepReachable(M(start, slots), DpcTake(p), FinishesDpc);
  }

  lemma MoveReachable(start: int, slots: seq<Slot>, p: Pipe)
    requires FreshPool(slots) && Reachable(M(start, slots), p) && p.phase.Draining? && p.isr != []
    ensures Reachable(M(start, slots), DpcPut(DpcTake(p))) && DpcPut(DpcTake(p)).phase.Draining?
  {
    ReachableHead(start, slots, p);
    StepReachable(M(start, slots), p, TakesNext);
    StepReachable(M(start, slots), DpcTake(p), PutsItem);
  }

  lemma ReachableHead(start: int, slots: seq<Slot>, p: Pipe)
    requires FreshPool(slots) && Reachable(M(start, slots), p)
    ensures p.isr != [] ==> p.isr[0] < |p.slots|
  {
    var run :| Legal(M(start, slots), run) && After(M(start, slots), run) == p;
    RunSound(start, slots, run);
  }

  /** Everything that has reached the library but not its clients, for a DPC that holds nothing. */
  function Backlog(p: Pipe): seq<Item> {
    p.ioctl + IsrItems(p.slots, p.isr)
  }

  lemma MoveKeepsBacklog(p: Pipe)
    requires PoolMatches(p.slots, p.isr) && p.phase.Draining? && p.isr != []
    ensures var next := DpcPut(DpcTake(p));
            && PoolMatches(next.slots, next.isr) && next.phase.Draining? && next.isr == p.isr[1..]
            && Backlog(next) == Backlog(p) && next.irp == p.irp && next.delivered == p.delivered
  {
    Dequeue(p.slots, p.isr);
    var next := DpcPut(DpcTake(p));
    assert p.ioctl + ([p.slots[p.isr[0]].item] + IsrItems(next.slots, next.isr)) == Backlog(next);
  }

  lemma EndServes(p: Pipe)
    requires p.isr == []
    ensures Backlog(p) == p.ioctl
    ensures var end := DpcFinish(DpcTake(p));
            end.isr == []
            && (if p.irp.Some? && p.ioctl != [] then end.delivered == p.delivered + [p.ioctl[0]] && end.irp == None
                else end.delivered == p.delivered && end.irp == p.irp)
  {
  }

  /**
   * What a wakeup is for: with enough memory the DPC leaves the interrupt queue empty, and the pended
   * request gets the oldest item there is; with less it moves as many items as it got memory for.
   */
  lemma {:induction false} DpcServes(p: Pipe, room: nat)
    requires PoolMatches(p.slots, p.isr) && p.phase.Draining?
    ensures RunDpc(p, room).isr == p.isr[if room < |p.isr| then room else |p.isr|..]
    ensures room > |p.isr| && p.irp.Some? && Backlog(p) != []
        ==> RunDpc(p, room).delivered == p.delivered + [Backlog(p)[0]] && RunDpc(p, room).irp == None
    ensures room <= |p.isr| || p.irp == None || Backlog(p) == []
        ==> RunDpc(p, room).delivered == p.delivered && RunDpc(p, room).irp == p.irp
    decreases room
  {
    if room > 0 && p.isr != [] {
      MoveKeepsBacklog(p);
      var next := DpcPut(DpcTake(p));
      DpcServes(next, room - 1);
      assert RunDpc(p, room) == RunDpc(next, room - 1);
      assert room - 1 <= |p.isr[1..]| ==> p.isr[1..][room - 1..] == p.isr[room..];
    } else if room > 0 {
      EndServes(p);
    }
  }

  class NotificationPipe {
    var limiter: Limiter
    const pool: array<Slot>
    var isr: seq<nat>
    var ioctl: seq<Item>
    var irp: Option<nat>
    var registrations: seq<Control>
    /** The numbers that the next item and the next pended request get; they stand for addresses. */
    var nextItem: nat
    var nextRequest: nat
    /** The state the machine is in, with its history. */
    ghost var state: Pipe

    ghost predicate Valid()
      reads this, pool
    {
      && (forall k :: 0 <= k < |isr| ==> isr[k] < pool.Length)
      && limiter == state.limiter
      && pool[..] == state.slots
      && isr == state.isr
      && ioctl == state.ioctl
      && irp == state.irp
      && registrations == state.registrations
      && nextItem == |state.accepted|
      && nextRequest == state.pended
    }

    constructor (start: int, item: Item)
      ensures Valid() && fresh(pool)
      ensures FreshPool(pool[..]) && state == Initial(start, pool[..])
    {
      pool := new Slot[POOL_SIZE](_ => Slot(false, item));
      limiter, isr, ioctl, irp, registrations := Limiter(0, start), [], [], None, [];
      nextItem, nextRequest := 0, 0;
      new;
      state := Initial(start, pool[..]);
    }

    method FindFree() returns (i: nat)
      ensures i == FirstFree(pool[..])
    {
      i := 0;
      while i < pool.Length && pool[i].used
        invariant i <= pool.Length
        invariant FirstFree(pool[..]) == i + FirstFree(pool[i..])
      {
        assert pool[i..][1..] == pool[i + 1..];
        i := i + 1;
      }
    }

    method ControlChange(control: Control, value: int, now: int, increment: nat)
      requires Valid()
      modifies this, pool
      ensures state == NotificationSpec.ControlChange(old(state), control, value, now, increment)
      ensures Valid()
    {
      ghost var next := NotificationSpec.ControlChange(state, control, value, now, increment);
      if limiter.numCalls <= 8 {
        limiter := limiter.(numCalls := limiter.numCalls + 1);
      } else if TimeInSec(limiter.start, now, increment) == 0 {
        return;
      } else {
        limiter := Limiter(1, now);
      }
      var i := FindFree();
      if i < pool.Length {
        pool[i] := Slot(true, Item(nextItem, control, value));
        isr := isr + [i];
        nextItem := nextItem + 1;
      }
      state := next;
    }

    /** The head of the interrupt queue leaves it and frees its slot; None tells that the queue is empty. */
    method TakeNext() returns (item: Option<Item>)
      requires Valid() && state.phase.Draining?
      modifies this, pool
      ensures state == DpcTake(old(state))
      ensures item.None? <==> old(state).isr == []
      ensures item.Some? ==> state.phase == Holding(item.value)
      ensures Valid()
    {
      ghost var next := DpcTake(state);
      item := None;
      if isr != [] {
        var i := isr[0];
        item := Some(pool[i].item);
        isr := isr[1..];
        pool[i] := Slot(false, pool[i].item);
      }
      state := next;
    }

    method PutItem(item: Item)
      requires Valid() && state.phase == Holding(item)
      modifies this
      ensures state == DpcPut(old(state))
      ensures Valid()
    {
      ioctl := ioctl + [item];
      state := DpcPut(state);
    }

    /** The pended request and the item for it are taken together, so nobody else can complete it. */
    method FinishDpc() returns (completed: Option<(nat, Item)>)
      requires Valid() && state.phase.Completing?
      modifies this
      ensures state == DpcFinish(old(state))
      ensures Valid()
      ensures completed == if Waiting(old(state)) then Some((old(state).irp.value, old(state).ioctl[0])) else None
      ensures state.delivered == old(state).delivered + if completed.Some? then [completed.value.1] else []
      ensures completed.Some?
          ==> && old(ioctl) == [completed.value.1] + ioctl && irp.None?
              && state.completions
                 == old(state).completions + [Completion(completed.value.0, Notified(completed.value.1))]
    {
      completed := None;
      ghost var next := DpcFinish(state);
      if ioctl != [] && irp.Some? {
        completed := Some((irp.value, ioctl[0]));
        ioctl := ioctl[1..];
        irp := None;
      }
      state := next;
    }

    /** BDLControlChangeDpc; room tells how many allocations succeed. */
    method Dpc(room: nat)
      requires Valid() && state.dpcQueued && state.phase.Idle?
      modifies this, pool
      ensures state == RunDpc(old(state).(dpcQueued := false, phase := Draining), room)
      ensures Valid()
    {
      state := state.(dpcQueued := false, phase := Draining);
      ghost var start := state;
      var left := room;
      while true
        invariant Valid() && state.phase.Draining?
        invariant RunDpc(state, left) == RunDpc(start, room)
        decreases left
      {
        if left == 0 {
          state := state.(phase := Idle);
          return;
        }
        var item := TakeNext();
        if item.None? {
          break;
        }
        PutItem(item.value);
        left := left - 1;
      }
      var completed := FinishDpc();
    }

    /** BDLIOCTL_GetNotification. */
    method GetNotification() returns (answer: Answer)
      requires Valid()
      modifies this
      ensures answer == Asked(old(state)) && state == NotificationSpec.GetNotification(old(state))
      ensures answer.Given? <==> |state.delivered| == |old(state).delivered| + 1
      ensures state.delivered == old(state).delivered + if answer.Given? then [answer.item] else []
      ensures answer.Given? ==> old(ioctl) == [answer.item] + ioctl
      ensures answer.Busy? <==> old(irp).Some?
      ensures answer.NothingRegistered? <==> old(irp).None? && registrations == []
      ensures answer.Pending? <==> old(irp).None? && irp.Some?
      ensures Valid()
    {
      ghost var next := NotificationSpec.GetNotification(state);
      if irp.Some? {
        answer := Busy;
      } else if registrations == [] {
        answer := NothingRegistered;
      } else if ioctl == [] {
        irp := Some(nextRequest);
        nextRequest := nextRequest + 1;
        answer := Pending;
      } else {
        answer := Given(ioctl[0]);
        ioctl := ioctl[1..];
      }
      state := next;
    }

    /** Search the registrations for a control. */
    method FindRegistration(control: Control) returns (found: bool, i: nat)
      ensures found <==> control in registrations
      ensures found
          ==> i < |registrations|
              && RemoveFirst(registrations, control) == registrations[..i] + registrations[i + 1..]
    {
      i := 0;
      while i < |registrations| && registrations[i] != control
        invariant i <= |registrations| && control !in registrations[..i]
        invariant RemoveFirst(registrations, control) == registrations[..i] + RemoveFirst(registrations[i..], control)
      {
        PrefixSnoc(registrations, i);
        RemoveFirstNext(registrations, i, control);
        i := i + 1;
      }
      found := i < |registrations|;
      if found {
        assert registrations[i..][1..] == registrations[i + 1..];
      } else {
        WholePrefix(registrations);
      }
    }

    /** The items in the second queue that are not about the control. */
    method Purge(control: Control)
      modifies this`ioctl
      ensures ioctl == OfOthers(old(ioctl), control)
    {
      var i := 0;
      var left := [];
      while i < |ioctl|
        invariant i <= |ioctl| && ioctl == old(ioctl)
        invariant left + OfOthers(ioctl[i..], control) == OfOthers(ioctl, control)
      {
        OfOthersNext(left, ioctl, i, control);
        if ioctl[i].control != control {
          left := left + [ioctl[i]];
        }
        i := i + 1;
      }
      ioctl := left;
    }

    /** BDLIOCTL_RegisterNotify with fRegister clear; the request to complete when the last registration goes. */
    method Unregister(control: Control) returns (ok: bool, completed: Option<nat>)
      requires Valid()
      modifies this
      ensures state == NotificationSpec.Unregister(old(state), control)
      ensures ok <==> control in old(state).registrations
      ensures completed == if ok && state.registrations == [] then old(state).irp else None
      ensures Valid()
    {
      ghost var next := NotificationSpec.Unregister(state, control);
      var i;
      completed := None;
      ok, i := FindRegistration(control);
      if !ok {
        return;
      }
      registrations := registrations[..i] + registrations[i + 1..];
      Purge(control);
      if registrations == [] && irp.Some? {
        completed := irp;
        irp := None;
      }
      state := next;
    }

    /** BDLIOCTL_RegisterNotify with fRegister set. */
    method Register(control: Control, hasRoom: bool) returns (ok: bool)
      requires Valid()
      modifies this
      ensures state == NotificationSpec.Register(old(state), control, hasRoom)
      ensures ok <==> control !in old(state).registrations && hasRoom
      ensures Valid()
    {
      var found, i := FindRegistration(control);
      if found || !hasRoom {
        return false;
      }
      registrations := [control] + registrations;
      state := NotificationSpec.Register(state, control, hasRoom);
      return true;
    }

    /** BDLCancelGetNotificationIRP. */
    method Cancel() returns (completed: Option<nat>)
      requires Valid()
      modifies this
      ensures state == NotificationSpec.Cancel(old(state)) && completed == old(state).irp
      ensures Valid()
    {
      completed := irp;
      irp := None;
      state := NotificationSpec.Cancel(state);
    }

    /** Take everything off the interrupt queue and free its slots. */
    method FreeSlots()
      requires forall k :: 0 <= k < |isr| ==> isr[k] < pool.Length
      modifies this`isr, pool
      ensures isr == [] && pool[..] == Freed(old(pool[..]), old(isr))
    {
      ghost var slots := pool[..];
      ghost var freed: seq<nat> := [];
      FreedNone(slots);
      while isr != []
        invariant freed + isr == old(isr) && forall k :: 0 <= k < |isr| ==> isr[k] < pool.Length
        invariant pool[..] == Freed(slots, freed)
      {
        var i := isr[0];
        FreedNext(slots, freed, i);
        assert freed + isr == freed + [i] + isr[1..];
        pool[i] := Slot(false, pool[i].item);
        freed := freed + [i];
        isr := isr[1..];
      }
      assert freed + [] == freed;
    }

    /** The end of BDLCleanupNotificationStruct: empty both queues and free the slots. */
    method CleanupQueues()
      requires Valid() && state.registrations == []
      modifies this, pool
      ensures state == NotificationSpec.CleanupQueues(old(state))
      ensures Valid()
    {
      FreeSlots();
      ioctl := [];
      state := NotificationSpec.CleanupQueues(state);
    }
  }

  lemma {:induction false} RemoveFirstNext(s: seq<Control>, i: nat, control: Control)
    requires i < |s| && s[i] != control
    ensures s[..i] + RemoveFirst(s[i..], control) == s[..i + 1] + RemoveFirst(s[i + 1..], control)
  {
    assert s[i..][1..] == s[i + 1..];
    assert s[..i] + [s[i]] == s[..i + 1];
  }

  lemma {:induction false} OfOthersNext(left: seq<Item>, s: seq<Item>, i: nat, control: Control)
    requires i < |s|
    ensures left + OfOthers(s[i..], control)
         == (if s[i].control == control then left else left + [s[i]]) + OfOthers(s[i + 1..], control)
  {
    assert s[i..][1..] == s[i + 1..];
  }

  lemma FreedNone(slots: seq<Slot>)
    ensures Freed(slots, []) == slots
  {
  }

  lemma FreedNext(slots: seq<Slot>, freed: seq<nat>, i: nat)
    requires i < |slots|
    ensures Freed(slots, freed + [i]) == Freed(slots, freed)[i := Slot(false, Freed(slots, freed)[i].item)]
  {
  }
}
