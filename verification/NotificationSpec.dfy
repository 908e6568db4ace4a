/**
 * The path of a control change through the biometric device library: a fixed pool and a queue filled by
 * the device driver's interrupt routine, a DPC that moves items to a second queue, and one pended request
 * that takes them (bio/bdl/bdl.c, bio/bdl/bdlioctl.c). One step is one region under a lock.
 */
module NotificationSpec {
  import opened Base
  import opened RateLimit
  import opened Runs

  datatype Control = Control(component: int, channel: int, control: int)

  /** A control change; the serial number counts accepted changes and is not in the source. */
  datatype Item = Item(serial: nat, control: Control, value: int)

  datatype Slot = Slot(used: bool, item: Item)

  /** What BDLControlChangeDpc is about to do. */
  datatype Phase = Idle | Draining | Holding(item: Item) | Completing

  datatype Outcome = Notified(item: Item) | NoMoreEntries | Cancelled

  /** The n-th pended request was completed. */
  datatype Completion = Completion(irp: nat, outcome: Outcome)

  datatype Pipe = Pipe(
    limiter: Limiter,
    slots: seq<Slot>,
    isr: seq<nat>,
    dpcQueued: bool,
    phase: Phase,
    ioctl: seq<Item>,
    irp: Option<nat>,
    registrations: seq<Control>,
    // history
    accepted: seq<Item>,
    delivered: seq<Item>,
    purged: set<nat>,
    pended: nat,
    completions: seq<Completion>
  )

  const POOL_SIZE: nat := 20

  function Initial(start: int, slots: seq<Slot>): Pipe {
    Pipe(Limiter(0, start), slots, [], false, Idle, [], None, [], [], [], {}, 0, [])
  }

  /** The first slot of the pool that is free, or its size. */
  function FirstFree(slots: seq<Slot>): (i: nat)
    ensures i <= |slots|
    ensures i < |slots| ==> !slots[i].used
    ensures forall j :: 0 <= j < i ==> slots[j].used
  {
    if slots == [] then 0
    else if !slots[0].used then 0
    else 1 + FirstFree(slots[1..])
  }

  /** bdliControlChange: a change that comes too often, or finds no free slot, is lost. */
  function ControlChange(p: Pipe, control: Control, value: int, now: int, increment: nat): Pipe {
    if Admits(p.limiter, now, increment) then
      var charged := p.(limiter := Charge(p.limiter, now, increment));
      var i := FirstFree(p.slots);
      if i == |p.slots| then charged
      else
        var item := Item(|p.accepted|, control, value);
        charged.(slots := p.slots[i := Slot(true, item)], isr := p.isr + [i], dpcQueued := true,
                 accepted := p.accepted + [item])
    else p
  }

  /** One pass of the drain loop that found memory: take the head of the interrupt queue, or leave the loop. */
  function DpcTake(p: Pipe): Pipe {
    if p.isr == [] then p.(phase := Completing)
    else if p.isr[0] < |p.slots| then
      var item := p.slots[p.isr[0]].item;
      p.(isr := p.isr[1..], slots := p.slots[p.isr[0] := Slot(false, item)], phase := Holding(item))
    else p
  }

  function DpcPut(p: Pipe): Pipe {
    if p.phase.Holding? then p.(ioctl := p.ioctl + [p.phase.item], phase := Draining) else p
  }

  function Completed(p: Pipe, outcome: Outcome): Pipe {
    if p.irp.Some? then p.(irp := None, completions := p.completions + [Completion(p.irp.value, outcome)]) else p
  }

  function Deliver(p: Pipe): Pipe
    requires p.ioctl != []
  {
    p.(ioctl := p.ioctl[1..], delivered := p.delivered + [p.ioctl[0]])
  }

  /** The end of the DPC: the pended request gets the head of the queue. */
  function DpcFinish(p: Pipe): Pipe {
    var idle := p.(phase := Idle);
    if p.ioctl != [] && p.irp.Some? then Completed(Deliver(idle), Notified(p.ioctl[0])) else idle
  }

  datatype Answer = Busy | NothingRegistered | Pending | Given(item: Item)

  /** BDLIOCTL_GetNotification. */
  function Asked(p: Pipe): Answer {
    if p.irp.Some? then Busy
    else if p.registrations == [] then NothingRegistered
    else if p.ioctl == [] then Pending
    else Given(p.ioctl[0])
  }

  function GetNotification(p: Pipe): Pipe {
    match Asked(p)
    case Busy => p
    case NothingRegistered => p
    case Pending => p.(irp := Some(p.pended), pended := p.pended + 1)
    case Given(_) => if p.ioctl != [] then Deliver(p) else p
  }

  /** A control can be registered once; hasRoom tells whether the pool had room for the entry. */
  function Register(p: Pipe, control: Control, hasRoom: bool): Pipe {
    if control in p.registrations || !hasRoom then p
    else p.(registrations := [control] + p.registrations)
  }

  function OfOthers(items: seq<Item>, control: Control): seq<Item> {
    if items == [] then []
    else if items[0].control == control then OfOthers(items[1..], control)
    else [items[0]] + OfOthers(items[1..], control)
  }

  function SerialsOf(items: seq<Item>, control: Control): set<nat> {
    set i | 0 <= i < |items| && items[i].control == control :: items[i].serial
  }

  function Serials(items: seq<Item>): set<nat> {
    set i | 0 <= i < |items| :: items[i].serial
  }

  /** Unregistering purges the second queue, and the last one to go completes the pended request. */
  function Unregister(p: Pipe, control: Control): Pipe {
    if control !in p.registrations then p
    else
      var left := p.(registrations := RemoveFirst(p.registrations, control), ioctl := OfOthers(p.ioctl, control),
                     purged := p.purged + SerialsOf(p.ioctl, control));
      if left.registrations == [] then Completed(left, NoMoreEntries) else left
  }

  /** The cancel routine takes whatever request is pended. */
  function Cancel(p: Pipe): Pipe {
    Completed(p, Cancelled)
  }

  function CleanupNext(p: Pipe): Pipe {
    if p.registrations == [] then p else p.(registrations := p.registrations[1..])
  }

  function Freed(slots: seq<Slot>, isr: seq<nat>): (r: seq<Slot>)
    ensures |r| == |slots|
  {
    seq(|slots|, i requires 0 <= i < |slots| => slots[i].(used := slots[i].used && i !in isr))
  }

  function IsrItems(slots: seq<Slot>, isr: seq<nat>): seq<Item> {
    if isr == [] then []
    else if isr[0] < |slots| then [slots[isr[0]].item] + IsrItems(slots, isr[1..])
    else IsrItems(slots, isr[1..])
  }

  /** BDLCleanupNotificationStruct once no registration is left: both queues are emptied. */
  function CleanupQueues(p: Pipe): Pipe {
    p.(isr := [], slots := Freed(p.slots, p.isr), ioctl := [],
       purged := p.purged + Serials(p.ioctl) + Serials(IsrItems(p.slots, p.isr)))
  }

  datatype Event =
    | ChangesControl(control: Control, value: int, now: int, increment: nat)
    | StartsDpc
    | TakesNext
    | PutsItem
    | FinishesDpc
    | AllocationFails
    | Asks
    | Registers(control: Control, hasRoom: bool)
    | Unregisters(control: Control)
    | Cancels
    | CleansNext
    | CleansQueues

  predicate Enabled(p: Pipe, e: Event) {
    match e
    case StartsDpc => p.dpcQueued && p.phase.Idle?
    case TakesNext => p.phase.Draining?
    case PutsItem => p.phase.Holding?
    case FinishesDpc => p.phase.Completing?
    case AllocationFails => p.phase.Draining?
    case CleansQueues => p.registrations == []
    case _ => true
  }

  function Step(p: Pipe, e: Event): Pipe {
    match e
    case ChangesControl(control, value, now, increment) => ControlChange(p, control, value, now, increment)
    case StartsDpc => p.(dpcQueued := false, phase := Draining)
    case TakesNext => DpcTake(p)
    case PutsItem => DpcPut(p)
    case FinishesDpc => DpcFinish(p)
    case AllocationFails => p.(phase := Idle)
    case Asks => GetNotification(p)
    case Registers(control, hasRoom) => Register(p, control, hasRoom)
    case Unregisters(control) => Unregister(p, control)
    case Cancels => Cancel(p)
    case CleansNext => CleanupNext(p)
    case CleansQueues => CleanupQueues(p)
  }

  ghost predicate FreshPool(slots: seq<Slot>) {
    |slots| == POOL_SIZE && forall i :: 0 <= i < |slots| ==> !slots[i].used
  }

  ghost function M(start: int, slots: seq<Slot>): Machine<Pipe, Event> {
    Machine(Initial(start, slots), Enabled, Step)
  }
}
