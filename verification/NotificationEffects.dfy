/**
 * What each step of the notification pipeline (bio/bdl/bdl.c, bio/bdl/bdlioctl.c) does for its clients: which item a
 * request is handed, how requests are completed, what is accepted, purged and registered, and when the DPC is queued.
 */
module NotificationEffects {
  import opened Base
  import opened RateLimit
  import opened NotificationSpec
  import opened NotificationFlow
  import opened Runs

  /** What the step hands to a client: as the answer to a request, or with the completion of the pended one. */
  function Handed(p: Pipe, e: Event): seq<Item> {
    match e
    case Asks => if Asked(p).Given? then [Asked(p).item] else []
    case FinishesDpc => NotifiedSince(p, Step(p, e))
    case _ => []
  }

  /** The item of the completion that was added last, if one was added and has an item. */
  function NotifiedSince(p: Pipe, q: Pipe): seq<Item> {
    if |q.completions| == |p.completions| + 1 && q.completions[|p.completions|].outcome.Notified?
    then [q.completions[|p.completions|].outcome.item] else []
  }

  /** Items are handed over from the head of the second queue, one at a time, and only so do they leave as delivered. */
  lemma HandsOver(p: Pipe, e: Event)
    requires Enabled(p, e)
    ensures Step(p, e).delivered == p.delivered + Handed(p, e)
    ensures Handed(p, e) != [] ==> p.ioctl != [] && Handed(p, e) == [p.ioctl[0]] && Step(p, e).ioctl == p.ioctl[1..]
  {
  }

  ghost function HandedOver(start: int, slots: seq<Slot>, run: seq<Event>): seq<Item> {
    if run == [] then []
    else
      var before := run[..|run| - 1];
      HandedOver(start, slots, before) + Handed(After(M(start, slots), before), run[|run| - 1])
  }

  /** In every run the items handed to clients are the delivered ones: accepted, in order, each once. */
  lemma {:induction false} ClientsGetDelivered(start: int, slots: seq<Slot>, run: seq<Event>)
    requires FreshPool(slots) && Legal(M(start, slots), run)
    ensures var p, handed := After(M(start, slots), run), HandedOver(start, slots, run);
            handed == p.delivered && Rising(handed) && Unaltered(handed, p.accepted)
  {
    HandedIsDelivered(start, slots, run);
    NothingLost(start, slots, run);
    RisingPrefix(After(M(start, slots), run));
  }

  lemma RisingPrefix(p: Pipe)
    requires Rising(Flow(p))
    ensures Rising(p.delivered)
  {
    assert forall i :: 0 <= i < |p.delivered| ==> Flow(p)[i] == p.delivered[i];
  }

  lemma {:induction false} HandedIsDelivered(start: int, slots: seq<Slot>, run: seq<Event>)
    requires Legal(M(start, slots), run)
    ensures HandedOver(start, slots, run) == After(M(start, slots), run).delivered
  {
    if run != [] {
      HandedIsDelivered(start, slots, run[..|run| - 1]);
      HandsOver(After(M(start, slots), run[..|run| - 1]), run[|run| - 1]);
    }
  }

  /** The four answers of a request, and which of them pends it. */
  lemma AnswersExactly(p: Pipe)
    ensures Asked(p).Busy? <==> p.irp.Some?
    ensures Asked(p).NothingRegistered? <==> p.irp.None? && p.registrations == []
    ensures Asked(p).Given? <==> p.irp.None? && p.registrations != [] && p.ioctl != []
    ensures Asked(p).Given? ==> Asked(p).item == p.ioctl[0]
    ensures Asked(p).Pending? <==> p.irp.None? && Step(p, Asks).irp == Some(p.pended)
  {
  }

  /** How the step completes the pended request, if it does. */
  predicate Completes(p: Pipe, e: Event, outcome: Outcome) {
    match e
    case FinishesDpc => p.ioctl != [] && outcome == Notified(p.ioctl[0])
    case Unregisters(control) => p.registrations == [control] && outcome == NoMoreEntries
    case Cancels => outcome == Cancelled
    case _ => false
  }

  lemma CompletesExactly(p: Pipe, e: Event, outcome: Outcome)
    requires Enabled(p, e) && p.irp.Some? && Distinct(p.registrations)
    ensures Completes(p, e, outcome)
       <==> Step(p, e).irp.None? && Step(p, e).completions == p.completions + [Completion(p.irp.value, outcome)]
    ensures Step(p, e).irp == p.irp <==> Step(p, e).completions == p.completions
  {
    var made := if e.FinishesDpc? && p.ioctl != [] then Notified(p.ioctl[0])
                else if e.Cancels? then Cancelled else NoMoreEntries;
    SnocSame(p.completions, Completion(p.irp.value, made), Completion(p.irp.value, outcome));
    if e.Unregisters? && e.control in p.registrations {
      LastOneGoes(p.registrations, e.control);
    }
  }

  lemma SnocSame<T>(s: seq<T>, a: T, b: T)
    ensures s + [a] == s + [b] <==> a == b
    ensures s + [a] != s
  {
    assert (s + [a])[|s|] == a && (s + [b])[|s|] == b;
  }

  lemma LastOneGoes(s: seq<Control>, x: Control)
    requires x in s
    ensures RemoveFirst(s, x) == [] <==> s == [x]
  {
  }

  /** A change that finds a free slot and does not come too often. */
  ghost predicate Accepts(p: Pipe, e: Event) {
    e.ChangesControl? && Admits(p.limiter, e.now, e.increment) && exists i :: 0 <= i < |p.slots| && !p.slots[i].used
  }

  /** Exactly such a change is accepted, with its control and value; it is put last in the interrupt queue. */
  lemma AcceptsExactly(p: Pipe, e: Event)
    requires Conserved(p) && Enabled(p, e)
    ensures var q := Step(p, e);
            if Accepts(p, e) then
              && q.accepted == p.accepted + [Item(|p.accepted|, e.control, e.value)]
              && IsrItems(q.slots, q.isr) == IsrItems(p.slots, p.isr) + [Item(|p.accepted|, e.control, e.value)]
            else q.accepted == p.accepted
  {
    if Accepts(p, e) {
      ChangeAccepted(p, e.control, e.value, e.now, e.increment);
    }
  }

  lemma ChangeAccepted(p: Pipe, control: Control, value: int, now: int, increment: nat)
    requires PoolMatches(p.slots, p.isr) && Accepts(p, ChangesControl(control, value, now, increment))
    ensures var q, item := ControlChange(p, control, value, now, increment), Item(|p.accepted|, control, value);
            && q.accepted == p.accepted + [item]
            && IsrItems(q.slots, q.isr) == IsrItems(p.slots, p.isr) + [item]
  {
    var i := FirstFree(p.slots);
    assert i < |p.slots|;
    Enqueue(p.slots, p.isr, i, Item(|p.accepted|, control, value));
  }

  /** The DPC is queued exactly for an accepted change, until it starts. */
  lemma QueuesDpcExactly(p: Pipe, e: Event)
    requires Enabled(p, e)
    ensures Step(p, e).dpcQueued <==> Accepts(p, e) || (p.dpcQueued && !e.StartsDpc?)
  {
  }

  /** Every change is counted by the rate limit, whether it is accepted or not, and nothing else is. */
  lemma LimiterCharged(p: Pipe, e: Event)
    requires Enabled(p, e)
    ensures Step(p, e).limiter == if e.ChangesControl? then Charge(p.limiter, e.now, e.increment) else p.limiter
  {
  }

  /** The serial numbers that a step purges. */
  ghost predicate Purges(p: Pipe, e: Event, item: Item) {
    match e
    case Unregisters(control) => item in p.ioctl && item.control == control && control in p.registrations
    case CleansQueues => item in p.ioctl || item in IsrItems(p.slots, p.isr)
    case _ => false
  }

  /** Unregistering purges what is queued about that control, a clean-up all that is queued, and nothing else is. */
  lemma PurgesExactly(p: Pipe, e: Event, serial: nat)
    requires Enabled(p, e)
    ensures serial in Step(p, e).purged
       <==> serial in p.purged || exists item :: Purges(p, e, item) && item.serial == serial
  {
    match e
    case Unregisters(control) =>
      if serial in SerialsOf(p.ioctl, control) && control in p.registrations {
        var i :| 0 <= i < |p.ioctl| && p.ioctl[i].control == control && p.ioctl[i].serial == serial;
        assert Purges(p, e, p.ioctl[i]);
      }
    case CleansQueues =>
      CleanPurges(p, serial);
    case _ =>
  }

  lemma CleanPurges(p: Pipe, serial: nat)
    requires p.registrations == []
    ensures serial in CleanupQueues(p).purged
       <==> serial in p.purged || exists item :: Purges(p, CleansQueues, item) && item.serial == serial
  {
    var isr := IsrItems(p.slots, p.isr);
    if serial in Serials(p.ioctl) {
      var i :| 0 <= i < |p.ioctl| && p.ioctl[i].serial == serial;
      assert Purges(p, CleansQueues, p.ioctl[i]);
    } else if serial in Serials(isr) {
      var i :| 0 <= i < |isr| && isr[i].serial == serial;
      assert Purges(p, CleansQueues, isr[i]);
    }
  }

  /** A control is registered once it was registered with memory for it, until it is unregistered or cleaned up. */
  lemma RegistersExactly(p: Pipe, e: Event, control: Control)
    requires Enabled(p, e) && Distinct(p.registrations)
    ensures control in Step(p, e).registrations
       <==> || e == Registers(control, true)
            || (control in p.registrations && e != Unregisters(control)
                && !(e.CleansNext? && p.registrations[0] == control))
  {
    if e.Unregisters? && e.control in p.registrations {
      RemoveFirstDistinct(p.registrations, e.control);
    } else if e.CleansNext? && p.registrations != [] {
      assert p.registrations == [p.registrations[0]] + p.registrations[1..];
    }
  }

  /** The queues themselves: everything that is not accepted, moved by the DPC, handed over or purged stays in place. */
  lemma QueuesKept(p: Pipe, e: Event)
    requires Enabled(p, e)
    ensures !e.ChangesControl? && !e.TakesNext? && !e.CleansQueues?
        ==> Step(p, e).isr == p.isr && Step(p, e).slots == p.slots
    ensures !e.PutsItem? && !e.CleansQueues? && Handed(p, e) == [] && !(e.Unregisters? && e.control in p.registrations)
        ==> Step(p, e).ioctl == p.ioctl
    ensures e.TakesNext? && p.isr != [] && p.isr[0] < |p.slots|
        ==> Step(p, e).isr == p.isr[1..] && Step(p, e).phase == Holding(p.slots[p.isr[0]].item)
    ensures e.PutsItem? ==> Step(p, e).ioctl == p.ioctl + [p.phase.item] && Step(p, e).phase.Draining?
  {
  }
}
