/** No control change is lost, reordered or delivered twice on its way, and no request is forgotten. */
module NotificationFlow {
  import opened Base
  import opened NotificationSpec
  import opened Runs

  function Hand(phase: Phase): seq<Item> {
    if phase.Holding? then [phase.item] else []
  }

  /** Everything accepted and not purged, oldest first: delivered, queued, in the DPC's hand, in the interrupt queue. */
  function Flow(p: Pipe): seq<Item> {
    p.delivered + p.ioctl + Hand(p.phase) + IsrItems(p.slots, p.isr)
  }

  /** The items whose serial number is not in a set. */
  function Kept(items: seq<Item>, gone: set<nat>): seq<Item> {
    if items == [] then []
    else if items[0].serial in gone then Kept(items[1..], gone)
    else [items[0]] + Kept(items[1..], gone)
  }

  ghost predicate Numbered(accepted: seq<Item>, purged: set<nat>) {
    && (forall k :: 0 <= k < |accepted| ==> accepted[k].serial == k)
    && (forall n :: n in purged ==> n < |accepted|)
  }

  /** Every item of s comes from the accepted ones, and no two have the same number. */
  ghost predicate Rising(s: seq<Item>) {
    forall i, j :: 0 <= i < j < |s| ==> s[i].serial < s[j].serial
  }

  /** A pool slot is in use exactly when it is on the interrupt queue, and it is there once. */
  ghost predicate PoolMatches(slots: seq<Slot>, isr: seq<nat>) {
    && (forall k :: 0 <= k < |isr| ==> isr[k] < |slots|)
    && (forall i, j :: 0 <= i < j < |isr| ==> isr[i] != isr[j])
    && (forall i :: 0 <= i < |slots| ==> (slots[i].used <==> i in isr))
  }

  ghost predicate Conserved(p: Pipe) {
    && PoolMatches(p.slots, p.isr)
    && Numbered(p.accepted, p.purged)
    && Flow(p) == Kept(p.accepted, p.purged)
  }

  // ---- Kept

  lemma {:induction false} KeptConcat(a: seq<Item>, b: seq<Item>, gone: set<nat>)
    ensures Kept(a + b, gone) == Kept(a, gone) + Kept(b, gone)
  {
    if a == [] {
      assert a + b == b;
    } else {
      assert (a + b)[1..] == a[1..] + b;
      KeptConcat(a[1..], b, gone);
      if a[0].serial !in gone {
        assert [a[0]] + (Kept(a[1..], gone) + Kept(b, gone)) == Kept(a, gone) + Kept(b, gone);
      }
    }
  }

  lemma {:induction false} KeptAll(s: seq<Item>, gone: set<nat>)
    requires forall i :: 0 <= i < |s| ==> s[i].serial !in gone
    ensures Kept(s, gone) == s
  {
    if s != [] {
      KeptAll(s[1..], gone);
    }
  }

  lemma {:induction false} KeptNone(s: seq<Item>, gone: set<nat>)
    requires forall i :: 0 <= i < |s| ==> s[i].serial in gone
    ensures Kept(s, gone) == []
  {
    if s != [] {
      KeptNone(s[1..], gone);
    }
  }

  lemma {:induction false} KeptTwice(s: seq<Item>, a: set<nat>, b: set<nat>)
    ensures Kept(s, a + b) == Kept(Kept(s, a), b)
  {
    if s != [] {
      KeptTwice(s[1..], a, b);
    }
  }

  lemma {:induction false} KeptFrom(s: seq<Item>, gone: set<nat>, first: nat)
    requires forall k :: 0 <= k < |s| ==> s[k].serial == first + k
    ensures Rising(Kept(s, gone))
    ensures forall i :: 0 <= i < |Kept(s, gone)| ==> first <= Kept(s, gone)[i].serial < first + |s|
    ensures forall i :: 0 <= i < |Kept(s, gone)| ==> Kept(s, gone)[i].serial !in gone
  {
    if s != [] {
      KeptFrom(s[1..], gone, first + 1);
    }
  }

  lemma KeptSnoc(accepted: seq<Item>, purged: set<nat>, item: Item)
    requires Numbered(accepted, purged) && item.serial == |accepted|
    ensures Numbered(accepted + [item], purged)
    ensures Kept(accepted + [item], purged) == Kept(accepted, purged) + [item]
  {
    KeptConcat(accepted, [item], purged);
  }

  // ---- The interrupt queue

  lemma {:induction false} IsrItemsFrame(slots: seq<Slot>, slots': seq<Slot>, isr: seq<nat>)
    requires |slots| == |slots'|
    requires forall k :: 0 <= k < |isr| ==> isr[k] < |slots| && slots[isr[k]].item == slots'[isr[k]].item
    ensures IsrItems(slots, isr) == IsrItems(slots', isr)
  {
    if isr != [] {
      IsrItemsFrame(slots, slots', isr[1..]);
    }
  }

  lemma {:induction false} IsrItemsSnoc(slots: seq<Slot>, isr: seq<nat>, i: nat)
    requires i < |slots| && forall k :: 0 <= k < |isr| ==> isr[k] < |slots|
    ensures IsrItems(slots, isr + [i]) == IsrItems(slots, isr) + [slots[i].item]
  {
    if isr == [] {
      assert isr + [i] == [i];
      assert [i][1..] == [];
    } else {
      IsrItemsSnoc(slots, isr[1..], i);
      assert (isr + [i])[1..] == isr[1..] + [i];
    }
  }

  lemma Enqueue(slots: seq<Slot>, isr: seq<nat>, i: nat, item: Item)
    requires PoolMatches(slots, isr) && i < |slots| && !slots[i].used
    ensures PoolMatches(slots[i := Slot(true, item)], isr + [i])
    ensures IsrItems(slots[i := Slot(true, item)], isr + [i]) == IsrItems(slots, isr) + [item]
  {
    var slots' := slots[i := Slot(true, item)];
    IsrItemsFrame(slots, slots', isr);
    IsrItemsSnoc(slots', isr, i);
  }

  lemma Dequeue(slots: seq<Slot>, isr: seq<nat>)
    requires PoolMatches(slots, isr) && isr != []
    ensures PoolMatches(slots[isr[0] := Slot(false, slots[isr[0]].item)], isr[1..])
    ensures IsrItems(slots, isr)
         == [slots[isr[0]].item] + IsrItems(slots[isr[0] := Slot(false, slots[isr[0]].item)], isr[1..])
  {
    var slots' := slots[isr[0] := Slot(false, slots[isr[0]].item)];
    IsrItemsFrame(slots, slots', isr[1..]);
    forall i | 0 <= i < |slots'|
      ensures slots'[i].used <==> i in isr[1..]
    {
      assert i in isr <==> i == isr[0] || i in isr[1..];
      if i == isr[0] {
        assert forall k :: 0 <= k < |isr[1..]| ==> isr[1..][k] == isr[k + 1];
      }
    }
  }

  lemma AllFreed(slots: seq<Slot>, isr: seq<nat>)
    requires PoolMatches(slots, isr)
    ensures PoolMatches(Freed(slots, isr), [])
  {
  }

  // ---- Purges

  lemma {:induction false} KeptOfOthers(items: seq<Item>, gone: set<nat>, control: Control)
    requires forall i :: 0 <= i < |items| ==> (items[i].serial in gone <==> items[i].control == control)
    ensures Kept(items, gone) == OfOthers(items, control)
  {
    if items != [] {
      KeptOfOthers(items[1..], gone, control);
    }
  }

  lemma KeptParts(a: seq<Item>, b: seq<Item>, c: seq<Item>, d: seq<Item>, gone: set<nat>)
    ensures Kept(a + b + c + d, gone) == Kept(a, gone) + Kept(b, gone) + Kept(c, gone) + Kept(d, gone)
  {
    KeptConcat(a + b + c, d, gone);
    KeptConcat(a + b, c, gone);
    KeptConcat(a, b, gone);
  }

  /** No item of a has the number of an item of b. */
  ghost predicate Apart(a: seq<Item>, b: seq<Item>) {
    forall i, j :: 0 <= i < |a| && 0 <= j < |b| ==> a[i].serial != b[j].serial
  }

  lemma PartsApart(a: seq<Item>, b: seq<Item>, c: seq<Item>, d: seq<Item>)
    requires Rising(a + b + c + d)
    ensures Rising(b) && Apart(a, b) && Apart(c, b) && Apart(d, b) && Apart(a, d) && Apart(c, d)
  {
    var s := a + b + c + d;
    assert forall i :: 0 <= i < |a| ==> s[i] == a[i];
    assert forall i :: 0 <= i < |b| ==> s[|a| + i] == b[i];
    assert forall i :: 0 <= i < |c| ==> s[|a| + |b| + i] == c[i];
    assert forall i :: 0 <= i < |d| ==> s[|a| + |b| + |c| + i] == d[i];
  }

  lemma {:induction false} KeptApart(a: seq<Item>, b: seq<Item>, gone: set<nat>)
    requires Apart(a, b) && gone <= Serials(b)
    ensures Kept(a, gone) == a
  {
    KeptAll(a, gone);
  }

  /** Purging one control from the second queue is what keeping the other serial numbers does. */
  lemma PurgeControl(a: seq<Item>, b: seq<Item>, c: seq<Item>, d: seq<Item>, control: Control)
    requires Rising(a + b + c + d)
    ensures Kept(a + b + c + d, SerialsOf(b, control)) == a + OfOthers(b, control) + c + d
  {
    var gone := SerialsOf(b, control);
    KeptParts(a, b, c, d, gone);
    PartsApart(a, b, c, d);
    KeptApart(a, b, gone);
    KeptApart(c, b, gone);
    KeptApart(d, b, gone);
    assert forall i, j :: 0 <= i < |b| && 0 <= j < |b| && b[i].serial == b[j].serial ==> i == j;
    KeptOfOthers(b, gone, control);
  }

  lemma {:induction false} KeptWhole(s: seq<Item>, gone: set<nat>)
    requires Serials(s) <= gone
    ensures Kept(s, gone) == []
  {
    forall i | 0 <= i < |s|
      ensures s[i].serial in gone
    {
      assert s[i].serial in Serials(s);
    }
    KeptNone(s, gone);
  }

  lemma PurgeQueues(a: seq<Item>, b: seq<Item>, c: seq<Item>, d: seq<Item>)
    requires Rising(a + b + c + d)
    ensures Kept(a + b + c + d, Serials(b) + Serials(d)) == a + c
  {
    var gone := Serials(b) + Serials(d);
    PartsApart(a, b, c, d);
    calc {
      Kept(a + b + c + d, gone);
      { KeptParts(a, b, c, d, gone); }
      Kept(a, gone) + Kept(b, gone) + Kept(c, gone) + Kept(d, gone);
      { KeptApartTwice(a, b, d); KeptWhole(b, gone); KeptApartTwice(c, b, d); KeptWhole(d, gone); }
      a + [] + c + [];
      a + c;
    }
  }

  lemma {:induction false} KeptApartTwice(a: seq<Item>, b: seq<Item>, d: seq<Item>)
    requires Apart(a, b) && Apart(a, d)
    ensures Kept(a, Serials(b) + Serials(d)) == a
  {
    KeptTwice(a, Serials(b), Serials(d));
    KeptApart(a, b, Serials(b));
    KeptApart(a, d, Serials(d));
  }

  // ---- Every step conserves

  lemma AcceptConserves(p: Pipe, i: nat, control: Control, value: int)
    requires Conserved(p) && i < |p.slots| && !p.slots[i].used
    ensures var item := Item(|p.accepted|, control, value);
            Conserved(p.(slots := p.slots[i := Slot(true, item)], isr := p.isr + [i], accepted := p.accepted + [item]))
  {
    var item := Item(|p.accepted|, control, value);
    Enqueue(p.slots, p.isr, i, item);
    KeptSnoc(p.accepted, p.purged, item);
    var front := p.delivered + p.ioctl + Hand(p.phase);
    assert front + (IsrItems(p.slots, p.isr) + [item]) == front + IsrItems(p.slots, p.isr) + [item];
  }

  lemma ChangeConserves(p: Pipe, control: Control, value: int, now: int, increment: nat)
    requires Conserved(p)
    ensures Conserved(ControlChange(p, control, value, now, increment))
  {
    var i := FirstFree(p.slots);
    if i < |p.slots| {
      AcceptConserves(p, i, control, value);
    }
  }

  lemma TakeConserves(p: Pipe)
    requires Conserved(p) && p.phase.Draining?
    ensures Conserved(DpcTake(p))
  {
    if p.isr != [] {
      Dequeue(p.slots, p.isr);
      var front, item := p.delivered + p.ioctl, p.slots[p.isr[0]].item;
      var rest := DpcTake(p);
      assert front + [] + ([item] + IsrItems(rest.slots, rest.isr)) == front + [item] + IsrItems(rest.slots, rest.isr);
    }
  }

  lemma {:induction false} PutConserves(p: Pipe)
    requires Conserved(p) && p.phase.Holding?
    ensures Conserved(DpcPut(p))
  {
    var isr := IsrItems(p.slots, p.isr);
    assert p.delivered + (p.ioctl + [p.phase.item]) + [] + isr == p.delivered + p.ioctl + [p.phase.item] + isr;
  }

  lemma {:induction false} DeliverConserves(p: Pipe)
    requires Conserved(p) && p.ioctl != []
    ensures Conserved(Deliver(p))
  {
    assert p.delivered + [p.ioctl[0]] + p.ioctl[1..] == p.delivered + p.ioctl;
  }

  lemma UnregisterConserves(p: Pipe, control: Control)
    requires Conserved(p)
    ensures Conserved(p.(ioctl := OfOthers(p.ioctl, control), purged := p.purged + SerialsOf(p.ioctl, control)))
  {
    var isr := IsrItems(p.slots, p.isr);
    PurgeKeeps(p.accepted, p.purged, p.delivered, p.ioctl, Hand(p.phase), isr, control);
    PurgeNumbered(p.accepted, p.purged, p.delivered, p.ioctl, Hand(p.phase), isr, control);
  }

  lemma PurgeKeeps(accepted: seq<Item>, purged: set<nat>,
                   a: seq<Item>, b: seq<Item>, c: seq<Item>, d: seq<Item>, control: Control)
    requires Numbered(accepted, purged) && a + b + c + d == Kept(accepted, purged)
    ensures a + OfOthers(b, control) + c + d == Kept(accepted, purged + SerialsOf(b, control))
  {
    KeptFrom(accepted, purged, 0);
    KeptTwice(accepted, purged, SerialsOf(b, control));
    PurgeControl(a, b, c, d, control);
  }

  lemma PurgeNumbered(accepted: seq<Item>, purged: set<nat>,
                      a: seq<Item>, b: seq<Item>, c: seq<Item>, d: seq<Item>, control: Control)
    requires Numbered(accepted, purged) && a + b + c + d == Kept(accepted, purged)
    ensures Numbered(accepted, purged + SerialsOf(b, control))
  {
    InFlow(accepted, purged, a, b, c, d);
    assert SerialsOf(b, control) <= Serials(b);
  }

  /** What is queued was accepted. */
  lemma InFlow(accepted: seq<Item>, purged: set<nat>, a: seq<Item>, b: seq<Item>, c: seq<Item>, d: seq<Item>)
    requires Numbered(accepted, purged) && a + b + c + d == Kept(accepted, purged)
    ensures forall n :: n in Serials(b) || n in Serials(d) ==> n < |accepted|
  {
    KeptFrom(accepted, purged, 0);
    var s := a + b + c + d;
    assert forall i :: 0 <= i < |b| ==> s[|a| + i] == b[i];
    assert forall i :: 0 <= i < |d| ==> s[|a| + |b| + |c| + i] == d[i];
  }

  lemma ClearKeeps(accepted: seq<Item>, purged: set<nat>, a: seq<Item>, b: seq<Item>, c: seq<Item>, d: seq<Item>)
    requires Numbered(accepted, purged) && a + b + c + d == Kept(accepted, purged)
    ensures a + c == Kept(accepted, purged + Serials(b) + Serials(d))
    ensures Numbered(accepted, purged + Serials(b) + Serials(d))
  {
    KeptFrom(accepted, purged, 0);
    KeptTwice(accepted, purged, Serials(b) + Serials(d));
    PurgeQueues(a, b, c, d);
    InFlow(accepted, purged, a, b, c, d);
    assert purged + Serials(b) + Serials(d) == purged + (Serials(b) + Serials(d));
  }

  lemma CleanConserves(p: Pipe)
    requires Conserved(p)
    ensures Conserved(CleanupQueues(p))
  {
    ClearKeeps(p.accepted, p.purged, p.delivered, p.ioctl, Hand(p.phase), IsrItems(p.slots, p.isr));
    AllFreed(p.slots, p.isr);
  }

  /** Nothing of what is conserved differs. */
  predicate SameItems(p: Pipe, q: Pipe) {
    && q.slots == p.slots && q.isr == p.isr && Hand(q.phase) == Hand(p.phase) && q.ioctl == p.ioctl
    && q.delivered == p.delivered && q.accepted == p.accepted && q.purged == p.purged
  }

  lemma SameConserves(p: Pipe, q: Pipe)
    requires Conserved(p) && SameItems(p, q)
    ensures Conserved(q)
  {
  }

  lemma FinishConserves(p: Pipe)
    requires Conserved(p) && p.phase.Completing?
    ensures Conserved(DpcFinish(p))
  {
    var idle := p.(phase := Idle);
    SameConserves(p, idle);
    if p.ioctl != [] && p.irp.Some? {
      DeliverConserves(idle);
      SameConserves(Deliver(idle), DpcFinish(p));
    }
  }

  lemma AskConserves(p: Pipe, q: Pipe)
    requires Conserved(p) && q == GetNotification(p)
    ensures Conserved(q)
  {
    if Asked(p).Given? {
      DeliverConserves(p);
      SameConserves(Deliver(p), q);
    } else {
      SameConserves(p, q);
    }
  }

  lemma RequestConserves(p: Pipe, control: Control, q: Pipe)
    requires Conserved(p) && q == Unregister(p, control)
    ensures Conserved(q)
  {
    if control in p.registrations {
      var left := p.(ioctl := OfOthers(p.ioctl, control), purged := p.purged + SerialsOf(p.ioctl, control));
      UnregisterConserves(p, control);
      SameConserves(left, q);
    } else {
      SameConserves(p, q);
    }
  }

  /** The steps that move no item. */
  predicate Quiet(e: Event) {
    e.StartsDpc? || e.AllocationFails? || e.Registers? || e.Cancels? || e.CleansNext?
  }

  lemma QuietConserves(p: Pipe, e: Event, q: Pipe)
    requires Conserved(p) && Enabled(p, e) && Quiet(e) && q == Step(p, e)
    ensures Conserved(q)
  {
    SameConserves(p, q);
  }

  lemma ConservesTo(p: Pipe, e: Event, q: Pipe)
    requires Conserved(p) && Enabled(p, e) && q == Step(p, e)
    ensures Conserved(q)
  {
    match e
    case ChangesControl(control, value, now, increment) => ChangeConserves(p, control, value, now, increment);
    case TakesNext => TakeConserves(p);
    case PutsItem => PutConserves(p);
    case FinishesDpc => FinishConserves(p);
    case Asks => AskConserves(p, q);
    case Unregisters(control) => RequestConserves(p, control, q);
    case CleansQueues => CleanConserves(p);
    case _ => QuietConserves(p, e, q);
  }

  lemma StepConserves(p: Pipe, e: Event)
    requires Conserved(p) && Enabled(p, e)
    ensures Conserved(Step(p, e))
  {
    ConservesTo(p, e, Step(p, e));
  }

  // ---- Requests

  lemma {:induction false} RemoveFirstDistinct<T>(s: seq<T>, x: T)
    requires Distinct(s)
    ensures Distinct(RemoveFirst(s, x)) && x !in RemoveFirst(s, x)
    ensures forall y :: y in RemoveFirst(s, x) <==> y in s && y != x
  {
    if s != [] {
      RemoveFirstDistinct(s[1..], x);
      assert forall y :: y in s <==> y == s[0] || y in s[1..];
      var rest := RemoveFirst(s[1..], x);
      if s[0] != x {
        assert forall i :: 0 <= i < |rest| ==> rest[i] in rest;
      } else {
        assert forall i :: 0 <= i < |s[1..]| ==> s[1..][i] == s[i + 1];
      }
    }
  }

  /**
   * The n-th request to be pended gets the n-th completion, whoever makes it; so each one is completed
   * once or still pended, and no two are pended together. A control is registered at most once.
   */
  ghost predicate Orderly(p: Pipe) {
    && p.pended == |p.completions| + (if p.irp.Some? then 1 else 0)
    && (p.irp.Some? ==> p.irp.value == |p.completions|)
    && (forall k :: 0 <= k < |p.completions| ==> p.completions[k].irp == k)
    && Distinct(p.registrations)
  }

  lemma StepOrderly(p: Pipe, e: Event)
    requires Orderly(p) && Enabled(p, e)
    ensures Orderly(Step(p, e))
  {
    if e.Unregisters? && e.control in p.registrations {
      RemoveFirstDistinct(p.registrations, e.control);
    }
  }

  ghost predicate Sound(p: Pipe) {
    Conserved(p) && Orderly(p)
  }

  lemma {:induction false} SoundInductive(start: int, slots: seq<Slot>)
    requires FreshPool(slots)
    ensures Inductive(M(start, slots), Sound)
  {
    var m := M(start, slots);
    assert Flow(m.init) == [];
    forall p, e | Sound(p) && m.enabled(p, e)
      ensures Sound(m.step(p, e))
    {
      StepConserves(p, e);
      StepOrderly(p, e);
    }
  }

  /** The state invariant of every run. */
  lemma {:induction false} RunSound(start: int, slots: seq<Slot>, run: seq<Event>)
    requires FreshPool(slots) && Legal(M(start, slots), run)
    ensures Sound(After(M(start, slots), run))
  {
    SoundInductive(start, slots);
    Invariance(M(start, slots), Sound, run);
  }

  ghost predicate Unaltered(delivered: seq<Item>, accepted: seq<Item>) {
    forall i :: 0 <= i < |delivered| ==>
      delivered[i].serial < |accepted| && delivered[i] == accepted[delivered[i].serial]
  }

  /**
   * After every run each accepted change has been purged, or is in exactly one place, unaltered, and
   * delivery follows the order of acceptance.
   */
  lemma {:induction false} NothingLost(start: int, slots: seq<Slot>, run: seq<Event>)
    requires FreshPool(slots) && Legal(M(start, slots), run)
    ensures var p := After(M(start, slots), run);
            Flow(p) == Kept(p.accepted, p.purged) && Rising(Flow(p)) && Unaltered(p.delivered, p.accepted)
  {
    RunSound(start, slots, run);
    var p := After(M(start, slots), run);
    FlowInOrder(p);
    DeliveredAreAccepted(p.accepted, p.purged, p.delivered, p.ioctl + Hand(p.phase) + IsrItems(p.slots, p.isr));
  }

  lemma FlowInOrder(p: Pipe)
    requires Conserved(p)
    ensures Rising(Flow(p))
    ensures Kept(p.accepted, p.purged) == p.delivered + (p.ioctl + Hand(p.phase) + IsrItems(p.slots, p.isr))
  {
    KeptFrom(p.accepted, p.purged, 0);
    assert Flow(p) == p.delivered + (p.ioctl + Hand(p.phase) + IsrItems(p.slots, p.isr));
  }

  lemma DeliveredAreAccepted(accepted: seq<Item>, purged: set<nat>, delivered: seq<Item>, rest: seq<Item>)
    requires Numbered(accepted, purged) && Kept(accepted, purged) == delivered + rest
    ensures Unaltered(delivered, accepted)
  {
    forall i | 0 <= i < |delivered|
      ensures delivered[i].serial < |accepted| && delivered[i] == accepted[delivered[i].serial]
    {
      assert (delivered + rest)[i] == delivered[i];
      KeptMember(accepted, purged, delivered[i]);
    }
  }

  lemma {:induction false} KeptMember(s: seq<Item>, gone: set<nat>, item: Item)
    ensures item in Kept(s, gone) <==> item in s && item.serial !in gone
  {
    if s != [] {
      KeptMember(s[1..], gone, item);
    }
  }

  /** As long as nothing is unregistered or cleaned up, nothing is purged: the flow is what was accepted. */
  lemma {:induction false} FlowIsAccepted(start: int, slots: seq<Slot>, run: seq<Event>)
    requires FreshPool(slots) && Legal(M(start, slots), run)
    requires After(M(start, slots), run).purged == {}
    ensures Flow(After(M(start, slots), run)) == After(M(start, slots), run).accepted
  {
    RunSound(start, slots, run);
    KeptAll(After(M(start, slots), run).accepted, {});
  }

  /** The request was completed by the k-th completion and by no other. */
  ghost predicate CompletedBy(completions: seq<Completion>, irp: nat, k: nat) {
    && k < |completions| && completions[k].irp == irp
    && forall j :: 0 <= j < |completions| && completions[j].irp == irp ==> j == k
  }

  /** Every request that was pended is completed exactly once, or is the one pended now and not completed. */
  lemma {:induction false} CompletedOnce(start: int, slots: seq<Slot>, run: seq<Event>, irp: nat)
    requires FreshPool(slots) && Legal(M(start, slots), run)
    requires irp < After(M(start, slots), run).pended
    ensures var p := After(M(start, slots), run);
            if p.irp == Some(irp) then forall c :: c in p.completions ==> c.irp != irp
            else CompletedBy(p.completions, irp, irp)
  {
    RunSound(start, slots, run);
    OrderlyCompletes(After(M(start, slots), run), irp);
  }

  lemma OrderlyCompletes(p: Pipe, irp: nat)
    requires Orderly(p) && irp < p.pended
    ensures if p.irp == Some(irp) then forall c :: c in p.completions ==> c.irp != irp
            else CompletedBy(p.completions, irp, irp)
  {
  }

  // ---- No lost wakeup

  ghost predicate Waiting(p: Pipe) {
    p.irp.Some? && p.ioctl != []
  }

  /** Whatever waits for the DPC has a DPC on the way. */
  ghost predicate Awake(p: Pipe) {
    && (p.isr != [] ==> p.dpcQueued || p.phase.Draining? || p.phase.Holding?)
    && (Waiting(p) ==> p.dpcQueued || !p.phase.Idle?)
  }

  ghost predicate LosesWakeup(p: Pipe, e: Event) {
    e.AllocationFails? && !p.dpcQueued && (p.isr != [] || Waiting(p))
  }

  /** The one way to lose a wakeup is that the DPC finds no memory while something waits and no DPC is queued. */
  lemma {:induction false} AwakeExactly(p: Pipe, e: Event)
    requires Sound(p) && Awake(p) && Enabled(p, e)
    ensures Awake(Step(p, e)) <==> !LosesWakeup(p, e)
  {
    if e.Unregisters? && p.ioctl == [] {
      assert OfOthers(p.ioctl, e.control) == [];
    }
  }

  /** The runs in which the DPC always finds memory. */
  ghost function Roomy(start: int, slots: seq<Slot>): Machine<Pipe, Event> {
    Machine(Initial(start, slots), (p: Pipe, e: Event) => Enabled(p, e) && !e.AllocationFails?, Step)
  }

  lemma {:induction false} NoLostWakeup(start: int, slots: seq<Slot>, run: seq<Event>)
    requires FreshPool(slots) && Legal(Roomy(start, slots), run)
    ensures Awake(After(Roomy(start, slots), run))
  {
    var m := Roomy(start, slots);
    var inv := p => Sound(p) && Awake(p);
    SoundInductive(start, slots);
    assert M(start, slots).init == m.init;
    forall p, e | inv(p) && m.enabled(p, e)
      ensures inv(m.step(p, e))
    {
      StepConserves(p, e);
      StepOrderly(p, e);
      AwakeExactly(p, e);
    }
    Invariance(m, inv, run);
  }

  /** Once lost, only a new control change wakes the DPC: every other step leaves it asleep. */
  lemma AsleepUntilChange(p: Pipe, e: Event)
    requires p.phase.Idle? && !p.dpcQueued && Enabled(p, e) && !e.ChangesControl?
    ensures Step(p, e).phase.Idle? && !Step(p, e).dpcQueued
  {
  }

  /** Without memory for the DPC a change waits and so does the request for it: a reachable state. */
  lemma WakeupCanBeLost(start: int, slots: seq<Slot>, control: Control)
    requires FreshPool(slots)
    ensures exists p :: Reachable(M(start, slots), p) && p.isr != [] && p.irp.Some? && p.phase.Idle? && !p.dpcQueued
  {
    var m := M(start, slots);
    var p0 := ChangeWhilePended(start, slots, control);
    StepReachable(m, p0, StartsDpc);
    var p1 := Step(p0, StartsDpc);
    StepReachable(m, p1, AllocationFails);
    var p2 := Step(p1, AllocationFails);
    assert Reachable(m, p2) && p2.isr != [] && p2.irp.Some? && p2.phase.Idle? && !p2.dpcQueued;
  }

  lemma {:induction false} ChangeWhilePended(start: int, slots: seq<Slot>, control: Control) returns (p: Pipe)
    requires FreshPool(slots)
    ensures Reachable(M(start, slots), p) && p.isr != [] && p.irp.Some? && p.phase.Idle? && p.dpcQueued
  {
    var m := M(start, slots);
    InitReachable(m);
    StepReachable(m, m.init, Registers(control, true));
    var p1 := Step(m.init, Registers(control, true));
    StepReachable(m, p1, Asks);
    var p2 := Step(p1, Asks);
    StepReachable(m, p2, ChangesControl(control, 0, start, 0));
    p := Step(p2, ChangesControl(control, 0, start, 0));
  }

  /** A request stays pended only while something is registered, unless the clean-up drops the last registration. */
  lemma PendedIsRegisteredExactly(p: Pipe, e: Event)
    requires p.irp.Some? ==> p.registrations != []
    requires Enabled(p, e)
    ensures (Step(p, e).irp.Some? ==> Step(p, e).registrations != [])
        <==> !(e.CleansNext? && p.irp.Some? && |p.registrations| == 1)
  {
  }
}
