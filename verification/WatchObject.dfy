/**
 * The part both watchdogs share (watchdog/object.c): a reference-counted object, together with
 * the client DPC and the thread references its calls act on.
 */
module WatchObject {
  import opened Base

  type Thread = nat

  datatype Event = NoEvent | TimeoutEvent | RecoveryEvent

  /**
   * An event travels as the thread argument of the client DPC: None for a recovery.
   *  - queued: the argument of the client DPC while it is in the DPC queue
   *  - threadRefs: the references the driver holds on thread objects
   *  - delivered: events handed to the client and not completed yet
   *  - discarded: events taken out of the DPC queue without being completed
   *  - log: every value ever stored in lastEvent
   *  - owner: the reference made at allocation, which Free gives back
   *  - destroyed: how often the object was destroyed
   */
  datatype Header = Header(
    refCount: int,
    lastEvent: Event,
    lastQueuedThread: Option<Thread>,
    queued: Option<Option<Thread>>,
    threadRefs: multiset<Thread>,
    delivered: multiset<Option<Thread>>,
    discarded: multiset<Option<Thread>>,
    log: seq<Event>,
    owner: bool,
    destroyed: nat)

  function Initial(): Header {
    Header(1, NoEvent, None, None, multiset{}, multiset{}, multiset{}, [], true, 0)
  }

  function Dereference(h: Header): Header {
    h.(refCount := h.refCount - 1, destroyed := if h.refCount == 1 then h.destroyed + 1 else h.destroyed)
  }

  function AsMultiset(thread: Option<Thread>): multiset<Thread> {
    if thread.Some? then multiset{thread.value} else multiset{}
  }

  /** WdCompleteEvent, but for the trigger of a deferred watchdog. */
  function Completed(h: Header, thread: Option<Thread>): Header {
    Dereference(h.(threadRefs := h.threadRefs - AsMultiset(thread)))
  }

  /** Queue the client DPC with references on the object and the thread; if it is queued already, nothing changes. */
  function QueueDpc(h: Header, thread: Option<Thread>): Header {
    if h.queued.Some? then h
    else h.(queued := Some(thread), lastQueuedThread := thread, refCount := h.refCount + 1,
            threadRefs := h.threadRefs + AsMultiset(thread))
  }

  /** Store an event type and try to queue the client DPC; an event that finds the DPC queued already is dropped. */
  function Raise(h: Header, event: Event, thread: Option<Thread>): Header {
    QueueDpc(h.(lastEvent := event, log := h.log + [event]), thread)
  }

  /** The client DPC leaves the queue and its routine gets the event. */
  function Deliver(h: Header): Header
    requires h.queued.Some?
  {
    h.(queued := None, delivered := h.delivered + multiset{h.queued.value})
  }

  /** The client's handler completes an event it was given. */
  function CompleteDelivered(h: Header, thread: Option<Thread>): Header {
    Completed(h.(delivered := h.delivered - multiset{thread}), thread)
  }

  /** The DPC is taken out of the queue and its event is completed on behalf of the client. */
  function Withdraw(h: Header): Header {
    if h.queued.None? then h else Completed(h.(queued := None), h.lastQueuedThread)
  }

  /** The DPC is taken out of the queue and nobody completes its event. */
  function Discard(h: Header): Header {
    if h.queued.None? then h
    else h.(queued := None, discarded := h.discarded + multiset{h.queued.value})
  }

  /** The last step of Free: the owner's reference goes. */
  function Release(h: Header): Header {
    Dereference(h.(owner := false))
  }

  function Count(b: bool): nat {
    if b then 1 else 0
  }

  ghost predicate LogMatches(h: Header) {
    h.lastEvent == if h.log == [] then NoEvent else h.log[|h.log| - 1]
  }

  /** One reference on a thread per event that carries it. */
  ghost predicate ThreadAccounted(h: Header, t: Thread) {
    h.threadRefs[t] == Count(h.queued == Some(Some(t))) + h.delivered[Some(t)] + h.discarded[Some(t)]
  }

  /** Every reference is accounted for, and the object is gone exactly when none is left. */
  ghost predicate Accounted(h: Header) {
    && h.refCount == Count(h.owner) + Count(h.queued.Some?) + |h.delivered| + |h.discarded|
    && (forall t :: ThreadAccounted(h, t))
    && (h.queued.Some? ==> h.lastQueuedThread == h.queued.value)
    && (h.queued.Some? ==> h.owner)
    && h.destroyed == Count(h.refCount == 0)
    && LogMatches(h)
  }

  lemma RaiseAccounted(h: Header, event: Event, thread: Option<Thread>)
    requires Accounted(h) && h.owner && event != NoEvent
    ensures Accounted(Raise(h, event, thread))
  {
    forall t ensures ThreadAccounted(Raise(h, event, thread), t) {
      assert ThreadAccounted(h, t);
    }
  }

  lemma DeliverAccounted(h: Header)
    requires Accounted(h) && h.queued.Some?
    ensures Accounted(Deliver(h))
  {
    forall t ensures ThreadAccounted(Deliver(h), t) {
      assert ThreadAccounted(h, t);
    }
  }

  lemma CompleteDeliveredAccounted(h: Header, thread: Option<Thread>)
    requires Accounted(h) && thread in h.delivered
    ensures Accounted(CompleteDelivered(h, thread))
  {
    TakeOne(h.delivered, thread);
    forall t ensures ThreadAccounted(CompleteDelivered(h, thread), t) {
      CompletedThread(h, thread, t);
    }
  }

  lemma CompletedThread(h: Header, thread: Option<Thread>, t: Thread)
    requires ThreadAccounted(h, t) && thread in h.delivered
    ensures ThreadAccounted(CompleteDelivered(h, thread), t)
  {
    DropOne(h.threadRefs, thread, t);
    TakeOne(h.delivered, thread);
  }

  lemma {:induction false} TakeOne<T>(events: multiset<T>, event: T)
    requires event in events
    ensures |events - multiset{event}| == |events| - 1
    ensures forall e :: (events - multiset{event})[e] == events[e] - Count(e == event)
  {
    assert events == (events - multiset{event}) + multiset{event};
  }

  lemma DropOne(refs: multiset<Thread>, thread: Option<Thread>, t: Thread)
    requires thread == Some(t) ==> t in refs
    ensures (refs - AsMultiset(thread))[t] == refs[t] - Count(thread == Some(t))
  {
  }

  /** References that were taken for nothing are given back whole. */
  lemma ReferencesUndone(h: Header, thread: Option<Thread>)
    requires h.refCount > 0
    ensures Completed(h.(refCount := h.refCount + 1, threadRefs := h.threadRefs + AsMultiset(thread)), thread) == h
  {
    assert h.threadRefs + AsMultiset(thread) - AsMultiset(thread) == h.threadRefs;
  }

  lemma WithdrawAccounted(h: Header)
    requires Accounted(h) && h.owner
    ensures Accounted(Withdraw(h)) && Withdraw(h).queued.None? && Withdraw(h).destroyed == h.destroyed
  {
    forall t ensures ThreadAccounted(Withdraw(h), t) {
      assert ThreadAccounted(h, t);
    }
  }

  lemma DiscardAccounted(h: Header)
    requires Accounted(h) && h.owner
    ensures Accounted(Discard(h)) && Discard(h).queued.None?
  {
    forall t ensures ThreadAccounted(Discard(h), t) {
      assert ThreadAccounted(h, t);
    }
  }

  lemma ReleaseAccounted(h: Header)
    requires Accounted(h) && h.owner && h.queued.None?
    ensures Accounted(Release(h))
  {
    forall t ensures ThreadAccounted(Release(h), t) {
      assert ThreadAccounted(h, t);
    }
  }

  /** The object itself, with the DPC queue entry and the thread references its methods change. */
  class WatchdogObject {
    var referenceCount: int
    var lastEvent: Event
    var lastQueuedThread: Option<Thread>
    var queued: Option<Option<Thread>>
    var threadRefs: multiset<Thread>
    ghost var delivered: multiset<Option<Thread>>
    ghost var discarded: multiset<Option<Thread>>
    ghost var log: seq<Event>
    ghost var owner: bool
    ghost var destroyed: nat

    ghost function View(): Header
      reads this
    {
      Header(referenceCount, lastEvent, lastQueuedThread, queued, threadRefs,
             delivered, discarded, log, owner, destroyed)
    }

    constructor ()
      ensures View() == Initial()
    {
      referenceCount := 1;
      lastEvent := NoEvent;
      lastQueuedThread := None;
      queued := None;
      threadRefs := multiset{};
      delivered, discarded, log, owner, destroyed := multiset{}, multiset{}, [], true, 0;
    }

    method ReferenceObject()
      modifies this`referenceCount
      ensures View() == old(View()).(refCount := old(referenceCount) + 1)
    {
      referenceCount := referenceCount + 1;
    }

    /** InterlockedDecrement, then WdpDestroyObject when the count reached zero. */
    method DereferenceObject()
      requires referenceCount > 0
      modifies this`referenceCount, this`destroyed
      ensures View() == Dereference(old(View()))
    {
      referenceCount := referenceCount - 1;
      if referenceCount == 0 {
        destroyed := destroyed + 1;
      }
    }

    /** ObReferenceObject and ObDereferenceObject on a thread, which is NULL for a recovery. */
    method ReferenceThread(thread: Option<Thread>)
      modifies this`threadRefs
      ensures View() == old(View()).(threadRefs := old(threadRefs) + AsMultiset(thread))
    {
      if thread.Some? {
        threadRefs := threadRefs + multiset{thread.value};
      } else {
        assert threadRefs + multiset{} == threadRefs;
      }
    }

    method DereferenceThread(thread: Option<Thread>)
      modifies this`threadRefs
      ensures View() == old(View()).(threadRefs := old(threadRefs) - AsMultiset(thread))
    {
      if thread.Some? {
        threadRefs := threadRefs - multiset{thread.value};
      } else {
        assert threadRefs - multiset{} == threadRefs;
      }
    }

    method CompleteEvent(thread: Option<Thread>)
      requires referenceCount > 0
      modifies this`referenceCount, this`destroyed, this`threadRefs
      ensures View() == Completed(old(View()), thread)
    {
      DereferenceThread(thread);
      DereferenceObject();
    }

    method SetLastEvent(event: Event)
      modifies this`lastEvent, this`log
      ensures View() == old(View()).(lastEvent := event, log := old(log) + [event])
    {
      lastEvent := event;
      log := log + [event];
    }

    /** KeInsertQueueDpc: fails when the DPC is in the queue already. */
    method InsertQueueDpc(thread: Option<Thread>) returns (inserted: bool)
      modifies this`queued
      ensures inserted == old(queued).None?
      ensures View() == if inserted then old(View()).(queued := Some(thread)) else old(View())
    {
      inserted := queued.None?;
      if inserted {
        queued := Some(thread);
      }
    }

    /** KeRemoveQueueDpc: tells whether the DPC was in the queue. */
    method RemoveQueueDpc() returns (removed: bool)
      modifies this`queued
      ensures removed == old(queued).Some?
      ensures View() == old(View()).(queued := None)
    {
      removed := queued.Some?;
      queued := None;
    }

    /** Bump the references on what the client DPC is going to touch. */
    method ReferenceBoth(thread: Option<Thread>)
      modifies this`referenceCount, this`threadRefs
      ensures View() == old(View()).(refCount := old(referenceCount) + 1,
                                     threadRefs := old(threadRefs) + AsMultiset(thread))
    {
      ReferenceThread(thread);
      ReferenceObject();
    }

    /** Drop the references again that were taken on the state before. */
    method DropBoth(thread: Option<Thread>, ghost before: Header)
      requires before.refCount > 0
      requires View() == before.(refCount := before.refCount + 1, threadRefs := before.threadRefs + AsMultiset(thread))
      modifies this`referenceCount, this`destroyed, this`threadRefs
      ensures View() == before
    {
      ReferencesUndone(before, thread);
      CompleteEvent(thread);
    }

    /** Reference the object and the thread, queue the client DPC, drop the references if it was queued already. */
    method QueueClientDpc(thread: Option<Thread>) returns (inserted: bool)
      requires referenceCount > 0
      modifies this
      ensures inserted == old(queued).None?
      ensures View() == QueueDpc(old(View()), thread)
    {
      ReferenceBoth(thread);
      inserted := InsertQueueDpc(thread);
      if inserted {
        lastQueuedThread := thread;
      } else {
        DropBoth(thread, old(View()));
      }
    }

    /** Take the client DPC out of its queue; its event is completed here since it will not be delivered. */
    method WithdrawQueuedEvent()
      requires referenceCount > 0
      modifies this
      ensures View() == Withdraw(old(View()))
    {
      var wasQueued := RemoveQueueDpc();
      if wasQueued {
        CompleteEvent(lastQueuedThread);
      }
    }
  }
}
