/**
 * The display driver's event handler (watchdog/gdisup.c): DPC callbacks hand at most one event at a time
 * to a worker, through one global work item and one global block of bugcheck data.
 */
module EventHandler {
  import opened Base
  import opened WatchObject
  import opened Runs

  /** What the client DPC is called with: a thread (none for a recovery) and a watchdog object. */
  datatype Incident = Incident(thread: Option<Thread>, watch: nat)

  /**
   * Every callback and every worker is somewhere on its way:
   *  - claims: won the exchange to BUSY, bugcheck data not written yet
   *  - writers: wrote the data, work item not queued yet
   *  - items: how often the one global work item is in the work queue
   *  - running: workers before their exchange to IDLE; each has read its incident from the data
   *  - finishing: workers past that exchange, WdCompleteEvent still to come
   *  - refused: callbacks that found BUSY, WdCompleteEvent still to come
   *  - accepted: how many callbacks won the exchange
   */
  datatype Handler = Handler(
    busy: bool,
    data: Incident,
    occurrences: nat,
    claims: multiset<Incident>,
    writers: multiset<Incident>,
    items: nat,
    running: multiset<Incident>,
    finishing: multiset<Incident>,
    refused: multiset<Incident>,
    delivered: multiset<Incident>,
    completed: multiset<Incident>,
    accepted: nat,
    crashed: bool)

  function Idle(): Handler {
    Handler(false, Incident(None, 0), 0, multiset{}, multiset{}, 0,
            multiset{}, multiset{}, multiset{}, multiset{}, multiset{}, 0, false)
  }

  datatype Step =
    | Deliver(e: Incident)
    | WriteData(e: Incident)
    | QueueItem(e: Incident)
    | StartWorker
    | BugCheck(e: Incident)
    | GoIdle(e: Incident)
    | CompleteHandled(e: Incident)
    | CompleteRefused(e: Incident)

  predicate Enabled(s: Handler, step: Step) {
    !s.crashed
    && match step
       case Deliver(_) => true
       case WriteData(e) => e in s.claims
       case QueueItem(e) => e in s.writers
       case StartWorker => s.items > 0
       case BugCheck(e) => e in s.running
       case GoIdle(e) => e in s.running
       case CompleteHandled(e) => e in s.finishing
       case CompleteRefused(e) => e in s.refused
  }

  function Apply(s: Handler, step: Step): Handler {
    match step
    case Deliver(e) =>
      var s1 := s.(delivered := s.delivered + multiset{e});
      if s.busy then s1.(refused := s.refused + multiset{e})
      else s1.(busy := true, claims := s.claims + multiset{e}, accepted := s.accepted + 1)
    case WriteData(e) =>
      s.(data := e, occurrences := s.occurrences + 1,
         claims := s.claims - multiset{e}, writers := s.writers + multiset{e})
    case QueueItem(e) => s.(writers := s.writers - multiset{e}, items := s.items + 1)
    case StartWorker =>
      s.(items := if s.items > 0 then s.items - 1 else 0, running := s.running + multiset{s.data})
    case BugCheck(_) => s.(crashed := true)
    case GoIdle(e) =>
      s.(busy := false, running := s.running - multiset{e}, finishing := s.finishing + multiset{e})
    case CompleteHandled(e) =>
      s.(finishing := s.finishing - multiset{e}, completed := s.completed + multiset{e})
    case CompleteRefused(e) =>
      s.(refused := s.refused - multiset{e}, completed := s.completed + multiset{e})
  }

  /** A callback on its own, refused or accepted; a worker on its own, up to a bugcheck or to its end. */
  function Refuse(s: Handler, e: Incident): Handler {
    Apply(Apply(s, Deliver(e)), CompleteRefused(e))
  }

  function Accept(s: Handler, e: Incident): Handler {
    Apply(Apply(Apply(s, Deliver(e)), WriteData(e)), QueueItem(e))
  }

  function Crash(s: Handler): Handler {
    Apply(Apply(s, StartWorker), BugCheck(s.data))
  }

  function Handle(s: Handler): Handler {
    Apply(Apply(Apply(s, StartWorker), GoIdle(s.data)), CompleteHandled(s.data))
  }

  ghost function M(): Machine<Handler, Step> {
    Machine(Idle(), Enabled, Apply)
  }

  /** How many deliveries of an incident somebody still has to complete. */
  function Outstanding(s: Handler, e: Incident): nat {
    s.claims[e] + s.writers[e] + Count(s.items > 0 && s.data == e)
    + s.running[e] + s.finishing[e] + s.refused[e]
  }

  /** The handler is BUSY exactly while one callback or worker holds the exchange. */
  predicate Alone(s: Handler) {
    |s.claims| + |s.writers| + s.items + |s.running| == Count(s.busy)
  }

  /** The data belong to that callback or worker. */
  ghost predicate DataBelongs(s: Handler) {
    forall e :: e in s.writers || e in s.running ==> s.data == e
  }

  ghost predicate BalancedFor(s: Handler, e: Incident) {
    s.delivered[e] == s.completed[e] + Outstanding(s, e)
  }

  ghost predicate SingleFlight(s: Handler) {
    && Alone(s)
    && DataBelongs(s)
    && (forall e :: BalancedFor(s, e))
    && s.occurrences == s.accepted - |s.claims|
  }

  lemma {:induction false} StepAlone(s: Handler, step: Step)
    requires Alone(s) && Enabled(s, step)
    ensures Alone(Apply(s, step))
  {
    match step
    case WriteData(e) => TakeOne(s.claims, e);
    case QueueItem(e) => TakeOne(s.writers, e);
    case GoIdle(e) => TakeOne(s.running, e);
    case _ =>
  }

  lemma Moved<T>(m: multiset<T>, n: multiset<T>, x: T, e: T)
    requires x in m
    ensures (m - multiset{x})[e] + (n + multiset{x})[e] == m[e] + n[e]
  {
  }

  lemma {:induction false} StepDataBelongs(s: Handler, step: Step)
    requires Alone(s) && DataBelongs(s) && Enabled(s, step)
    ensures DataBelongs(Apply(s, step))
  {
    var s' := Apply(s, step);
    forall e | e in s'.writers || e in s'.running ensures s'.data == e {
      if step.WriteData? {
        TakeOne(s.claims, step.e);
        assert s.writers == multiset{} && s.running == multiset{};
      }
    }
  }

  lemma {:induction false} WriteBalanced(s: Handler, x: Incident, e: Incident)
    requires Alone(s) && BalancedFor(s, e) && x in s.claims
    ensures BalancedFor(Apply(s, WriteData(x)), e)
  {
    TakeOne(s.claims, x);
    Moved(s.claims, s.writers, x, e);
    assert s.items == 0;
  }

  lemma {:induction false} QueueBalanced(s: Handler, x: Incident, e: Incident)
    requires Alone(s) && DataBelongs(s) && BalancedFor(s, e) && x in s.writers
    ensures BalancedFor(Apply(s, QueueItem(x)), e)
  {
    TakeOne(s.writers, x);
    assert s.items == 0 && s.data == x;
    assert (s.writers - multiset{x})[e] == s.writers[e] - Count(e == x);
  }

  lemma {:induction false} StepBalanced(s: Handler, step: Step, e: Incident)
    requires Alone(s) && DataBelongs(s) && BalancedFor(s, e) && Enabled(s, step)
    ensures BalancedFor(Apply(s, step), e)
  {
    match step
    case Deliver(x) =>
    case WriteData(x) => WriteBalanced(s, x, e);
    case QueueItem(x) => QueueBalanced(s, x, e);
    case StartWorker =>
    case BugCheck(_) =>
    case GoIdle(x) => Moved(s.running, s.finishing, x, e);
    case CompleteHandled(x) => Moved(s.finishing, s.completed, x, e);
    case CompleteRefused(x) => Moved(s.refused, s.completed, x, e);
  }

  lemma StepKeeps(s: Handler, step: Step)
    requires SingleFlight(s) && Enabled(s, step)
    ensures SingleFlight(Apply(s, step))
  {
    StepAlone(s, step);
    StepDataBelongs(s, step);
    forall e ensures BalancedFor(Apply(s, step), e) {
      StepBalanced(s, step, e);
    }
    if step.WriteData? {
      TakeOne(s.claims, step.e);
    }
  }

  lemma {:induction false} RunKeeps(run: seq<Step>)
    requires Legal(M(), run)
    ensures SingleFlight(After(M(), run))
  {
    forall s, step | SingleFlight(s) && M().enabled(s, step) ensures SingleFlight(M().step(s, step)) {
      StepKeeps(s, step);
    }
    forall e ensures BalancedFor(M().init, e) {
    }
    Invariance(M(), SingleFlight, run);
  }

  /** The global data are being used: written for an item, waiting in it, or read by its worker. */
  predicate DataInUse(s: Handler) {
    s.writers != multiset{} || s.items > 0 || s.running != multiset{}
  }

  /**
   * Neither the work item nor the bugcheck data are reused before the handler is IDLE again: nobody writes data
   * in use, the item is in the queue at most once, and never while its worker runs.
   */
  lemma NeverReused(run: seq<Step>, step: Step)
    requires Legal(M(), run + [step])
    ensures var s, s' := After(M(), run), After(M(), run + [step]);
            && (DataInUse(s) ==> s.busy && s'.data == s.data)
            && s'.items <= 1 && (s'.items == 1 ==> |s'.running| == 0)
            && (s'.occurrences > s.occurrences ==> s.items == 0 && |s.running| == 0 && |s.writers| == 0)
  {
    RunKeeps(run + [step]);
    LegalPrefix(M(), run + [step], |run|);
    assert (run + [step])[..|run|] == run;
    RunKeeps(run);
    var s := After(M(), run);
    if step.WriteData? {
      TakeOne(s.claims, step.e);
    }
    assert s.writers != multiset{} ==> |s.writers| > 0;
    assert s.running != multiset{} ==> |s.running| > 0;
  }

  /** Every delivered event is completed at most once, and exactly once when nothing is under way. */
  lemma {:induction false} CompletedOnce(run: seq<Step>, e: Incident)
    requires Legal(M(), run)
    ensures var s := After(M(), run);
            && s.completed[e] + Outstanding(s, e) == s.delivered[e]
            && (!s.busy && s.finishing == multiset{} && s.refused == multiset{} ==> s.completed[e] == s.delivered[e])
  {
    RunKeeps(run);
    var s := After(M(), run);
    assert BalancedFor(s, e);
    if !s.busy {
      assert |s.claims| == 0 && |s.writers| == 0 && |s.running| == 0;
    }
  }

  /** A worker always handles the event its item was queued for, and KeBugCheckEx reports that event. */
  lemma {:induction false} WorkerHandlesItsEvent(run: seq<Step>, e: Incident)
    requires Legal(M(), run) && e in After(M(), run).running
    ensures After(M(), run).data == e
  {
    RunKeeps(run);
  }

  lemma AcceptGlobals(s: Handler, e: Incident)
    requires !s.busy
    ensures var s' := Accept(s, e);
            s'.busy && s'.data == e && s'.occurrences == s.occurrences + 1 && s'.items == s.items + 1
  {
  }

  lemma RefuseGlobals(s: Handler, e: Incident)
    requires s.busy
    ensures var s' := Refuse(s, e);
            s'.busy && s'.data == s.data && s'.occurrences == s.occurrences && s'.items == s.items
  {
  }

  lemma WorkerGlobals(s: Handler)
    requires s.items > 0
    ensures Crash(s).busy == s.busy && !Handle(s).busy
    ensures Crash(s).data == Handle(s).data == s.data && Crash(s).occurrences == Handle(s).occurrences == s.occurrences
    ensures Crash(s).items == Handle(s).items == s.items - 1
  {
  }

  /** The handler's globals; the ghost state places every callback and worker. */
  class DisplayHandler {
    var busy: bool
    var data: Incident
    var occurrences: nat
    var items: nat
    ghost var state: Handler

    ghost predicate Valid()
      reads this
    {
      busy == state.busy && data == state.data && occurrences == state.occurrences && items == state.items
    }

    constructor ()
      ensures Valid() && state == Idle()
    {
      busy, data, occurrences, items := false, Incident(None, 0), 0, 0;
      state := Idle();
    }

    /** The callback, when nothing runs in between: a busy handler gets the event completed at once. */
    method DdiWatchdogDpcCallback(e: Incident)
      requires Valid()
      modifies this
      ensures Valid()
      ensures state == if old(busy) then Refuse(old(state), e) else Accept(old(state), e)
    {
      if !busy {
        ghost var accepted := Accept(state, e);
        AcceptGlobals(state, e);
        state := accepted;
        busy := true;
        data := e;
        occurrences := occurrences + 1;
        items := items + 1;
      } else {
        ghost var refused := Refuse(state, e);
        RefuseGlobals(state, e);
        state := refused;
      }
    }

    /** The worker: read the data, handle the event, go IDLE, and only then complete it. */
    method BugCheckStuckDriver(bugCheck: bool)
      requires Valid() && items > 0
      modifies this
      ensures Valid()
      ensures state == if bugCheck then Crash(old(state)) else Handle(old(state))
    {
      WorkerGlobals(state);
      items := items - 1;
      if bugCheck {
        state := Crash(state);
      } else {
        state := Handle(state);
        busy := false;
      }
    }
  }
}
