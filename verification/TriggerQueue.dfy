/**
 The controller as a step system: changes of watched objects, the informers that deliver them, the
 deduplicating work queue, and its single worker. No trigger is lost over any run.

 Assumed of controller-runtime: an informer updates its cache before it delivers an event; an added
 request that is being processed is queued again when that is done; a pass that fails is added
 again after a backoff; there is one worker.
 */
module TriggerQueue {
  import opened Prelude
  import opened Triggers

  /** The kinds of watched objects. Changes are those that the watch predicates accept. */
  datatype Source = ConfigMapSource | WebhookSource | NamespaceSource

  /** Something for each source. */
  datatype Per<T> = Per(configMaps: T, webhooks: T, namespaces: T) {
    function Of(s: Source): T {
      match s
      case ConfigMapSource => configMaps
      case WebhookSource => webhooks
      case NamespaceSource => namespaces
    }

    function With(s: Source, t: T): Per<T> {
      match s
      case ConfigMapSource => this.(configMaps := t)
      case WebhookSource => this.(webhooks := t)
      case NamespaceSource => this.(namespaces := t)
    }
  }

  /** When something changed, and in which namespace; the empty one for config, which concerns all. */
  datatype Made = Made(at: Instant, ns: string)

  /** When a pass read a source, and how many of its changes the cache held then. */
  datatype Reading = NotRead | ReadAt(at: Instant, seen: nat)

  /** A pass: its request, its start, how many changes had been delivered by then, and what it read. */
  datatype Pass = Pass(req: Request, started: Instant, atStart: Per<nat>, read: Per<Reading>)

  datatype Worker = Idle | Busy(pass: Pass)

  /**
   `made` are all changes of a source, `delivered` counts those whose event has been delivered.
   `dirty` are the requests to be processed (again), `queue` those ready to be taken, `delayed` those
   in backoff. `served` are the passes that succeeded.
   */
  datatype State = State(
    clock: Instant, made: Per<seq<Made>>, delivered: Per<nat>,
    queue: seq<Request>, dirty: set<Request>, delayed: set<Request>, worker: Worker, served: seq<Pass>)

  datatype Action =
    | Tick(d: nat)
    | Change(source: Source, ns: string)
    | Deliver(source: Source)
    | PeriodicTick
    | TakeRequest
    | Read(source: Source)
    | Succeed
    | Fail
    | Requeue(req: Request)

  /** The request that the event of a change enqueues. */
  function RequestOf(source: Source, change: Made): Request {
    if source.NamespaceSource? then NamespaceRequest(change.ns) else ISTIO_CHANGE
  }

  /** A pass for the request scans what the change concerns. */
  predicate Covers(req: Request, change: Made) {
    Route(req).AllNamespaces? || (change.ns != "" && Route(req) == OneNamespace(change.ns))
  }

  predicate Processing(s: State, req: Request) {
    s.worker.Busy? && s.worker.pass.req == req
  }

  /** The queue's `Add`: a request that is already waiting is dropped, one in process waits for its end. */
  function Add(s: State, req: Request): State {
    if req in s.dirty then s
    else s.(dirty := s.dirty + {req}, queue := if Processing(s, req) then s.queue else s.queue + [req])
  }

  /** The queue's `Done`. */
  function Done(s: State): State
    requires s.worker.Busy?
  {
    var req := s.worker.pass.req;
    s.(worker := Idle, queue := if req in s.dirty then s.queue + [req] else s.queue)
  }

  /** What a pass waits for before it reads anything; `Reconciler.IstioChangeReconciler.Scan` ensures it. */
  predicate Waited(started: Instant, now: Instant, delay: int) {
    now >= started && now - started >= delay
  }

  /**
   After its wait a pass lists the ConfigMaps, then the webhook configurations, and then scans, reading
   namespaces.
   */
  predicate MayRead(s: State, delay: int, source: Source) {
    && s.worker.Busy? && !Route(s.worker.pass.req).Unhandled?
    && s.worker.pass.read.Of(source).NotRead?
    && Waited(s.worker.pass.started, s.clock, delay)
    && (source.WebhookSource? ==> s.worker.pass.read.configMaps.ReadAt?)
    && (source.NamespaceSource? ==> s.worker.pass.read.webhooks.ReadAt?)
  }

  predicate Complete(p: Pass) {
    p.read.configMaps.ReadAt? && p.read.webhooks.ReadAt? && p.read.namespaces.ReadAt?
  }

  predicate Enabled(s: State, delay: int, a: Action) {
    match a
    case Change(source, ns) => source.NamespaceSource? <==> ns != ""
    case Deliver(source) => s.delivered.Of(source) < |s.made.Of(source)|
    case TakeRequest => s.worker.Idle? && s.queue != []
    case Read(source) => MayRead(s, delay, source)
    case Succeed => s.worker.Busy? && (Route(s.worker.pass.req).Unhandled? || Complete(s.worker.pass))
    case Fail => s.worker.Busy? && !Route(s.worker.pass.req).Unhandled?
    case Requeue(req) => req in s.delayed
    case _ => true
  }

  function Next(s: State, delay: int, a: Action): State
    requires Enabled(s, delay, a)
  {
    match a
    case Tick(d) => s.(clock := s.clock + d)
    case Change(source, ns) => s.(made := s.made.With(source, s.made.Of(source) + [Made(s.clock, ns)]))
    case Deliver(source) =>
      var i := s.delivered.Of(source);
      Add(s.(delivered := s.delivered.With(source, i + 1)), RequestOf(source, s.made.Of(source)[i]))
    case PeriodicTick => Add(s, PERIODIC)
    case TakeRequest =>
      s.(worker := Busy(Pass(s.queue[0], s.clock, s.delivered, Per(NotRead, NotRead, NotRead))),
         queue := s.queue[1..], dirty := s.dirty - {s.queue[0]})
    case Read(source) =>
      var read := s.worker.pass.read.With(source, ReadAt(s.clock, s.delivered.Of(source)));
      s.(worker := Busy(s.worker.pass.(read := read)))
    case Succeed =>
      Done(if Route(s.worker.pass.req).Unhandled? then s else s.(served := s.served + [s.worker.pass]))
    case Fail => Done(s.(delayed := s.delayed + {s.worker.pass.req}))
    case Requeue(req) => Add(s.(delayed := s.delayed - {req}), req)
  }

  const INIT := State(0, Per([], [], []), Per(0, 0, 0), [], {}, {}, Idle, [])

  /** The state after a run from the start; `None` if some action is not enabled. */
  function After(delay: int, actions: seq<Action>): Option<State> {
    if actions == [] then Some(INIT)
    else
      match After(delay, actions[..|actions| - 1])
      case None => None
      case Some(s) =>
        var a := actions[|actions| - 1];
        if Enabled(s, delay, a) then Some(Next(s, delay, a)) else None
  }

  // ---- the invariant

  /**
   The change is served by the pass: its event was delivered before the pass started, the pass covers
   it and read it, and that no sooner than `delay` after it was made.
   */
  ghost predicate ServedBy(s: State, delay: int, p: Pass, source: Source, i: nat) {
    && i < |s.made.Of(source)| && Covers(p.req, s.made.Of(source)[i])
    && i < p.atStart.Of(source)
    && p.read.Of(source).ReadAt?
    && i < p.read.Of(source).seen
    && p.read.Of(source).at - s.made.Of(source)[i].at >= delay
  }

  ghost predicate Served(s: State, delay: int, source: Source, i: nat) {
    exists k :: 0 <= k < |s.served| && ServedBy(s, delay, s.served[k], source, i)
  }

  /** A request that covers the change waits: in the queue, behind the pass in process, or in backoff. */
  ghost predicate Pending(s: State, change: Made) {
    exists req :: Covers(req, change) && (req in s.dirty || req in s.delayed)
  }

  /** A pass that covers the change and started after its delivery is under way. */
  ghost predicate UnderWay(s: State, source: Source, i: nat)
    requires i < |s.made.Of(source)|
  {
    s.worker.Busy? && Covers(s.worker.pass.req, s.made.Of(source)[i]) && i < s.worker.pass.atStart.Of(source)
  }

  ghost predicate QueueConsistent(s: State) {
    && Distinct(s.queue)
    && (forall req :: req in s.queue <==> req in s.dirty && !Processing(s, req))
  }

  /** A pass knows no more than was delivered, started after those deliveries, and read after the delay. */
  ghost predicate PassConsistent(s: State, delay: int, p: Pass) {
    && p.started <= s.clock
    && forall source ::
         && p.atStart.Of(source) <= s.delivered.Of(source)
         && (forall i :: 0 <= i < p.atStart.Of(source) && i < |s.made.Of(source)| ==>
              s.made.Of(source)[i].at <= p.started)
         && (p.read.Of(source).ReadAt? ==>
               && p.atStart.Of(source) <= p.read.Of(source).seen <= s.delivered.Of(source)
               && Waited(p.started, p.read.Of(source).at, delay))
  }

  /** Deliveries are of changes that were made, in the past, and with a namespace exactly for namespaces. */
  ghost predicate ChangesConsistent(s: State) {
    forall source ::
      && s.delivered.Of(source) <= |s.made.Of(source)|
      && forall i :: 0 <= i < |s.made.Of(source)| ==>
           && s.made.Of(source)[i].at <= s.clock
           && (source.NamespaceSource? <==> s.made.Of(source)[i].ns != "")
  }

  /** Every delivered change is served, or a request that covers it waits, or a pass that covers it is under way. */
  ghost predicate NothingLost(s: State, delay: int) {
    forall source, i: nat :: i < s.delivered.Of(source) && i < |s.made.Of(source)| ==>
      Served(s, delay, source, i) || Pending(s, s.made.Of(source)[i]) || UnderWay(s, source, i)
  }

  ghost predicate Inv(s: State, delay: int) {
    && QueueConsistent(s) && ChangesConsistent(s)
    && (s.worker.Busy? ==> PassConsistent(s, delay, s.worker.pass))
    && NothingLost(s, delay)
  }

  lemma AddKeepsQueue(s: State, req: Request)
    requires QueueConsistent(s)
    ensures QueueConsistent(Add(s, req))
    ensures forall change :: Covers(req, change) || Pending(s, change) ==> Pending(Add(s, req), change)
  {
    var t := Add(s, req);
    assert req in t.dirty;
    forall change | Covers(req, change) || Pending(s, change) ensures Pending(t, change) {
      if Pending(s, change) {
        var r :| Covers(r, change) && (r in s.dirty || r in s.delayed);
        assert r in t.dirty || r in t.delayed;
      }
    }
  }

  lemma RequestCoversChange(source: Source, change: Made)
    requires source.NamespaceSource? <==> change.ns != ""
    ensures Covers(RequestOf(source, change), change)
  {
  }

  /** Serving outlives every step that only adds changes, deliveries and passes. */
  lemma ServedStays(s: State, t: State, delay: int, source: Source, i: nat)
    requires Served(s, delay, source, i)
    requires |s.served| <= |t.served| && t.served[..|s.served|] == s.served
    requires |s.made.Of(source)| <= |t.made.Of(source)| && t.made.Of(source)[..|s.made.Of(source)|] == s.made.Of(source)
    ensures Served(t, delay, source, i)
  {
    var k :| 0 <= k < |s.served| && ServedBy(s, delay, s.served[k], source, i);
    assert t.served[k] == s.served[k];
    assert t.made.Of(source)[i] == s.made.Of(source)[i];
    assert ServedBy(t, delay, t.served[k], source, i);
  }

  /** History only grows. */
  ghost predicate Extends(s: State, t: State) {
    && |s.served| <= |t.served| && t.served[..|s.served|] == s.served
    && forall source ::
         |s.made.Of(source)| <= |t.made.Of(source)| && t.made.Of(source)[..|s.made.Of(source)|] == s.made.Of(source)
  }

  /** Waiting requests keep waiting. */
  ghost predicate KeepsPending(s: State, t: State) {
    forall change :: Pending(s, change) ==> Pending(t, change)
  }

  /** Requests that wait in one state wait in the other, so that whatever is pending stays so. */
  lemma RequestsStay(s: State, t: State)
    requires forall req :: req in s.dirty || req in s.delayed ==> req in t.dirty || req in t.delayed
    ensures KeepsPending(s, t)
  {
    forall change | Pending(s, change) ensures Pending(t, change) {
      var r :| Covers(r, change) && (r in s.dirty || r in s.delayed);
      assert r in t.dirty || r in t.delayed;
    }
  }

  /**
   Nothing gets lost when waiting requests keep waiting and the pass under way goes on, is served, or is asked
   for again.
   */
  lemma NothingLostStays(s: State, t: State, delay: int)
    requires NothingLost(s, delay) && ChangesConsistent(s) && Extends(s, t) && t.delivered == s.delivered
    requires KeepsPending(s, t)
    requires forall source, i: nat ::
              i < s.delivered.Of(source) && i < |s.made.Of(source)| && UnderWay(s, source, i) ==>
               UnderWay(t, source, i) || Pending(t, s.made.Of(source)[i]) || Served(t, delay, source, i)
    ensures NothingLost(t, delay)
  {
    forall source, i: nat | i < t.delivered.Of(source) && i < |t.made.Of(source)|
      ensures Served(t, delay, source, i) || Pending(t, t.made.Of(source)[i]) || UnderWay(t, source, i)
    {
      assert t.made.Of(source)[i] == s.made.Of(source)[i];
      if Served(s, delay, source, i) {
        ServedStays(s, t, delay, source, i);
      }
    }
  }

  lemma TickKeepsInv(s: State, delay: int, d: nat)
    requires Inv(s, delay)
    ensures Inv(Next(s, delay, Tick(d)), delay)
  {
    var t := Next(s, delay, Tick(d));
    RequestsStay(s, t);
    NothingLostStays(s, t, delay);
  }

  lemma ChangeKeepsInv(s: State, delay: int, source: Source, ns: string)
    requires Inv(s, delay) && Enabled(s, delay, Change(source, ns))
    ensures Inv(Next(s, delay, Change(source, ns)), delay)
  {
    var t := Next(s, delay, Change(source, ns));
    RequestsStay(s, t);
    NothingLostStays(s, t, delay);
  }

  lemma AddKeepsInv(s: State, delay: int, req: Request)
    requires Inv(s, delay)
    ensures Inv(Add(s, req), delay)
  {
    AddKeepsQueue(s, req);
    NothingLostStays(s, Add(s, req), delay);
  }

  /** With one more delivery nothing is lost if a request that covers the delivered change waits. */
  lemma OneMoreDelivery(s: State, t: State, delay: int, source: Source)
    requires NothingLost(s, delay) && s.delivered.Of(source) < |s.made.Of(source)|
    requires t.made == s.made && t.served == s.served && t.worker == s.worker && KeepsPending(s, t)
    requires t.delivered == s.delivered.With(source, s.delivered.Of(source) + 1)
    requires Pending(t, s.made.Of(source)[s.delivered.Of(source)])
    ensures NothingLost(t, delay)
  {
    forall from, i: nat | i < t.delivered.Of(from) && i < |t.made.Of(from)|
      ensures Served(t, delay, from, i) || Pending(t, t.made.Of(from)[i]) || UnderWay(t, from, i)
    {
      OtherOf(s.delivered, source, s.delivered.Of(source) + 1, from);
      if from != source || i < s.delivered.Of(source) {
        DeliveredStays(s, t, delay, from, i);
      }
    }
  }

  lemma OtherOf<T>(per: Per<T>, source: Source, t: T, from: Source)
    ensures per.With(source, t).Of(from) == if from == source then t else per.Of(from)
  {
  }

  /** What was delivered before is not lost while requests keep waiting and the worker goes on. */
  lemma DeliveredStays(s: State, t: State, delay: int, source: Source, i: nat)
    requires NothingLost(s, delay) && i < s.delivered.Of(source) && i < |s.made.Of(source)|
    requires t.made == s.made && t.served == s.served && t.worker == s.worker && KeepsPending(s, t)
    ensures Served(t, delay, source, i) || Pending(t, t.made.Of(source)[i]) || UnderWay(t, source, i)
  {
    if Served(s, delay, source, i) {
      ServedStays(s, t, delay, source, i);
    }
  }

  /** A delivery asks for a pass that covers the delivered change. */
  lemma DeliverKeepsInv(s: State, delay: int, source: Source)
    requires Inv(s, delay) && Enabled(s, delay, Deliver(source))
    ensures Inv(Next(s, delay, Deliver(source)), delay)
  {
    var change := s.made.Of(source)[s.delivered.Of(source)];
    var d := s.(delivered := s.delivered.With(source, s.delivered.Of(source) + 1));
    var t := Next(s, delay, Deliver(source));
    RequestCoversChange(source, change);
    AddKeepsQueue(d, RequestOf(source, change));
    RequestsStay(s, t);
    OneMoreDelivery(s, t, delay, source);
  }

  /** Taking a request starts a pass that covers all delivered changes that the request covers. */
  lemma TakeKeepsInv(s: State, delay: int)
    requires Inv(s, delay) && Enabled(s, delay, TakeRequest)
    ensures Inv(Next(s, delay, TakeRequest), delay)
  {
    var t := Next(s, delay, TakeRequest);
    var req := s.queue[0];
    assert s.queue == [req] + s.queue[1..];
    forall source, i: nat | i < t.delivered.Of(source) && i < |t.made.Of(source)|
      ensures Served(t, delay, source, i) || Pending(t, t.made.Of(source)[i]) || UnderWay(t, source, i)
    {
      var change := s.made.Of(source)[i];
      if Served(s, delay, source, i) {
        ServedStays(s, t, delay, source, i);
      } else if Pending(s, change) && !Covers(req, change) {
        var r :| Covers(r, change) && (r in s.dirty || r in s.delayed);
        assert r in t.dirty || r in t.delayed;
      }
    }
  }

  lemma ReadKeepsInv(s: State, delay: int, source: Source)
    requires Inv(s, delay) && Enabled(s, delay, Read(source))
    ensures Inv(Next(s, delay, Read(source)), delay)
  {
    var t := Next(s, delay, Read(source));
    RequestsStay(s, t);
    NothingLostStays(s, t, delay);
  }

  lemma DoneKeepsQueue(s: State)
    requires QueueConsistent(s) && s.worker.Busy?
    ensures QueueConsistent(Done(s))
  {
  }

  /** A pass that succeeds serves what it covers of what was delivered before it started. */
  lemma SucceedKeepsInv(s: State, delay: int)
    requires Inv(s, delay) && Enabled(s, delay, Succeed)
    ensures Inv(Next(s, delay, Succeed), delay)
  {
    var t := Next(s, delay, Succeed);
    var p := s.worker.pass;
    DoneKeepsQueue(if Route(p.req).Unhandled? then s else s.(served := s.served + [p]));
    RequestsStay(s, t);
    forall source, i: nat | i < s.delivered.Of(source) && i < |s.made.Of(source)| && UnderWay(s, source, i)
      ensures Served(t, delay, source, i)
    {
      assert t.served[|s.served|] == p;
      assert ServedBy(t, delay, t.served[|s.served|], source, i);
    }
    NothingLostStays(s, t, delay);
  }

  /** The request of a pass that fails waits in backoff. */
  lemma FailKeepsInv(s: State, delay: int)
    requires Inv(s, delay) && Enabled(s, delay, Fail)
    ensures Inv(Next(s, delay, Fail), delay)
  {
    var t := Next(s, delay, Fail);
    var req := s.worker.pass.req;
    DoneKeepsQueue(s.(delayed := s.delayed + {req}));
    assert req in t.delayed;
    RequestsStay(s, t);
    NothingLostStays(s, t, delay);
  }

  lemma RequeueKeepsInv(s: State, delay: int, req: Request)
    requires Inv(s, delay) && Enabled(s, delay, Requeue(req))
    ensures Inv(Next(s, delay, Requeue(req)), delay)
  {
    var t := Next(s, delay, Requeue(req));
    AddKeepsQueue(s.(delayed := s.delayed - {req}), req);
    RequestsStay(s, t);
    NothingLostStays(s, t, delay);
  }

  lemma StepKeepsInv(s: State, delay: int, a: Action)
    requires Inv(s, delay) && Enabled(s, delay, a)
    ensures Inv(Next(s, delay, a), delay)
  {
    match a
    case Tick(d) => TickKeepsInv(s, delay, d);
    case Change(source, ns) => ChangeKeepsInv(s, delay, source, ns);
    case Deliver(source) => DeliverKeepsInv(s, delay, source);
    case PeriodicTick => AddKeepsInv(s, delay, PERIODIC);
    case TakeRequest => TakeKeepsInv(s, delay);
    case Read(source) => ReadKeepsInv(s, delay, source);
    case Succeed => SucceedKeepsInv(s, delay);
    case Fail => FailKeepsInv(s, delay);
    case Requeue(req) => RequeueKeepsInv(s, delay, req);
  }

  /**
   No trigger is lost over any run: at every reachable state, each change whose event was delivered
   has been served by a pass that covers it, started after the delivery and read at least the delay
   after the change, or a request that covers it is waiting, or such a pass is under way.
   */
  lemma {:induction false} NoLostTrigger(delay: int, actions: seq<Action>)
    requires After(delay, actions).Some?
    ensures Inv(After(delay, actions).value, delay)
    ensures NothingLost(After(delay, actions).value, delay)
    decreases |actions|
  {
    if actions != [] {
      NoLostTrigger(delay, actions[..|actions| - 1]);
      StepKeepsInv(After(delay, actions[..|actions| - 1]).value, delay, actions[|actions| - 1]);
    }
  }

  /** When all events are delivered and nothing waits or runs, every change ever made has been served. */
  lemma QuietMeansServed(delay: int, actions: seq<Action>, source: Source, i: nat)
    requires After(delay, actions).Some?
    requires var s := After(delay, actions).value;
             && s.delivered.Of(source) == |s.made.Of(source)| && i < |s.made.Of(source)|
             && s.worker.Idle? && s.queue == [] && s.delayed == {}
    ensures Served(After(delay, actions).value, delay, source, i)
  {
    var s := After(delay, actions).value;
    NoLostTrigger(delay, actions);
    forall req ensures req !in s.dirty {
      assert req !in s.queue;
    }
  }

  /** However many events arrive before the worker is free, a request waits in the queue at most once. */
  lemma EventsCoalesce(delay: int, actions: seq<Action>)
    requires After(delay, actions).Some?
    ensures Distinct(After(delay, actions).value.queue)
  {
    NoLostTrigger(delay, actions);
  }

  // ---- every request is handled

  /** The requests that wait or are in process. */
  ghost predicate Requested(s: State, req: Request) {
    req in s.dirty || req in s.delayed || req in s.queue || Processing(s, req)
  }

  ghost predicate AllHandled(s: State) {
    forall req :: Requested(s, req) ==> !Route(req).Unhandled?
  }

  lemma StepKeepsHandled(s: State, delay: int, a: Action)
    requires Inv(s, delay) && AllHandled(s) && Enabled(s, delay, a)
    ensures AllHandled(Next(s, delay, a))
  {
    if a.Deliver? {
      var change := s.made.Of(a.source)[s.delivered.Of(a.source)];
      RequestCoversChange(a.source, change);
      RequestsAreHandled(change.ns);
    }
    forall req | Requested(Next(s, delay, a), req)
      ensures Requested(s, req) || req == PERIODIC || (a.Deliver? && !Route(req).Unhandled?)
    {
    }
  }

  /** Over every run, no request of the ticker or of a watch is dropped as unhandled. */
  lemma {:induction false} EveryRequestIsHandled(delay: int, actions: seq<Action>)
    requires After(delay, actions).Some?
    ensures AllHandled(After(delay, actions).value)
    decreases |actions|
  {
    if actions != [] {
      var front := actions[..|actions| - 1];
      EveryRequestIsHandled(delay, front);
      NoLostTrigger(delay, front);
      StepKeepsHandled(After(delay, front).value, delay, actions[|actions| - 1]);
    }
  }

  /** A change or a tick that asks for the request has been delivered. */
  ghost predicate Caused(s: State, ticked: bool, req: Request) {
    || (exists i :: && 0 <= i < s.delivered.namespaces && i < |s.made.namespaces|
                    && req == Request("", s.made.namespaces[i].ns))
    || (s.delivered.configMaps + s.delivered.webhooks > 0 && req == Request("istio-system", "__istio_change__"))
    || (ticked && req == Request("istio-system", "__periodic_reconcile__"))
  }

  ghost predicate AllCaused(s: State, ticked: bool) {
    forall req :: Requested(s, req) ==> Caused(s, ticked, req)
  }

  lemma CauseStays(s: State, delay: int, a: Action, ticked: bool, req: Request)
    requires ChangesConsistent(s) && Enabled(s, delay, a) && Caused(s, ticked, req)
    ensures Caused(Next(s, delay, a), ticked || a == PeriodicTick, req)
  {
    var t := Next(s, delay, a);
    if i :| 0 <= i < s.delivered.namespaces && i < |s.made.namespaces| && req == Request("", s.made.namespaces[i].ns) {
      assert t.made.namespaces[i] == s.made.namespaces[i];
    }
  }

  /** Of the requests after a step only the one that it adds is new, and the delivery or the tick is its cause. */
  lemma NewRequestIsCaused(s: State, delay: int, a: Action, ticked: bool, req: Request)
    requires Inv(s, delay) && Enabled(s, delay, a) && Requested(Next(s, delay, a), req) && !Requested(s, req)
    ensures Caused(Next(s, delay, a), ticked || a == PeriodicTick, req)
  {
    if a.Deliver? && a.source.NamespaceSource? {
      var i, t := s.delivered.namespaces, Next(s, delay, a);
      assert req == Request("", t.made.namespaces[i].ns);
    }
  }

  /** Over every run, no pass is asked for without a cause, nor a wider one than its cause asks for. */
  lemma {:induction false} RequestsHaveCauses(delay: int, actions: seq<Action>)
    requires After(delay, actions).Some?
    ensures AllCaused(After(delay, actions).value, PeriodicTick in actions)
    decreases |actions|
  {
    if actions != [] {
      var front, a := actions[..|actions| - 1], actions[|actions| - 1];
      var s := After(delay, front).value;
      RequestsHaveCauses(delay, front);
      NoLostTrigger(delay, front);
      assert actions == front + [a];
      forall req | Requested(Next(s, delay, a), req) ensures Caused(Next(s, delay, a), PeriodicTick in actions, req) {
        if Requested(s, req) {
          CauseStays(s, delay, a, PeriodicTick in front, req);
        } else {
          NewRequestIsCaused(s, delay, a, PeriodicTick in front, req);
        }
      }
    }
  }

  // ---- the queue never gets stuck

  /** Everything is delivered, nothing waits, and no pass is under way. */
  predicate Quiet(s: State) {
    && s.delivered == Per(|s.made.configMaps|, |s.made.webhooks|, |s.made.namespaces|)
    && s.worker.Idle? && s.queue == [] && s.delayed == {}
  }

  function Behind(s: State, source: Source): nat {
    var made, delivered := |s.made.Of(source)|, s.delivered.Of(source);
    if delivered < made then made - delivered else 0
  }

  function Undelivered(s: State): nat {
    Behind(s, ConfigMapSource) + Behind(s, WebhookSource) + Behind(s, NamespaceSource)
  }

  /** What the pass under way has left to do. */
  function Work(s: State, delay: int): nat {
    match s.worker
    case Idle => 0
    case Busy(p) =>
      1 + (if Waited(p.started, s.clock, delay) then 0 else 1) + (if p.read.configMaps.NotRead? then 1 else 0)
      + (if p.read.webhooks.NotRead? then 1 else 0) + (if p.read.namespaces.NotRead? then 1 else 0)
  }

  /** Something comes nearer to its end, in this order: deliveries, backoffs, waiting requests, the pass under way. */
  predicate Nearer(s: State, t: State, delay: int) {
    || Undelivered(t) < Undelivered(s)
    || (Undelivered(t) == Undelivered(s)
        && (|t.delayed| < |s.delayed|
            || (t.delayed == s.delayed
                && (|t.dirty| < |s.dirty| || (t.dirty == s.dirty && Work(t, delay) < Work(s, delay))))))
  }

  /** The worker can always go on with its pass. */
  lemma PassGoesOn(s: State, delay: int) returns (a: Action)
    requires Inv(s, delay) && s.worker.Busy?
    ensures Enabled(s, delay, a) && Next(s, delay, a).made == s.made && Nearer(s, Next(s, delay, a), delay)
  {
    var p := s.worker.pass;
    if Route(p.req).Unhandled? || Complete(p) {
      a := Succeed;
    } else if !Waited(p.started, s.clock, delay) {
      a := Tick(p.started + (if delay > 0 then delay else 0));
    } else if p.read.configMaps.NotRead? {
      a := Read(ConfigMapSource);
    } else if p.read.webhooks.NotRead? {
      a := Read(WebhookSource);
    } else {
      a := Read(NamespaceSource);
    }
  }

  lemma AllDelivered(s: State)
    requires ChangesConsistent(s) && Undelivered(s) == 0
    ensures s.delivered == Per(|s.made.configMaps|, |s.made.webhooks|, |s.made.namespaces|)
  {
    assert s.delivered.Of(ConfigMapSource) <= |s.made.Of(ConfigMapSource)|;
    assert s.delivered.Of(WebhookSource) <= |s.made.Of(WebhookSource)|;
    assert s.delivered.Of(NamespaceSource) <= |s.made.Of(NamespaceSource)|;
  }

  /** Whatever is left to do, some step brings it nearer. */
  lemma QueueGoesOn(s: State, delay: int) returns (a: Action)
    requires Inv(s, delay) && !Quiet(s)
    ensures Enabled(s, delay, a) && Next(s, delay, a).made == s.made && Nearer(s, Next(s, delay, a), delay)
  {
    if s.worker.Busy? {
      a := PassGoesOn(s, delay);
    } else if Undelivered(s) > 0 {
      a := Deliver(if Behind(s, ConfigMapSource) > 0 then ConfigMapSource
                   else if Behind(s, WebhookSource) > 0 then WebhookSource else NamespaceSource);
    } else if s.delayed != {} {
      var req :| req in s.delayed;
      a := Requeue(req);
    } else {
      AllDelivered(s);
      a := TakeRequest;
      assert s.queue[0] in s.queue;
    }
  }

  lemma OneMoreAction(delay: int, actions: seq<Action>, a: Action)
    requires After(delay, actions).Some? && Enabled(After(delay, actions).value, delay, a)
    ensures After(delay, actions + [a]) == Some(Next(After(delay, actions).value, delay, a))
  {
    assert (actions + [a])[..|actions|] == actions;
  }

  /**
   The queue never gets stuck: from every reachable state, without another change, some steps lead to one in
   which everything is delivered and nothing waits; and so every change is served.
   */
  lemma {:induction false} CanBecomeQuiet(delay: int, actions: seq<Action>) returns (more: seq<Action>)
    requires After(delay, actions).Some?
    ensures After(delay, actions + more).Some? && Quiet(After(delay, actions + more).value)
    ensures After(delay, actions + more).value.made == After(delay, actions).value.made
    decreases Undelivered(After(delay, actions).value), |After(delay, actions).value.delayed|,
              |After(delay, actions).value.dirty|, Work(After(delay, actions).value, delay)
  {
    var s := After(delay, actions).value;
    NoLostTrigger(delay, actions);
    if Quiet(s) {
      more := [];
      assert actions + [] == actions;
    } else {
      var a := QueueGoesOn(s, delay);
      OneMoreAction(delay, actions, a);
      var rest := CanBecomeQuiet(delay, actions + [a]);
      more := [a] + rest;
      assert actions + more == actions + [a] + rest;
    }
  }

  /** So every change that was ever made can still be served. */
  lemma CanServeAll(delay: int, actions: seq<Action>) returns (more: seq<Action>)
    requires After(delay, actions).Some?
    ensures After(delay, actions + more).Some?
    ensures forall source, i: nat :: i < |After(delay, actions).value.made.Of(source)| ==>
              Served(After(delay, actions + more).value, delay, source, i)
  {
    more := CanBecomeQuiet(delay, actions);
    forall source, i: nat | i < |After(delay, actions).value.made.Of(source)|
      ensures Served(After(delay, actions + more).value, delay, source, i)
    {
      QuietMeansServed(delay, actions + more, source, i);
    }
  }
}
