/** The reply side of EngineLoadBalancer.cpp on values: the shared reply queue, the dispatcher
    thread, the subscribers and the result queue of each camera. A reply is named by its place
    in the order in which the shared queue received it. Each step is one critical section. */
module ReplySides {
  import opened Options
  import opened HandlerLines
  import opened SafeQueues

  const RESULT_QUEUE_SIZE: nat := 10

  /** What became of a reply the dispatcher took. */
  datatype Fate = InHand | Queued(queue: nat) | Delivered(nth: nat) | Dropped(from: nat) | Discarded

  datatype CamQueue = CamQueue(unit: int, items: seq<nat>, terminated: bool)

  datatype Dispatcher = Free | Holding(place: nat) | Routed(place: nat, queue: nat)

  /** A caller asking for `asked` got the reply at `place` out of a queue. */
  datatype Delivery = Delivery(asked: int, queue: nat, place: nat)

  datatype ReplySide = ReplySide(
    log: seq<Request>, taken: nat, stopped: bool, dispatcher: Dispatcher,
    subscribers: set<int>, camQs: map<int, nat>, queues: seq<CamQueue>,
    fates: seq<Fate>, delivered: seq<Delivery>)

  function NewReplySide(): ReplySide { ReplySide([], 0, false, Free, {}, map[], [], [], []) }

  datatype ReplyStep =
    | Push(request: Request)
    | StopDispatcher | DispatchTake | DispatchLookup | DispatchPut
    | AddSubscriber(unit: int) | CreateQueue(unit: int)
    | RemoveSubscriber(unit: int) | EraseQueue(unit: int)
    | TerminateQueues | ClearSubscribers | ClearQueues
    | Deliver(unit: int, queue: nat)

  predicate Possible(s: ReplySide, step: ReplyStep) {
    match step
    case DispatchTake => !s.stopped && s.dispatcher.Free? && s.taken < |s.log|
    case DispatchLookup => s.dispatcher.Holding?
    case DispatchPut => s.dispatcher.Routed?
    case AddSubscriber(u) => u !in s.subscribers
    case Deliver(u, q) => q < |s.queues| && s.queues[q].unit == u && !s.queues[q].terminated && s.queues[q].items != []
    case _ => true
  }

  /** The reply joins the queue it was routed to, which drops its oldest one when full. */
  function Put(s: ReplySide, p: nat, q: nat): ReplySide
    requires q < |s.queues| && p < |s.fates| && QueueOk(s, q)
  {
    var items := s.queues[q].items;
    var fates := if Full(items, RESULT_QUEUE_SIZE) then s.fates[items[0] := Dropped(q)] else s.fates;
    s.(dispatcher := Free, fates := fates[p := Queued(q)], queues := s.queues[q := s.queues[q].(items := Enqueued(items, p, RESULT_QUEUE_SIZE))])
  }

  function Terminated(queues: seq<CamQueue>, ids: set<nat>): seq<CamQueue> {
    seq(|queues|, i requires 0 <= i < |queues| => if i in ids then queues[i].(terminated := true) else queues[i])
  }

  function Replied(s: ReplySide, step: ReplyStep): ReplySide
    requires Possible(s, step) && RoutesOk(s) && QueuesOk(s)
  {
    match step
    case Push(r) => s.(log := s.log + [r])
    case StopDispatcher => s.(stopped := true)
    case DispatchTake => s.(dispatcher := Holding(s.taken), taken := s.taken + 1, fates := s.fates + [InHand])
    case DispatchLookup =>
      var p := s.dispatcher.place;
      var u := s.log[p].unit;
      if u in s.camQs then s.(dispatcher := Routed(p, s.camQs[u])) else s.(dispatcher := Free, fates := s.fates[p := Discarded])
    case DispatchPut =>
      assert QueueOk(s, s.dispatcher.queue);
      Put(s, s.dispatcher.place, s.dispatcher.queue)
    case AddSubscriber(u) => s.(subscribers := s.subscribers + {u})
    case CreateQueue(u) => s.(queues := s.queues + [CamQueue(u, [], false)], camQs := s.camQs[u := |s.queues|])
    case RemoveSubscriber(u) => s.(subscribers := s.subscribers - {u})
    case EraseQueue(u) =>
      if u in s.camQs then s.(queues := Terminated(s.queues, {s.camQs[u]}), camQs := s.camQs - {u}) else s
    case TerminateQueues => s.(queues := Terminated(s.queues, s.camQs.Values))
    case ClearSubscribers => s.(subscribers := {})
    case ClearQueues => s.(camQs := map[])
    case Deliver(u, q) =>
      assert QueueOk(s, q);
      Handed(s, u, q)
  }

  /** A caller gets the oldest reply of a queue. */
  function Handed(s: ReplySide, u: int, q: nat): ReplySide
    requires q < |s.queues| && s.queues[q].items != [] && QueueOk(s, q)
  {
    var p := s.queues[q].items[0];
    s.(queues := s.queues[q := s.queues[q].(items := s.queues[q].items[1..])],
       fates := s.fates[p := Delivered(|s.delivered|)], delivered := s.delivered + [Delivery(u, q, p)])
  }

  // ----- invariant

  /** The dispatcher holds the reply it took last, and routes it to a queue of its unit. */
  predicate RoutesOk(s: ReplySide) {
    && |s.fates| == s.taken <= |s.log|
    && (!s.dispatcher.Free? ==> s.taken > 0 && s.dispatcher.place == s.taken - 1)
    && (s.dispatcher.Routed? ==> s.dispatcher.queue < |s.queues| && s.queues[s.dispatcher.queue].unit == s.log[s.taken - 1].unit)
    && (forall u :: u in s.camQs ==> s.camQs[u] < |s.queues| && s.queues[s.camQs[u]].unit == u)
    && (forall p :: 0 <= p < s.taken ==> (s.fates[p].InHand? <==> !s.dispatcher.Free? && p == s.taken - 1))
  }

  predicate QueueOk(s: ReplySide, q: nat)
    requires q < |s.queues|
  {
    var items := s.queues[q].items;
    && |items| <= RESULT_QUEUE_SIZE
    && (forall i :: 0 <= i < |items| ==> items[i] < |s.fates| && items[i] < |s.log| && s.fates[items[i]] == Queued(q) && s.log[items[i]].unit == s.queues[q].unit)
    && (forall i, j :: 0 <= i < j < |items| ==> items[i] < items[j])
  }

  /** A result queue holds replies of its unit, in order, and no reply is in two queues. */
  predicate QueuesOk(s: ReplySide) {
    && (forall q :: 0 <= q < |s.queues| ==> QueueOk(s, q))
    && (forall p :: 0 <= p < |s.fates| && s.fates[p].Queued? ==> s.fates[p].queue < |s.queues| && p in s.queues[s.fates[p].queue].items)
  }

  /** Replies delivered are those of the unit asked for, each once, and in order per queue. */
  predicate DeliveriesOk(s: ReplySide) {
    && (forall n :: 0 <= n < |s.delivered| ==>
          var d := s.delivered[n];
          d.place < |s.fates| && d.place < |s.log| && s.fates[d.place] == Delivered(n) && d.queue < |s.queues|
          && s.queues[d.queue].unit == d.asked == s.log[d.place].unit)
    && (forall p :: 0 <= p < |s.fates| && s.fates[p].Delivered? ==> s.fates[p].nth < |s.delivered| && s.delivered[s.fates[p].nth].place == p)
    && (forall n, m :: 0 <= n < m < |s.delivered| && s.delivered[n].queue == s.delivered[m].queue ==> s.delivered[n].place < s.delivered[m].place)
    && (forall n, i :: 0 <= n < |s.delivered| && s.delivered[n].queue < |s.queues| && 0 <= i < |s.queues[s.delivered[n].queue].items| ==>
          s.delivered[n].place < s.queues[s.delivered[n].queue].items[i])
  }

  predicate ReplyInv(s: ReplySide) { RoutesOk(s) && QueuesOk(s) && DeliveriesOk(s) }

  // ----- steps

  /** The reply held comes after all in the queues and all delivered. */
  lemma HeldLast(s: ReplySide, q: nat)
    requires RoutesOk(s) && !s.dispatcher.Free? && q < |s.queues| && QueueOk(s, q)
    ensures forall i :: 0 <= i < |s.queues[q].items| ==> s.queues[q].items[i] < s.taken - 1
  {
  }

  lemma PutRoutes(s: ReplySide, p: nat, q: nat)
    requires RoutesOk(s) && s.dispatcher == Routed(p, q) && QueueOk(s, q)
    ensures RoutesOk(Put(s, p, q))
  {
    HeldLast(s, q);
  }

  lemma PutQueue(s: ReplySide, p: nat, q: nat)
    requires RoutesOk(s) && s.dispatcher == Routed(p, q) && QueueOk(s, q)
    ensures QueueOk(Put(s, p, q), q)
  {
    HeldLast(s, q);
  }

  lemma PutOther(s: ReplySide, p: nat, q: nat, k: nat)
    requires RoutesOk(s) && s.dispatcher == Routed(p, q) && QueueOk(s, q) && k < |s.queues| && k != q && QueueOk(s, k)
    ensures QueueOk(Put(s, p, q), k)
  {
    HeldLast(s, k);
  }

  lemma PutMember(s: ReplySide, p: nat, q: nat, x: nat)
    requires RoutesOk(s) && QueuesOk(s) && s.dispatcher == Routed(p, q) && QueueOk(s, q)
    requires x < s.taken && Put(s, p, q).fates[x].Queued?
    ensures var t := Put(s, p, q); t.fates[x].queue < |t.queues| && x in t.queues[t.fates[x].queue].items
  {
    var t := Put(s, p, q);
    var items, more := s.queues[q].items, t.queues[q].items;
    if x == p {
      assert more[|more| - 1] == p;
    } else {
      assert x in s.queues[s.fates[x].queue].items;
      if s.fates[x].queue == q {
        var i :| 0 <= i < |items| && items[i] == x;
        if Full(items, RESULT_QUEUE_SIZE) { assert more[i - 1] == x; } else { assert more[i] == x; }
      }
    }
  }

  lemma PutQueues(s: ReplySide, p: nat, q: nat)
    requires RoutesOk(s) && QueuesOk(s) && s.dispatcher == Routed(p, q) && QueueOk(s, q)
    ensures RoutesOk(Put(s, p, q)) && QueuesOk(Put(s, p, q))
  {
    hide QueueOk;
    var t := Put(s, p, q);
    PutRoutes(s, p, q);
    forall k | 0 <= k < |t.queues| ensures QueueOk(t, k) { if k == q { PutQueue(s, p, q); } else { PutOther(s, p, q, k); } }
    forall x | 0 <= x < |t.fates| && t.fates[x].Queued? ensures t.fates[x].queue < |t.queues| && x in t.queues[t.fates[x].queue].items {
      PutMember(s, p, q, x);
    }
  }

  lemma PutLater(s: ReplySide, p: nat, q: nat, n: nat, i: nat)
    requires RoutesOk(s) && DeliveriesOk(s) && s.dispatcher == Routed(p, q) && QueueOk(s, q) && n < |s.delivered|
    requires s.delivered[n].queue < |s.queues| && i < |Put(s, p, q).queues[s.delivered[n].queue].items|
    ensures s.delivered[n].place < Put(s, p, q).queues[s.delivered[n].queue].items[i]
  {
    var items, more := s.queues[q].items, Put(s, p, q).queues[q].items;
    if s.delivered[n].queue == q && i < |more| - 1 {
      assert more[i] == if Full(items, RESULT_QUEUE_SIZE) then items[i + 1] else items[i];
    }
  }

  lemma PutFates(s: ReplySide, p: nat, q: nat, x: nat)
    requires RoutesOk(s) && s.dispatcher == Routed(p, q) && QueueOk(s, q) && x < |s.fates|
    ensures var t := Put(s, p, q); t.fates[x].Delivered? || s.fates[x].Delivered? ==> t.fates[x] == s.fates[x]
  {
  }

  lemma PutDeliveries(s: ReplySide, p: nat, q: nat)
    requires RoutesOk(s) && DeliveriesOk(s) && s.dispatcher == Routed(p, q) && QueueOk(s, q)
    ensures DeliveriesOk(Put(s, p, q))
  {
    var t := Put(s, p, q);
    forall x | 0 <= x < |s.fates| ensures t.fates[x].Delivered? || s.fates[x].Delivered? ==> t.fates[x] == s.fates[x] { PutFates(s, p, q, x); }
    forall n, i | 0 <= n < |t.delivered| && t.delivered[n].queue < |t.queues| && 0 <= i < |t.queues[t.delivered[n].queue].items|
      ensures t.delivered[n].place < t.queues[t.delivered[n].queue].items[i]
    {
      PutLater(s, p, q, n, i);
    }
  }

  lemma PutKept(s: ReplySide)
    requires ReplyInv(s) && s.dispatcher.Routed? && QueueOk(s, s.dispatcher.queue)
    ensures ReplyInv(Put(s, s.dispatcher.place, s.dispatcher.queue))
  {
    var p, q := s.dispatcher.place, s.dispatcher.queue;
    PutQueues(s, p, q);
    PutDeliveries(s, p, q);
  }

  lemma HandedRoutes(s: ReplySide, u: int, q: nat)
    requires RoutesOk(s) && q < |s.queues| && s.queues[q].items != [] && QueueOk(s, q)
    ensures RoutesOk(Handed(s, u, q))
  {
  }

  lemma HandedQueue(s: ReplySide, u: int, q: nat, k: nat)
    requires q < |s.queues| && s.queues[q].items != [] && QueueOk(s, q) && k < |s.queues| && QueueOk(s, k)
    ensures QueueOk(Handed(s, u, q), k)
  {
  }

  lemma HandedMember(s: ReplySide, u: int, q: nat, x: nat)
    requires QueuesOk(s) && q < |s.queues| && s.queues[q].items != [] && QueueOk(s, q)
    requires x < |s.fates| && Handed(s, u, q).fates[x].Queued?
    ensures var t := Handed(s, u, q); t.fates[x].queue < |t.queues| && x in t.queues[t.fates[x].queue].items
  {
    var t := Handed(s, u, q);
    var items := s.queues[q].items;
    assert x in s.queues[s.fates[x].queue].items;
    if s.fates[x].queue == q {
      var i :| 0 <= i < |items| && items[i] == x;
      assert t.queues[q].items[i - 1] == x;
    }
  }

  lemma HandedQueues(s: ReplySide, u: int, q: nat)
    requires RoutesOk(s) && QueuesOk(s) && q < |s.queues| && s.queues[q].items != [] && QueueOk(s, q)
    ensures RoutesOk(Handed(s, u, q)) && QueuesOk(Handed(s, u, q))
  {
    hide QueueOk;
    var t := Handed(s, u, q);
    HandedRoutes(s, u, q);
    forall k | 0 <= k < |t.queues| ensures QueueOk(t, k) { HandedQueue(s, u, q, k); }
    forall x | 0 <= x < |t.fates| && t.fates[x].Queued? ensures t.fates[x].queue < |t.queues| && x in t.queues[t.fates[x].queue].items {
      HandedMember(s, u, q, x);
    }
  }

  lemma HandedDeliveries(s: ReplySide, u: int, q: nat)
    requires DeliveriesOk(s) && q < |s.queues| && s.queues[q].items != [] && s.queues[q].unit == u && QueueOk(s, q)
    ensures DeliveriesOk(Handed(s, u, q))
  {
    var t := Handed(s, u, q);
    var p := s.queues[q].items[0];
    assert s.fates[p] == Queued(q);
    forall n, m | 0 <= n < m < |t.delivered| && t.delivered[n].queue == t.delivered[m].queue ensures t.delivered[n].place < t.delivered[m].place {
      if m == |s.delivered| { assert t.delivered[m].place == s.queues[q].items[0]; }
    }
    forall n, i | 0 <= n < |t.delivered| && t.delivered[n].queue < |t.queues| && 0 <= i < |t.queues[t.delivered[n].queue].items|
      ensures t.delivered[n].place < t.queues[t.delivered[n].queue].items[i]
    {
      if t.delivered[n].queue == q { assert t.queues[q].items[i] == s.queues[q].items[i + 1]; }
    }
  }

  lemma DeliverKept(s: ReplySide, u: int, q: nat)
    requires ReplyInv(s) && Possible(s, Deliver(u, q))
    ensures ReplyInv(Replied(s, Deliver(u, q)))
  {
    hide RoutesOk, DeliveriesOk, Handed;
    assert QueueOk(s, q);
    HandedQueues(s, u, q);
    HandedDeliveries(s, u, q);
  }

  lemma TakenKept(s: ReplySide)
    requires ReplyInv(s) && Possible(s, DispatchTake)
    ensures ReplyInv(Replied(s, DispatchTake))
  {
    var t := Replied(s, DispatchTake);
    forall k | 0 <= k < |t.queues| ensures QueueOk(t, k) { assert QueueOk(s, k); }
  }

  lemma LookupKept(s: ReplySide)
    requires ReplyInv(s) && Possible(s, DispatchLookup)
    ensures ReplyInv(Replied(s, DispatchLookup))
  {
    var t := Replied(s, DispatchLookup);
    forall k | 0 <= k < |t.queues| ensures QueueOk(t, k) { assert QueueOk(s, k); }
  }

  /** Steps that leave the replies where they are: queues keep their unit and items. */
  lemma SameItemsKept(s: ReplySide, t: ReplySide)
    requires ReplyInv(s) && |s.queues| <= |t.queues|
    requires s.log <= t.log && t == s.(log := t.log, stopped := t.stopped, subscribers := t.subscribers, camQs := t.camQs, queues := t.queues)
    requires forall k :: 0 <= k < |s.queues| ==> t.queues[k].unit == s.queues[k].unit && t.queues[k].items == s.queues[k].items
    requires forall k :: |s.queues| <= k < |t.queues| ==> t.queues[k].items == []
    requires forall u :: u in t.camQs ==> t.camQs[u] < |t.queues| && t.queues[t.camQs[u]].unit == u
    ensures ReplyInv(t)
  {
    forall k | 0 <= k < |t.queues| ensures QueueOk(t, k) {
      if k < |s.queues| { assert QueueOk(s, k); }
    }
  }

  lemma ErasedKept(s: ReplySide, u: int)
    requires ReplyInv(s)
    ensures ReplyInv(Replied(s, EraseQueue(u)))
  {
    hide QueueOk, DeliveriesOk;
    if u in s.camQs { SameItemsKept(s, Replied(s, EraseQueue(u))); }
  }

  lemma CreatedKept(s: ReplySide, u: int)
    requires ReplyInv(s)
    ensures ReplyInv(Replied(s, CreateQueue(u)))
  {
    hide QueueOk, DeliveriesOk;
    SameItemsKept(s, Replied(s, CreateQueue(u)));
  }

  /** No step loses track of a reply, delivers one twice or to another unit, or reorders a
      result queue. */
  lemma ReplyKept(s: ReplySide, step: ReplyStep)
    requires ReplyInv(s) && Possible(s, step)
    ensures ReplyInv(Replied(s, step))
  {
    hide QueueOk, DeliveriesOk, Put, Handed;
    match step {
      case DispatchTake => TakenKept(s);
      case DispatchLookup => LookupKept(s);
      case DispatchPut =>
        assert QueueOk(s, s.dispatcher.queue);
        PutKept(s);
      case Deliver(u, q) => DeliverKept(s, u, q);
      case EraseQueue(u) => ErasedKept(s, u);
      case CreateQueue(u) => CreatedKept(s, u);
      case _ => SameItemsKept(s, Replied(s, step));
    }
  }

  // ----- queues of one unit follow each other

  /** The result queue a reply was routed to, or -1. */
  function Home(s: ReplySide, p: nat): int
    requires p < |s.fates|
  {
    match s.fates[p]
    case InHand => if s.dispatcher.Routed? then s.dispatcher.queue else -1
    case Queued(q) => q
    case Delivered(n) => if n < |s.delivered| then s.delivered[n].queue else -1
    case Dropped(q) => q
    case Discarded => -1
  }

  /** A reply is routed to a queue of its unit. */
  predicate HomesOk(s: ReplySide) {
    forall p :: 0 <= p < |s.fates| && Home(s, p) >= 0 ==>
      p < |s.log| && Home(s, p) < |s.queues| && s.queues[Home(s, p)].unit == s.log[p].unit
  }

  /** A unit's queue is the last one made for it. */
  predicate Newest(s: ReplySide) {
    forall u, k :: u in s.camQs && s.camQs[u] < k < |s.queues| ==> s.queues[k].unit != u
  }

  /** The queues a unit has one after the other hold its replies one after the other: all that
      was ever in an older one came before all that was ever in a newer one. */
  predicate Successive(s: ReplySide) {
    forall p, p' :: 0 <= p < p' < |s.fates| && p' < |s.log| && s.log[p].unit == s.log[p'].unit && Home(s, p) >= 0 && Home(s, p') >= 0 ==>
      Home(s, p) <= Home(s, p')
  }

  predicate GenerationsOk(s: ReplySide) { HomesOk(s) && Newest(s) && Successive(s) }

  lemma PutHomes(s: ReplySide, q: nat)
    requires ReplyInv(s) && s.dispatcher.Routed? && q == s.dispatcher.queue && QueueOk(s, q)
    ensures var t := Put(s, s.dispatcher.place, q); |t.fates| == |s.fates| && forall p :: 0 <= p < |s.fates| ==> Home(t, p) == Home(s, p)
  {
    hide Successive, HomesOk;
  }

  lemma HandedHomes(s: ReplySide, u: int, q: nat)
    requires ReplyInv(s) && q < |s.queues| && s.queues[q].items != [] && QueueOk(s, q)
    ensures var t := Handed(s, u, q); |t.fates| == |s.fates| && forall p :: 0 <= p < |s.fates| ==> Home(t, p) == Home(s, p)
  {
  }

  /** Steps that route nothing: replies keep their queue, queues their unit. */
  lemma SameHomes(s: ReplySide, t: ReplySide)
    requires ReplyInv(s) && ReplyInv(t) && GenerationsOk(s) && s.log <= t.log && |s.queues| <= |t.queues| && |s.fates| <= |t.fates|
    requires forall k :: 0 <= k < |s.queues| ==> t.queues[k].unit == s.queues[k].unit
    requires forall p :: 0 <= p < |s.fates| ==> Home(t, p) == Home(s, p)
    requires forall p :: |s.fates| <= p < |t.fates| ==> Home(t, p) < 0
    requires Newest(t)
    ensures GenerationsOk(t)
  {
    hide QueuesOk, DeliveriesOk, Home;
  }

  lemma LookupGenerations(s: ReplySide)
    requires ReplyInv(s) && GenerationsOk(s) && s.dispatcher.Holding?
    ensures GenerationsOk(Replied(s, DispatchLookup))
  {
    hide QueuesOk, DeliveriesOk;
    var t := Replied(s, DispatchLookup);
    var h := s.dispatcher.place;
    forall p | 0 <= p < h ensures Home(t, p) == Home(s, p) {}
    forall p, p' | 0 <= p < p' < |t.fates| && t.log[p].unit == t.log[p'].unit && Home(t, p) >= 0 && Home(t, p') >= 0
      ensures Home(t, p) <= Home(t, p')
    {
      if p' == h {
        assert Home(t, p) == Home(s, p);
        assert s.queues[Home(s, p)].unit == s.log[p].unit == s.log[h].unit;
      } else {
        assert Home(t, p) == Home(s, p) && Home(t, p') == Home(s, p');
      }
    }
  }

  lemma TakeGenerations(s: ReplySide)
    requires ReplyInv(s) && GenerationsOk(s) && Possible(s, DispatchTake)
    ensures GenerationsOk(Replied(s, DispatchTake))
  {
    ReplyKept(s, DispatchTake);
    hide QueuesOk, DeliveriesOk;
    SameHomes(s, Replied(s, DispatchTake));
  }

  lemma MoveGenerations(s: ReplySide, step: ReplyStep)
    requires ReplyInv(s) && GenerationsOk(s) && Possible(s, step) && (step.DispatchPut? || step.Deliver?)
    ensures GenerationsOk(Replied(s, step))
  {
    hide DeliveriesOk, QueueOk, HomesOk, Successive, Home;
    ReplyKept(s, step);
    if step.DispatchPut? {
      assert QueueOk(s, s.dispatcher.queue);
      PutHomes(s, s.dispatcher.queue);
    } else {
      assert QueueOk(s, step.queue);
      HandedHomes(s, step.unit, step.queue);
    }
    SameHomes(s, Replied(s, step));
  }

  lemma QuietGenerations(s: ReplySide, step: ReplyStep)
    requires ReplyInv(s) && GenerationsOk(s) && Possible(s, step)
    requires !step.DispatchTake? && !step.DispatchLookup? && !step.DispatchPut? && !step.Deliver?
    ensures GenerationsOk(Replied(s, step))
  {
    ReplyKept(s, step);
    hide QueuesOk, DeliveriesOk, HomesOk, Successive;
    var t := Replied(s, step);
    assert t.fates == s.fates && t.dispatcher == s.dispatcher && t.delivered == s.delivered;
    SameHomes(s, t);
  }

  lemma GenerationsKept(s: ReplySide, step: ReplyStep)
    requires ReplyInv(s) && GenerationsOk(s) && Possible(s, step)
    ensures GenerationsOk(Replied(s, step))
  {
    hide ReplyInv, GenerationsOk;
    match step {
      case DispatchTake => TakeGenerations(s);
      case DispatchLookup => LookupGenerations(s);
      case DispatchPut => MoveGenerations(s, step);
      case Deliver(u, q) => MoveGenerations(s, step);
      case _ => QuietGenerations(s, step);
    }
  }

  /** Two deliveries to one unit come in the order of the replies if and only if the later one
      does not come out of an older queue. */
  lemma DeliveryOrder(s: ReplySide, n: nat, m: nat)
    requires ReplyInv(s) && GenerationsOk(s) && n < m < |s.delivered| && s.delivered[n].asked == s.delivered[m].asked
    ensures s.delivered[n].place < s.delivered[m].place <==> s.delivered[n].queue <= s.delivered[m].queue
  {
    hide QueueOk, HomesOk, Newest;
    var a, b := s.delivered[n], s.delivered[m];
    assert s.fates[a.place] == Delivered(n) && s.fates[b.place] == Delivered(m);
    assert Home(s, a.place) == a.queue && Home(s, b.place) == b.queue;
  }
}
