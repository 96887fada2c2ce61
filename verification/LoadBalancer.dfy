/** EngineLoadBalancer.cpp on objects: each call as it runs when no other thread comes between its
    critical sections. Module Pipelines interleaves them. */
module LoadBalancers {
  import opened Collections
  import opened Options
  import opened SafeQueues
  import opened HandlerLines
  import opened EngineHandlers
  import opened ReplySides
  import opened Pipelines
  import RoundRobin

  predicate ForUnit(q: seq<Answer>, unit: int) { forall i :: 0 <= i < |q| ==> q[i].request.unit == unit }

  class EngineLoadBalancer {
    const profiles: set<int>
    const respondReceiver: SafeQueue<Answer>
    var terminated: bool
    var handles: seq<Handle>
    var inputQs: map<Handle, SafeQueue<Request>>
    var roundRobinIdx: nat
    var subscribers: set<int>
    var camQs: map<int, SafeQueue<Answer>>

    constructor (profiles: set<int>)
      ensures Valid() && fresh(respondReceiver) && this.profiles == profiles && !terminated
      ensures handles == [] && inputQs == map[] && roundRobinIdx == 0 && subscribers == {} && camQs == map[] && respondReceiver.q == []
    {
      this.profiles := profiles;
      respondReceiver := new SafeQueue<Answer>();
      terminated, handles, inputQs, roundRobinIdx, subscribers, camQs := false, [], map[], 0, {}, map[];
    }

    /** Result queues are apart, hold ten replies at most, and replies of their unit only. */
    ghost predicate QueuesValid()
      reads this`camQs, camQs.Values
    {
      && (forall u :: u in camQs ==> camQs[u].Valid() && camQs[u].maxSize == RESULT_QUEUE_SIZE && |camQs[u].q| <= RESULT_QUEUE_SIZE && ForUnit(camQs[u].q, u))
      && (forall u, v :: u in camQs && v in camQs && u != v ==> camQs[u] != camQs[v])
    }

    ghost predicate HandlesValid()
      reads this`handles, this`inputQs, inputQs.Values
    {
      && (forall h :: h in handles <==> h in inputQs)
      && (forall i, j :: 0 <= i < j < |handles| ==> handles[i] != handles[j])
      && (forall h :: h in inputQs ==> inputQs[h].Valid() && inputQs[h].maxSize == 0)
      && (forall h, k :: h in inputQs && k in inputQs && h != k ==> inputQs[h] != inputQs[k])
    }

    ghost predicate Valid()
      reads this, camQs.Values, inputQs.Values, respondReceiver
    {
      && respondReceiver.Valid() && respondReceiver.maxSize == 0 && respondReceiver !in camQs.Values
      && HandlesValid() && QueuesValid() && roundRobinIdx < WORD
    }

    /** Links a handler and gives it the reply queue, or rejects it. */
    method Linker(handle: Handle, inputQ: SafeQueue<Request>) returns (r: SafeQueue?<Answer>)
      requires Valid() && inputQ.Valid() && inputQ.maxSize == 0 && inputQ !in inputQs.Values
      modifies this`handles, this`inputQs
      ensures Valid()
      ensures r == null <==> old(terminated || handle in inputQs) || handle.engine !in profiles
      ensures r == null ==> handles == old(handles) && inputQs == old(inputQs)
      ensures r != null ==> r == respondReceiver && handles == old(handles) + [handle] && inputQs == old(inputQs)[handle := inputQ]
    {
      if terminated || handle in inputQs || handle.engine !in profiles { return null; }
      inputQs := inputQs[handle := inputQ];
      handles := handles + [handle];
      r := respondReceiver;
    }

    /** The critical section of RequestAsync. */
    method SelectHandler() returns (h: Option<Handle>)
      requires Valid()
      modifies this`roundRobinIdx
      ensures Valid() && (h.None? <==> handles == [])
      ensures h.Some? ==> h.value == handles[RoundRobin.Pick(old(roundRobinIdx), 0, |handles|)] && h.value in inputQs
      ensures roundRobinIdx == if h.Some? then (old(roundRobinIdx) + 1) % WORD else old(roundRobinIdx)
    {
      hide RoundRobin.Pick, QueuesValid, SafeQueue.Valid;
      if |handles| == 0 { return None; }
      RoundRobin.PickUnwrapped(roundRobinIdx, 0, |handles|);
      var idx := roundRobinIdx % |handles|;
      roundRobinIdx := (roundRobinIdx + 1) % WORD;
      assert handles[idx] in handles;
      h := Some(handles[idx]);
    }

    /** Accepts a request with an image when some handler is linked and the queue of the one
        whose turn it is has room; the handler's engine becomes the requestee. */
    method RequestAsync(unit: int, ticket: nat, imageSize: nat) returns (ok: bool)
      requires Valid()
      modifies this`roundRobinIdx, inputQs.Values
      ensures Valid()
      ensures var tried := !old(terminated) && imageSize > 0 && handles != [];
              && roundRobinIdx == (if tried then (old(roundRobinIdx) + 1) % WORD else old(roundRobinIdx))
              && (ok ==> tried)
              && (tried ==>
                    var h := handles[RoundRobin.Pick(old(roundRobinIdx), 0, |handles|)];
                    && h in inputQs && (ok <==> |old(inputQs[h].q)| < 128)
                    && (ok ==> inputQs[h].q == old(inputQs[h].q) + [Request(unit, h, ticket)]
                               && forall k :: k in inputQs && k != h ==> inputQs[k].q == old(inputQs[k].q)))
      ensures !ok ==> forall k :: k in inputQs ==> inputQs[k].q == old(inputQs[k].q)
    {
      if terminated || imageSize == 0 { return false; }
      var target := SelectHandler();
      if target.None? { return false; }
      var targetQueue := inputQs[target.value];
      if |targetQueue.q| >= MAX_INPUT_QUEUE { return false; }
      targetQueue.Enqueue(Request(unit, target.value, ticket));
      ok := true;
    }

    /** Registers a unit and gives it an empty result queue. */
    method Subscribe(unit: int) returns (ok: bool)
      requires Valid()
      modifies this`subscribers, this`camQs
      ensures Valid() && (ok <==> !terminated && unit !in old(subscribers))
      ensures !ok ==> subscribers == old(subscribers) && camQs == old(camQs)
      ensures ok ==> subscribers == old(subscribers) + {unit} && unit in camQs && fresh(camQs[unit]) && camQs[unit].q == [] && !camQs[unit].terminated
      ensures ok ==> camQs == old(camQs)[unit := camQs[unit]]
    {
      if terminated || unit in subscribers { return false; }
      subscribers := subscribers + {unit};
      var q := new SafeQueue<Answer>();
      q.SetMaxSize(RESULT_QUEUE_SIZE);
      camQs := camQs[unit := q];
      ok := true;
    }

    method Unsubscribe(unit: int)
      requires Valid()
      modifies this`subscribers, this`camQs, camQs.Values`terminated
      ensures Valid() && subscribers == old(subscribers) - {unit} && camQs == old(camQs) - {unit}
      ensures old(unit in camQs) ==> old(camQs)[unit].terminated
      ensures forall u :: u in old(camQs) ==> old(camQs)[u].q == old(camQs[u].q) && (u != unit ==> old(camQs)[u].terminated == old(camQs[u].terminated))
    {
      subscribers := subscribers - {unit};
      if unit in camQs {
        camQs[unit].Terminate();
        camQs := camQs - {unit};
      }
    }

    /** Gives the oldest reply to a subscribed unit, which is one to its own request. */
    method RespondAsync(unit: int) returns (r: Option<Answer>)
      requires Valid()
      modifies camQs.Values`q, camQs.Values`gone
      ensures Valid()
      ensures r.Some? <==> unit in subscribers && unit in camQs && !old(camQs[unit].terminated) && old(camQs[unit].q) != []
      ensures r.Some? ==> r.value.request.unit == unit && old(camQs[unit].q) == [r.value] + camQs[unit].q
      ensures forall u :: u in camQs && (u != unit || r.None?) ==> camQs[u].q == old(camQs[u].q)
    {
      if unit !in subscribers { return None; }
      if unit !in camQs { return None; }
      assert ForUnit(camQs[unit].q, unit);
      r := camQs[unit].DequeueWaitFor();
    }

    /** A reply goes to the queue of its unit, which drops its own oldest one when full, or nowhere
        when the unit has no queue. */
    method Route(a: Answer)
      requires QueuesValid()
      modifies camQs.Values`q, camQs.Values`dropCount, camQs.Values`entered, camQs.Values`gone
      ensures QueuesValid()
      ensures forall u :: u in camQs && a.request.unit != u ==> camQs[u].q == old(camQs[u].q) && camQs[u].dropCount == old(camQs[u].dropCount)
      ensures forall u :: u in camQs && a.request.unit == u && |old(camQs[u].q)| < RESULT_QUEUE_SIZE ==>
                camQs[u].q == old(camQs[u].q) + [a] && camQs[u].dropCount == old(camQs[u].dropCount)
      ensures forall u :: u in camQs && a.request.unit == u && |old(camQs[u].q)| >= RESULT_QUEUE_SIZE ==>
                camQs[u].q == old(camQs[u].q)[1..] + [a] && camQs[u].dropCount == (old(camQs[u].dropCount) + 1) % WORD
    {
      hide Count;
      var uid := a.request.unit;
      if uid in camQs { camQs[uid].Enqueue(a); }
    }

    /** One turn of the dispatcher: the oldest reply is routed. */
    method DispatchOne() returns (r: Option<Answer>)
      requires Valid()
      modifies respondReceiver`q, respondReceiver`gone, camQs.Values`q, camQs.Values`dropCount, camQs.Values`entered, camQs.Values`gone
      ensures Valid()
      ensures r.Some? <==> !old(respondReceiver.terminated) && old(respondReceiver.q) != []
      ensures respondReceiver.q == if r.Some? then old(respondReceiver.q)[1..] else old(respondReceiver.q)
      ensures r.Some? ==> r.value == old(respondReceiver.q)[0]
      ensures forall u :: u in camQs && (r.Some? ==> r.value.request.unit != u) ==>
                camQs[u].q == old(camQs[u].q) && camQs[u].dropCount == old(camQs[u].dropCount)
      ensures forall u :: u in camQs && r.Some? && r.value.request.unit == u && |old(camQs[u].q)| < RESULT_QUEUE_SIZE ==>
                camQs[u].q == old(camQs[u].q) + [r.value] && camQs[u].dropCount == old(camQs[u].dropCount)
      ensures forall u :: u in camQs && r.Some? && r.value.request.unit == u && |old(camQs[u].q)| >= RESULT_QUEUE_SIZE ==>
                camQs[u].q == old(camQs[u].q)[1..] + [r.value] && camQs[u].dropCount == (old(camQs[u].dropCount) + 1) % WORD
    {
      hide SafeQueue.Valid, ForUnit;
      r := respondReceiver.DequeueWaitFor();
      if r.None? { return; }
      Route(r.value);
    }

    method TerminateQueues()
      requires QueuesValid()
      modifies camQs.Values`terminated
      ensures QueuesValid() && forall u :: u in camQs ==> camQs[u].terminated
    {
      hide SafeQueue.Valid;
      var todo := camQs.Keys;
      while todo != {}
        invariant todo <= camQs.Keys
        invariant forall u :: u in camQs && u !in todo ==> camQs[u].terminated
      {
        ghost var some := Member(todo);
        var u :| u in todo;
        camQs[u].Terminate();
        todo := todo - {u};
      }
    }

    /** Terminates every result queue, so that callers waiting on one return, and forgets all units. */
    method DestroySubscribersAll()
      requires Valid()
      modifies this`subscribers, this`camQs, camQs.Values`terminated
      ensures Valid() && subscribers == {} && camQs == map[]
      ensures forall u :: u in old(camQs) ==> old(camQs)[u].terminated
    {
      hide SafeQueue.Valid;
      TerminateQueues();
      subscribers := {};
      camQs := map[];
    }

    method Terminate() returns (first: bool)
      requires Valid()
      modifies this`terminated, this`handles, this`inputQs, respondReceiver`terminated
      ensures Valid() && terminated && first == !old(terminated)
      ensures if first then handles == [] && inputQs == map[] && respondReceiver.terminated
              else handles == old(handles) && inputQs == old(inputQs) && respondReceiver.terminated == old(respondReceiver.terminated)
    {
      first := !terminated;
      terminated := true;
      if first {
        respondReceiver.Terminate();
        inputQs := map[];
        handles := [];
      }
    }
  }
}
