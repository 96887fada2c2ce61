/** The balancer on objects and the pipeline as a state machine are one model: each call, run
    without interference, takes a state the object shows through the steps of one client. */
module BalancerSteps {
  import opened Options
  import opened SafeQueues
  import opened HandlerLines
  import opened EngineHandlers
  import opened ReplySides
  import opened Pipelines
  import opened LoadBalancers
  import RoundRobin

  /** Taking the steps one after the other leads from s to t. */
  ghost predicate Leads(s: State, steps: seq<Step>, t: State)
    decreases |steps|
  {
    if steps == [] then t == s
    else Inv(s) && CanStep(s, steps[0]) && Leads(Next(s, steps[0]), steps[1..], t)
  }

  lemma LeadsOne(s: State, a: Step)
    requires Inv(s) && CanStep(s, a)
    ensures Leads(s, [a], Next(s, a)) && Inv(Next(s, a))
  {
    StepKept(s, a);
  }

  lemma {:induction false} LeadsMore(s: State, steps: seq<Step>, t: State, a: Step)
    requires Inv(s) && Leads(s, steps, t) && CanStep(t, a)
    ensures Inv(t) && Leads(s, steps + [a], Next(t, a)) && Inv(Next(t, a))
    decreases |steps|
  {
    hide Inv, CanStep, Next;
    if steps == [] {
      LeadsOne(s, a);
      assert steps + [a] == [a];
    } else {
      InvParts(s);
      StepKept(s, steps[0]);
      LeadsMore(Next(s, steps[0]), steps[1..], t, a);
      assert (steps + [a])[1..] == steps[1..] + [a];
    }
  }

  /** A queue of replies holds those at the given places of the log. */
  predicate ShowsItems(q: seq<Answer>, log: seq<Request>, places: seq<nat>) {
    |q| == |places| && forall i :: 0 <= i < |q| ==> places[i] < |log| && q[i].request == log[places[i]]
  }

  predicate ShowsLog(q: seq<Answer>, log: seq<Request>, from: nat) {
    from <= |log| && |q| == |log| - from && forall i :: 0 <= i < |q| ==> q[i].request == log[from + i]
  }

  ghost predicate ShowsHandlers(b: EngineLoadBalancer, s: State)
    reads b`terminated, b`handles, b`inputQs, b`roundRobinIdx, b.inputQs.Values
  {
    && s.profiles == b.profiles && s.terminated == b.terminated && s.handles == b.handles && s.counter == b.roundRobinIdx
    && forall h :: h in b.inputQs ==> h in s.handlers && b.inputQs[h].q == s.handlers[h].inputs
  }

  ghost predicate ShowsReplies(b: EngineLoadBalancer, r: ReplySide)
    reads b`subscribers, b`camQs, b.camQs.Values, b.respondReceiver
  {
    && r.subscribers == b.subscribers && r.dispatcher.Free?
    && r.stopped == b.respondReceiver.terminated && ShowsLog(b.respondReceiver.q, r.log, r.taken)
    && r.camQs.Keys == b.camQs.Keys
    && forall u :: u in b.camQs ==>
         && r.camQs[u] < |r.queues| && r.queues[r.camQs[u]].terminated == b.camQs[u].terminated
         && ShowsItems(b.camQs[u].q, r.log, r.queues[r.camQs[u]].items)
  }

  /** The object is in the given state of the pipeline. */
  ghost predicate Shows(b: EngineLoadBalancer, s: State)
    reads b, b.inputQs.Values, b.camQs.Values, b.respondReceiver
  {
    ShowsHandlers(b, s) && ShowsReplies(b, s.replies)
  }

  // ----- requests

  lemma RequestLeads(s: State, c: nat, unit: int) returns (steps: seq<Step>, t: State, ok: bool)
    requires Inv(s) && At(s, c, Idle) && s.handles != [] && s.counter < WORD
    ensures var h := s.handles[RoundRobin.Pick(s.counter, 0, |s.handles|)];
            && h in s.handlers && (ok <==> |s.handlers[h].inputs| < MAX_INPUT_QUEUE)
            && steps == (if ok then [Select(c, unit), CheckSize(c), Send(c)] else [Select(c, unit), CheckSize(c)])
            && Leads(s, steps, t) && Inv(t) && t.clients == s.clients
            && t == s.(counter := (s.counter + 1) % WORD, handlers := t.handlers, accepted := t.accepted)
            && t.accepted == s.accepted + (if ok then [Request(unit, h, |s.accepted|)] else [])
            && t.handlers.Keys == s.handlers.Keys
            && (forall k :: k in s.handlers && k != h ==> t.handlers[k] == s.handlers[k])
            && t.handlers[h].inputs == s.handlers[h].inputs + (if ok then [Request(unit, h, |s.accepted|)] else [])
  {
    hide Inv, Leads, QueueOk, DeliveriesOk, ClientsOk, RoundRobin.Pick;
    RoundRobin.PickUnwrapped(s.counter, 0, |s.handles|);
    InvParts(s);
    var h := s.handles[s.counter % |s.handles|];
    assert h in s.handles;
    LeadsOne(s, Select(c, unit));
    var u := Next(s, Select(c, unit));
    assert u.clients == s.clients[c := Chosen(unit, h)];
    LeadsMore(s, [Select(c, unit)], u, CheckSize(c));
    t := Next(u, CheckSize(c));
    steps := [Select(c, unit)] + [CheckSize(c)];
    ok := |s.handlers[h].inputs| < MAX_INPUT_QUEUE;
    if ok {
      assert t.clients == s.clients[c := Admitted(unit, h)];
      InvParts(t);
      LeadsMore(s, steps, t, Send(c));
      steps := steps + [Send(c)];
      t := Next(t, Send(c));
    }
    assert t.clients == s.clients;
  }

  /** A request that gets to choose a handler. */
  method RequestTried(b: EngineLoadBalancer, unit: int, ticket: nat, imageSize: nat, ghost s: State, ghost c: nat)
      returns (ok: bool, ghost steps: seq<Step>, ghost t: State)
    requires b.Valid() && Shows(b, s) && Inv(s) && At(s, c, Idle) && ticket == |s.accepted|
    requires !b.terminated && imageSize > 0 && b.handles != []
    modifies b`roundRobinIdx, b.inputQs.Values
    ensures b.Valid() && Shows(b, t) && Leads(s, steps, t) && t.clients == s.clients
    ensures steps == if ok then [Select(c, unit), CheckSize(c), Send(c)] else [Select(c, unit), CheckSize(c)]
  {
    hide Inv, Next, CanStep, Leads, SafeQueue.Valid, ShowsItems, ShowsLog, RoundRobin.Pick, EngineLoadBalancer.QueuesValid;
    ghost var h, queues := b.handles[RoundRobin.Pick(b.roundRobinIdx, 0, |b.handles|)], b.inputQs;
    ghost var ok';
    steps, t, ok' := RequestLeads(s, c, unit);
    ok := b.RequestAsync(unit, ticket, imageSize);
    assert ok == ok' && ShowsReplies(b, t.replies);
    forall k | k in queues ensures k in t.handlers && queues[k].q == t.handlers[k].inputs {
      if k == h { assert k in t.handlers; } else { assert t.handlers[k] == s.handlers[k]; }
    }
  }

  /** RequestAsync is Select, CheckSize and Send of one client, as far as it gets. */
  method RequestSteps(b: EngineLoadBalancer, unit: int, ticket: nat, imageSize: nat, ghost s: State, ghost c: nat)
      returns (ok: bool, ghost steps: seq<Step>, ghost t: State)
    requires b.Valid() && Shows(b, s) && Inv(s) && At(s, c, Idle) && ticket == |s.accepted|
    modifies b`roundRobinIdx, b.inputQs.Values
    ensures b.Valid() && Shows(b, t) && Leads(s, steps, t) && t.clients == s.clients
    ensures steps == if b.terminated || imageSize == 0 || b.handles == [] then []
                     else if ok then [Select(c, unit), CheckSize(c), Send(c)] else [Select(c, unit), CheckSize(c)]
    ensures ok ==> steps != []
  {
    hide Inv, Next, CanStep, Leads, SafeQueue.Valid, ShowsItems, ShowsLog, RoundRobin.Pick, EngineLoadBalancer.QueuesValid;
    if b.terminated || imageSize == 0 || |b.handles| == 0 {
      steps, t := [], s;
      LeadsNone(s);
      ok := b.RequestAsync(unit, ticket, imageSize);
    } else {
      ok, steps, t := RequestTried(b, unit, ticket, imageSize, s, c);
    }
  }

  // ----- handlers

  /** Linker is one step. */
  method LinkSteps(b: EngineLoadBalancer, handle: Handle, inputQ: SafeQueue<Request>, ghost s: State)
      returns (r: SafeQueue?<Answer>, ghost steps: seq<Step>, ghost t: State)
    requires b.Valid() && Shows(b, s) && Inv(s) && inputQ.Valid() && inputQ.maxSize == 0 && inputQ !in b.inputQs.Values && inputQ.q == []
    modifies b`handles, b`inputQs
    ensures b.Valid() && Shows(b, t) && Leads(s, steps, t) && t.clients == s.clients
    ensures steps == if r != null then [Link(handle)] else []
  {
    hide Inv, Leads, SafeQueue.Valid;
    InvParts(s);
    r := b.Linker(handle, inputQ);
    steps, t := [], s;
    LeadsNone(s);
    if r != null {
      LeadsOne(s, Link(handle));
      steps, t := [Link(handle)], Next(s, Link(handle));
    }
  }

  lemma LeadsNone(s: State)
    ensures Leads(s, [], s)
  {
  }

  lemma TerminateLeads(s: State) returns (t: State)
    requires Inv(s)
    ensures Leads(s, [SetTerminated, Stop, ClearHandles], t) && Inv(t)
    ensures t == s.(terminated := true, handles := [], replies := s.replies.(stopped := true))
  {
    hide Inv, Leads;
    LeadsOne(s, SetTerminated);
    InvParts(s);
    t := Next(s, SetTerminated);
    LeadsMore(s, [SetTerminated], t, Stop);
    InvParts(t);
    t := Next(t, Stop);
    LeadsMore(s, [SetTerminated] + [Stop], t, ClearHandles);
    InvParts(t);
    t := Next(t, ClearHandles);
    assert [SetTerminated] + [Stop] + [ClearHandles] == [SetTerminated, Stop, ClearHandles];
  }

  /** Terminate is SetTerminated, Stop and ClearHandles, the first time. */
  method TerminateSteps(b: EngineLoadBalancer, ghost s: State) returns (first: bool, ghost steps: seq<Step>, ghost t: State)
    requires b.Valid() && Shows(b, s) && Inv(s)
    modifies b`terminated, b`handles, b`inputQs, b.respondReceiver`terminated
    ensures b.Valid() && Shows(b, t) && Leads(s, steps, t) && t.clients == s.clients
    ensures steps == if first then [SetTerminated, Stop, ClearHandles] else []
  {
    hide Inv, Leads, SafeQueue.Valid;
    first := b.Terminate();
    steps, t := [], s;
    LeadsNone(s);
    if first {
      t := TerminateLeads(s);
      steps := [SetTerminated, Stop, ClearHandles];
    }
  }

  // ----- units

  lemma SubscribeLeads(s: State, c: nat, u: int) returns (t: State)
    requires Inv(s) && At(s, c, Idle) && u !in s.replies.subscribers
    ensures Leads(s, [Subscribe(c, u), MakeQueue(c)], t) && Inv(t)
    ensures t == s.(replies := s.replies.(subscribers := s.replies.subscribers + {u}, queues := s.replies.queues + [CamQueue(u, [], false)],
                                          camQs := s.replies.camQs[u := |s.replies.queues|]))
  {
    hide Inv, Leads, QueueOk, DeliveriesOk, ClientsOk;
    LeadsOne(s, Subscribe(c, u));
    InvParts(s);
    t := Next(s, Subscribe(c, u));
    assert t.clients == s.clients[c := Subscribing(u)];
    LeadsMore(s, [Subscribe(c, u)], t, MakeQueue(c));
    InvParts(t);
    t := Next(t, MakeQueue(c));
    assert t.clients == s.clients;
    assert [Subscribe(c, u)] + [MakeQueue(c)] == [Subscribe(c, u), MakeQueue(c)];
  }

  /** Subscribe is Subscribe and MakeQueue of one client. */
  method SubscribeSteps(b: EngineLoadBalancer, unit: int, ghost s: State, ghost c: nat)
      returns (ok: bool, ghost steps: seq<Step>, ghost t: State)
    requires b.Valid() && Shows(b, s) && Inv(s) && At(s, c, Idle)
    modifies b`subscribers, b`camQs
    ensures b.Valid() && Shows(b, t) && Leads(s, steps, t) && t.clients == s.clients
    ensures steps == if ok then [Subscribe(c, unit), MakeQueue(c)] else []
  {
    hide Inv, Leads, SafeQueue.Valid;
    ok := b.Subscribe(unit);
    steps, t := [], s;
    LeadsNone(s);
    if ok {
      t := SubscribeLeads(s, c, unit);
      steps := [Subscribe(c, unit), MakeQueue(c)];
    }
  }

  lemma UnsubscribeLeads(s: State, c: nat, u: int) returns (t: State)
    requires Inv(s) && At(s, c, Idle)
    ensures Leads(s, [Unsubscribe(c, u), RemoveQueue(c)], t) && Inv(t)
    ensures var r := s.replies;
            t == s.(replies := t.replies)
            && t.replies == r.(subscribers := r.subscribers - {u}, camQs := r.camQs - {u},
                               queues := if u in r.camQs then Terminated(r.queues, {r.camQs[u]}) else r.queues)
  {
    hide Inv, Leads, QueueOk, DeliveriesOk, ClientsOk;
    LeadsOne(s, Unsubscribe(c, u));
    InvParts(s);
    t := Next(s, Unsubscribe(c, u));
    assert t.clients == s.clients[c := Unsubscribing(u)];
    LeadsMore(s, [Unsubscribe(c, u)], t, RemoveQueue(c));
    InvParts(t);
    t := Next(t, RemoveQueue(c));
    assert t.clients == s.clients;
    if u !in s.replies.camQs { assert s.replies.camQs - {u} == s.replies.camQs; }
    assert [Unsubscribe(c, u)] + [RemoveQueue(c)] == [Unsubscribe(c, u), RemoveQueue(c)];
  }

  /** Unsubscribe is Unsubscribe and RemoveQueue of one client. */
  method UnsubscribeSteps(b: EngineLoadBalancer, unit: int, ghost s: State, ghost c: nat) returns (ghost t: State)
    requires b.Valid() && Shows(b, s) && Inv(s) && At(s, c, Idle)
    modifies b`subscribers, b`camQs, b.camQs.Values
    ensures b.Valid() && Shows(b, t) && Leads(s, [Unsubscribe(c, unit), RemoveQueue(c)], t) && t.clients == s.clients
  {
    hide Leads, SafeQueue.Valid, Inv, ShowsItems, ShowsLog;
    QueuesApart(s);
    t := UnsubscribeLeads(s, c, unit);
    ghost var before := b.camQs;
    b.Unsubscribe(unit);
    assert ShowsHandlers(b, t);
    forall u | u in b.camQs
      ensures u in t.replies.camQs && t.replies.camQs[u] < |t.replies.queues|
      ensures var x := t.replies.queues[t.replies.camQs[u]];
              x.terminated == b.camQs[u].terminated && ShowsItems(b.camQs[u].q, t.replies.log, x.items)
    {
      assert before[u] == b.camQs[u] && t.replies.camQs[u] == s.replies.camQs[u];
      if unit in s.replies.camQs { assert s.replies.camQs[u] != s.replies.camQs[unit]; }
    }
  }

  lemma DestroyBegins(s: State, c: nat) returns (t: State)
    requires Inv(s) && At(s, c, Idle)
    ensures Leads(s, [Destroy(c), DestroySubscribers(c)], t) && Inv(t)
    ensures var r := s.replies;
            t == s.(clients := s.clients[c := Destroying(2)], replies := r.(subscribers := {}, queues := Terminated(r.queues, r.camQs.Values)))
  {
    hide Inv, Leads, QueueOk, DeliveriesOk, ClientsOk;
    LeadsOne(s, Destroy(c));
    InvParts(s);
    t := Next(s, Destroy(c));
    assert t.clients == s.clients[c := Destroying(1)];
    LeadsMore(s, [Destroy(c)], t, DestroySubscribers(c));
    InvParts(t);
    t := Next(t, DestroySubscribers(c));
    assert t.clients == s.clients[c := Destroying(2)];
    assert [Destroy(c)] + [DestroySubscribers(c)] == [Destroy(c), DestroySubscribers(c)];
  }

  lemma DestroyLeads(s: State, c: nat) returns (t: State)
    requires Inv(s) && At(s, c, Idle)
    ensures Leads(s, [Destroy(c), DestroySubscribers(c), DestroyQueues(c)], t) && Inv(t)
    ensures var r := s.replies;
            t == s.(replies := r.(subscribers := {}, camQs := map[], queues := Terminated(r.queues, r.camQs.Values)))
  {
    hide Inv, Leads, QueueOk, DeliveriesOk, ClientsOk;
    t := DestroyBegins(s, c);
    LeadsMore(s, [Destroy(c), DestroySubscribers(c)], t, DestroyQueues(c));
    InvParts(t);
    t := Next(t, DestroyQueues(c));
    assert t.clients == s.clients;
    assert [Destroy(c), DestroySubscribers(c)] + [DestroyQueues(c)] == [Destroy(c), DestroySubscribers(c), DestroyQueues(c)];
  }

  /** DestroySubscribersAll is its three sections in one client. */
  method DestroySteps(b: EngineLoadBalancer, ghost s: State, ghost c: nat) returns (ghost t: State)
    requires b.Valid() && Shows(b, s) && Inv(s) && At(s, c, Idle)
    modifies b`subscribers, b`camQs, b.camQs.Values
    ensures b.Valid() && Shows(b, t) && Leads(s, [Destroy(c), DestroySubscribers(c), DestroyQueues(c)], t) && t.clients == s.clients
  {
    hide Inv, Leads, SafeQueue.Valid;
    t := DestroyLeads(s, c);
    b.DestroySubscribersAll();
  }

  // ----- replies

  lemma AskLeads(s: State, c: nat, u: int) returns (t: State)
    requires Inv(s) && At(s, c, Idle) && u in s.replies.subscribers
    ensures Leads(s, [Ask(c, u), FindQueue(c)], t) && Inv(t)
    ensures t == s.(clients := if u in s.replies.camQs then s.clients[c := Waiting(u, s.replies.camQs[u])] else s.clients)
  {
    hide Inv, Leads;
    LeadsOne(s, Ask(c, u));
    InvParts(s);
    t := Next(s, Ask(c, u));
    assert t.clients == s.clients[c := Asking(u)];
    LeadsMore(s, [Ask(c, u)], t, FindQueue(c));
    InvParts(t);
    t := Next(t, FindQueue(c));
    assert s.clients[c := Asking(u)][c := Idle] == s.clients;
    assert u in s.replies.camQs ==> t.clients == s.clients[c := Waiting(u, s.replies.camQs[u])];
    assert [Ask(c, u)] + [FindQueue(c)] == [Ask(c, u), FindQueue(c)];
  }

  /** The rest of a call that found a queue: it receives a reply or gives up. */
  lemma TakeLeads(s: State, c: nat, u: int, receives: bool) returns (t: State)
    requires Inv(s) && At(s, c, Idle) && u in s.replies.subscribers && u in s.replies.camQs
    requires s.replies.camQs[u] < |s.replies.queues|
    requires var q := s.replies.queues[s.replies.camQs[u]]; receives ==> !q.terminated && q.items != [] && q.unit == u
    ensures Leads(s, [Ask(c, u), FindQueue(c), if receives then Receive(c) else GiveUp(c)], t) && Inv(t)
    ensures t == s.(replies := t.replies)
    ensures !receives ==> t.replies == s.replies
    ensures var r, q := s.replies, s.replies.camQs[u];
            receives ==> t.replies == r.(queues := r.queues[q := r.queues[q].(items := r.queues[q].items[1..])], fates := t.replies.fates, delivered := t.replies.delivered)
                         && t.replies.delivered == r.delivered + [Delivery(u, q, r.queues[q].items[0])]
  {
    hide Inv, Leads;
    var m := AskLeads(s, c, u);
    var last := if receives then Receive(c) else GiveUp(c);
    assert m.clients[c] == Waiting(u, s.replies.camQs[u]);
    LeadsMore(s, [Ask(c, u), FindQueue(c)], m, last);
    InvParts(m);
    if receives { assert QueueOk(m.replies, s.replies.camQs[u]); }
    t := Next(m, last);
    assert t.clients == s.clients;
    assert [Ask(c, u), FindQueue(c)] + [last] == [Ask(c, u), FindQueue(c), last];
  }

  /** A call that finds a queue. */
  method RespondFound(b: EngineLoadBalancer, unit: int, ghost s: State, ghost c: nat)
      returns (r: Option<Answer>, ghost steps: seq<Step>, ghost t: State)
    requires b.Valid() && Shows(b, s) && Inv(s) && At(s, c, Idle) && unit in b.subscribers && unit in b.camQs
    modifies b.camQs.Values`q, b.camQs.Values`gone
    ensures b.Valid() && Shows(b, t) && Leads(s, steps, t) && t.clients == s.clients
    ensures steps == [Ask(c, unit), FindQueue(c), if r.Some? then Receive(c) else GiveUp(c)]
    ensures r.Some? ==> Delivers(s, t, unit, r.value)
  {
    hide Leads, SafeQueue.Valid, Inv, ShowsItems, ShowsLog, EngineLoadBalancer.HandlesValid;
    QueuesApart(s);
    ghost var receives := !b.camQs[unit].terminated && b.camQs[unit].q != [];
    ItemsTaken(b.camQs[unit].q, s.replies.log, s.replies.queues[s.replies.camQs[unit]].items);
    steps := [Ask(c, unit), FindQueue(c), if receives then Receive(c) else GiveUp(c)];
    t := TakeLeads(s, c, unit, receives);
    r := b.RespondAsync(unit);
    assert r.Some? == receives && ShowsHandlers(b, t);
    forall v | v in b.camQs
      ensures v in t.replies.camQs && t.replies.camQs[v] < |t.replies.queues|
      ensures var x := t.replies.queues[t.replies.camQs[v]];
              x.terminated == b.camQs[v].terminated && ShowsItems(b.camQs[v].q, t.replies.log, x.items)
    {
      if v != unit { assert s.replies.camQs[v] != s.replies.camQs[unit]; }
    }
  }

  /** One more delivery to the unit, and it is the given reply. */
  ghost predicate Delivers(s: State, t: State, unit: int, a: Answer) {
    var n := |s.replies.delivered|;
    && |t.replies.delivered| == n + 1 && t.replies.delivered[n].asked == unit && t.replies.delivered[n].place < |s.replies.log|
    && a.request == s.replies.log[t.replies.delivered[n].place]
  }

  /** RespondAsync is Ask, FindQueue and Receive or GiveUp of one client, as far as it gets. */
  method RespondSteps(b: EngineLoadBalancer, unit: int, ghost s: State, ghost c: nat)
      returns (r: Option<Answer>, ghost steps: seq<Step>, ghost t: State)
    requires b.Valid() && Shows(b, s) && Inv(s) && At(s, c, Idle)
    modifies b.camQs.Values`q, b.camQs.Values`gone
    ensures b.Valid() && Shows(b, t) && Leads(s, steps, t) && t.clients == s.clients
    ensures steps == if unit !in b.subscribers then [] else if unit !in b.camQs then [Ask(c, unit), FindQueue(c)]
                     else [Ask(c, unit), FindQueue(c), if r.Some? then Receive(c) else GiveUp(c)]
    ensures r.Some? ==> Delivers(s, t, unit, r.value)
  {
    hide Leads, SafeQueue.Valid, Inv, ShowsItems, ShowsLog, EngineLoadBalancer.HandlesValid, Delivers;
    if unit in b.subscribers && unit in b.camQs {
      r, steps, t := RespondFound(b, unit, s, c);
    } else {
      steps, t := [], s;
      LeadsNone(s);
      if unit in b.subscribers {
        steps := [Ask(c, unit), FindQueue(c)];
        t := AskLeads(s, c, unit);
      }
      r := b.RespondAsync(unit);
    }
  }

  lemma ItemsTaken(q: seq<Answer>, log: seq<Request>, places: seq<nat>)
    requires ShowsItems(q, log, places)
    ensures |q| == |places|
    ensures q != [] ==> places[0] < |log| && q[0].request == log[places[0]] && ShowsItems(q[1..], log, places[1..])
  {
  }

  lemma DispatchLeads(s: State) returns (t: State)
    requires Inv(s) && s.replies.dispatcher.Free? && !s.replies.stopped && s.replies.taken < |s.replies.log|
    ensures var r, u := s.replies, s.replies.log[s.replies.taken].unit;
            && Leads(s, if u in r.camQs then [Dispatch(DispatchTake), Dispatch(DispatchLookup), Dispatch(DispatchPut)] else [Dispatch(DispatchTake), Dispatch(DispatchLookup)], t)
            && Inv(t) && t == s.(replies := t.replies)
            && t.replies == r.(taken := r.taken + 1, fates := t.replies.fates, queues := t.replies.queues)
            && (u !in r.camQs ==> t.replies.queues == r.queues)
            && (u in r.camQs ==> r.camQs[u] < |r.queues| && t.replies.queues
                                 == r.queues[r.camQs[u] := r.queues[r.camQs[u]].(items := Enqueued(r.queues[r.camQs[u]].items, r.taken, RESULT_QUEUE_SIZE))])
  {
    hide Inv, Leads;
    var r, u := s.replies, s.replies.log[s.replies.taken].unit;
    LeadsOne(s, Dispatch(DispatchTake));
    InvParts(s);
    t := Next(s, Dispatch(DispatchTake));
    LeadsMore(s, [Dispatch(DispatchTake)], t, Dispatch(DispatchLookup));
    InvParts(t);
    t := Next(t, Dispatch(DispatchLookup));
    assert [Dispatch(DispatchTake)] + [Dispatch(DispatchLookup)] == [Dispatch(DispatchTake), Dispatch(DispatchLookup)];
    if u in r.camQs {
      LeadsMore(s, [Dispatch(DispatchTake), Dispatch(DispatchLookup)], t, Dispatch(DispatchPut));
      InvParts(t);
      assert QueueOk(t.replies, r.camQs[u]);
      t := Next(t, Dispatch(DispatchPut));
      assert [Dispatch(DispatchTake), Dispatch(DispatchLookup)] + [Dispatch(DispatchPut)] == [Dispatch(DispatchTake), Dispatch(DispatchLookup), Dispatch(DispatchPut)];
    }
  }

  lemma ItemsEnqueued(q: seq<Answer>, x: Answer, log: seq<Request>, places: seq<nat>, p: nat, max: nat)
    requires ShowsItems(q, log, places) && p < |log| && x.request == log[p]
    ensures ShowsItems(Enqueued(q, x, max), log, Enqueued(places, p, max))
  {
  }

  lemma LogTaken(q: seq<Answer>, log: seq<Request>, from: nat)
    requires ShowsLog(q, log, from) && q != []
    ensures from < |log| && q[0].request == log[from] && ShowsLog(q[1..], log, from + 1)
  {
  }

  /** A turn with a reply in the queue. */
  method DispatchBusy(b: EngineLoadBalancer, ghost s: State) returns (r: Option<Answer>, ghost steps: seq<Step>, ghost t: State)
    requires b.Valid() && Shows(b, s) && Inv(s) && !b.respondReceiver.terminated && b.respondReceiver.q != []
    modifies b.respondReceiver`q, b.respondReceiver`gone
    modifies b.camQs.Values`q, b.camQs.Values`dropCount, b.camQs.Values`entered, b.camQs.Values`gone
    ensures b.Valid() && Shows(b, t) && Leads(s, steps, t) && t.clients == s.clients && r.Some?
    ensures steps == if r.value.request.unit in b.camQs then [Dispatch(DispatchTake), Dispatch(DispatchLookup), Dispatch(DispatchPut)]
                     else [Dispatch(DispatchTake), Dispatch(DispatchLookup)]
  {
    hide Leads, SafeQueue.Valid, Inv, ShowsItems, ShowsLog, Enqueued, Full, EngineLoadBalancer.HandlesValid;
    QueuesApart(s);
    LogTaken(b.respondReceiver.q, s.replies.log, s.replies.taken);
    t := DispatchLeads(s);
    ghost var x, p := b.respondReceiver.q[0], s.replies.taken;
    ghost var u, queues := x.request.unit, b.camQs;
    steps := [Dispatch(DispatchTake), Dispatch(DispatchLookup)];
    if u in b.camQs {
      steps := [Dispatch(DispatchTake), Dispatch(DispatchLookup), Dispatch(DispatchPut)];
      EnqueuedExactly(b.camQs[u].q, x, RESULT_QUEUE_SIZE);
      ItemsEnqueued(b.camQs[u].q, x, s.replies.log, s.replies.queues[s.replies.camQs[u]].items, p, RESULT_QUEUE_SIZE);
    }
    r := b.DispatchOne();
    assert ShowsHandlers(b, t);
    forall v | v in b.camQs
      ensures v in t.replies.camQs && t.replies.camQs[v] < |t.replies.queues|
      ensures var x := t.replies.queues[t.replies.camQs[v]];
              x.terminated == b.camQs[v].terminated && ShowsItems(b.camQs[v].q, t.replies.log, x.items)
    {
      if v != u && u in b.camQs { assert s.replies.camQs[v] != s.replies.camQs[u]; }
    }
  }

  /** One turn of the dispatcher is DispatchTake, DispatchLookup and DispatchPut, as far as it gets. */
  method DispatchSteps(b: EngineLoadBalancer, ghost s: State) returns (r: Option<Answer>, ghost steps: seq<Step>, ghost t: State)
    requires b.Valid() && Shows(b, s) && Inv(s)
    modifies b.respondReceiver`q, b.respondReceiver`gone
    modifies b.camQs.Values`q, b.camQs.Values`dropCount, b.camQs.Values`entered, b.camQs.Values`gone
    ensures b.Valid() && Shows(b, t) && Leads(s, steps, t) && t.clients == s.clients
    ensures steps == if r.None? then []
                     else if r.value.request.unit in b.camQs then [Dispatch(DispatchTake), Dispatch(DispatchLookup), Dispatch(DispatchPut)]
                     else [Dispatch(DispatchTake), Dispatch(DispatchLookup)]
  {
    hide Leads, SafeQueue.Valid, Inv, ShowsItems, ShowsLog, Enqueued, Full, EngineLoadBalancer.HandlesValid;
    if b.respondReceiver.terminated || |b.respondReceiver.q| == 0 {
      steps, t := [], s;
      LeadsNone(s);
      r := b.DispatchOne();
    } else {
      r, steps, t := DispatchBusy(b, s);
    }
  }

  lemma QueuesApart(s: State)
    requires Inv(s)
    ensures forall u, v :: u in s.replies.camQs && v in s.replies.camQs && u != v ==> s.replies.camQs[u] != s.replies.camQs[v]
    ensures forall u :: u in s.replies.camQs ==> s.replies.camQs[u] < |s.replies.queues| && s.replies.queues[s.replies.camQs[u]].unit == u
  {
  }
}
