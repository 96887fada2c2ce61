/** The inference pipeline as one state machine: client threads of EngineLoadBalancer.cpp, the
    workers and closers of the handlers, and the dispatcher, interleaved step by step. A step is
    one critical section, one atomic read or one queue operation of one thread. */
module Pipelines {
  import opened Options
  import opened HandlerLines
  import opened SafeQueues
  import opened ReplySides

  const MAX_INPUT_QUEUE: nat := 128

  /** Where a client thread is: between two calls, or inside one. */
  datatype Client =
    | Idle
    | Chosen(unit: int, handle: Handle) | Admitted(unit: int, handle: Handle)
    | Subscribing(unit: int) | Unsubscribing(unit: int)
    | Asking(unit: int) | Waiting(unit: int, queue: nat)
    | Destroying(stage: nat)

  datatype State = State(
    profiles: set<int>, terminated: bool, handles: seq<Handle>, counter: nat, clients: seq<Client>,
    handlers: map<Handle, Handler>, accepted: seq<Request>, replies: ReplySide)

  datatype Step =
    | Link(handle: Handle)
    | Select(c: nat, unit: int) | CheckSize(c: nat) | Send(c: nat)
    | Subscribe(c: nat, unit: int) | MakeQueue(c: nat)
    | Unsubscribe(c: nat, unit: int) | RemoveQueue(c: nat)
    | Ask(c: nat, unit: int) | FindQueue(c: nat) | Receive(c: nat) | GiveUp(c: nat)
    | Destroy(c: nat) | DestroySubscribers(c: nat) | DestroyQueues(c: nat)
    | SetTerminated | Stop | ClearHandles
    | Work(handle: Handle, work: HandlerStep) | Give(handle: Handle) | CloseGive(handle: Handle)
    | Dispatch(reply: ReplyStep)

  ghost predicate At(s: State, c: nat, x: Client) { c < |s.clients| && s.clients[c] == x }

  ghost predicate CanStep(s: State, step: Step) {
    match step
    case Link(h) => !s.terminated && h !in s.handles && h.engine in s.profiles
    // the termination flag was read before the lock was taken, so it may be set by now
    case Select(c, u) => At(s, c, Idle) && s.handles != []
    case CheckSize(c) => c < |s.clients| && s.clients[c].Chosen?
    case Send(c) => c < |s.clients| && s.clients[c].Admitted?
    case Subscribe(c, u) => At(s, c, Idle) && u !in s.replies.subscribers
    case MakeQueue(c) => c < |s.clients| && s.clients[c].Subscribing?
    case Unsubscribe(c, u) => At(s, c, Idle)
    case RemoveQueue(c) => c < |s.clients| && s.clients[c].Unsubscribing?
    case Ask(c, u) => At(s, c, Idle) && u in s.replies.subscribers
    case FindQueue(c) => c < |s.clients| && s.clients[c].Asking?
    case Receive(c) => c < |s.clients| && s.clients[c].Waiting? && Possible(s.replies, Deliver(s.clients[c].unit, s.clients[c].queue))
    case GiveUp(c) => c < |s.clients| && s.clients[c].Waiting?
    case Destroy(c) => At(s, c, Idle)
    case DestroySubscribers(c) => At(s, c, Destroying(1))
    case DestroyQueues(c) => At(s, c, Destroying(2))
    case SetTerminated => true
    case Stop => s.terminated
    case ClearHandles => s.terminated
    case Work(h, w) => h in s.handlers && (w.Take? || w.Process? || w.Terminate? || w.Swap?) && Enabled(s.handlers[h], w)
    case Give(h) => h in s.handlers && Enabled(s.handlers[h], Emit)
    case CloseGive(h) => h in s.handlers && Enabled(s.handlers[h], CloseEmit)
    case Dispatch(r) => (r.DispatchTake? || r.DispatchLookup? || r.DispatchPut?) && Possible(s.replies, r)
  }

  function Goes(s: State, c: nat, x: Client): State
    requires c < |s.clients|
  {
    s.(clients := s.clients[c := x])
  }

  ghost function Next(s: State, step: Step): State
    requires CanStep(s, step) && ReplyInv(s.replies) && ClientsOk(s)
  {
    hide RoutesOk, QueuesOk, DeliveriesOk;
    match step
    case Link(h) => s.(handles := s.handles + [h], handlers := s.handlers[h := NewHandler()])
    case Select(c, u) => Goes(s, c, Chosen(u, s.handles[s.counter % |s.handles|])).(counter := (s.counter + 1) % WORD)
    case CheckSize(c) =>
      var x := s.clients[c];
      Goes(s, c, if |s.handlers[x.handle].inputs| >= MAX_INPUT_QUEUE then Idle else Admitted(x.unit, x.handle))
    case Send(c) => Sent(s, c)
    case Subscribe(c, u) => Goes(s, c, Subscribing(u)).(replies := Replied(s.replies, AddSubscriber(u)))
    case MakeQueue(c) => Goes(s, c, Idle).(replies := Replied(s.replies, CreateQueue(s.clients[c].unit)))
    case Unsubscribe(c, u) => Goes(s, c, Unsubscribing(u)).(replies := Replied(s.replies, RemoveSubscriber(u)))
    case RemoveQueue(c) => Goes(s, c, Idle).(replies := Replied(s.replies, EraseQueue(s.clients[c].unit)))
    case Ask(c, u) => Goes(s, c, Asking(u))
    case FindQueue(c) =>
      var u := s.clients[c].unit;
      Goes(s, c, if u in s.replies.camQs then Waiting(u, s.replies.camQs[u]) else Idle)
    case Receive(c) => Goes(s, c, Idle).(replies := Replied(s.replies, Deliver(s.clients[c].unit, s.clients[c].queue)))
    case GiveUp(c) => Goes(s, c, Idle)
    case Destroy(c) => Goes(s, c, Destroying(1)).(replies := Replied(s.replies, TerminateQueues))
    case DestroySubscribers(c) => Goes(s, c, Destroying(2)).(replies := Replied(s.replies, ClearSubscribers))
    case DestroyQueues(c) => Goes(s, c, Idle).(replies := Replied(s.replies, ClearQueues))
    case SetTerminated => s.(terminated := true)
    case Stop => s.(replies := Replied(s.replies, StopDispatcher))
    case ClearHandles => s.(handles := [])
    case Work(h, w) => s.(handlers := s.handlers[h := Moved(s.handlers[h], w)])
    case Give(h) => s.(handlers := s.handlers[h := Moved(s.handlers[h], Emit)], replies := Replied(s.replies, Push(s.handlers[h].out[0])))
    case CloseGive(h) => s.(handlers := s.handlers[h := Moved(s.handlers[h], CloseEmit)], replies := Replied(s.replies, Push(s.handlers[h].closing[0])))
    case Dispatch(r) => s.(replies := Replied(s.replies, r))
  }

  /** A request that passed the size check joins the queue of its handler. */
  ghost function Sent(s: State, c: nat): State
    requires c < |s.clients| && s.clients[c].Admitted? && s.clients[c].handle in s.handlers
  {
    var x := s.clients[c];
    var r := Request(x.unit, x.handle, |s.accepted|);
    Goes(s, c, Idle).(accepted := s.accepted + [r], handlers := s.handlers[x.handle := Moved(s.handlers[x.handle], Enqueue(r))])
  }

  function NewState(profiles: set<int>, threads: nat): State {
    State(profiles, false, [], 0, seq(threads, _ => Idle), map[], [], NewReplySide())
  }

  // ----- the requests of one handler

  function Of(s: seq<Request>, h: Handle): seq<Request> {
    if s == [] then [] else Of(s[..|s| - 1], h) + if s[|s| - 1].handle == h then [s[|s| - 1]] else []
  }

  lemma OfMore(s: seq<Request>, r: Request, h: Handle)
    ensures Of(s + [r], h) == Of(s, h) + if r.handle == h then [r] else []
  {
    assert (s + [r])[..|s|] == s;
  }

  lemma {:induction false} OfMember(s: seq<Request>, r: Request, h: Handle)
    ensures r in Of(s, h) <==> r in s && r.handle == h
  {
    if s != [] {
      var n := |s| - 1;
      OfMember(s[..n], r, h);
      assert s == s[..n] + [s[n]];
    }
  }

  /** Two requests of a handler keep their order in its own list. */
  lemma {:induction false} OfOrder(s: seq<Request>, p: nat, q: nat, h: Handle) returns (i: nat, j: nat)
    requires p < q < |s| && s[p].handle == s[q].handle == h
    ensures i < j < |Of(s, h)| && Of(s, h)[i] == s[p] && Of(s, h)[j] == s[q]
  {
    var n := |s| - 1;
    if q < n {
      i, j := OfOrder(s[..n], p, q, h);
    } else {
      OfMember(s[..n], s[p], h);
      assert s[..n][p] == s[p];
      i :| 0 <= i < |Of(s[..n], h)| && Of(s[..n], h)[i] == s[p];
      j := |Of(s[..n], h)|;
    }
  }

  lemma {:induction false} OfAll(s: seq<Request>, h: Handle)
    requires forall p :: 0 <= p < |s| ==> s[p].handle == h
    ensures Of(s, h) == s
  {
    if s != [] {
      OfAll(s[..|s| - 1], h);
    }
  }

  // ----- invariant

  /** A client between two steps holds a handler and a result queue that exist. */
  ghost predicate ClientsOk(s: State) {
    && (forall h :: h in s.handles ==> h in s.handlers)
    && (!s.terminated ==> forall h :: h in s.handlers ==> h in s.handles)
    && forall c :: 0 <= c < |s.clients| ==>
         && (s.clients[c].Chosen? || s.clients[c].Admitted? ==> s.clients[c].handle in s.handlers)
         && (s.clients[c].Waiting? ==> s.clients[c].queue < |s.replies.queues| && s.replies.queues[s.clients[c].queue].unit == s.clients[c].unit)
  }

  /** Tickets number the accepted requests. */
  ghost predicate Numbered(accepted: seq<Request>) { forall t :: 0 <= t < |accepted| ==> accepted[t].ticket == t }

  /** The handler was sent its requests in the order they were accepted, and the shared reply
      queue got its replies in the order it gave them. */
  ghost predicate HandlerOk(s: Handler, h: Handle, accepted: seq<Request>, log: seq<Request>) {
    HandlerInv(s) && s.entered == Of(accepted, h) && s.answered == Of(log, h)
  }

  ghost predicate HandlersOk(handlers: map<Handle, Handler>, accepted: seq<Request>, log: seq<Request>) {
    && (forall h :: h in handlers ==> HandlerOk(handlers[h], h, accepted, log))
    && (forall t :: 0 <= t < |accepted| ==> accepted[t].handle in handlers)
    && (forall p :: 0 <= p < |log| ==> log[p].handle in handlers)
  }

  ghost function AdmittedTo(clients: seq<Client>, h: Handle): (n: nat)
    ensures n <= |clients|
  {
    if clients == [] then 0
    else AdmittedTo(clients[1..], h) + if clients[0].Admitted? && clients[0].handle == h then 1 else 0
  }

  /** A request past the size check counts as queued. */
  ghost predicate Bounded(clients: seq<Client>, handlers: map<Handle, Handler>) {
    forall h :: h in handlers ==> |handlers[h].inputs| + AdmittedTo(clients, h) <= MAX_INPUT_QUEUE - 1 + |clients|
  }

  ghost predicate Inv(s: State) {
    && ClientsOk(s) && Numbered(s.accepted) && HandlersOk(s.handlers, s.accepted, s.replies.log)
    && Bounded(s.clients, s.handlers) && ReplyInv(s.replies)
  }

  // ----- what the steps keep

  lemma {:induction false} AdmittedMoves(clients: seq<Client>, c: nat, x: Client, h: Handle)
    requires c < |clients|
    ensures AdmittedTo(clients[c := x], h) + (if clients[c].Admitted? && clients[c].handle == h then 1 else 0)
         == AdmittedTo(clients, h) + if x.Admitted? && x.handle == h then 1 else 0
  {
    if c == 0 {
      assert clients[c := x][1..] == clients[1..];
    } else {
      AdmittedMoves(clients[1..], c - 1, x, h);
      assert clients[c := x][1..] == clients[1..][c - 1 := x];
    }
  }

  lemma BoundedMoves(s: State, c: nat, x: Client)
    requires Bounded(s.clients, s.handlers) && c < |s.clients|
    requires x.Admitted? ==> x.handle in s.handlers && |s.handlers[x.handle].inputs| < MAX_INPUT_QUEUE
    ensures Bounded(s.clients[c := x], s.handlers)
  {
    forall h | h in s.handlers ensures |s.handlers[h].inputs| + AdmittedTo(s.clients[c := x], h) <= MAX_INPUT_QUEUE - 1 + |s.clients| {
      AdmittedMoves(s.clients, c, x, h);
    }
  }

  lemma RepliedFrame(s: ReplySide, step: ReplyStep)
    requires ReplyInv(s) && Possible(s, step)
    ensures var t := Replied(s, step);
            && t.log == (if step.Push? then s.log + [step.request] else s.log)
            && |s.queues| <= |t.queues| && forall q :: 0 <= q < |s.queues| ==> t.queues[q].unit == s.queues[q].unit
  {
    hide QueueOk, DeliveriesOk;
    if step.Deliver? { assert QueueOk(s, step.queue); }
    if step.DispatchPut? { assert QueueOk(s, s.dispatcher.queue); }
  }

  /** Steps of a client thread, the dispatcher or the balancer: handlers and accepted requests
      stay as they are. */
  lemma FrontKept(s: State, t: State, r: ReplySide)
    requires Inv(s) && t.handlers == s.handlers && t.accepted == s.accepted && t.replies == r
    requires ReplyInv(r) && r.log == s.replies.log && ClientsOk(t) && Bounded(t.clients, t.handlers)
    ensures Inv(t)
  {
  }

  lemma GoesKept(s: State, c: nat, x: Client, r: ReplySide, t: State)
    requires Inv(s) && ReplyInv(r) && r.log == s.replies.log && c < |s.clients|
    requires |s.replies.queues| <= |r.queues| && forall q :: 0 <= q < |s.replies.queues| ==> r.queues[q].unit == s.replies.queues[q].unit
    requires x.Chosen? || x.Admitted? ==> x.handle in s.handlers
    requires x.Waiting? ==> x.queue < |r.queues| && r.queues[x.queue].unit == x.unit
    requires x.Admitted? ==> |s.handlers[x.handle].inputs| < MAX_INPUT_QUEUE
    requires t == s.(clients := s.clients[c := x], replies := r, counter := t.counter)
    ensures Inv(t)
  {
    hide HandlersOk, ReplyInv, Bounded;
    BoundedMoves(s, c, x);
    FrontKept(s, t, r);
  }

  lemma ClientKept(s: State, step: Step)
    requires Inv(s) && CanStep(s, step)
    requires step.Select? || step.CheckSize? || step.Ask? || step.FindQueue? || step.GiveUp?
    ensures Inv(Next(s, step))
  {
    hide HandlersOk, Bounded, QueuesOk, DeliveriesOk;
    var t := Next(s, step);
    match step {
      case Select(c, u) =>
        var h := s.handles[s.counter % |s.handles|];
        assert h in s.handles;
        GoesKept(s, c, Chosen(u, h), s.replies, t);
      case CheckSize(c) => GoesKept(s, c, t.clients[c], s.replies, t);
      case Ask(c, u) => GoesKept(s, c, Asking(u), s.replies, t);
      case FindQueue(c) => GoesKept(s, c, t.clients[c], s.replies, t);
      case GiveUp(c) => GoesKept(s, c, Idle, s.replies, t);
    }
  }

  lemma CallKept(s: State, c: nat, x: Client, step: ReplyStep)
    requires Inv(s) && c < |s.clients| && Possible(s.replies, step) && !step.Push?
    requires !x.Chosen? && !x.Admitted? && !x.Waiting?
    ensures Inv(Goes(s, c, x).(replies := Replied(s.replies, step)))
  {
    hide HandlersOk, Bounded, Replied, QueuesOk, RoutesOk, DeliveriesOk;
    ReplyKept(s.replies, step);
    RepliedFrame(s.replies, step);
    GoesKept(s, c, x, Replied(s.replies, step), Goes(s, c, x).(replies := Replied(s.replies, step)));
  }

  lemma DispatchKept(s: State, step: ReplyStep)
    requires Inv(s) && Possible(s.replies, step) && !step.Push?
    ensures Inv(s.(replies := Replied(s.replies, step)))
  {
    hide HandlersOk, Bounded, Replied, QueuesOk, RoutesOk, DeliveriesOk;
    ReplyKept(s.replies, step);
    RepliedFrame(s.replies, step);
    FrontKept(s, s.(replies := Replied(s.replies, step)), Replied(s.replies, step));
  }

  // ----- steps of a handler

  lemma MovedFrame(s: Handler, w: HandlerStep)
    requires Enabled(s, w)
    ensures var t := Moved(s, w);
            && t.entered == s.entered + (if w.Enqueue? then [w.request] else [])
            && t.answered == s.answered + (if w.Emit? then [s.out[0]] else if w.CloseEmit? then [s.closing[0]] else [])
            && |t.inputs| <= |s.inputs| + if w.Enqueue? then 1 else 0
  {
  }

  /** The request a handler answers next is one of its own. */
  lemma OwnRequest(s: Handler, h: Handle, accepted: seq<Request>, log: seq<Request>, r: Request)
    requires HandlerOk(s, h, accepted, log) && (r in s.out || r in s.closing)
    ensures r.handle == h && r in accepted
  {
    if r in s.out {
      assert r in s.Front();
      Among(s, r);
    } else {
      assert r in s.Back();
      assert r in s.entered[s.Left()..];
    }
    assert r in s.entered;
    OfMember(accepted, r, h);
  }

  lemma LogMore(handlers: map<Handle, Handler>, accepted: seq<Request>, log: seq<Request>, h: Handle, t: Handler, r: Request)
    requires HandlersOk(handlers, accepted, log) && h in handlers && r.handle == h
    requires HandlerInv(t) && t.entered == handlers[h].entered && t.answered == handlers[h].answered + [r]
    ensures HandlersOk(handlers[h := t], accepted, log + [r])
  {
    hide HandlerInv, Of;
    forall k | k in handlers ensures HandlerOk(handlers[h := t][k], k, accepted, log + [r]) {
      assert HandlerOk(handlers[k], k, accepted, log);
      OfMore(log, r, k);
    }
  }

  lemma AcceptedMore(handlers: map<Handle, Handler>, accepted: seq<Request>, log: seq<Request>, h: Handle, t: Handler, r: Request)
    requires HandlersOk(handlers, accepted, log) && h in handlers && r.handle == h
    requires HandlerInv(t) && t.entered == handlers[h].entered + [r] && t.answered == handlers[h].answered
    ensures HandlersOk(handlers[h := t], accepted + [r], log)
  {
    hide HandlerInv, Of;
    forall k | k in handlers ensures HandlerOk(handlers[h := t][k], k, accepted + [r], log) {
      assert HandlerOk(handlers[k], k, accepted, log);
      OfMore(accepted, r, k);
    }
  }

  lemma InputsKept(clients: seq<Client>, handlers: map<Handle, Handler>, h: Handle, t: Handler)
    requires Bounded(clients, handlers) && h in handlers && |t.inputs| <= |handlers[h].inputs|
    ensures Bounded(clients, handlers[h := t])
  {
  }

  lemma WorkKept(s: State, h: Handle, w: HandlerStep)
    requires Inv(s) && CanStep(s, Work(h, w))
    ensures Inv(Next(s, Work(h, w)))
  {
    hide HandlerInv, Moved, Enabled, ReplyInv, Bounded;
    var t := Moved(s.handlers[h], w);
    assert HandlerOk(s.handlers[h], h, s.accepted, s.replies.log);
    HandlerKept(s.handlers[h], w);
    MovedFrame(s.handlers[h], w);
    InputsKept(s.clients, s.handlers, h, t);
  }

  lemma GiveKept(s: State, h: Handle, w: HandlerStep, r: Request)
    requires h in s.handlers && Enabled(s.handlers[h], w)
    requires (w.Emit? && r == s.handlers[h].out[0]) || (w.CloseEmit? && r == s.handlers[h].closing[0])
    requires Inv(s)
    ensures Inv(s.(handlers := s.handlers[h := Moved(s.handlers[h], w)], replies := s.replies.(log := s.replies.log + [r])))
  {
    hide HandlerInv, Moved, HandlersOk, Bounded, Replied, QueuesOk, RoutesOk, DeliveriesOk;
    var t := Moved(s.handlers[h], w);
    HandlerHeld(s, h);
    HandlerKept(s.handlers[h], w);
    MovedFrame(s.handlers[h], w);
    OwnRequest(s.handlers[h], h, s.accepted, s.replies.log, r);
    LogMore(s.handlers, s.accepted, s.replies.log, h, t, r);
    InputsKept(s.clients, s.handlers, h, t);
    Pushed(s.replies, r);
  }

  lemma Pushed(s: ReplySide, r: Request)
    requires ReplyInv(s)
    ensures Replied(s, Push(r)) == s.(log := s.log + [r]) && ReplyInv(s.(log := s.log + [r]))
  {
    ReplyKept(s, Push(r));
  }

  lemma HandlerHeld(s: State, h: Handle)
    requires Inv(s) && h in s.handlers
    ensures HandlerOk(s.handlers[h], h, s.accepted, s.replies.log)
  {
  }

  lemma NewTicket(s: Handler, h: Handle, accepted: seq<Request>, log: seq<Request>, r: Request)
    requires HandlerOk(s, h, accepted, log) && Numbered(accepted) && r.ticket == |accepted|
    ensures Fresh(s, Enqueue(r))
  {
    forall i | 0 <= i < |s.entered| ensures s.entered[i].ticket < r.ticket { OfMember(accepted, s.entered[i], h); }
  }

  lemma SentKept(s: State, c: nat)
    requires Inv(s) && c < |s.clients| && s.clients[c].Admitted?
    ensures Inv(Sent(s, c))
  {
    hide HandlerInv, Moved, HandlersOk, ReplyInv;
    var x := s.clients[c];
    var h := x.handle;
    var r := Request(x.unit, h, |s.accepted|);
    var t := Moved(s.handlers[h], Enqueue(r));
    HandlerHeld(s, h);
    NewTicket(s.handlers[h], h, s.accepted, s.replies.log, r);
    HandlerKept(s.handlers[h], Enqueue(r));
    MovedFrame(s.handlers[h], Enqueue(r));
    AcceptedMore(s.handlers, s.accepted, s.replies.log, h, t, r);
    forall k | k in s.handlers ensures |s.handlers[h := t][k].inputs| + AdmittedTo(s.clients[c := Idle], k) <= MAX_INPUT_QUEUE - 1 + |s.clients| {
      AdmittedMoves(s.clients, c, Idle, k);
    }
  }

  lemma LinkKept(s: State, h: Handle)
    requires Inv(s) && CanStep(s, Link(h))
    ensures Inv(Next(s, Link(h)))
  {
    hide HandlerInv, ReplyInv, Of;
    NewKept();
    if Of(s.accepted, h) != [] { OfMember(s.accepted, Of(s.accepted, h)[0], h); }
    if Of(s.replies.log, h) != [] { OfMember(s.replies.log, Of(s.replies.log, h)[0], h); }
    assert HandlerOk(NewHandler(), h, s.accepted, s.replies.log);
  }

  /** Every step of every thread keeps the invariant. */
  lemma StepKept(s: State, step: Step)
    requires Inv(s) && CanStep(s, step)
    ensures Inv(Next(s, step))
  {
    hide HandlersOk, Bounded, ReplyInv, Replied, Moved;
    match step {
      case Link(h) => LinkKept(s, h);
      case Send(c) => SentKept(s, c);
      case Subscribe(c, u) => CallKept(s, c, Subscribing(u), AddSubscriber(u));
      case MakeQueue(c) => CallKept(s, c, Idle, CreateQueue(s.clients[c].unit));
      case Unsubscribe(c, u) => CallKept(s, c, Unsubscribing(u), RemoveSubscriber(u));
      case RemoveQueue(c) => CallKept(s, c, Idle, EraseQueue(s.clients[c].unit));
      case Receive(c) => CallKept(s, c, Idle, Deliver(s.clients[c].unit, s.clients[c].queue));
      case Destroy(c) => CallKept(s, c, Destroying(1), TerminateQueues);
      case DestroySubscribers(c) => CallKept(s, c, Destroying(2), ClearSubscribers);
      case DestroyQueues(c) => CallKept(s, c, Idle, ClearQueues);
      case SetTerminated => FrontKept(s, Next(s, step), s.replies);
      case Stop => DispatchKept(s, StopDispatcher);
      case ClearHandles => FrontKept(s, Next(s, step), s.replies);
      case Work(h, w) => WorkKept(s, h, w);
      case Give(h) =>
        Pushed(s.replies, s.handlers[h].out[0]);
        GiveKept(s, h, Emit, s.handlers[h].out[0]);
      case CloseGive(h) =>
        Pushed(s.replies, s.handlers[h].closing[0]);
        GiveKept(s, h, CloseEmit, s.handlers[h].closing[0]);
      case Dispatch(r) => DispatchKept(s, r);
      case _ => ClientKept(s, step);
    }
  }

  // ----- runs

  /** `Next` is defined where the invariant holds, which is in every state of a run. */
  ghost predicate Follows(s: State, step: Step, t: State) { CanStep(s, step) && (Inv(s) ==> t == Next(s, step)) }

  /** Any interleaving of `threads` client threads with the workers, closers and dispatcher. */
  ghost predicate IsRun(states: seq<State>, steps: seq<Step>, profiles: set<int>, threads: nat) {
    && |states| == |steps| + 1 && states[0] == NewState(profiles, threads)
    && forall k :: 0 <= k < |steps| ==> Follows(states[k], steps[k], states[k + 1])
  }

  ghost predicate Reached(s: State, threads: nat) {
    exists states, steps, profiles :: IsRun(states, steps, profiles, threads) && s == states[|steps|]
  }

  lemma NewInv(profiles: set<int>, threads: nat)
    ensures Inv(NewState(profiles, threads))
  {
  }

  lemma ThreadsStay(s: State, step: Step)
    requires CanStep(s, step) && Inv(s)
    ensures |Next(s, step).clients| == |s.clients|
  {
    hide HandlersOk, Bounded, Replied, Moved;
  }

  /** The critical section of the reply side that a step is, if any. */
  ghost function ReplyPart(s: State, step: Step): Option<ReplyStep>
    requires CanStep(s, step)
  {
    match step
    case Subscribe(c, u) => Some(AddSubscriber(u))
    case MakeQueue(c) => Some(CreateQueue(s.clients[c].unit))
    case Unsubscribe(c, u) => Some(RemoveSubscriber(u))
    case RemoveQueue(c) => Some(EraseQueue(s.clients[c].unit))
    case Receive(c) => Some(Deliver(s.clients[c].unit, s.clients[c].queue))
    case Destroy(c) => Some(TerminateQueues)
    case DestroySubscribers(c) => Some(ClearSubscribers)
    case DestroyQueues(c) => Some(ReplyStep.ClearQueues)
    case Stop => Some(StopDispatcher)
    case Give(h) => Some(Push(s.handlers[h].out[0]))
    case CloseGive(h) => Some(Push(s.handlers[h].closing[0]))
    case Dispatch(r) => Some(r)
    case _ => None
  }

  lemma NextReplies(s: State, step: Step)
    requires Inv(s) && CanStep(s, step)
    ensures ReplyInv(s.replies)
    ensures match ReplyPart(s, step)
            case None => Next(s, step).replies == s.replies
            case Some(r) => Possible(s.replies, r) && Next(s, step).replies == Replied(s.replies, r)
  {
    hide HandlersOk, Bounded, QueuesOk, RoutesOk, DeliveriesOk, Replied, Moved;
  }

  lemma {:induction false} RunInv(states: seq<State>, steps: seq<Step>, profiles: set<int>, threads: nat, k: nat)
    requires IsRun(states, steps, profiles, threads) && k <= |steps|
    ensures Inv(states[k]) && |states[k].clients| == threads
  {
    hide Inv, HandlersOk, Bounded, CanStep, Next;
    if k == 0 {
      NewInv(profiles, threads);
    } else {
      RunInv(states, steps, profiles, threads, k - 1);
      assert Follows(states[k - 1], steps[k - 1], states[k]);
      InvParts(states[k - 1]);
      StepKept(states[k - 1], steps[k - 1]);
      ThreadsStay(states[k - 1], steps[k - 1]);
    }
  }

  lemma InvParts(s: State)
    requires Inv(s)
    ensures ReplyInv(s.replies) && ClientsOk(s)
  {
  }

  lemma ReachedInv(s: State, threads: nat)
    requires Reached(s, threads)
    ensures Inv(s) && |s.clients| == threads
  {
    hide Inv;
    var states, steps, profiles :| IsRun(states, steps, profiles, threads) && s == states[|steps|];
    RunInv(states, steps, profiles, threads, |steps|);
  }

  // ----- replies reach the unit that asked, at most once, and in order

  /** A reply in the shared queue answers an accepted request. */
  lemma AnswersAccepted(s: State, p: nat)
    requires Inv(s) && p < |s.replies.log|
    ensures var r := s.replies.log[p];
            && r.ticket < |s.accepted| && s.accepted[r.ticket] == r && r.handle in s.handlers
            && r in s.handlers[r.handle].answered && r in s.handlers[r.handle].entered
  {
    hide HandlerInv, Bounded, ReplyInv, Of;
    var r := s.replies.log[p];
    var x := s.handlers[r.handle];
    assert HandlerOk(x, r.handle, s.accepted, s.replies.log);
    OfMember(s.replies.log, r, r.handle);
    AnsweredEntered(x, r);
    OfMember(s.accepted, r, r.handle);
  }

  lemma AnsweredEntered(s: Handler, r: Request)
    requires HandlerInv(s) && r in s.answered
    ensures r in s.entered
  {
    assert r in s.Front();
    Among(s, r);
  }

  /** What a caller of RespondAsync gets is the reply to an accepted request of its own unit. */
  lemma ReplyToAsker(s: State, threads: nat, n: nat)
    requires Reached(s, threads) && n < |s.replies.delivered|
    ensures var d := s.replies.delivered[n];
            d.place < |s.replies.log|
            && var r := s.replies.log[d.place];
               r.ticket < |s.accepted| && s.accepted[r.ticket] == r && r.unit == d.asked
  {
    hide HandlersOk, Bounded, Reached;
    ReachedInv(s, threads);
    AnswersAccepted(s, s.replies.delivered[n].place);
  }

  /** No request is answered twice. */
  lemma AnsweredOnce(s: State, p: nat, q: nat)
    requires Inv(s) && p < q < |s.replies.log|
    ensures s.replies.log[p] != s.replies.log[q]
  {
    hide ReplyInv, Bounded, Of;
    var r := s.replies.log[p];
    if r == s.replies.log[q] {
      AnswersAccepted(s, p);
      var x := s.handlers[r.handle];
      assert HandlerOk(x, r.handle, s.accepted, s.replies.log);
      var i, j := OfOrder(s.replies.log, p, q, r.handle);
      var k :| 0 <= k < |x.entered| && x.entered[k] == r;
      OnePlace(x, k);
      Twice(x.answered, i, j);
      assert false;
    }
  }

  lemma Twice(s: seq<Request>, i: nat, j: nat)
    requires i < j < |s| && s[i] == s[j]
    ensures multiset(s)[s[i]] >= 2
  {
    assert s == s[..j] + [s[j]] + s[j + 1..];
    assert s[..j][i] == s[i];
    assert s[i] in multiset(s[..j]);
  }

  /** No request brings two replies, whoever asks and however the threads interleave. */
  lemma DeliveredAtMostOnce(s: State, threads: nat, n: nat, m: nat)
    requires Reached(s, threads) && n < m < |s.replies.delivered|
    ensures var a, b := s.replies.delivered[n].place, s.replies.delivered[m].place;
            a < |s.replies.log| && b < |s.replies.log| && s.replies.log[a].ticket != s.replies.log[b].ticket
  {
    hide HandlersOk, Bounded, Reached, QueuesOk, RoutesOk;
    ReachedInv(s, threads);
    var a, b := s.replies.delivered[n].place, s.replies.delivered[m].place;
    assert s.replies.fates[a] == Delivered(n) && s.replies.fates[b] == Delivered(m);
    AnswersAccepted(s, a);
    AnswersAccepted(s, b);
    if a < b { AnsweredOnce(s, a, b); } else { AnsweredOnce(s, b, a); }
  }

  // ----- one handler: replies in full order

  /** Increasing tickets below m, as many as m: they are 0, 1, 2 and so on. */
  lemma {:induction false} Squeezed(s: seq<Request>, m: nat, i: nat)
    requires Increasing(s) && |s| == m && i < m && forall k :: 0 <= k < m ==> s[k].ticket < m
    ensures s[i].ticket == i
  {
    AtLeast(s, i);
    AtMost(s, m, i);
  }

  lemma {:induction false} AtLeast(s: seq<Request>, i: nat)
    requires Increasing(s) && i < |s|
    ensures s[i].ticket >= i
  {
    if i > 0 { AtLeast(s, i - 1); }
  }

  lemma {:induction false} AtMost(s: seq<Request>, m: nat, i: nat)
    requires Increasing(s) && i < |s| <= m && forall k :: 0 <= k < |s| ==> s[k].ticket < m
    ensures s[i].ticket <= m - (|s| - i)
    decreases |s| - i
  {
    if i < |s| - 1 { AtMost(s, m, i + 1); }
  }

  /** With one handler that refused nothing and let nothing overtake, the p-th reply answers
      the p-th accepted request. */
  lemma SingleLine(s: State, h: Handle, p: nat)
    requires Inv(s) && h in s.handlers && !s.handlers[h].overtook && s.handlers[h].refused == []
    requires (forall t :: 0 <= t < |s.accepted| ==> s.accepted[t].handle == h) && p < |s.replies.log|
    ensures p < |s.accepted| && s.replies.log[p] == s.accepted[p]
  {
    hide Bounded, ReplyInv, Of;
    var x := s.handlers[h];
    assert HandlerOk(x, h, s.accepted, s.replies.log);
    OfAll(s.accepted, h);
    forall q | 0 <= q < |s.replies.log| ensures s.replies.log[q].handle == h { AnswersAccepted(s, q); }
    OfAll(s.replies.log, h);
    var m := x.Left();
    FrontSize(x);
    forall k | 0 <= k < |x.Front()| ensures x.Front()[k].ticket < m { Among(x, x.Front()[k]); }
    Squeezed(x.Front(), m, p);
    assert x.Front()[p] == x.answered[p];
    AnswersAccepted(s, p);
  }

  lemma FrontSize(s: Handler)
    requires Accounted(s) && s.refused == []
    ensures |s.Front()| == s.Left()
  {
    assert |multiset(s.Front())| == |multiset(s.entered[..s.Left()])|;
  }

  // ----- nothing is lost without trace

  /** An accepted request waits, is owed, was refused, or was answered, and only one of these
      and only once. */
  lemma RequestInOnePlace(s: State, threads: nat, t: nat)
    requires Reached(s, threads) && t < |s.accepted|
    ensures var r := s.accepted[t];
            r.handle in s.handlers
            && var x := s.handlers[r.handle];
               multiset(x.inputs)[r] + multiset(x.closing)[r] + multiset(x.InHand())[r] + multiset(x.batch)[r] + multiset(x.out)[r]
               + multiset(x.refused)[r] + multiset(s.replies.log)[r] == 1
  {
    hide Bounded, ReplyInv, Reached, Of;
    ReachedInv(s, threads);
    var r := s.accepted[t];
    var x := s.handlers[r.handle];
    assert HandlerOk(x, r.handle, s.accepted, s.replies.log);
    OfMember(s.accepted, r, r.handle);
    var k :| 0 <= k < |x.entered| && x.entered[k] == r;
    OnePlace(x, k);
    OfCount(s.replies.log, r);
  }

  lemma {:induction false} OfCount(s: seq<Request>, r: Request)
    ensures multiset(Of(s, r.handle))[r] == multiset(s)[r]
  {
    if s != [] {
      var n := |s| - 1;
      OfCount(s[..n], r);
      assert s == s[..n] + [s[n]];
    }
  }

  predicate InQueue(r: ReplySide, q: nat, i: nat, p: nat) {
    q < |r.queues| && i < |r.queues[q].items| && r.queues[q].items[i] == p
  }

  /** A reply the dispatcher took is held by it, in one place of one result queue, delivered
      once, dropped, or discarded. */
  lemma ReplyInOnePlace(s: State, threads: nat, p: nat)
    requires Reached(s, threads) && p < s.replies.taken
    ensures var r := s.replies;
            && |r.fates| == r.taken
            && (r.fates[p].Queued? <==> exists q, i :: InQueue(r, q, i, p))
            && (forall q, i, k, j :: InQueue(r, q, i, p) && InQueue(r, k, j, p) ==> q == k && i == j)
            && (r.fates[p].Delivered? <==> exists n :: 0 <= n < |r.delivered| && r.delivered[n].place == p)
            && (forall n, m :: 0 <= n < |r.delivered| && 0 <= m < |r.delivered| && r.delivered[n].place == r.delivered[m].place ==> n == m)
            && (r.fates[p].InHand? <==> !r.dispatcher.Free? && r.dispatcher.place == p)
  {
    hide HandlersOk, Bounded, Reached, ClientsOk;
    ReachedInv(s, threads);
    var r := s.replies;
    if r.fates[p].Queued? {
      var q := r.fates[p].queue;
      var i :| 0 <= i < |r.queues[q].items| && r.queues[q].items[i] == p;
      assert InQueue(r, q, i, p);
    }
    forall q: nat, i: nat | InQueue(r, q, i, p) ensures r.fates[p] == Queued(q) {
      assert QueueOk(r, q);
    }
    forall q: nat, i: nat, k: nat, j: nat | InQueue(r, q, i, p) && InQueue(r, k, j, p) ensures q == k && i == j {
      assert r.fates[p] == Queued(q) && r.fates[p] == Queued(k);
      assert QueueOk(r, q);
    }
    if r.fates[p].Delivered? { assert r.delivered[r.fates[p].nth].place == p; }
  }

  // ----- backpressure

  /** The check of the size and the enqueue are not one step, so a queue can outgrow the limit,
      but only by the number of client threads less one. */
  lemma QueueBound(s: State, threads: nat, h: Handle)
    requires Reached(s, threads) && h in s.handlers
    ensures |s.handlers[h].inputs| <= 127 + threads
  {
    hide HandlersOk, ReplyInv, Reached, ClientsOk;
    ReachedInv(s, threads);
  }

  // ----- runs that show the bounds are met

  lemma Extend(s: State, threads: nat, step: Step) returns (t: State)
    requires Reached(s, threads) && CanStep(s, step)
    ensures Inv(s) && t == Next(s, step) && Reached(t, threads) && |s.clients| == |t.clients| == threads
  {
    hide Inv, CanStep, Next;
    ReachedInv(s, threads);
    InvParts(s);
    t := Next(s, step);
    var states, steps, profiles :| IsRun(states, steps, profiles, threads) && s == states[|steps|];
    var longer, more := states + [t], steps + [step];
    forall k | 0 <= k < |more| ensures Follows(longer[k], more[k], longer[k + 1]) {
      if k < |steps| { assert longer[k] == states[k] && longer[k + 1] == states[k + 1] && more[k] == steps[k]; }
    }
    assert IsRun(longer, more, profiles, threads) && t == longer[|more|];
    ReachedInv(t, threads);
  }

  /** One handler with n requests waiting. */
  ghost predicate Loaded(s: State, h: Handle, n: nat) {
    s.handles == [h] && h in s.handlers && |s.handlers[h].inputs| == n
  }

  lemma SelectOne(s: State, threads: nat, h: Handle, n: nat, c: nat) returns (t: State)
    requires Reached(s, threads) && Loaded(s, h, n) && At(s, c, Idle) && n < MAX_INPUT_QUEUE
    ensures Reached(t, threads) && Loaded(t, h, n) && t.clients == s.clients[c := Admitted(0, h)]
  {
    hide Inv, Reached;
    var u := Extend(s, threads, Select(c, 0));
    assert s.counter % |s.handles| == 0;
    assert u.clients[c] == Chosen(0, h);
    t := Extend(u, threads, CheckSize(c));
  }

  lemma SendOne(s: State, threads: nat, h: Handle, n: nat, c: nat) returns (t: State)
    requires Reached(s, threads) && Loaded(s, h, n) && At(s, c, Admitted(0, h))
    ensures Reached(t, threads) && Loaded(t, h, n + 1) && t.clients == s.clients[c := Idle]
  {
    hide Inv, Reached;
    t := Extend(s, threads, Send(c));
  }

  lemma LinkOne(h: Handle, threads: nat) returns (t: State)
    ensures Reached(t, threads) && Loaded(t, h, 0) && t.clients == seq(threads, _ => Idle) && t.replies == NewReplySide()
    ensures t.handlers == map[h := NewHandler()] && t.accepted == []
  {
    hide Inv;
    var s := NewState({h.engine}, threads);
    var none: seq<Step> := [];
    assert IsRun([s], none, {h.engine}, threads) && s == [s][|none|];
    t := Extend(s, threads, Link(h));
  }

  /** The bound is met, for any number of threads: all of them check the size of a queue one
      short of the limit before the first of them enqueues. */
  lemma BoundIsMet(threads: nat, h: Handle) returns (s: State)
    requires threads > 0
    ensures Reached(s, threads) && h in s.handlers && |s.handlers[h].inputs| == 127 + threads
  {
    hide Reached;
    s := LinkOne(h, threads);
    var idle := s.clients;
    for n := 0 to MAX_INPUT_QUEUE - 1
      invariant Reached(s, threads) && Loaded(s, h, n) && s.clients == idle
    {
      s := SelectOne(s, threads, h, n, 0);
      s := SendOne(s, threads, h, n, 0);
    }
    for c := 0 to threads
      invariant Reached(s, threads) && Loaded(s, h, MAX_INPUT_QUEUE - 1) && |s.clients| == threads
      invariant forall i :: 0 <= i < threads ==> s.clients[i] == if i < c then Admitted(0, h) else Idle
    {
      s := SelectOne(s, threads, h, MAX_INPUT_QUEUE - 1, c);
    }
    for c := 0 to threads
      invariant Reached(s, threads) && Loaded(s, h, MAX_INPUT_QUEUE - 1 + c) && |s.clients| == threads
      invariant forall i :: c <= i < threads ==> s.clients[i] == Admitted(0, h)
    {
      s := SendOne(s, threads, h, MAX_INPUT_QUEUE - 1 + c, c);
    }
  }
}
