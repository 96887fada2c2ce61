/** In which order the replies to one unit are delivered, over all its result queues. */
module CameraOrders {
  import opened Options
  import opened HandlerLines
  import opened SafeQueues
  import opened ReplySides
  import opened Pipelines

  lemma {:induction false} RunGenerations(states: seq<State>, steps: seq<Step>, profiles: set<int>, threads: nat, k: nat)
    requires IsRun(states, steps, profiles, threads) && k <= |steps|
    ensures Inv(states[k]) && GenerationsOk(states[k].replies)
  {
    hide Inv, CanStep, Next, GenerationsOk, ReplyInv;
    RunInv(states, steps, profiles, threads, k);
    if k == 0 {
      NewGenerations();
    } else {
      RunGenerations(states, steps, profiles, threads, k - 1);
      assert Follows(states[k - 1], steps[k - 1], states[k]);
      StepGenerations(states[k - 1], steps[k - 1]);
    }
  }

  lemma NewGenerations()
    ensures GenerationsOk(NewReplySide())
  {
  }

  lemma StepGenerations(s: State, step: Step)
    requires Inv(s) && CanStep(s, step) && GenerationsOk(s.replies)
    ensures ReplyInv(s.replies) && ClientsOk(s) && GenerationsOk(Next(s, step).replies)
  {
    hide HandlersOk, Bounded, CanStep, Next, GenerationsOk, ReplyInv, ReplyPart;
    NextReplies(s, step);
    var part := ReplyPart(s, step);
    if part.Some? { GenerationsKept(s.replies, part.value); }
  }

  lemma ReachedGenerations(s: State, threads: nat)
    requires Reached(s, threads)
    ensures Inv(s) && GenerationsOk(s.replies)
  {
    hide Inv, GenerationsOk;
    var states, steps, profiles :| IsRun(states, steps, profiles, threads) && s == states[|steps|];
    RunGenerations(states, steps, profiles, threads, |steps|);
  }

  // ----- two deliveries

  /** Two deliveries to a unit are in the order of the replies, and those of one handler that
      let nothing overtake in the order of its requests, if and only if the later one does not
      come out of an older queue of the unit. What was dropped in between does not matter. */
  lemma CameraOrder(s: State, threads: nat, n: nat, m: nat)
    requires Reached(s, threads) && n < m < |s.replies.delivered| && s.replies.delivered[n].asked == s.replies.delivered[m].asked
    ensures var a, b := s.replies.delivered[n], s.replies.delivered[m];
            && a.place < |s.replies.log| && b.place < |s.replies.log|
            && (a.place < b.place <==> a.queue <= b.queue)
            && var r, r' := s.replies.log[a.place], s.replies.log[b.place];
               r.handle == r'.handle && r.handle in s.handlers && !s.handlers[r.handle].overtook ==>
                 (r.ticket < r'.ticket <==> a.queue <= b.queue)
  {
    hide Reached, HandlersOk, Bounded, QueuesOk, RoutesOk, GenerationsOk, ClientsOk;
    ReachedGenerations(s, threads);
    DeliveryOrder(s.replies, n, m);
    var a, b := s.replies.delivered[n].place, s.replies.delivered[m].place;
    assert s.replies.fates[a] == Delivered(n) && s.replies.fates[b] == Delivered(m);
    AnswersAccepted(s, a);
    if s.replies.log[a].handle == s.replies.log[b].handle && !s.handlers[s.replies.log[a].handle].overtook {
      if a < b { TicketsGrow(s, a, b); } else { TicketsGrow(s, b, a); }
    }
  }

  lemma TicketsGrow(s: State, a: nat, b: nat)
    requires Inv(s) && a < b < |s.replies.log| && s.replies.log[a].handle == s.replies.log[b].handle
    requires s.replies.log[a].handle in s.handlers && !s.handlers[s.replies.log[a].handle].overtook
    ensures s.replies.log[a].ticket < s.replies.log[b].ticket
  {
    hide Bounded, ReplyInv, Of;
    var h := s.replies.log[a].handle;
    var x := s.handlers[h];
    assert HandlerOk(x, h, s.accepted, s.replies.log);
    var i, j := OfOrder(s.replies.log, a, b, h);
    Prefix(x.answered, x.Owed());
  }

  // ----- all deliveries of a run

  ghost predicate InOrder(r: ReplySide, u: int) {
    forall n, m :: 0 <= n < m < |r.delivered| && r.delivered[n].asked == u && r.delivered[m].asked == u ==>
      r.delivered[n].place < r.delivered[m].place
  }

  /** A caller takes a reply out of a queue although the unit got one out of a newer one. */
  ghost predicate Late(s: State, step: Step, u: int) {
    && step.Receive? && step.c < |s.clients| && s.clients[step.c].Waiting? && s.clients[step.c].unit == u
    && exists n :: 0 <= n < |s.replies.delivered| && s.replies.delivered[n].asked == u && s.replies.delivered[n].queue > s.clients[step.c].queue
  }

  ghost predicate SomeLate(states: seq<State>, steps: seq<Step>, k: nat, u: int)
    requires k <= |steps| < |states|
  {
    exists i :: 0 <= i < k && Late(states[i], steps[i], u)
  }

  lemma RepliedDelivered(r: ReplySide, step: ReplyStep)
    requires ReplyInv(r) && Possible(r, step)
    ensures var d, d' := r.delivered, Replied(r, step).delivered;
            if step.Deliver? then exists p :: d' == d + [Delivery(step.unit, step.queue, p)] else d' == d
  {
    hide DeliveriesOk;
    if step.Deliver? {
      assert QueueOk(r, step.queue);
      assert Replied(r, step).delivered == r.delivered + [Delivery(step.unit, step.queue, r.queues[step.queue].items[0])];
    } else if step.DispatchPut? {
      assert QueueOk(r, r.dispatcher.queue);
    }
  }

  lemma DeliveredGrows(s: State, step: Step)
    requires Inv(s) && CanStep(s, step)
    ensures ReplyInv(s.replies) && ClientsOk(s)
    ensures step.Receive? ==> step.c < |s.clients| && s.clients[step.c].Waiting?
    ensures var d, d' := s.replies.delivered, Next(s, step).replies.delivered;
            if step.Receive? then exists p :: d' == d + [Delivery(s.clients[step.c].unit, s.clients[step.c].queue, p)] else d' == d
  {
    hide Inv, Next, ReplyInv, Replied;
    NextReplies(s, step);
    InvParts(s);
    var part := ReplyPart(s, step);
    if part.Some? { RepliedDelivered(s.replies, part.value); }
  }

  lemma InOrderStep(s: State, step: Step, u: int)
    requires Inv(s) && GenerationsOk(s.replies) && CanStep(s, step)
    ensures ReplyInv(s.replies) && ClientsOk(s)
    ensures InOrder(Next(s, step).replies, u) <==> InOrder(s.replies, u) && !Late(s, step, u)
  {
    hide HandlersOk, Bounded, CanStep, Next, GenerationsOk, QueuesOk, RoutesOk, DeliveriesOk;
    DeliveredGrows(s, step);
    StepKept(s, step);
    StepGenerations(s, step);
    var t := Next(s, step);
    InvParts(t);
    var d, d' := s.replies.delivered, t.replies.delivered;
    if step.Receive? && s.clients[step.c].unit == u {
      var last := |d|;
      forall n | 0 <= n < last && d[n].asked == u ensures d'[n].place < d'[last].place <==> d[n].queue <= s.clients[step.c].queue {
        DeliveryOrder(t.replies, n, last);
      }
      if InOrder(t.replies, u) {
        forall n, m | 0 <= n < m < |d| && d[n].asked == u && d[m].asked == u ensures d[n].place < d[m].place {
          assert d'[n] == d[n] && d'[m] == d[m];
        }
      }
    } else if step.Receive? {
      assert forall n :: 0 <= n < |d'| && d'[n].asked == u ==> n < |d| && d'[n] == d[n];
      assert forall n :: 0 <= n < |d| ==> d'[n] == d[n];
    }
  }

  /** A unit gets all its replies in order if and only if no caller took one out of an older
      queue after another was given one out of a newer. */
  lemma {:induction false} UnitOrder(states: seq<State>, steps: seq<Step>, profiles: set<int>, threads: nat, k: nat, u: int)
    requires IsRun(states, steps, profiles, threads) && k <= |steps|
    ensures InOrder(states[k].replies, u) <==> !SomeLate(states, steps, k, u)
  {
    hide Inv, CanStep, Next, GenerationsOk, InOrder, Late;
    if k == 0 {
      NewOrder(u);
    } else {
      UnitOrder(states, steps, profiles, threads, k - 1, u);
      RunGenerations(states, steps, profiles, threads, k - 1);
      assert Follows(states[k - 1], steps[k - 1], states[k]);
      InOrderStep(states[k - 1], steps[k - 1], u);
      assert SomeLate(states, steps, k, u) <==> SomeLate(states, steps, k - 1, u) || Late(states[k - 1], steps[k - 1], u);
    }
  }

  lemma NewOrder(u: int)
    ensures InOrder(NewReplySide(), u)
  {
  }

  // ----- one caller at a time

  predicate AsksFor(x: Client, u: int) { (x.Asking? || x.Waiting?) && x.unit == u }

  /** A call of RespondAsync begins while none for this unit is under way. */
  ghost predicate AsksAlone(s: State, step: Step, u: int) {
    step.Ask? && step.unit == u ==> forall c :: 0 <= c < |s.clients| ==> !AsksFor(s.clients[c], u)
  }

  /** One call at most is under way, and its queue is not older than one used before. */
  ghost predicate AskerOk(s: State, u: int) {
    && (forall c, d :: 0 <= c < d < |s.clients| ==> !AsksFor(s.clients[c], u) || !AsksFor(s.clients[d], u))
    && forall c, n :: 0 <= c < |s.clients| && s.clients[c].Waiting? && s.clients[c].unit == u
                      && 0 <= n < |s.replies.delivered| && s.replies.delivered[n].asked == u ==>
         s.replies.delivered[n].queue <= s.clients[c].queue
  }

  /** The clients after a step: only the one that makes it moves. */
  lemma ClientMoves(s: State, step: Step)
    requires Inv(s) && CanStep(s, step)
    ensures ReplyInv(s.replies) && ClientsOk(s)
    ensures var x, y := s.clients, Next(s, step).clients;
            && |x| == |y|
            && (forall c :: 0 <= c < |x| && y[c] != x[c] ==>
                  && (y[c].Asking? ==> step == Ask(c, y[c].unit))
                  && (y[c].Waiting? ==> step == FindQueue(c) && x[c] == Asking(y[c].unit)
                                        && y[c].unit in s.replies.camQs && y[c].queue == s.replies.camQs[y[c].unit]))
            && (step.Receive? ==> step.c < |y| && y[step.c] == Idle)
  {
    hide HandlersOk, Bounded, QueuesOk, RoutesOk, DeliveriesOk, Replied, Moved;
  }

  lemma NewestAll(s: State, u: int, n: nat)
    requires Inv(s) && GenerationsOk(s.replies) && u in s.replies.camQs && n < |s.replies.delivered| && s.replies.delivered[n].asked == u
    ensures s.replies.delivered[n].queue <= s.replies.camQs[u]
  {
    hide HandlersOk, Bounded, ClientsOk, QueuesOk, RoutesOk, HomesOk, Successive;
  }

  lemma AskerKept(s: State, step: Step, u: int)
    requires Inv(s) && GenerationsOk(s.replies) && CanStep(s, step) && AskerOk(s, u) && AsksAlone(s, step, u)
    ensures ReplyInv(s.replies) && ClientsOk(s) && AskerOk(Next(s, step), u) && !Late(s, step, u)
  {
    hide HandlersOk, Bounded, CanStep, Next, GenerationsOk, ReplyInv;
    ClientMoves(s, step);
    DeliveredGrows(s, step);
    var t := Next(s, step);
    forall c, n | 0 <= c < |t.clients| && t.clients[c].Waiting? && t.clients[c].unit == u
                  && 0 <= n < |t.replies.delivered| && t.replies.delivered[n].asked == u
      ensures t.replies.delivered[n].queue <= t.clients[c].queue
    {
      if t.clients[c] != s.clients[c] {
        NewestAll(s, u, n);
      }
    }
  }

  /** As long as RespondAsync is called for a unit by one caller at a time, the unit gets its
      replies in order, however its queue is replaced. */
  lemma {:induction false} OneCallerInOrder(states: seq<State>, steps: seq<Step>, profiles: set<int>, threads: nat, k: nat, u: int)
    requires IsRun(states, steps, profiles, threads) && k <= |steps|
    requires forall i :: 0 <= i < k ==> AsksAlone(states[i], steps[i], u)
    ensures AskerOk(states[k], u) && !SomeLate(states, steps, k, u) && InOrder(states[k].replies, u)
  {
    hide Inv, CanStep, Next, GenerationsOk, InOrder, Late, AskerOk, AsksAlone;
    UnitOrder(states, steps, profiles, threads, k, u);
    if k == 0 {
      NewAsker(profiles, threads, u);
    } else {
      OneCallerInOrder(states, steps, profiles, threads, k - 1, u);
      RunGenerations(states, steps, profiles, threads, k - 1);
      assert Follows(states[k - 1], steps[k - 1], states[k]);
      AskerKept(states[k - 1], steps[k - 1], u);
    }
  }

  lemma NewAsker(profiles: set<int>, threads: nat, u: int)
    ensures AskerOk(NewState(profiles, threads), u)
  {
  }

  // ----- or no queue replaced while it is alive

  /** A queue is made for the unit only when it has none, and its queue is not forgotten while
      a caller can still take from it. */
  ghost predicate Replaces(s: State, step: Step, u: int) {
    || (step.MakeQueue? && step.c < |s.clients| && s.clients[step.c] == Subscribing(u) && u in s.replies.camQs)
    || (step.DestroyQueues? && u in s.replies.camQs && s.replies.camQs[u] < |s.replies.queues| && !s.replies.queues[s.replies.camQs[u]].terminated)
  }

  /** Only the unit's present queue is alive. */
  ghost predicate OneAlive(r: ReplySide, u: int) {
    forall q :: 0 <= q < |r.queues| && r.queues[q].unit == u && !r.queues[q].terminated ==> u in r.camQs && r.camQs[u] == q
  }

  lemma RepliedAlive(r: ReplySide, step: ReplyStep, u: int)
    requires ReplyInv(r) && Possible(r, step) && OneAlive(r, u)
    requires step == CreateQueue(u) ==> u !in r.camQs
    requires step.ClearQueues? && u in r.camQs && r.camQs[u] < |r.queues| ==> r.queues[r.camQs[u]].terminated
    ensures OneAlive(Replied(r, step), u)
  {
    hide DeliveriesOk;
    if step.Deliver? { assert QueueOk(r, step.queue); }
    if step.DispatchPut? { assert QueueOk(r, r.dispatcher.queue); }
  }

  lemma AliveNotLate(s: State, step: Step, u: int)
    requires Inv(s) && GenerationsOk(s.replies) && CanStep(s, step) && OneAlive(s.replies, u)
    ensures !Late(s, step, u)
  {
    hide HandlersOk, Bounded, ReplyInv, GenerationsOk;
    if step.Receive? && s.clients[step.c].unit == u {
      var q := s.clients[step.c].queue;
      forall n | 0 <= n < |s.replies.delivered| && s.replies.delivered[n].asked == u ensures s.replies.delivered[n].queue <= q { NewestAll(s, u, n); }
    }
  }

  lemma AliveKept(s: State, step: Step, u: int)
    requires Inv(s) && GenerationsOk(s.replies) && CanStep(s, step) && OneAlive(s.replies, u) && !Replaces(s, step, u)
    ensures ReplyInv(s.replies) && ClientsOk(s) && OneAlive(Next(s, step).replies, u) && !Late(s, step, u)
  {
    hide Inv, Next, ReplyInv, Replied, GenerationsOk, OneAlive, Late;
    NextReplies(s, step);
    InvParts(s);
    AliveNotLate(s, step, u);
    var part := ReplyPart(s, step);
    if part.Some? { RepliedAlive(s.replies, part.value, u); }
  }

  /** As long as a unit's queue is not replaced while it is alive, the unit gets its replies in
      order, however many callers take from it. */
  lemma {:induction false} NoReplacementInOrder(states: seq<State>, steps: seq<Step>, profiles: set<int>, threads: nat, k: nat, u: int)
    requires IsRun(states, steps, profiles, threads) && k <= |steps|
    requires forall i :: 0 <= i < k ==> !Replaces(states[i], steps[i], u)
    ensures OneAlive(states[k].replies, u) && !SomeLate(states, steps, k, u) && InOrder(states[k].replies, u)
  {
    hide Inv, CanStep, Next, GenerationsOk, InOrder, Late, OneAlive, Replaces;
    UnitOrder(states, steps, profiles, threads, k, u);
    if k == 0 {
      NewAlive(u);
    } else {
      NoReplacementInOrder(states, steps, profiles, threads, k - 1, u);
      RunGenerations(states, steps, profiles, threads, k - 1);
      assert Follows(states[k - 1], steps[k - 1], states[k]);
      AliveKept(states[k - 1], steps[k - 1], u);
    }
  }

  lemma NewAlive(u: int)
    ensures OneAlive(NewReplySide(), u)
  {
  }

  // ----- the order can be lost in a real run

  /** Two subscriptions of a unit at once, one of them not finished. */
  lemma HalfSubscribed(h: Handle, u: int) returns (s: State)
    ensures AtRest(s, h) && Reached(s, 6) && s.handles == [h] && s.handlers == map[h := NewHandler()] && s.accepted == []
    ensures s.clients == [Idle, Subscribing(u), Idle, Idle, Idle, Idle]
    ensures s.replies == NewReplySide().(subscribers := {u}, camQs := map[u := 0], queues := [CamQueue(u, [], false)])
  {
    hide Inv, Reached;
    s := LinkOne(h, 6);
    s := Extend(s, 6, Subscribe(1, u));
    s := Extend(s, 6, Unsubscribe(2, u));
    assert s.replies == NewReplySide();
    s := Extend(s, 6, RemoveQueue(2));
    assert s.replies == NewReplySide() && s.clients == [Idle, Subscribing(u), Idle, Idle, Idle, Idle];
    s := Extend(s, 6, Subscribe(3, u));
    s := Extend(s, 6, MakeQueue(3));
  }

  /** A handler between two turns with nothing to do. */
  ghost predicate AtRest(s: State, h: Handle) {
    && s.handles == [h] && s.handlers.Keys == {h} && |s.clients| == 6 && s.clients[0] == Idle
    && var x := s.handlers[h]; x.inputs == [] && x.hand.None? && x.batch == [] && x.out == [] && !x.terminated && !x.overtook && x.refused == []
  }

  lemma RequestOne(s: State, h: Handle, u: int) returns (t: State)
    requires Reached(s, 6) && AtRest(s, h)
    ensures var r, x := Request(u, h, |s.accepted|), s.handlers[h];
            Reached(t, 6) && t.handles == s.handles && t.clients == s.clients && t.accepted == s.accepted + [r] && t.replies == s.replies
            && t.handlers == s.handlers[h := x.(inputs := [r], entered := x.entered + [r])]
  {
    hide Inv, Reached, ReplyInv, ClientsOk;
    t := Extend(s, 6, Select(0, u));
    assert t.clients == s.clients[0 := Chosen(u, h)];
    t := Extend(t, 6, CheckSize(0));
    assert t.clients == s.clients[0 := Admitted(u, h)];
    var x := t.handlers[h];
    t := Extend(t, 6, Send(0));
    assert t.clients == s.clients;
    assert x.inputs + [Request(u, h, |s.accepted|)] == [Request(u, h, |s.accepted|)];
  }

  /** The handler answers one more request of the unit. */
  lemma ServeOne(s: State, h: Handle, u: int) returns (t: State)
    requires Reached(s, 6) && AtRest(s, h)
    ensures var r := Request(u, h, |s.accepted|);
            Reached(t, 6) && AtRest(t, h) && t.clients == s.clients && t.accepted == s.accepted + [r]
            && t.replies == s.replies.(log := s.replies.log + [r])
  {
    hide Inv, Reached, ReplyInv, ClientsOk;
    t := RequestOne(s, h, u);
    t := AnswerOne(t, h, Request(u, h, |s.accepted|));
  }

  lemma AnswerOne(s: State, h: Handle, r: Request) returns (t: State)
    requires Reached(s, 6) && s.handlers.Keys == {h}
    requires var x := s.handlers[h]; x.inputs == [r] && x.hand.None? && x.batch == [] && x.out == [] && !x.terminated
    ensures var x := s.handlers[h];
            Reached(t, 6) && t == s.(handlers := s.handlers[h := x.(inputs := [], answered := x.answered + [r])], replies := s.replies.(log := s.replies.log + [r]))
  {
    hide Inv, Reached, ReplyInv, ClientsOk;
    var x := s.handlers[h];
    t := Extend(s, 6, Work(h, Take));
    assert t.handlers[h] == x.(hand := Some(r), inputs := []);
    t := Extend(t, 6, Work(h, Process(Outcome(false, true, true, true, true))));
    assert t.handlers[h] == x.(inputs := [], out := [r]);
    t := Extend(t, 6, Give(h));
    assert t.handlers == s.handlers[h := x.(inputs := [], answered := x.answered + [r])];
  }

  /** The dispatcher moves the next reply into the unit's present queue. */
  lemma DispatchOne(s: State, u: int, q: nat) returns (t: State)
    requires Reached(s, 6) && s.replies.dispatcher.Free? && !s.replies.stopped && |s.replies.fates| == s.replies.taken < |s.replies.log|
    requires s.replies.log[s.replies.taken].unit == u && u in s.replies.camQs && s.replies.camQs[u] == q < |s.replies.queues|
    requires s.replies.queues[q].items == []
    ensures var r, p := s.replies, s.replies.taken;
            Reached(t, 6) && t == s.(replies := r.(taken := p + 1, fates := r.fates + [Queued(q)], queues := r.queues[q := r.queues[q].(items := [p])]))
  {
    hide Inv, Reached, ReplyInv, ClientsOk;
    var r, p := s.replies, s.replies.taken;
    t := Extend(s, 6, Dispatch(DispatchTake));
    assert t.replies == r.(dispatcher := Holding(p), taken := p + 1, fates := r.fates + [InHand]);
    t := Extend(t, 6, Dispatch(DispatchLookup));
    assert t.replies == r.(dispatcher := Routed(p, q), taken := p + 1, fates := r.fates + [InHand]);
    t := Extend(t, 6, Dispatch(DispatchPut));
    assert (r.fates + [InHand])[p := Queued(q)] == r.fates + [Queued(q)];
    assert Enqueued(r.queues[q].items, p, RESULT_QUEUE_SIZE) == [p];
    assert t.replies == r.(taken := p + 1, fates := r.fates + [Queued(q)], queues := r.queues[q := r.queues[q].(items := [p])]);
  }

  /** A client finds the unit's present queue. */
  lemma AskOne(s: State, c: nat, u: int) returns (t: State)
    requires Reached(s, 6) && At(s, c, Idle) && u in s.replies.subscribers && u in s.replies.camQs
    ensures Reached(t, 6) && t == s.(clients := s.clients[c := Waiting(u, s.replies.camQs[u])])
  {
    hide Inv, Reached, ReplyInv, ClientsOk;
    t := Extend(s, 6, Ask(c, u));
    t := Extend(t, 6, FindQueue(c));
    assert s.clients[c := Asking(u)][c := Waiting(u, s.replies.camQs[u])] == s.clients[c := Waiting(u, s.replies.camQs[u])];
  }

  lemma ReceiveOne(s: State, c: nat, u: int, q: nat, p: nat) returns (t: State)
    requires Reached(s, 6) && At(s, c, Waiting(u, q)) && q < |s.replies.queues| && s.replies.queues[q] == CamQueue(u, [p], false)
    ensures Reached(t, 6) && t.replies.delivered == s.replies.delivered + [Delivery(u, q, p)]
    ensures t.handles == s.handles && t.clients == s.clients[c := Idle] && t.replies.log == s.replies.log && t.handlers == s.handlers && t.accepted == s.accepted
    ensures |t.replies.queues| == |s.replies.queues| && forall k :: 0 <= k < |s.replies.queues| && k != q ==> t.replies.queues[k] == s.replies.queues[k]
    ensures |t.replies.fates| == |s.replies.fates| && p < |s.replies.fates| && forall k :: 0 <= k < |s.replies.fates| && k != p ==> t.replies.fates[k] == s.replies.fates[k]
    ensures t.replies.fates[p] == Delivered(|s.replies.delivered|)
  {
    hide Inv, Reached;
    t := Extend(s, 6, Receive(c));
    InvParts(s);
    assert QueueOk(s.replies, q);
  }

  /** With one handler that lets nothing overtake and refuses nothing, and with nothing dropped
      or discarded, a unit gets the reply to its second request first: it subscribed twice at
      once, and two callers take from its two queues. */
  lemma CameraOrderLost(h: Handle, u: int) returns (s: State)
    ensures Reached(s, 6) && AtRest(s, h)
    ensures s.accepted == [Request(u, h, 0), Request(u, h, 1)] && s.replies.log == s.accepted
    ensures s.replies.delivered == [Delivery(u, 1, 1), Delivery(u, 0, 0)]
  {
    hide Inv, Reached, ReplyInv, ClientsOk, Next, CanStep;
    s := HalfSubscribed(h, u);
    s := ServeOne(s, h, u);
    s := ServeOne(s, h, u);
    s := DispatchOne(s, u, 0);
    s := AskOne(s, 4, u);
    s := FinishSubscription(s, 1, u);
    s := DispatchOne(s, u, 1);
    s := AskOne(s, 5, u);
    assert s.replies.queues == [CamQueue(u, [0], false), CamQueue(u, [1], false)];
    s := ReceiveOne(s, 5, u, 1, 1);
    s := ReceiveOne(s, 4, u, 0, 0);
  }

  lemma FinishSubscription(s: State, c: nat, u: int) returns (t: State)
    requires Reached(s, 6) && At(s, c, Subscribing(u))
    ensures Reached(t, 6) && t == s.(clients := s.clients[c := Idle], replies := s.replies.(queues := s.replies.queues + [CamQueue(u, [], false)], camQs := s.replies.camQs[u := |s.replies.queues|]))
  {
    hide Inv, Reached, ReplyInv, ClientsOk;
    t := Extend(s, 6, MakeQueue(c));
  }

  // ----- one handler: full order

  /** No reply to the unit that the dispatcher took was dropped or discarded. */
  ghost predicate NothingLost(r: ReplySide, u: int) {
    forall p :: 0 <= p < |r.fates| && p < |r.log| && r.log[p].unit == u ==> !r.fates[p].Dropped? && !r.fates[p].Discarded?
  }

  /** The reply at t waits in an older queue than the n-th delivery came from, or was taken out
      of one after it. */
  ghost predicate Behind(r: ReplySide, t: nat, n: nat) {
    && t < |r.fates| && n < |r.delivered| && 0 <= Home(r, t) < r.delivered[n].queue
    && (r.fates[t].Queued? || (r.fates[t].Delivered? && r.fates[t].nth > n))
  }

  /** With a single linked handler and nothing lost, a delivery to a unit has been preceded by
      the replies to all its earlier requests, except exactly those left behind in an older
      queue of the unit. */
  lemma FullOrder(s: State, threads: nat, h: Handle, n: nat, t: nat)
    requires Reached(s, threads) && h in s.handlers && !s.handlers[h].overtook && s.handlers[h].refused == []
    requires forall i :: 0 <= i < |s.accepted| ==> s.accepted[i].handle == h
    requires n < |s.replies.delivered| && NothingLost(s.replies, s.replies.delivered[n].asked)
    requires t < s.replies.delivered[n].place && t < |s.accepted| && s.accepted[t].unit == s.replies.delivered[n].asked
    ensures var d := s.replies.delivered[n];
            d.place < |s.replies.log| && d.place < |s.accepted| && s.replies.log[d.place] == s.accepted[d.place]
    ensures t < |s.replies.log| && s.replies.log[t] == s.accepted[t]
    ensures (exists m :: 0 <= m < n && s.replies.delivered[m].asked == s.replies.delivered[n].asked && s.replies.delivered[m].place == t)
       <==> !Behind(s.replies, t, n)
  {
    hide HandlersOk, Bounded, Reached, ClientsOk, Of;
    ReachedGenerations(s, threads);
    SingleLine(s, h, s.replies.delivered[n].place);
    SingleLine(s, h, t);
    Preceded(s.replies, n, t);
  }

  lemma Preceded(r: ReplySide, n: nat, t: nat)
    requires ReplyInv(r) && GenerationsOk(r) && n < |r.delivered| && NothingLost(r, r.delivered[n].asked)
    requires t < r.delivered[n].place && r.delivered[n].place < |r.log| && r.log[t].unit == r.delivered[n].asked
    ensures (exists m :: 0 <= m < n && r.delivered[m].asked == r.delivered[n].asked && r.delivered[m].place == t) <==> !Behind(r, t, n)
  {
    var p, q := r.delivered[n].place, r.delivered[n].queue;
    assert r.fates[p] == Delivered(n) && Home(r, p) == q && r.log[p].unit == r.delivered[n].asked;
    match r.fates[t] {
      case Delivered(m) =>
        assert r.delivered[m].place == t && r.delivered[m].asked == r.log[t].unit;
        assert m != n;
        if m > n { DeliveryOrder(r, n, m); }
      case Queued(k) =>
        assert Home(r, t) <= q;
        assert t in r.queues[k].items;
        var i :| 0 <= i < |r.queues[k].items| && r.queues[k].items[i] == t;
        assert k != q;
      case InHand =>
        assert false;
      case Dropped(_) =>
        assert false;
      case Discarded =>
        assert false;
    }
  }
}
