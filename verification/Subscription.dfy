/** When a subscribed unit has a result queue, with Subscribe, Unsubscribe and the removal of all
    units interleaved. Each of them takes two locks one after the other. */
module Subscriptions {
  import opened Options
  import opened HandlerLines
  import opened ReplySides
  import opened Pipelines

  /** A removal of the unit's queue is still to come. */
  predicate Removes(x: Client, u: int) { x == Unsubscribing(u) || x == Destroying(2) }

  /** The unit subscribes between the two halves of a removal. */
  ghost predicate Overlaps(s: State, step: Step) {
    step.Subscribe? && exists d :: 0 <= d < |s.clients| && Removes(s.clients[d], step.unit)
  }

  /** A subscribed unit has a queue, or is about to get one, and none is about to remove it. */
  ghost predicate UnitOk(s: State, u: int) {
    u in s.replies.subscribers ==>
      && (forall d :: 0 <= d < |s.clients| ==> !Removes(s.clients[d], u))
      && (u in s.replies.camQs || exists c: nat :: At(s, c, Subscribing(u)))
  }

  ghost predicate UnitsOk(s: State) { forall u :: UnitOk(s, u) }

  function Members(subscribers: set<int>, step: ReplyStep): set<int> {
    match step
    case AddSubscriber(u) => subscribers + {u}
    case RemoveSubscriber(u) => subscribers - {u}
    case ClearSubscribers => {}
    case _ => subscribers
  }

  function Owners(units: set<int>, step: ReplyStep): set<int> {
    match step
    case CreateQueue(u) => units + {u}
    case EraseQueue(u) => units - {u}
    case ClearQueues => {}
    case _ => units
  }

  lemma RepliedMembers(r: ReplySide, step: ReplyStep)
    requires ReplyInv(r) && Possible(r, step)
    ensures Replied(r, step).subscribers == Members(r.subscribers, step)
    ensures Replied(r, step).camQs.Keys == Owners(r.camQs.Keys, step)
  {
    hide DeliveriesOk;
    if step.Deliver? { assert QueueOk(r, step.queue); }
    if step.DispatchPut? { assert QueueOk(r, r.dispatcher.queue); }
  }

  /** What a step does to the subscribers and to the units with a queue. */
  lemma SubscriptionMoves(s: State, step: Step)
    requires Inv(s) && CanStep(s, step)
    ensures ReplyInv(s.replies) && ClientsOk(s)
    ensures var t, part := Next(s, step), ReplyPart(s, step);
            && t.replies.subscribers == (if part.Some? then Members(s.replies.subscribers, part.value) else s.replies.subscribers)
            && t.replies.camQs.Keys == (if part.Some? then Owners(s.replies.camQs.Keys, part.value) else s.replies.camQs.Keys)
  {
    hide Inv, Next, ReplyInv, Replied, ClientsOk, Members, Owners;
    NextReplies(s, step);
    InvParts(s);
    var part := ReplyPart(s, step);
    if part.Some? { RepliedMembers(s.replies, part.value); }
  }

  lemma SubscriptionClients(s: State, step: Step)
    requires Inv(s) && CanStep(s, step)
    ensures ReplyInv(s.replies) && ClientsOk(s)
    ensures var x, y := s.clients, Next(s, step).clients;
            && |x| == |y|
            && forall c :: 0 <= c < |x| && y[c] != x[c] ==>
                 && (y[c].Unsubscribing? ==> step == Unsubscribe(c, y[c].unit))
                 && (y[c] == Destroying(2) ==> step == DestroySubscribers(c))
                 && (x[c].Subscribing? ==> step == MakeQueue(c))
                 && (x[c].Unsubscribing? ==> step == RemoveQueue(c))
                 && (x[c] == Destroying(2) ==> step == DestroyQueues(c))
    ensures step.Subscribe? ==> step.c < |s.clients| && At(Next(s, step), step.c, Subscribing(step.unit))
    ensures step.MakeQueue? ==> step.c < |s.clients| && s.clients[step.c].Subscribing?
    ensures step.RemoveQueue? ==> step.c < |s.clients| && s.clients[step.c].Unsubscribing?
    ensures step.DestroyQueues? ==> At(s, step.c, Destroying(2))
  {
    hide HandlersOk, Bounded, QueuesOk, RoutesOk, DeliveriesOk, Replied, Moved;
  }

  /** A step keeps this for every unit if and only if it does not subscribe one between the two
      halves of a removal. */
  lemma SubscriptionKept(s: State, step: Step)
    requires Inv(s) && CanStep(s, step) && UnitsOk(s)
    ensures ReplyInv(s.replies) && ClientsOk(s)
    ensures UnitsOk(Next(s, step)) <==> !Overlaps(s, step)
  {
    hide Inv, CanStep, Next, ReplyInv, ClientsOk, UnitsOk;
    InvParts(s);
    if Overlaps(s, step) {
      OverlapBreaks(s, step);
    } else {
      forall u ensures UnitOk(Next(s, step), u) { UnitKept(s, step, u); }
      AllUnits(Next(s, step));
    }
  }

  lemma AllUnits(s: State)
    requires forall u :: UnitOk(s, u)
    ensures UnitsOk(s)
  {
  }

  lemma OverlapBreaks(s: State, step: Step)
    requires Inv(s) && CanStep(s, step) && Overlaps(s, step)
    ensures ReplyInv(s.replies) && ClientsOk(s) && !UnitsOk(Next(s, step))
  {
    hide Inv, Next, ReplyInv, ClientsOk;
    SubscriptionMoves(s, step);
    SubscriptionClients(s, step);
    var d :| 0 <= d < |s.clients| && Removes(s.clients[d], step.unit);
    assert Next(s, step).clients[d] == s.clients[d];
    assert !UnitOk(Next(s, step), step.unit);
  }

  lemma UnitKept(s: State, step: Step, u: int)
    requires Inv(s) && CanStep(s, step) && UnitsOk(s) && !Overlaps(s, step)
    ensures ReplyInv(s.replies) && ClientsOk(s) && UnitOk(Next(s, step), u)
  {
    hide Inv, Next, ReplyInv, ClientsOk;
    SubscriptionMoves(s, step);
    SubscriptionClients(s, step);
    var t := Next(s, step);
    assert UnitOk(s, u);
    if u in t.replies.subscribers && u in s.replies.subscribers && u !in s.replies.camQs {
      var c: nat :| At(s, c, Subscribing(u));
      if t.clients[c] == s.clients[c] { assert At(t, c, Subscribing(u)); }
    }
    if step.Subscribe? && step.unit == u { assert At(t, step.c, Subscribing(u)); }
  }

  ghost predicate SomeOverlap(states: seq<State>, steps: seq<Step>, k: nat)
    requires k <= |steps| < |states|
  {
    exists i :: 0 <= i < k && Overlaps(states[i], steps[i])
  }

  /** As long as no unit subscribes between the two halves of a removal, every subscribed unit
      has a result queue or is about to get one. */
  lemma {:induction false} SubscribedHaveQueues(states: seq<State>, steps: seq<Step>, profiles: set<int>, threads: nat, k: nat)
    requires IsRun(states, steps, profiles, threads) && k <= |steps| && !SomeOverlap(states, steps, k)
    ensures UnitsOk(states[k])
  {
    hide Inv, CanStep, Next, UnitsOk, Overlaps;
    if k > 0 {
      SubscribedHaveQueues(states, steps, profiles, threads, k - 1);
      RunInv(states, steps, profiles, threads, k - 1);
      assert Follows(states[k - 1], steps[k - 1], states[k]);
      SubscriptionKept(states[k - 1], steps[k - 1]);
    } else {
      NewUnits(profiles, threads);
    }
  }

  lemma NewUnits(profiles: set<int>, threads: nat)
    ensures UnitsOk(NewState(profiles, threads))
  {
  }

  // ----- after an overlap the queue can be lost

  /** Subscribed, with no queue and none to come. */
  ghost predicate Stranded(s: State, u: int) {
    u in s.replies.subscribers && u !in s.replies.camQs && forall c :: 0 <= c < |s.clients| ==> s.clients[c] != Subscribing(u)
  }

  ghost function Waiters(clients: seq<Client>, u: int): nat {
    if clients == [] then 0 else Waiters(clients[1..], u) + if clients[0] == Subscribing(u) then 1 else 0
  }

  lemma {:induction false} WaitersMove(clients: seq<Client>, c: nat, x: Client, u: int)
    requires c < |clients|
    ensures Waiters(clients[c := x], u) + (if clients[c] == Subscribing(u) then 1 else 0)
         == Waiters(clients, u) + if x == Subscribing(u) then 1 else 0
  {
    if c == 0 {
      assert clients[c := x][1..] == clients[1..];
    } else {
      WaitersMove(clients[1..], c - 1, x, u);
      assert clients[c := x][1..] == clients[1..][c - 1 := x];
    }
  }

  lemma FinishOne(s: State, threads: nat, c: nat, u: int) returns (t: State)
    requires Reached(s, threads) && At(s, c, Subscribing(u))
    ensures Reached(t, threads) && t.clients == s.clients[c := Idle] && t.replies.subscribers == s.replies.subscribers
    ensures t.replies.camQs.Keys == s.replies.camQs.Keys + {u}
  {
    hide Inv, Reached, ReplyInv, ClientsOk;
    t := Extend(s, threads, MakeQueue(c));
  }

  /** Whenever a unit subscribes between the two halves of a removal, the run can go on so that
      the unit stays subscribed without a queue. */
  lemma OverlapCanStrand(s: State, threads: nat, c: nat, u: int) returns (t: State)
    requires Reached(s, threads) && CanStep(s, Subscribe(c, u)) && Overlaps(s, Subscribe(c, u))
    ensures Reached(t, threads) && Stranded(t, u)
  {
    hide Inv, Reached, ReplyInv, ClientsOk, Next;
    var d :| 0 <= d < |s.clients| && Removes(s.clients[d], u);
    t := SubscribeOne(s, threads, c, u);
    while exists c: nat :: At(t, c, Subscribing(u))
      invariant Reached(t, threads) && u in t.replies.subscribers && d < |t.clients| && Removes(t.clients[d], u)
      decreases Waiters(t.clients, u)
    {
      var c: nat :| At(t, c, Subscribing(u));
      WaitersMove(t.clients, c, Idle, u);
      t := FinishOne(t, threads, c, u);
    }
    assert forall c: nat :: c < |t.clients| ==> At(t, c, t.clients[c]);
    t := RemoveOne(t, threads, d, u);
  }

  lemma SubscribeOne(s: State, threads: nat, c: nat, u: int) returns (t: State)
    requires Reached(s, threads) && CanStep(s, Subscribe(c, u))
    ensures Reached(t, threads) && t.clients == s.clients[c := Subscribing(u)] && u in t.replies.subscribers && s.clients[c] == Idle
  {
    hide Inv, Reached, ReplyInv, ClientsOk;
    t := Extend(s, threads, Subscribe(c, u));
  }

  lemma RemoveOne(s: State, threads: nat, d: nat, u: int) returns (t: State)
    requires Reached(s, threads) && d < |s.clients| && Removes(s.clients[d], u)
    ensures Reached(t, threads) && t.clients == s.clients[d := Idle] && t.replies.subscribers == s.replies.subscribers && u !in t.replies.camQs
  {
    hide Inv, Reached, ReplyInv, ClientsOk;
    t := Extend(s, threads, if s.clients[d] == Unsubscribing(u) then RemoveQueue(d) else DestroyQueues(d));
  }

  /** Such a run exists. */
  lemma SubscribedWithoutQueue(u: int) returns (s: State)
    ensures Reached(s, 2) && Stranded(s, u)
  {
    hide Inv, Reached, ReplyInv, ClientsOk;
    s := LinkOne(Handle(0, 0), 2);
    s := Extend(s, 2, Unsubscribe(1, u));
    assert s.clients[1] == Unsubscribing(u);
    s := OverlapCanStrand(s, 2, 0, u);
  }
}
