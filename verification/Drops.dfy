/** What a dropped reply says: its result queue was full, so ten later replies were put behind it. */
module ReplyDrops {
  import opened Options
  import opened HandlerLines
  import opened SafeQueues
  import opened ReplySides
  import opened Pipelines
  import opened CameraOrders

  /** Ten replies after the one at p that were routed to queue q. */
  ghost predicate TenLater(s: ReplySide, q: nat, p: nat, later: seq<nat>) {
    && |later| == 10 && (forall i, j :: 0 <= i < j < |later| ==> later[i] < later[j])
    && forall i :: 0 <= i < |later| ==> p < later[i] < |s.fates| && Home(s, later[i]) == q
  }

  ghost predicate DropsOk(s: ReplySide) {
    forall p :: 0 <= p < |s.fates| && s.fates[p].Dropped? ==> exists later :: TenLater(s, s.fates[p].from, p, later)
  }

  /** Places routed to a queue stay so, and no reply is dropped but in the given case. */
  lemma DropsStay(s: ReplySide, t: ReplySide)
    requires DropsOk(s) && |s.fates| <= |t.fates|
    requires forall p :: 0 <= p < |s.fates| && Home(s, p) >= 0 ==> Home(t, p) == Home(s, p)
    requires forall p :: 0 <= p < |t.fates| && t.fates[p].Dropped? ==> p < |s.fates| && t.fates[p] == s.fates[p]
    ensures DropsOk(t)
  {
    hide Home;
    forall p | 0 <= p < |t.fates| && t.fates[p].Dropped? ensures exists later :: TenLater(t, t.fates[p].from, p, later) {
      var later :| TenLater(s, s.fates[p].from, p, later);
      assert TenLater(t, t.fates[p].from, p, later);
    }
  }

  /** The enqueue that drops a reply finds ten in the queue. */
  lemma PutDrops(s: ReplySide, q: nat)
    requires ReplyInv(s) && DropsOk(s) && s.dispatcher.Routed? && q == s.dispatcher.queue && QueueOk(s, q)
    ensures DropsOk(Put(s, s.dispatcher.place, q))
  {
    hide QueuesOk, DeliveriesOk;
    var h, items := s.dispatcher.place, s.queues[q].items;
    var t := Put(s, h, q);
    PutHomes(s, q);
    HeldLast(s, q);
    forall p | 0 <= p < |t.fates| && t.fates[p].Dropped? ensures exists later :: TenLater(t, t.fates[p].from, p, later) {
      if s.fates[p].Dropped? {
        var later :| TenLater(s, s.fates[p].from, p, later);
        assert TenLater(t, t.fates[p].from, p, later);
      } else {
        DroppedFirst(s, q, p);
        assert TenLater(t, q, p, items[1..] + [h]);
      }
    }
  }

  lemma DroppedFirst(s: ReplySide, q: nat, p: nat)
    requires ReplyInv(s) && s.dispatcher.Routed? && q == s.dispatcher.queue && QueueOk(s, q)
    requires p < |s.fates| && !s.fates[p].Dropped? && Put(s, s.dispatcher.place, q).fates[p].Dropped?
    ensures Put(s, s.dispatcher.place, q).fates[p] == Dropped(q)
    ensures var items := s.queues[q].items;
            && |items| == 10 && p == items[0] && forall i :: 0 <= i < 10 ==> items[i] < s.dispatcher.place && Home(s, items[i]) == q
    ensures Home(s, s.dispatcher.place) == q
  {
    hide QueuesOk, DeliveriesOk;
    HeldLast(s, q);
  }

  lemma DropsKept(s: ReplySide, step: ReplyStep)
    requires ReplyInv(s) && DropsOk(s) && Possible(s, step)
    ensures DropsOk(Replied(s, step))
  {
    hide QueueOk, DeliveriesOk, Put, Handed;
    match step {
      case DispatchPut =>
        assert QueueOk(s, s.dispatcher.queue);
        PutDrops(s, s.dispatcher.queue);
      case Deliver(u, q) =>
        assert QueueOk(s, q);
        HandedHomes(s, u, q);
        HandedDrops(s, u, q);
        DropsStay(s, Handed(s, u, q));
      case _ => DropsStay(s, Replied(s, step));
    }
  }

  lemma HandedDrops(s: ReplySide, u: int, q: nat)
    requires q < |s.queues| && s.queues[q].items != [] && QueueOk(s, q)
    ensures var t := Handed(s, u, q);
            |t.fates| == |s.fates| && forall p :: 0 <= p < |s.fates| && t.fates[p].Dropped? ==> t.fates[p] == s.fates[p]
  {
  }

  lemma {:induction false} RunDrops(states: seq<State>, steps: seq<Step>, profiles: set<int>, threads: nat, k: nat)
    requires IsRun(states, steps, profiles, threads) && k <= |steps|
    ensures Inv(states[k]) && DropsOk(states[k].replies)
  {
    hide Inv, CanStep, Next, DropsOk, ReplyInv;
    RunInv(states, steps, profiles, threads, k);
    if k == 0 {
      NewDrops();
    } else {
      RunDrops(states, steps, profiles, threads, k - 1);
      assert Follows(states[k - 1], steps[k - 1], states[k]);
      StepDrops(states[k - 1], steps[k - 1]);
    }
  }

  lemma NewDrops()
    ensures DropsOk(NewReplySide())
  {
  }

  lemma StepDrops(s: State, step: Step)
    requires Inv(s) && CanStep(s, step) && DropsOk(s.replies)
    ensures ReplyInv(s.replies) && ClientsOk(s) && DropsOk(Next(s, step).replies)
  {
    hide HandlersOk, Bounded, CanStep, Next, DropsOk, ReplyInv, ReplyPart;
    NextReplies(s, step);
    var part := ReplyPart(s, step);
    if part.Some? { DropsKept(s.replies, part.value); }
  }

  /** In every run a reply that was dropped from a result queue was followed by ten later replies
      routed to that queue: no queue drops a reply while it has room. */
  lemma DroppedBehindTen(s: State, threads: nat, p: nat) returns (later: seq<nat>)
    requires Reached(s, threads) && p < |s.replies.fates| && s.replies.fates[p].Dropped?
    ensures TenLater(s.replies, s.replies.fates[p].from, p, later)
    ensures SameUnits(s.replies, p, later)
  {
    hide Inv, DropsOk, GenerationsOk, Reached, TenLater, SameUnits;
    ReachedDrops(s, threads);
    ReachedGenerations(s, threads);
    later := LaterOf(s.replies, p);
    SameUnit(s.replies, p, later);
  }

  lemma ReachedDrops(s: State, threads: nat)
    requires Reached(s, threads)
    ensures DropsOk(s.replies)
  {
    hide Inv, DropsOk;
    var states, steps, profiles :| IsRun(states, steps, profiles, threads) && s == states[|steps|];
    RunDrops(states, steps, profiles, threads, |steps|);
  }

  /** They answer the same unit. */
  predicate SameUnits(s: ReplySide, p: nat, later: seq<nat>) {
    p < |s.log| && forall i :: 0 <= i < |later| ==> later[i] < |s.log| && s.log[later[i]].unit == s.log[p].unit
  }

  lemma LaterOf(s: ReplySide, p: nat) returns (later: seq<nat>)
    requires DropsOk(s) && p < |s.fates| && s.fates[p].Dropped?
    ensures TenLater(s, s.fates[p].from, p, later)
  {
    later :| TenLater(s, s.fates[p].from, p, later);
  }

  lemma SameUnit(s: ReplySide, p: nat, later: seq<nat>)
    requires GenerationsOk(s) && p < |s.fates| && s.fates[p].Dropped? && TenLater(s, s.fates[p].from, p, later)
    ensures SameUnits(s, p, later)
  {
    hide Newest, Successive;
    assert Home(s, p) == s.fates[p].from;
    forall i | 0 <= i < |later| ensures later[i] < |s.log| && s.log[later[i]].unit == s.log[p].unit {
      assert Home(s, later[i]) == s.fates[p].from;
    }
  }
}
