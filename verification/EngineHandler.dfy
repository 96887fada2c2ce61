/** EngineHandlerBase.cpp: the worker and the closer of a handler, on their queues. What the
    virtual methods do comes in as an outcome; other threads fill the queue between two turns. */
module EngineHandlers {
  import opened Options
  import opened SafeQueues
  import opened HandlerLines

  /** A reply: the request's metadata with the objects found, or with none when it failed. */
  datatype Answer = Answer(request: Request, failed: bool)

  function Given(requests: seq<Request>, failed: bool): seq<Answer> { seq(|requests|, i requires 0 <= i < |requests| => Answer(requests[i], failed)) }

  /** What a turn puts into the reply queue: failures if anything threw or failed. */
  function TurnReplies(s: Handler, o: Outcome): seq<Answer>
    requires s.hand.None? && s.out == []
  {
    if s.terminated || s.inputs == [] then []
    else Given(Processed(s.(hand := Some(s.inputs[0]), inputs := s.inputs[1..]), o).out, o.threw || !o.inferred || !o.postprocessed)
  }

  lemma NoneGiven(failed: bool)
    ensures Given([], failed) == []
  {
  }

  lemma GivenEach(requests: seq<Request>, failed: bool)
    ensures |Given(requests, failed)| == |requests| && forall i :: 0 <= i < |requests| ==> Given(requests, failed)[i] == Answer(requests[i], failed)
    ensures |requests| == 1 ==> Given(requests, failed) == [Answer(requests[0], failed)]
  {
  }

  /** What processing does is independent of the queue behind the request. */
  lemma ProcessedApart(s: Handler, rest: seq<Request>, r: Request, o: Outcome)
    requires s.hand.None? && s.out == [] && s.inputs == [r] + rest
    ensures s.inputs[0] == r && s.inputs[1..] == rest
  {
  }

  function Arrived(s: Handler, requests: seq<Request>): Handler { s.(inputs := s.inputs + requests, entered := s.entered + requests) }

  /** The state at the head of the loop after n turns. */
  function Ran(s: Handler, arrivals: seq<seq<Request>>, outcomes: seq<Outcome>, n: nat): (t: Handler)
    requires n <= |arrivals| && n <= |outcomes| && s.hand.None? && s.out == []
    ensures t.hand.None? && t.out == []
  {
    if n == 0 then s else Turned(Arrived(Ran(s, arrivals, outcomes, n - 1), arrivals[n - 1]), outcomes[n - 1])
  }

  function RunReplies(s: Handler, arrivals: seq<seq<Request>>, outcomes: seq<Outcome>, n: nat): seq<Answer>
    requires n <= |arrivals| && n <= |outcomes| && s.hand.None? && s.out == []
  {
    if n == 0 then []
    else RunReplies(s, arrivals, outcomes, n - 1) + TurnReplies(Arrived(Ran(s, arrivals, outcomes, n - 1), arrivals[n - 1]), outcomes[n - 1])
  }

  function Asked(answers: seq<Answer>): seq<Request> { seq(|answers|, i requires 0 <= i < |answers| => answers[i].request) }

  /** The replies given over the turns are those of the requests answered, in that order. */
  lemma {:induction false} RepliesAsked(s: Handler, arrivals: seq<seq<Request>>, outcomes: seq<Outcome>, n: nat)
    requires n <= |arrivals| && n <= |outcomes| && s.hand.None? && s.out == []
    ensures Ran(s, arrivals, outcomes, n).answered == s.answered + Asked(RunReplies(s, arrivals, outcomes, n))
  {
    hide Turned, TurnReplies, Asked;
    if n == 0 {
      NoneAsked();
    } else {
      RepliesAsked(s, arrivals, outcomes, n - 1);
      var t := Arrived(Ran(s, arrivals, outcomes, n - 1), arrivals[n - 1]);
      var before, more := RunReplies(s, arrivals, outcomes, n - 1), TurnReplies(t, outcomes[n - 1]);
      AskedMore(before, more);
      TurnAsked(t, outcomes[n - 1]);
      assert s.answered + Asked(before) + Asked(more) == s.answered + (Asked(before) + Asked(more));
    }
  }

  lemma NoneAsked()
    ensures Asked([]) == []
  {
  }

  lemma AskedMore(a: seq<Answer>, b: seq<Answer>)
    ensures Asked(a + b) == Asked(a) + Asked(b)
  {
  }

  lemma TurnAsked(s: Handler, o: Outcome)
    requires s.hand.None? && s.out == []
    ensures Turned(s, o).answered == s.answered + Asked(TurnReplies(s, o))
  {
    if !s.terminated && s.inputs != [] {
      var t := Processed(s.(hand := Some(s.inputs[0]), inputs := s.inputs[1..]), o);
      assert t.answered == s.answered;
      assert Asked(TurnReplies(s, o)) == t.out;
    }
  }

  lemma {:induction false} LoopKept(s: Handler, arrivals: seq<seq<Request>>, outcomes: seq<Outcome>, n: nat)
    requires n <= |arrivals| && n <= |outcomes| && s.hand.None? && s.out == [] && s.closing == [] && HandlerInv(s)
    requires Increasing(s.entered + Flat(arrivals, n))
    ensures var t := Ran(s, arrivals, outcomes, n); HandlerInv(t) && t.entered == s.entered + Flat(arrivals, n) && t.closing == []
  {
    hide HandlerInv, Increasing, Turned;
    if n == 0 {
      assert s.entered + Flat(arrivals, 0) == s.entered;
    } else {
      Prefix(s.entered + Flat(arrivals, n - 1), arrivals[n - 1]);
      assert s.entered + Flat(arrivals, n) == s.entered + Flat(arrivals, n - 1) + arrivals[n - 1];
      LoopKept(s, arrivals, outcomes, n - 1);
      var u := Ran(s, arrivals, outcomes, n - 1);
      ArrivedKept(u, arrivals[n - 1]);
      TurnedKept(Arrived(u, arrivals[n - 1]), outcomes[n - 1]);
      TurnedEntered(Arrived(u, arrivals[n - 1]), outcomes[n - 1]);
    }
  }

  /** At every head of the loop each request taken from the queue was answered exactly once, or
      is in the batch, or was refused by Preprocess. */
  lemma LoopHead(s: Handler, arrivals: seq<seq<Request>>, outcomes: seq<Outcome>, n: nat)
    requires n <= |arrivals| && n <= |outcomes| && s.hand.None? && s.out == [] && s.closing == [] && HandlerInv(s)
    requires Increasing(s.entered + Flat(arrivals, n))
    ensures var t := Ran(s, arrivals, outcomes, n);
            && t.entered == s.entered + Flat(arrivals, n)
            && forall r :: r in t.entered && r !in t.inputs ==> multiset(t.answered)[r] + multiset(t.batch)[r] + multiset(t.refused)[r] == 1
  {
    hide Ran, Increasing, Ordered, WorkerOk;
    var t := Ran(s, arrivals, outcomes, n);
    LoopKept(s, arrivals, outcomes, n);
    forall r | r in t.entered && r !in t.inputs ensures multiset(t.answered)[r] + multiset(t.batch)[r] + multiset(t.refused)[r] == 1 {
      var i :| 0 <= i < |t.entered| && t.entered[i] == r;
      OnePlace(t, i);
      assert multiset(t.inputs)[r] == 0 && multiset(t.closing)[r] == 0 && multiset(t.out)[r] == 0 && multiset(t.InHand())[r] == 0;
    }
  }

  function Flat(arrivals: seq<seq<Request>>, n: nat): seq<Request>
    requires n <= |arrivals|
  {
    if n == 0 then [] else Flat(arrivals, n - 1) + arrivals[n - 1]
  }

  lemma TurnedEntered(s: Handler, o: Outcome)
    requires s.hand.None? && s.out == []
    ensures Turned(s, o).entered == s.entered && Turned(s, o).closing == s.closing
  {
  }

  lemma IncreasingLast(s: seq<Request>, r: Request)
    requires Increasing(s + [r])
    ensures forall i :: 0 <= i < |s| ==> s[i].ticket < r.ticket
  {
    forall i | 0 <= i < |s| ensures s[i].ticket < r.ticket { assert (s + [r])[i] == s[i] && (s + [r])[|s|] == r; }
  }

  lemma {:induction false} ArrivedKept(s: Handler, requests: seq<Request>)
    requires HandlerInv(s) && Increasing(s.entered + requests)
    ensures HandlerInv(Arrived(s, requests))
    decreases |requests|
  {
    hide Accounted, Ordered, WorkerOk;
    if requests == [] {
      assert Arrived(s, requests) == s;
    } else {
      var n := |requests| - 1;
      assert s.entered + requests == s.entered + requests[..n] + [requests[n]];
      Prefix(s.entered + requests[..n], [requests[n]]);
      ArrivedKept(s, requests[..n]);
      var t := Arrived(s, requests[..n]);
      IncreasingLast(t.entered, requests[n]);
      EnqueueKept(t, requests[n]);
      assert t.inputs + [requests[n]] == s.inputs + requests;
    }
  }

  // ----- when a request is answered

  /** One turn that takes a request: a batch that is ready is answered whole and in order, as
      failed exactly when inference or postprocessing failed; a batch that is not ready brings no
      reply; and when Preprocess throws only a request left out of the batch is answered, as failed. */
  lemma TurnExactly(s: Handler, o: Outcome)
    requires s.hand.None? && s.out == [] && !s.terminated && s.inputs != []
    ensures var r, t, replies := s.inputs[0], Turned(s, o), TurnReplies(s, o);
            var b := if o.appended then s.batch + [r] else s.batch;
            && t.inputs == s.inputs[1..]
            && (o.threw ==> t.batch == b && replies == if o.appended then [] else [Answer(r, true)])
            && (!o.threw && !o.ready ==> t.batch == b && replies == [])
            && (!o.threw && o.ready ==> t.batch == [] && |replies| == |b|
                                        && forall i :: 0 <= i < |b| ==> replies[i] == Answer(b[i], !(o.inferred && o.postprocessed)))
  {
    NoneGiven(o.threw || !o.inferred || !o.postprocessed);
  }

  /** The handler before its k-th turn. */
  function Ahead(s: Handler, arrivals: seq<seq<Request>>, outcomes: seq<Outcome>, k: nat): (t: Handler)
    requires k < |arrivals| && k < |outcomes| && s.hand.None? && s.out == []
    ensures t.hand.None? && t.out == []
  {
    Arrived(Ran(s, arrivals, outcomes, k), arrivals[k])
  }

  /** The k-th turn takes a request and finds the batch ready. */
  predicate Flushes(s: Handler, arrivals: seq<seq<Request>>, outcomes: seq<Outcome>, k: nat)
    requires k < |arrivals| && k < |outcomes| && s.hand.None? && s.out == []
  {
    Ahead(s, arrivals, outcomes, k).inputs != [] && !outcomes[k].threw && outcomes[k].ready
  }

  lemma {:induction false} NotTerminated(s: Handler, arrivals: seq<seq<Request>>, outcomes: seq<Outcome>, n: nat)
    requires n <= |arrivals| && n <= |outcomes| && s.hand.None? && s.out == [] && !s.terminated
    ensures !Ran(s, arrivals, outcomes, n).terminated
  {
    if n > 0 { NotTerminated(s, arrivals, outcomes, n - 1); }
  }

  /** A request that joined the batch in turn j stays in it as long as no turn finds it ready. */
  lemma {:induction false} BatchedUntilReady(s: Handler, arrivals: seq<seq<Request>>, outcomes: seq<Outcome>, j: nat, m: nat)
    requires j < m <= |arrivals| == |outcomes| && s.hand.None? && s.out == [] && !s.terminated
    requires Ahead(s, arrivals, outcomes, j).inputs != [] && outcomes[j].appended
    requires forall k :: j <= k < m ==> !Flushes(s, arrivals, outcomes, k)
    ensures Ahead(s, arrivals, outcomes, j).inputs[0] in Ran(s, arrivals, outcomes, m).batch
  {
    hide Turned, TurnReplies;
    NotTerminated(s, arrivals, outcomes, m - 1);
    if j < m - 1 { BatchedUntilReady(s, arrivals, outcomes, j, m - 1); }
    var u := Ahead(s, arrivals, outcomes, m - 1);
    assert !Flushes(s, arrivals, outcomes, m - 1);
    if u.inputs == [] { TurnIdle(u, outcomes[m - 1]); } else { TurnExactly(u, outcomes[m - 1]); }
  }

  lemma TurnIdle(s: Handler, o: Outcome)
    requires s.hand.None? && s.out == [] && s.inputs == []
    ensures Turned(s, o) == s && TurnReplies(s, o) == []
  {
  }

  /** In every run of the loop, a request that joined the batch in turn j is answered in the first
      turn from j on that finds the batch ready, failed exactly when inference or postprocessing
      of that turn failed. */
  lemma AnsweredWhenReady(s: Handler, arrivals: seq<seq<Request>>, outcomes: seq<Outcome>, j: nat, m: nat)
    requires j <= m < |arrivals| == |outcomes| && s.hand.None? && s.out == [] && !s.terminated
    requires Ahead(s, arrivals, outcomes, j).inputs != [] && outcomes[j].appended
    requires (forall k :: j <= k < m ==> !Flushes(s, arrivals, outcomes, k)) && Flushes(s, arrivals, outcomes, m)
    ensures Answer(Ahead(s, arrivals, outcomes, j).inputs[0], !(outcomes[m].inferred && outcomes[m].postprocessed))
            in TurnReplies(Ahead(s, arrivals, outcomes, m), outcomes[m])
    ensures Ran(s, arrivals, outcomes, m + 1).batch == []
  {
    hide Turned, TurnReplies;
    NotTerminated(s, arrivals, outcomes, m);
    var u, o := Ahead(s, arrivals, outcomes, m), outcomes[m];
    TurnExactly(u, o);
    var r := Ahead(s, arrivals, outcomes, j).inputs[0];
    if j < m { BatchedUntilReady(s, arrivals, outcomes, j, m); }
    var b := if o.appended then u.batch + [u.inputs[0]] else u.batch;
    assert r in b;
    var i :| 0 <= i < |b| && b[i] == r;
    assert TurnReplies(u, o)[i] == Answer(r, !(o.inferred && o.postprocessed));
  }

  class EngineHandlerBase {
    const requestQ: SafeQueue<Request>
    const respondQ: SafeQueue<Answer>   // shared with the other handlers
    var currentBatchInputs: seq<Request>
    ghost var swapped: bool
    ghost var answered: seq<Request>
    ghost var refused: seq<Request>
    ghost var overtook: bool

    constructor (requestQ: SafeQueue<Request>, respondQ: SafeQueue<Answer>)
      requires requestQ.Valid() && respondQ.Valid() && requestQ.maxSize == 0 && respondQ.maxSize == 0
      requires requestQ.entered == [] && !requestQ.terminated
      ensures Valid() && this.requestQ == requestQ && this.respondQ == respondQ && Value() == NewHandler()
    {
      this.requestQ, this.respondQ := requestQ, respondQ;
      currentBatchInputs, swapped, answered, refused, overtook := [], false, [], [], false;
    }

    ghost predicate Valid()
      reads this, requestQ, respondQ
    {
      requestQ.Valid() && respondQ.Valid() && requestQ.maxSize == 0 && respondQ.maxSize == 0
    }

    /** The handler between two turns of the worker. */
    ghost function Value(): Handler
      reads this, requestQ
    {
      Handler(requestQ.q, requestQ.terminated, swapped, None, currentBatchInputs, [], [], answered, refused, requestQ.entered, overtook)
    }

    method BuildInferenceFailureRespond(input: Request) returns (a: Answer)
      ensures a == Answer(input, true)
    {
      a := Answer(input, true);
    }

    /** Answers the requests in order, as failures or with their results. */
    method AnswerAll(inputs: seq<Request>, failed: bool)
      requires Valid()
      modifies respondQ
      ensures Valid() && respondQ.entered == old(respondQ.entered) + Given(inputs, failed) && respondQ.q == old(respondQ.q) + Given(inputs, failed)
    {
      for k := 0 to |inputs|
        invariant Valid()
        invariant respondQ.entered == old(respondQ.entered) + Given(inputs[..k], failed)
        invariant respondQ.q == old(respondQ.q) + Given(inputs[..k], failed)
      {
        assert Given(inputs[..k + 1], failed) == Given(inputs[..k], failed) + [Answer(inputs[k], failed)];
        if failed {
          var a := BuildInferenceFailureRespond(inputs[k]);
          respondQ.Enqueue(a);
        } else {
          respondQ.Enqueue(Answer(inputs[k], false));
        }
      }
      assert inputs[..|inputs|] == inputs;
    }

    /** The rest of a turn, once a request is taken. */
    method Handle(input: Request, o: Outcome)
      requires Valid()
      modifies this`currentBatchInputs, this`answered, this`refused, this`overtook, respondQ
      ensures Valid()
      ensures var t := Processed(old(Value()).(hand := Some(input)), o);
              && Value() == t.(answered := t.answered + t.out, out := [])
              && respondQ.entered == old(respondQ.entered) + Given(t.out, o.threw || !o.inferred || !o.postprocessed)
      ensures var b, e := if o.appended then old(currentBatchInputs) + [input] else old(currentBatchInputs), old(respondQ.entered);
              && (o.threw ==> currentBatchInputs == b && respondQ.entered == if o.appended then e else e + [Answer(input, true)])
              && (!o.threw && !o.ready ==> currentBatchInputs == b && respondQ.entered == e)
              && (!o.threw && o.ready ==> currentBatchInputs == [] && |respondQ.entered| == |e| + |b| && respondQ.entered[..|e|] == e
                                          && forall i :: 0 <= i < |b| ==> respondQ.entered[|e| + i] == Answer(b[i], !(o.inferred && o.postprocessed)))
    {
      hide Given;
      var prevBatchedInputSize := |currentBatchInputs|;
      if o.appended { currentBatchInputs := currentBatchInputs + [input]; }
      if o.threw {
        if prevBatchedInputSize == |currentBatchInputs| {
          AnswerAll([input], true);
          GivenEach([input], true);
          answered := answered + [input];
          overtook := overtook || currentBatchInputs != [];
        } else {
          NoneGiven(true);
        }
        return;
      }
      if !o.appended { refused := refused + [input]; }
      if !o.ready {
        NoneGiven(!o.inferred || !o.postprocessed);
        return;
      }
      AnswerAll(currentBatchInputs, !o.inferred || !o.postprocessed);
      GivenEach(currentBatchInputs, !o.inferred || !o.postprocessed);
      answered := answered + currentBatchInputs;
      currentBatchInputs := [];
    }

    /** One turn of the loop. */
    method Turn(o: Outcome)
      requires Valid()
      modifies this`currentBatchInputs, this`answered, this`refused, this`overtook, requestQ`q, requestQ`gone, respondQ
      ensures Valid() && Value() == Turned(old(Value()), o)
      ensures respondQ.entered == old(respondQ.entered) + TurnReplies(old(Value()), o)
      ensures old(requestQ.terminated || requestQ.q == []) ==> Value() == old(Value()) && respondQ.entered == old(respondQ.entered)
      ensures old(!requestQ.terminated && requestQ.q != []) ==>
                var e := old(respondQ.entered);
                var r := old(requestQ.q[0]);
                var b := if o.appended then old(currentBatchInputs) + [r] else old(currentBatchInputs);
                && requestQ.q == old(requestQ.q)[1..]
                && (o.threw ==> currentBatchInputs == b && respondQ.entered == if o.appended then e else e + [Answer(r, true)])
                && (!o.threw && !o.ready ==> currentBatchInputs == b && respondQ.entered == e)
                && (!o.threw && o.ready ==> currentBatchInputs == [] && |respondQ.entered| == |e| + |b| && respondQ.entered[..|e|] == e
                                            && forall i :: 0 <= i < |b| ==> respondQ.entered[|e| + i] == Answer(b[i], !(o.inferred && o.postprocessed)))
    {
      hide Given, Processed, Count;
      ghost var s := Value();
      var optInput := requestQ.DequeueWaitFor();
      if optInput.None? { return; }
      assert s.inputs == [optInput.value] + requestQ.q;
      ProcessedApart(s, requestQ.q, optInput.value, o);
      Handle(optInput.value, o);
    }

    /** Other threads put requests into the queue. */
    method Receive(requests: seq<Request>)
      requires Valid()
      modifies requestQ`q, requestQ`dropCount, requestQ`entered, requestQ`gone
      ensures Valid() && Value() == Arrived(old(Value()), requests)
    {
      hide Count;
      for i := 0 to |requests|
        invariant Valid() && Value() == Arrived(old(Value()), requests[..i])
      {
        requestQ.Enqueue(requests[i]);
        assert requests[..i + 1] == requests[..i] + [requests[i]];
      }
      assert requests[..|requests|] == requests;
    }

    /** The loop, over the turns made while the thread runs; before each of them other threads
        may have put requests into the queue. */
    method InferenceThreadRunner(arrivals: seq<seq<Request>>, outcomes: seq<Outcome>)
      requires Valid() && |arrivals| == |outcomes|
      modifies this`currentBatchInputs, this`answered, this`refused, this`overtook, requestQ, respondQ
      ensures Valid() && Value() == Ran(old(Value()), arrivals, outcomes, |outcomes|)
      ensures respondQ.entered == old(respondQ.entered) + RunReplies(old(Value()), arrivals, outcomes, |outcomes|)
    {
      hide Turned, TurnReplies, Arrived, Count, SafeQueue.Valid, Processed;
      ghost var e := respondQ.entered;
      for k := 0 to |outcomes|
        invariant Valid() && Value() == Ran(old(Value()), arrivals, outcomes, k)
        invariant respondQ.entered == e + RunReplies(old(Value()), arrivals, outcomes, k)
      {
        Receive(arrivals[k]);
        ghost var before, more := RunReplies(old(Value()), arrivals, outcomes, k), TurnReplies(Value(), outcomes[k]);
        Turn(outcomes[k]);
        assert e + before + more == e + (before + more);
      }
    }

    /** InferenceThreadCloser. */
    method InferenceThreadCloser()
      requires Valid()
      modifies this`answered, this`overtook, this`swapped, requestQ, respondQ
      ensures Valid() && Value() == Closed(old(Value()))
      ensures respondQ.entered == old(respondQ.entered) + Given(old(requestQ.q), true)
    {
      requestQ.Terminate();
      var items := requestQ.Swap();
      swapped := true;
      overtook := overtook || (items != [] && Value().Owed() != []);
      AnswerAll(items, true);
      answered := answered + items;
    }
  }
}
