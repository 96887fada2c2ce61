/** One engine handler on values: its request queue, the worker that batches and answers, and the
    closer that answers what is still queued. Each step is one atomic action of one thread; the
    actions of the worker on its own fields are grouped. */
module HandlerLines {
  import opened Options

  /** EngineHandleUUID: engine id and device id. */
  datatype Handle = Handle(engine: int, device: int)

  /** An accepted request; `ticket` is its place among all requests the balancer accepted. */
  datatype Request = Request(unit: int, handle: Handle, ticket: nat)

  datatype Handler = Handler(
    inputs: seq<Request>, terminated: bool, swapped: bool,                        // its queue
    hand: Option<Request>, batch: seq<Request>, out: seq<Request>,                // the worker
    closing: seq<Request>,                                                        // the closer
    answered: seq<Request>, refused: seq<Request>, entered: seq<Request>, overtook: bool)  // history
  {
    function InHand(): seq<Request> { if hand.Some? then [hand.value] else [] }

    /** Dequeued by the worker and not answered yet. */
    function Owed(): seq<Request> { out + batch + InHand() }

    function Front(): seq<Request> { answered + Owed() }

    /** Not dequeued by the worker. */
    function Back(): seq<Request> { closing + inputs }

    function Left(): nat { if |Back()| <= |entered| then |entered| - |Back()| else 0 }
  }

  function NewHandler(): Handler { Handler([], false, false, None, [], [], [], [], [], [], false) }

  /** What the virtual methods do with a request: whether Preprocess throws, puts it in the
      batch and calls the batch ready, and whether inference and postprocessing succeed. */
  datatype Outcome = Outcome(threw: bool, appended: bool, ready: bool, inferred: bool, postprocessed: bool)
  {
    /** Preprocess returns but leaves the request out of the batch. */
    predicate Refuses() { !threw && !appended }
  }

  datatype HandlerStep = Enqueue(request: Request) | Take | Process(outcome: Outcome) | Emit | Terminate | Swap | CloseEmit

  ghost predicate Increasing(s: seq<Request>) { forall i, j :: 0 <= i < j < |s| ==> s[i].ticket < s[j].ticket }

  ghost predicate Enabled(s: Handler, step: HandlerStep) {
    match step
    case Enqueue(r) => true
    case Take => s.hand.None? && s.out == [] && s.inputs != [] && !s.terminated
    case Process(o) => s.hand.Some?
    case Emit => s.out != []
    case Terminate => !s.terminated
    case Swap => s.terminated && !s.swapped
    case CloseEmit => s.closing != []
  }

  /** The answers one turn of the worker owes, and its batch after it. Inference runs only on a
      ready batch, and answers all of it either way. */
  function Processed(s: Handler, o: Outcome): Handler
    requires s.hand.Some?
  {
    var r := s.hand.value;
    var batch := if o.appended then s.batch + [r] else s.batch;
    var refused := if o.Refuses() then s.refused + [r] else s.refused;
    if o.threw then
      s.(hand := None, batch := batch, out := if o.appended then [] else [r], overtook := s.overtook || (!o.appended && s.batch != []))
    else if !o.ready then s.(hand := None, batch := batch, refused := refused)
    else s.(hand := None, batch := [], out := batch, refused := refused)
  }

  ghost function Moved(s: Handler, step: HandlerStep): Handler
    requires Enabled(s, step)
  {
    match step
    case Enqueue(r) => s.(inputs := s.inputs + [r], entered := s.entered + [r])
    case Take => s.(hand := Some(s.inputs[0]), inputs := s.inputs[1..])
    case Process(o) => Processed(s, o)
    case Emit => s.(out := s.out[1..], answered := s.answered + [s.out[0]])
    case Terminate => s.(terminated := true)
    case Swap => s.(closing := s.inputs, inputs := [], swapped := true)
    case CloseEmit => s.(closing := s.closing[1..], answered := s.answered + [s.closing[0]], overtook := s.overtook || s.Owed() != [])
  }

  /** A reply is given while the worker still owes one that was asked for earlier: Preprocess
      threw over a batch in waiting, or the closer answered ahead of the worker. */
  ghost predicate Overtakes(s: Handler, step: HandlerStep) {
    || (step.CloseEmit? && s.Owed() != [])
    || (step.Process? && step.outcome.threw && !step.outcome.appended && s.batch != [])
  }

  /** The requests not yet dequeued are the last ones put in, in order, and every other one was
      answered once, is owed, or was refused. Replies are in order unless one overtook. */
  ghost predicate Accounted(s: Handler) {
    && Increasing(s.entered)
    && |s.Back()| <= |s.entered| && s.Back() == s.entered[s.Left()..]
    && multiset(s.Front()) + multiset(s.refused) == multiset(s.entered[..s.Left()])
  }

  ghost predicate Ordered(s: Handler) {
    && (!s.overtook ==> Increasing(s.Front()))
    && (s.overtook && s.refused == [] ==> !Increasing(s.Front()))
  }

  ghost predicate WorkerOk(s: Handler) {
    && (s.hand.Some? ==> s.out == []) && (s.closing != [] ==> s.swapped) && (s.swapped ==> s.terminated)
    && Increasing(s.batch + s.InHand())
  }

  ghost predicate HandlerInv(s: Handler) { Accounted(s) && Ordered(s) && WorkerOk(s) }

  ghost predicate Fresh(s: Handler, step: HandlerStep) {
    step.Enqueue? ==> forall i :: 0 <= i < |s.entered| ==> s.entered[i].ticket < step.request.ticket
  }

  // ----- sequences

  lemma IncreasingMore(s: seq<Request>, r: Request)
    requires forall i :: 0 <= i < |s| ==> s[i].ticket < r.ticket
    ensures Increasing(s + [r]) <==> Increasing(s)
  {
    if Increasing(s + [r]) {
      forall i, j | 0 <= i < j < |s| ensures s[i].ticket < s[j].ticket {
        assert (s + [r])[i] == s[i] && (s + [r])[j] == s[j];
      }
    }
  }

  lemma Among(s: Handler, r: Request)
    requires Accounted(s) && (r in s.Front() || r in s.refused)
    ensures exists i :: 0 <= i < s.Left() && s.entered[i] == r
    ensures forall b :: b in s.Back() ==> r.ticket < b.ticket
  {
    assert r in multiset(s.Front()) + multiset(s.refused);
    assert r in multiset(s.entered[..s.Left()]);
    assert r in s.entered[..s.Left()];
    var i :| 0 <= i < s.Left() && s.entered[i] == r;
    forall b | b in s.Back() ensures r.ticket < b.ticket {
      var j :| 0 <= j < |s.Back()| && s.Back()[j] == b;
      assert s.entered[s.Left() + j] == b;
    }
  }

  lemma FrontBelow(s: Handler, b: Request)
    requires Accounted(s) && b in s.Back()
    ensures forall i :: 0 <= i < |s.Front()| ==> s.Front()[i].ticket < b.ticket
  {
    forall i | 0 <= i < |s.Front()| ensures s.Front()[i].ticket < b.ticket { Among(s, s.Front()[i]); }
  }

  /** An inversion does not go away when `x` moves ahead of `b`, unless `x` was part of it. */
  lemma MovedAhead(a: seq<Request>, b: seq<Request>, x: Request)
    requires Increasing(b + [x])
    ensures Increasing(a + [x] + b) <==> Increasing(a + b + [x]) && b == []
  {
    if b == [] {
      assert a + [x] + b == a + b + [x];
    } else {
      var s := a + [x] + b;
      assert s[|a|] == x && s[|a| + 1] == b[0] && (b + [x])[0] == b[0] && (b + [x])[|b|] == x;
    }
  }

  // ----- steps

  lemma EnqueueKept(s: Handler, r: Request)
    requires HandlerInv(s) && Fresh(s, Enqueue(r))
    ensures HandlerInv(Moved(s, Enqueue(r)))
  {
    var t := Moved(s, Enqueue(r));
    IncreasingMore(s.entered, r);
    assert t.Back() == s.Back() + [r];
    assert t.Left() == s.Left() && t.entered[..s.Left()] == s.entered[..s.Left()];
    assert t.entered[s.Left()..] == s.entered[s.Left()..] + [r];
    assert t.Front() == s.Front();
  }

  /** The oldest request not dequeued leaves that line. */
  lemma BackShrinks(s: Handler, t: Handler, r: Request)
    requires Accounted(s) && s.Back() == [r] + t.Back() && t.entered == s.entered
    ensures |t.Back()| <= |t.entered| && t.Back() == t.entered[t.Left()..]
    ensures multiset(t.entered[..t.Left()]) == multiset(s.entered[..s.Left()]) + multiset{r}
  {
    assert s.Back()[0] == r;
    assert s.entered[s.Left()] == r;
    assert t.Left() == s.Left() + 1;
    assert t.entered[..t.Left()] == s.entered[..s.Left()] + [r];
    assert t.entered[t.Left()..] == s.entered[s.Left()..][1..];
  }

  lemma TakeAccounted(s: Handler)
    requires Accounted(s) && Enabled(s, Take) && s.closing == []
    ensures Accounted(Moved(s, Take))
    ensures Moved(s, Take).Front() == s.Front() + [s.inputs[0]] && s.inputs[0] in s.Back()
  {
    hide Increasing;
    var t := Moved(s, Take);
    assert s.Back() == [s.inputs[0]] + t.Back();
    BackShrinks(s, t, s.inputs[0]);
    assert t.Front() == s.Front() + [s.inputs[0]];
  }

  lemma TakeKept(s: Handler)
    requires HandlerInv(s) && Enabled(s, Take)
    ensures HandlerInv(Moved(s, Take))
  {
    hide Increasing, Accounted, Handler.Back;
    var t := Moved(s, Take);
    var r := s.inputs[0];
    TakeAccounted(s);
    FrontBelow(s, r);
    IncreasingMore(s.Front(), r);
    assert s.Front() == s.answered + s.batch;
    forall i | 0 <= i < |s.batch| ensures s.batch[i].ticket < r.ticket {
      assert s.Front()[|s.answered| + i] == s.batch[i];
    }
    assert s.batch + s.InHand() == s.batch;
    IncreasingMore(s.batch, r);
    assert t.batch + t.InHand() == s.batch + [r];
  }

  lemma StillAccounted(s: Handler, t: Handler)
    requires Accounted(s) && t.entered == s.entered && t.Back() == s.Back()
    requires multiset(t.Front()) + multiset(t.refused) == multiset(s.Front()) + multiset(s.refused)
    ensures Accounted(t)
  {
  }

  lemma SameItems(a: seq<Request>, b: seq<Request>, x: Request, c: seq<Request>)
    ensures multiset(a + [x] + b) + multiset(c) == multiset(a + b + [x]) + multiset(c)
    ensures multiset(a + b) + multiset(c + [x]) == multiset(a + b + [x]) + multiset(c)
  {
  }

  lemma SameOrdered(s: Handler, t: Handler)
    requires Ordered(s) && t.Front() == s.Front() && t.overtook == s.overtook && t.refused == s.refused
    ensures Ordered(t)
  {
  }

  lemma ThrewParts(s: Handler, o: Outcome)
    requires s.hand.Some? && s.out == [] && o.threw && !o.appended
    ensures var t := Processed(s, o);
            && s.Front() == s.answered + s.batch + [s.hand.value] && t.Front() == s.answered + [s.hand.value] + s.batch
            && s.batch + s.InHand() == s.batch + [s.hand.value] && t.batch + t.InHand() == s.batch
            && t.Back() == s.Back() && t == s.(hand := None, out := [s.hand.value], overtook := s.overtook || s.batch != [])
  {
  }

  lemma ThrewKept(s: Handler, o: Outcome)
    requires HandlerInv(s) && Enabled(s, Process(o)) && o.threw && !o.appended
    ensures HandlerInv(Moved(s, Process(o)))
  {
    hide Increasing, Accounted, Processed, Handler.Front, Handler.Back, Handler.InHand;
    var t := Moved(s, Process(o));
    var r := s.hand.value;
    ThrewParts(s, o);
    SameItems(s.answered, s.batch, r, s.refused);
    StillAccounted(s, t);
    Prefix(s.batch, [r]);
    MovedAhead(s.answered, s.batch, r);
  }

  lemma RefusedParts(s: Handler, o: Outcome)
    requires s.hand.Some? && s.out == [] && o.Refuses()
    ensures var t := Processed(s, o);
            && s.Front() == s.answered + s.batch + [s.hand.value] && t.Front() == s.answered + s.batch
            && s.batch + s.InHand() == s.batch + [s.hand.value] && (t.batch + t.InHand() == s.batch || t.batch + t.InHand() == [])
            && t.Back() == s.Back() && t == s.(hand := None, batch := t.batch, out := t.out, refused := s.refused + [s.hand.value])
  {
    var t := Processed(s, o);
    assert t.Owed() == s.batch;
    assert t.batch + t.InHand() == t.batch;
  }

  lemma RefusedKept(s: Handler, o: Outcome)
    requires HandlerInv(s) && Enabled(s, Process(o)) && o.Refuses()
    ensures HandlerInv(Moved(s, Process(o)))
  {
    hide Increasing, Accounted, Processed, Handler.Front, Handler.Back, Handler.InHand;
    var t := Moved(s, Process(o));
    var r := s.hand.value;
    RefusedParts(s, o);
    SameItems(s.answered, s.batch, r, s.refused);
    StillAccounted(s, t);
    Prefix(s.batch, [r]);
    Prefix(s.answered + s.batch, [r]);
    NoneIncreasing();
  }

  lemma BatchedParts(s: Handler, o: Outcome)
    requires s.hand.Some? && s.out == [] && o.appended
    ensures var t := Processed(s, o);
            && t.Front() == s.Front() && (t.batch + t.InHand() == s.batch + s.InHand() || t.batch + t.InHand() == [])
            && t.Back() == s.Back() && t == s.(hand := None, batch := t.batch, out := t.out)
  {
    var t := Processed(s, o);
    assert t.Owed() == s.Owed();
    assert t.batch + t.InHand() == t.batch;
  }

  lemma BatchedKept(s: Handler, o: Outcome)
    requires HandlerInv(s) && Enabled(s, Process(o)) && o.appended
    ensures HandlerInv(Moved(s, Process(o)))
  {
    hide Increasing, Accounted, Ordered, Processed, Handler.Front, Handler.Back, Handler.InHand;
    var t := Moved(s, Process(o));
    BatchedParts(s, o);
    StillAccounted(s, t);
    SameOrdered(s, t);
    NoneIncreasing();
  }

  lemma ProcessKept(s: Handler, o: Outcome)
    requires HandlerInv(s) && Enabled(s, Process(o))
    ensures HandlerInv(Moved(s, Process(o)))
  {
    hide HandlerInv, Processed;
    if o.appended { BatchedKept(s, o); } else if o.threw { ThrewKept(s, o); } else { RefusedKept(s, o); }
  }

  lemma NoneIncreasing()
    ensures Increasing([])
  {
  }

  lemma Prefix(a: seq<Request>, b: seq<Request>)
    ensures Increasing(a + b) ==> Increasing(a)
  {
    if Increasing(a + b) {
      forall i, j | 0 <= i < j < |a| ensures a[i].ticket < a[j].ticket {
        assert (a + b)[i] == a[i] && (a + b)[j] == a[j];
      }
    }
  }

  lemma EmitKept(s: Handler)
    requires HandlerInv(s) && Enabled(s, Emit)
    ensures HandlerInv(Moved(s, Emit))
  {
    hide Increasing, Accounted, Ordered;
    var t := Moved(s, Emit);
    assert s.out == [s.out[0]] + s.out[1..];
    assert t.Front() == s.Front();
    assert t.Back() == s.Back();
    StillAccounted(s, t);
    SameOrdered(s, t);
  }

  lemma TerminateKept(s: Handler)
    requires HandlerInv(s) && Enabled(s, Terminate)
    ensures HandlerInv(Moved(s, Terminate))
  {
    var t := Moved(s, Terminate);
    assert t.Front() == s.Front() && t.Back() == s.Back();
  }

  lemma SwapKept(s: Handler)
    requires HandlerInv(s) && Enabled(s, Swap)
    ensures HandlerInv(Moved(s, Swap))
  {
    var t := Moved(s, Swap);
    assert t.Back() == s.Back();
    assert t.Front() == s.Front();
  }

  lemma OneMore(s: Handler, t: Handler, r: Request)
    requires Accounted(s) && s.Back() == [r] + t.Back() && t.entered == s.entered
    requires multiset(t.Front()) + multiset(t.refused) == multiset(s.Front()) + multiset(s.refused) + multiset{r}
    ensures Accounted(t)
  {
    hide Increasing;
    BackShrinks(s, t, r);
  }

  lemma Inserted(a: seq<Request>, b: seq<Request>, x: Request, c: seq<Request>)
    ensures multiset(a + [x] + b) + multiset(c) == multiset(a + b) + multiset(c) + multiset{x}
  {
  }

  lemma CloseEmitAccounted(s: Handler)
    requires Accounted(s) && Enabled(s, CloseEmit)
    ensures Accounted(Moved(s, CloseEmit))
  {
    hide Increasing, Accounted;
    var t := Moved(s, CloseEmit);
    var c := s.closing[0];
    assert s.Back() == [c] + t.Back();
    assert t.Front() == s.answered + [c] + s.Owed();
    Inserted(s.answered, s.Owed(), c, s.refused);
    OneMore(s, t, c);
  }

  lemma CloseEmitKept(s: Handler)
    requires HandlerInv(s) && Enabled(s, CloseEmit)
    ensures HandlerInv(Moved(s, CloseEmit))
  {
    hide Increasing, Accounted;
    var t := Moved(s, CloseEmit);
    var c := s.closing[0];
    CloseEmitAccounted(s);
    assert c in s.Back();
    FrontBelow(s, c);
    assert t.Front() == s.answered + [c] + s.Owed();
    if s.Owed() == [] {
      assert t.Front() == s.Front() + [c];
      IncreasingMore(s.Front(), c);
    } else {
      assert s.Front()[|s.answered|] == s.Owed()[0];
      Overtaken(s.answered, c, s.Owed());
    }
  }

  lemma Overtaken(a: seq<Request>, c: Request, b: seq<Request>)
    requires b != [] && b[0].ticket < c.ticket
    ensures !Increasing(a + [c] + b)
  {
    var s := a + [c] + b;
    assert s[|a|] == c && s[|a| + 1] == b[0];
  }

  /** Every step of a handler keeps its accounts and its order. */
  lemma HandlerKept(s: Handler, step: HandlerStep)
    requires HandlerInv(s) && Enabled(s, step) && Fresh(s, step)
    ensures HandlerInv(Moved(s, step))
    ensures Moved(s, step).overtook == (s.overtook || Overtakes(s, step))
  {
    hide Increasing, Accounted, Ordered;
    match step {
      case Enqueue(r) => EnqueueKept(s, r);
      case Take => TakeKept(s);
      case Process(o) => ProcessKept(s, o);
      case Emit => EmitKept(s);
      case Terminate => TerminateKept(s);
      case Swap => SwapKept(s);
      case CloseEmit => CloseEmitKept(s);
    }
  }

  // ----- every request is in one place

  lemma {:induction false} OnceEach(s: seq<Request>, i: nat)
    requires Increasing(s) && i < |s|
    ensures multiset(s)[s[i]] == 1
  {
    var n := |s| - 1;
    assert s == s[..n] + [s[n]];
    if i < n {
      OnceEach(s[..n], i);
      assert s[..n][i] == s[i];
    } else {
      assert s[n] !in s[..n];
    }
  }

  /** A request put in is once and only once among those answered, owed, refused and waiting. */
  lemma OnePlace(s: Handler, i: nat)
    requires Accounted(s) && i < |s.entered|
    ensures var r := s.entered[i];
            multiset(s.answered)[r] + multiset(s.out)[r] + multiset(s.batch)[r] + multiset(s.InHand())[r]
            + multiset(s.refused)[r] + multiset(s.closing)[r] + multiset(s.inputs)[r] == 1
  {
    OnceEach(s.entered, i);
    assert s.entered == s.entered[..s.Left()] + s.Back();
  }

  // ----- whole turns of one thread

  /** The worker's turn: it takes a request, lets it be processed and gives all replies. */
  function Turned(s: Handler, o: Outcome): Handler
    requires s.hand.None? && s.out == []
  {
    if s.terminated || s.inputs == [] then s
    else
      var t := Processed(s.(hand := Some(s.inputs[0]), inputs := s.inputs[1..]), o);
      t.(answered := t.answered + t.out, out := [])
  }

  lemma {:induction false} EmittedAllKept(s: Handler)
    requires HandlerInv(s)
    ensures HandlerInv(s.(answered := s.answered + s.out, out := []))
    decreases |s.out|
  {
    hide HandlerInv;
    if s.out == [] {
      assert s == s.(answered := s.answered + s.out, out := []);
    } else {
      EmitKept(s);
      var t := Moved(s, Emit);
      EmittedAllKept(t);
      assert t.answered + t.out == s.answered + s.out;
    }
  }

  lemma TurnedKept(s: Handler, o: Outcome)
    requires HandlerInv(s) && s.hand.None? && s.out == []
    ensures HandlerInv(Turned(s, o)) && Turned(s, o).hand.None? && Turned(s, o).out == []
  {
    hide HandlerInv, Processed;
    if !s.terminated && s.inputs != [] {
      TakeKept(s);
      var t := Moved(s, Take);
      ProcessKept(t, o);
      EmittedAllKept(Processed(t, o));
      ProcessedDone(t, o);
    }
  }

  lemma ProcessedDone(s: Handler, o: Outcome)
    requires s.hand.Some?
    ensures Processed(s, o).hand.None?
  {
  }

  /** The closer's turn: it terminates the queue and answers all that is in it. */
  function Closed(s: Handler): Handler {
    s.(terminated := true, swapped := true, inputs := [], answered := s.answered + s.inputs, overtook := s.overtook || (s.inputs != [] && s.Owed() != []))
  }

  /** The closer gives all its answers. */
  function Answering(s: Handler): Handler {
    s.(closing := [], answered := s.answered + s.closing, overtook := s.overtook || (s.closing != [] && s.Owed() != []))
  }

  lemma AnsweringStep(s: Handler)
    requires s.closing != []
    ensures Answering(Moved(s, CloseEmit)) == Answering(s)
  {
    var t := Moved(s, CloseEmit);
    assert t.answered + t.closing == s.answered + s.closing;
    assert t.Owed() == s.Owed();
  }

  lemma {:induction false} ClosedAllKept(s: Handler)
    requires HandlerInv(s)
    ensures HandlerInv(Answering(s))
    decreases |s.closing|
  {
    hide HandlerInv;
    if s.closing == [] {
      assert Answering(s) == s;
    } else {
      CloseEmitKept(s);
      AnsweringStep(s);
      ClosedAllKept(Moved(s, CloseEmit));
    }
  }

  lemma ClosedKept(s: Handler)
    requires HandlerInv(s) && !s.terminated
    ensures HandlerInv(Closed(s))
  {
    hide HandlerInv;
    NotSwapped(s);
    TerminateKept(s);
    var t := Moved(s, Terminate);
    SwapKept(t);
    var u := Moved(t, Swap);
    ClosedAllKept(u);
    assert u.Owed() == s.Owed();
  }

  lemma NotSwapped(s: Handler)
    requires HandlerInv(s) && !s.terminated
    ensures !s.swapped && s.closing == []
  {
  }

  /** When the closer is done and the worker stopped between two turns, every request was
      answered exactly once if and only if none waits in a batch and none was refused. */
  lemma ClosedAccounts(s: Handler)
    requires HandlerInv(s) && !s.terminated && s.hand.None? && s.out == []
    ensures var t := Closed(s);
            (forall i :: 0 <= i < |t.entered| ==> multiset(t.answered)[t.entered[i]] == 1) <==> s.batch == [] && s.refused == []
  {
    hide Ordered, WorkerOk, Handler.Front, Handler.Back;
    var t := Closed(s);
    NotSwapped(s);
    ClosedKept(s);
    assert t.closing == [];
    forall i | 0 <= i < |t.entered| && t.batch == [] && t.refused == [] ensures multiset(t.answered)[t.entered[i]] == 1 { OnePlace(t, i); }
    if t.batch != [] {
      LeftUnanswered(t, t.batch[0]);
    } else if t.refused != [] {
      LeftUnanswered(t, t.refused[0]);
    }
  }

  lemma LeftUnanswered(s: Handler, r: Request)
    requires Accounted(s) && (r in s.batch || r in s.refused)
    ensures exists i :: 0 <= i < |s.entered| && multiset(s.answered)[s.entered[i]] == 0
  {
    Among(s, r);
    var i :| 0 <= i < s.Left() && s.entered[i] == r;
    OnePlace(s, i);
  }

  // ----- runs of one handler

  ghost predicate HandlerRun(states: seq<Handler>, steps: seq<HandlerStep>) {
    && |states| == |steps| + 1 && states[0] == NewHandler()
    && forall k :: 0 <= k < |steps| ==>
         Enabled(states[k], steps[k]) && Fresh(states[k], steps[k]) && states[k + 1] == Moved(states[k], steps[k])
  }

  ghost predicate SomeOvertakes(states: seq<Handler>, steps: seq<HandlerStep>, n: nat)
    requires |states| == |steps| + 1 && n <= |steps|
  {
    exists k :: 0 <= k < n && Overtakes(states[k], steps[k])
  }

  lemma {:induction false} HandlerRunKept(states: seq<Handler>, steps: seq<HandlerStep>, n: nat)
    requires HandlerRun(states, steps) && n <= |steps|
    ensures HandlerInv(states[n]) && (states[n].overtook <==> SomeOvertakes(states, steps, n))
  {
    hide HandlerInv, Overtakes, Fresh, Enabled;
    if n > 0 {
      HandlerRunKept(states, steps, n - 1);
      HandlerKept(states[n - 1], steps[n - 1]);
      assert Enabled(states[n - 1], steps[n - 1]) && states[n] == Moved(states[n - 1], steps[n - 1]);
    } else {
      NewKept();
    }
  }

  lemma NewKept()
    ensures HandlerInv(NewHandler())
  {
  }

  /** Replies come in the order of the requests while none overtakes; and where no request was
      refused, one that overtakes always leaves the replies given and owed out of order. */
  lemma RepliesInOrder(states: seq<Handler>, steps: seq<HandlerStep>, n: nat)
    requires HandlerRun(states, steps) && n <= |steps|
    ensures !SomeOvertakes(states, steps, n) ==> Increasing(states[n].answered)
    ensures states[n].refused == [] ==> (Increasing(states[n].Front()) <==> !SomeOvertakes(states, steps, n))
  {
    HandlerRunKept(states, steps, n);
    Prefix(states[n].answered, states[n].Owed());
  }

  lemma StaysQueued(s: Handler, step: HandlerStep, r: Request)
    requires Enabled(s, step) && s.terminated && s.swapped && (r in s.inputs || step == Enqueue(r))
    ensures var t := Moved(s, step); t.terminated && t.swapped && r in t.inputs
  {
  }

  lemma QueuedNotAnswered(s: Handler, r: Request)
    requires Accounted(s) && r in s.inputs
    ensures r !in s.answered
  {
    assert r in s.Back();
    if r in s.answered {
      assert r in s.Front();
      Among(s, r);
    }
  }

  /** A request that arrives after the closer emptied the queue is never answered. */
  lemma {:induction false} LateRequestStays(states: seq<Handler>, steps: seq<HandlerStep>, k: nat, n: nat)
    requires HandlerRun(states, steps) && k < n <= |steps| && states[k].swapped && steps[k].Enqueue?
    ensures states[n].swapped && states[n].terminated && steps[k].request in states[n].inputs && steps[k].request !in states[n].answered
  {
    hide Accounted, Ordered, Moved, Enabled, Fresh;
    assert Enabled(states[n - 1], steps[n - 1]) && states[n] == Moved(states[n - 1], steps[n - 1]);
    HandlerRunKept(states, steps, n);
    HandlerRunKept(states, steps, n - 1);
    if k < n - 1 { LateRequestStays(states, steps, k, n - 1); }
    StaysQueued(states[n - 1], steps[n - 1], steps[k].request);
    QueuedNotAnswered(states[n], steps[k].request);
  }

  ghost predicate EndsIn(states: seq<Handler>, steps: seq<HandlerStep>, s: Handler) {
    HandlerRun(states, steps) && states[|steps|] == s
  }

  lemma Then(states: seq<Handler>, steps: seq<HandlerStep>, s: Handler, step: HandlerStep)
      returns (states': seq<Handler>, steps': seq<HandlerStep>, t: Handler)
    requires EndsIn(states, steps, s) && Enabled(s, step) && Fresh(s, step)
    ensures t == Moved(s, step) && EndsIn(states', steps', t)
  {
    hide Enabled, Fresh, Moved;
    t := Moved(s, step);
    states', steps' := states + [t], steps + [step];
  }

  /** Order is lost in a real run: with a batch of two, the second request is answered first
      when Preprocess throws on it. */
  lemma PreprocessFailureOvertakes(a: Request, b: Request, c: Request) returns (states: seq<Handler>, steps: seq<HandlerStep>)
    requires a.ticket < b.ticket < c.ticket
    ensures HandlerRun(states, steps) && states[|steps|].answered == [b, a, c] && states[|steps|].entered == [a, b, c]
  {
    states, steps := [NewHandler()], [];
    var s := NewHandler();
    assert EndsIn(states, steps, s);
    hide EndsIn;
    states, steps, s := Then(states, steps, s, Enqueue(a));
    states, steps, s := Then(states, steps, s, Take);
    states, steps, s := Then(states, steps, s, Process(Outcome(false, true, false, true, true)));
    assert s == NewHandler().(batch := [a], entered := [a]);
    states, steps, s := Then(states, steps, s, Enqueue(b));
    states, steps, s := Then(states, steps, s, Take);
    states, steps, s := Then(states, steps, s, Process(Outcome(true, false, false, true, true)));
    states, steps, s := Then(states, steps, s, Emit);
    assert s == NewHandler().(batch := [a], answered := [b], entered := [a, b], overtook := true);
    states, steps, s := Then(states, steps, s, Enqueue(c));
    states, steps, s := Then(states, steps, s, Take);
    states, steps, s := Then(states, steps, s, Process(Outcome(false, true, true, true, true)));
    states, steps, s := Then(states, steps, s, Emit);
    states, steps, s := Then(states, steps, s, Emit);
    assert s == NewHandler().(answered := [b, a, c], entered := [a, b, c], overtook := true);
    EndOf(states, steps, s);
  }

  lemma EndOf(states: seq<Handler>, steps: seq<HandlerStep>, s: Handler)
    requires EndsIn(states, steps, s)
    ensures HandlerRun(states, steps) && states[|steps|] == s
  {
  }

  /** And in another: the closer answers the second request while the worker holds the first. */
  lemma CloserOvertakes(a: Request, b: Request) returns (states: seq<Handler>, steps: seq<HandlerStep>)
    requires a.ticket < b.ticket
    ensures HandlerRun(states, steps) && states[|steps|].answered == [b, a] && states[|steps|].entered == [a, b]
  {
    states, steps := [NewHandler()], [];
    var s := NewHandler();
    assert EndsIn(states, steps, s);
    hide EndsIn;
    states, steps, s := Then(states, steps, s, Enqueue(a));
    states, steps, s := Then(states, steps, s, Enqueue(b));
    states, steps, s := Then(states, steps, s, Take);
    assert s == NewHandler().(hand := Some(a), inputs := [b], entered := [a, b]);
    states, steps, s := Then(states, steps, s, Terminate);
    states, steps, s := Then(states, steps, s, Swap);
    states, steps, s := Then(states, steps, s, CloseEmit);
    assert s == NewHandler().(terminated := true, swapped := true, hand := Some(a), answered := [b], entered := [a, b], overtook := true);
    states, steps, s := Then(states, steps, s, Process(Outcome(false, true, true, true, true)));
    states, steps, s := Then(states, steps, s, Emit);
    assert s == NewHandler().(terminated := true, swapped := true, answered := [b, a], entered := [a, b], overtook := true);
    EndOf(states, steps, s);
  }
}
