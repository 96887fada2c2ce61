/** How the runs of the pipeline spread requests over the handlers. */
module Fairness {
  import opened HandlerLines
  import opened SafeQueues
  import opened RoundRobin
  import opened Pipelines

  /** The handler that a step, when it is a selection, left its client with. */
  function Taken(step: Step, after: State): seq<Handle> {
    if step.Select? && step.c < |after.clients| && after.clients[step.c].Chosen? then [after.clients[step.c].handle] else []
  }

  /** The handlers that the selections of steps i to j - 1 gave to their clients. */
  function Selected(states: seq<State>, steps: seq<Step>, i: nat, j: nat): seq<Handle>
    requires i <= j <= |steps| < |states|
  {
    if i == j then [] else Selected(states, steps, i, j - 1) + Taken(steps[j - 1], states[j])
  }

  function Times(hs: seq<Handle>, h: Handle): nat {
    if hs == [] then 0 else Times(hs[..|hs| - 1], h) + if hs[|hs| - 1] == h then 1 else 0
  }

  ghost predicate Distinct(hs: seq<Handle>) { forall i, j :: 0 <= i < j < |hs| ==> hs[i] != hs[j] }

  lemma {:induction false} HandlesDistinct(states: seq<State>, steps: seq<Step>, profiles: set<int>, threads: nat, k: nat)
    requires IsRun(states, steps, profiles, threads) && k <= |steps|
    ensures Distinct(states[k].handles) && states[k].counter < WORD
  {
    hide HandlersOk, Bounded, ReplySides.Replied, Moved, ReplySides.ReplyInv;
    if k > 0 {
      HandlesDistinct(states, steps, profiles, threads, k - 1);
      RunInv(states, steps, profiles, threads, k - 1);
      assert Follows(states[k - 1], steps[k - 1], states[k]);
      HandlesStep(states[k - 1], steps[k - 1]);
    }
  }

  lemma HandlesStep(s: State, step: Step)
    requires Inv(s) && CanStep(s, step)
    ensures var t := Next(s, step);
            && t.handles == (if step.Link? then s.handles + [step.handle] else if step.ClearHandles? then [] else s.handles)
            && (step.Link? ==> step.handle !in s.handles)
            && t.counter == if step.Select? then (s.counter + 1) % WORD else s.counter
  {
    hide HandlersOk, Bounded, ReplySides.Replied, Moved;
  }

  /** The m-th selection took the handler the counter says. */
  ghost predicate InTurn(s: State, hs: seq<Handle>, c: nat, ps: seq<Handle>) {
    && hs != [] && s.handles == hs && s.counter == (c + |ps|) % WORD
    && forall m :: 0 <= m < |ps| ==> ps[m] == hs[Pick(c, m, |hs|)]
  }

  lemma InTurnStep(s: State, step: Step, hs: seq<Handle>, c: nat, ps: seq<Handle>)
    requires Inv(s) && CanStep(s, step) && InTurn(s, hs, c, ps) && !step.Link? && !step.ClearHandles?
    ensures InTurn(Next(s, step), hs, c, ps + Taken(step, Next(s, step)))
  {
    hide Inv, Next, CanStep;
    InvParts(s);
    HandlesStep(s, step);
    if step.Select? {
      SelectedStep(s, step);
      Wraps(c + |ps|);
    }
  }

  lemma SelectedStep(s: State, step: Step)
    requires Inv(s) && CanStep(s, step) && step.Select?
    ensures var x := Next(s, step).clients;
            s.handles != [] && step.c < |x| && x[step.c] == Chosen(step.unit, s.handles[s.counter % |s.handles|])
  {
    hide HandlersOk, Bounded, ReplySides.Replied, Moved;
  }

  /** While no handler joins or leaves, handlers are taken in turn. */
  lemma {:induction false} SelectedInTurn(states: seq<State>, steps: seq<Step>, profiles: set<int>, threads: nat, i: nat, j: nat)
    requires IsRun(states, steps, profiles, threads) && i <= j <= |steps| && states[i].handles != []
    requires forall k :: i <= k < j ==> !steps[k].Link? && !steps[k].ClearHandles?
    ensures InTurn(states[j], states[i].handles, states[i].counter, Selected(states, steps, i, j))
  {
    hide Inv, InTurn, Next, CanStep;
    if i == j {
      HandlesDistinct(states, steps, profiles, threads, i);
      NoneTaken(states[i]);
    } else {
      SelectedInTurn(states, steps, profiles, threads, i, j - 1);
      RunInv(states, steps, profiles, threads, j - 1);
      assert Follows(states[j - 1], steps[j - 1], states[j]);
      InTurnStep(states[j - 1], steps[j - 1], states[i].handles, states[i].counter, Selected(states, steps, i, j - 1));
    }
  }

  lemma NoneTaken(s: State)
    requires s.handles != [] && s.counter < WORD
    ensures InTurn(s, s.handles, s.counter, [])
  {
  }

  lemma Wraps(x: nat)
    ensures (x % WORD + 1) % WORD == (x + 1) % WORD
  {
  }

  lemma {:induction false} TimesChosen(hs: seq<Handle>, ps: seq<Handle>, c: nat, x: nat)
    requires Distinct(hs) && x < |hs| && forall m :: 0 <= m < |ps| ==> ps[m] == hs[Pick(c, m, |hs|)]
    ensures Times(ps, hs[x]) == RoundRobin.Chosen(c, |ps|, |hs|, x)
  {
    if ps != [] {
      TimesChosen(hs, ps[..|ps| - 1], c, x);
      var y := Pick(c, |ps| - 1, |hs|);
      assert hs[y] == hs[x] <==> x == y;
    }
  }

  /** Over any part of any run in which no handler joins or leaves, k selections give each of n
      handlers k / n requests, rounded down or up, unless the counter wraps around in it and n
      does not divide its range. */
  lemma HandlersShareRequests(states: seq<State>, steps: seq<Step>, profiles: set<int>, threads: nat, i: nat, j: nat, h: Handle)
    requires IsRun(states, steps, profiles, threads) && i <= j <= |steps| && h in states[i].handles
    requires forall k :: i <= k < j ==> !steps[k].Link? && !steps[k].ClearHandles?
    requires states[i].counter + |Selected(states, steps, i, j)| <= WORD || WORD % |states[i].handles| == 0
    ensures var n, k := |states[i].handles|, |Selected(states, steps, i, j)|;
            k / n <= Times(Selected(states, steps, i, j), h) <= (k + n - 1) / n
  {
    hide Selected, Times, RoundRobin.Chosen, Pick;
    var hs, ps := states[i].handles, Selected(states, steps, i, j);
    SelectedInTurn(states, steps, profiles, threads, i, j);
    HandlesDistinct(states, steps, profiles, threads, i);
    var x :| 0 <= x < |hs| && hs[x] == h;
    TimesChosen(hs, ps, states[i].counter, x);
    ChoicesFair(states[i].counter, |ps|, |hs|, x);
  }
}
