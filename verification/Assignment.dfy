/** Rectangular assignments, their cost, and the dual bound that certifies one of them. */
module Assignment {

  /** A cost matrix given row by row. */
  ghost predicate Shape(rows: nat, cols: nat, cost: seq<seq<real>>) {
    |cost| == rows && forall r :: 0 <= r < rows ==> |cost[r]| == cols
  }

  /** `b[r]` is the column of row r, or -1; no column is used twice. */
  ghost predicate Partial(rows: nat, cols: nat, b: seq<int>) {
    && |b| == rows
    && (forall r :: 0 <= r < rows ==> -1 <= b[r] < cols)
    && (forall r, r' :: 0 <= r < r' < rows && b[r] == b[r'] ==> b[r] == -1)
  }

  /** Every line of the smaller side is assigned. */
  ghost predicate Complete(rows: nat, cols: nat, b: seq<int>) {
    && Partial(rows, cols, b)
    && (rows <= cols ==> forall r :: 0 <= r < rows ==> b[r] != -1)
    && (rows > cols ==> forall c: int :: 0 <= c < cols ==> c in b)
  }

  /** Cost of the first k rows of an assignment. */
  function TotalCost(cost: seq<seq<real>>, b: seq<int>, k: nat): real
    requires k <= |b| && k <= |cost|
    requires forall r :: 0 <= r < k ==> b[r] < |cost[r]|
  {
    if k == 0 then 0.0
    else TotalCost(cost, b, k - 1) + if b[k - 1] >= 0 then cost[k - 1][b[k - 1]] else 0.0
  }

  function Sum(w: seq<real>, k: nat): real
    requires k <= |w|
  {
    if k == 0 then 0.0 else Sum(w, k - 1) + w[k - 1]
  }

  /** Sum of the column weights picked by the first k rows. */
  function Picked(w: seq<real>, b: seq<int>, k: nat): real
    requires k <= |b| && forall r :: 0 <= r < k ==> b[r] < |w|
  {
    if k == 0 then 0.0 else Picked(w, b, k - 1) + if b[k - 1] >= 0 then w[b[k - 1]] else 0.0
  }

  /** Sum of the row weights of the assigned rows among the first k. */
  function Assigned(w: seq<real>, b: seq<int>, k: nat): real
    requires k <= |b| && k <= |w|
  {
    if k == 0 then 0.0 else Assigned(w, b, k - 1) + if b[k - 1] >= 0 then w[k - 1] else 0.0
  }

  lemma {:induction false} SumPut(w: seq<real>, i: nat, x: real, k: nat)
    requires i < |w| && k <= |w|
    ensures Sum(w[i := x], k) == if i < k then Sum(w, k) - w[i] + x else Sum(w, k)
  {
    if k > 0 { SumPut(w, i, x, k - 1); }
  }

  lemma {:induction false} SumSign(w: seq<real>, k: nat)
    requires k <= |w|
    ensures (forall i :: 0 <= i < k ==> w[i] >= 0.0) ==> Sum(w, k) >= 0.0
    ensures (forall i :: 0 <= i < k ==> w[i] == 0.0) ==> Sum(w, k) == 0.0
  {
    if k > 0 { SumSign(w, k - 1); }
  }

  lemma {:induction false} PickedFrame(w: seq<real>, w': seq<real>, b: seq<int>, k: nat)
    requires k <= |b| && |w| == |w'| && forall r :: 0 <= r < k ==> b[r] < |w|
    requires forall r :: 0 <= r < k && b[r] >= 0 ==> w'[b[r]] == w[b[r]]
    ensures Picked(w', b, k) == Picked(w, b, k)
  {
    if k > 0 { PickedFrame(w, w', b, k - 1); }
  }

  /** An injective pick of non-negative weights is at most the whole sum. */
  lemma {:induction false} PickedAtMostSum(w: seq<real>, b: seq<int>, k: nat)
    requires k <= |b| && Partial(|b|, |w|, b)
    requires forall c :: 0 <= c < |w| ==> w[c] >= 0.0
    ensures Picked(w, b, k) <= Sum(w, |w|)
    decreases k
  {
    if k == 0 {
      SumSign(w, |w|);
    } else if b[k - 1] >= 0 {
      var w' := w[b[k - 1] := 0.0];
      SumPut(w, b[k - 1], 0.0, |w|);
      PickedFrame(w, w', b, k - 1);
      PickedAtMostSum(w', b, k - 1);
    } else {
      PickedAtMostSum(w, b, k - 1);
    }
  }

  /** A pick of every column that has a weight is the whole sum. */
  lemma {:induction false} PickedIsSum(w: seq<real>, b: seq<int>, k: nat)
    requires k <= |b| && Partial(|b|, |w|, b)
    requires forall c :: 0 <= c < |w| && w[c] != 0.0 ==> c in b[..k]
    ensures Picked(w, b, k) == Sum(w, |w|)
    decreases k
  {
    if k == 0 {
      SumSign(w, |w|);
    } else {
      assert b[..k] == b[..k - 1] + [b[k - 1]];
      if b[k - 1] >= 0 {
        var w' := w[b[k - 1] := 0.0];
        SumPut(w, b[k - 1], 0.0, |w|);
        PickedFrame(w, w', b, k - 1);
        PickedIsSum(w', b, k - 1);
      } else {
        PickedIsSum(w, b, k - 1);
      }
    }
  }

  /** The assigned rows carry at least the whole sum of non-positive row weights, and exactly
      it when the unassigned rows weigh nothing. */
  lemma {:induction false} AssignedAtLeastSum(w: seq<real>, b: seq<int>, k: nat)
    requires k <= |b| && k <= |w|
    ensures (forall r :: 0 <= r < k ==> w[r] <= 0.0) ==> Assigned(w, b, k) >= Sum(w, k)
    ensures (forall r :: 0 <= r < k && b[r] < 0 ==> w[r] == 0.0) ==> Assigned(w, b, k) == Sum(w, k)
  {
    if k > 0 { AssignedAtLeastSum(w, b, k - 1); }
  }

  /** Feasible potentials bound every assignment from below. */
  lemma {:induction false} CostAbovePotentials(cost: seq<seq<real>>, u: seq<real>, v: seq<real>, b: seq<int>, k: nat)
    requires k <= |b| && Shape(|b|, |v|, cost) && |u| == |b| && Partial(|b|, |v|, b)
    requires forall r, c :: 0 <= r < |b| && 0 <= c < |v| ==> u[r] + v[c] <= cost[r][c]
    ensures Assigned(u, b, k) + Picked(v, b, k) <= TotalCost(cost, b, k)
  {
    if k > 0 { CostAbovePotentials(cost, u, v, b, k - 1); }
  }

  /** An assignment on cells within eps of the potentials costs at most eps more per
      assigned row; `e` holds eps for every column. */
  lemma {:induction false} CostBelowPotentials(cost: seq<seq<real>>, u: seq<real>, v: seq<real>, e: seq<real>, b: seq<int>, k: nat)
    requires k <= |b| && Shape(|b|, |v|, cost) && |u| == |b| && Partial(|b|, |v|, b)
    requires |e| == |v| && forall c :: 0 <= c < |e| ==> e[c] > 0.0
    requires forall r :: 0 <= r < |b| && b[r] >= 0 ==> cost[r][b[r]] < u[r] + v[b[r]] + e[b[r]]
    ensures TotalCost(cost, b, k) <= Assigned(u, b, k) + Picked(v, b, k) + Picked(e, b, k)
    ensures Picked(e, b, k) >= 0.0
    ensures Picked(e, b, k) > 0.0 ==> TotalCost(cost, b, k) < Assigned(u, b, k) + Picked(v, b, k) + Picked(e, b, k)
  {
    if k > 0 { CostBelowPotentials(cost, u, v, e, b, k - 1); }
  }

  lemma {:induction false} AllAssigned(e: seq<real>, eps: real, b: seq<int>, k: nat)
    requires k <= |b| && forall r :: 0 <= r < k ==> 0 <= b[r] < |e|
    requires forall c :: 0 <= c < |e| ==> e[c] == eps
    ensures Picked(e, b, k) == Times(k, eps)
  {
    if k > 0 { AllAssigned(e, eps, b, k - 1); }
  }

  lemma {:induction false} SumConstant(e: seq<real>, eps: real, k: nat)
    requires k <= |e| && forall c :: 0 <= c < |e| ==> e[c] == eps
    ensures Sum(e, k) == Times(k, eps)
  {
    if k > 0 { SumConstant(e, eps, k - 1); }
  }

  function Min(a: nat, b: nat): nat { if a <= b then a else b }

  /** eps for every line of the smaller side. */
  function Slack(rows: nat, cols: nat, eps: real): real { Times(Min(rows, cols), eps) }

  function Times(k: nat, x: real): real { k as real * x }

  /** Non-positive potentials on the larger side, zero on its unassigned lines. */
  ghost predicate LargerSideSigns(rows: nat, cols: nat, a: seq<int>, u: seq<real>, v: seq<real>)
    requires |a| == |u| == rows && |v| == cols
  {
    && (rows <= cols ==> forall c: int :: 0 <= c < cols ==> v[c] <= 0.0 && (c !in a ==> v[c] == 0.0))
    && (rows > cols ==> forall r :: 0 <= r < rows ==> u[r] <= 0.0 && (a[r] < 0 ==> u[r] == 0.0))
  }

  lemma NegatedSum(v: seq<real>, w: seq<real>, k: nat)
    requires |v| == |w| && k <= |v| && forall c :: 0 <= c < |v| ==> w[c] == -v[c]
    ensures Sum(w, k) == -Sum(v, k)
  {
  }

  lemma NegatedPicked(v: seq<real>, w: seq<real>, b: seq<int>, k: nat)
    requires |v| == |w| && forall c :: 0 <= c < |v| ==> w[c] == -v[c]
    requires k <= |b| && forall r :: 0 <= r < k ==> b[r] < |v|
    ensures Picked(w, b, k) == -Picked(v, b, k)
  {
  }

  /** Weak duality: the sum of the potentials bounds every complete assignment from below. */
  lemma DualBound(rows: nat, cols: nat, cost: seq<seq<real>>, u: seq<real>, v: seq<real>, b: seq<int>)
    requires Shape(rows, cols, cost) && |u| == rows && |v| == cols && Complete(rows, cols, b)
    requires forall r, c :: 0 <= r < rows && 0 <= c < cols ==> u[r] + v[c] <= cost[r][c]
    requires rows <= cols ==> forall c :: 0 <= c < cols ==> v[c] <= 0.0
    requires rows > cols ==> forall r :: 0 <= r < rows ==> u[r] <= 0.0
    ensures Sum(u, rows) + Sum(v, cols) <= TotalCost(cost, b, rows)
  {
    CostAbovePotentials(cost, u, v, b, rows);
    AssignedAtLeastSum(u, b, rows);
    assert b[..rows] == b;
    if rows <= cols {
      var w := seq(cols, c requires 0 <= c < cols => -v[c]);
      PickedAtMostSum(w, b, rows);
      NegatedSum(v, w, cols);
      NegatedPicked(v, w, b, rows);
    } else {
      PickedIsSum(v, b, rows);
    }
  }

  /** A complete assignment uses as many lines as the smaller side has. */
  lemma LinesUsed(rows: nat, cols: nat, e: seq<real>, eps: real, a: seq<int>)
    requires Complete(rows, cols, a) && |e| == cols && forall c :: 0 <= c < cols ==> e[c] == eps
    ensures Picked(e, a, rows) == Slack(rows, cols, eps)
  {
    assert a[..rows] == a;
    hide Times;
    if rows <= cols {
      AllAssigned(e, eps, a, rows);
    } else {
      PickedIsSum(e, a, rows);
      SumConstant(e, eps, cols);
    }
  }

  /** With signed potentials a complete assignment picks up all of them. */
  lemma PotentialsUsed(rows: nat, cols: nat, u: seq<real>, v: seq<real>, a: seq<int>)
    requires |u| == rows && |v| == cols && Complete(rows, cols, a)
    requires LargerSideSigns(rows, cols, a, u, v)
    ensures Assigned(u, a, rows) == Sum(u, rows) && Picked(v, a, rows) == Sum(v, cols)
  {
    AssignedAtLeastSum(u, a, rows);
    assert a[..rows] == a;
    PickedIsSum(v, a, rows);
  }

  lemma SlackPositive(rows: nat, cols: nat, eps: real)
    requires eps > 0.0 && Min(rows, cols) > 0
    ensures Slack(rows, cols, eps) > 0.0
  {
  }

  /** On cells within eps of signed potentials, the cost exceeds the dual bound by less than
      eps for every line of the smaller side. */
  lemma TightCost(rows: nat, cols: nat, cost: seq<seq<real>>, u: seq<real>, v: seq<real>, eps: real, a: seq<int>)
    requires Shape(rows, cols, cost) && |u| == rows && |v| == cols && Complete(rows, cols, a)
    requires forall r :: 0 <= r < rows && a[r] >= 0 ==> cost[r][a[r]] < u[r] + v[a[r]] + eps
    requires LargerSideSigns(rows, cols, a, u, v) && eps > 0.0
    ensures Min(rows, cols) == 0 ==> TotalCost(cost, a, rows) <= Sum(u, rows) + Sum(v, cols)
    ensures Min(rows, cols) > 0 ==>
              TotalCost(cost, a, rows) < Sum(u, rows) + Sum(v, cols) + Slack(rows, cols, eps)
  {
    hide Slack;
    var e := seq(cols, c => eps);
    LinesUsed(rows, cols, e, eps, a);
    CostBelowPotentials(cost, u, v, e, a, rows);
    PotentialsUsed(rows, cols, u, v, a);
    if Min(rows, cols) > 0 {
      SlackPositive(rows, cols, eps);
    }
  }

  /** Assignment a costs less than b plus eps for every line of the smaller side, when there
      is such a line. */
  ghost predicate NoWorse(cost: seq<seq<real>>, eps: real, a: seq<int>, b: seq<int>)
    requires |cost| > 0 && Shape(|cost|, |cost[0]|, cost)
    requires Partial(|cost|, |cost[0]|, a) && Partial(|cost|, |cost[0]|, b)
  {
    var n, m := |cost|, |cost[0]|;
    if Min(n, m) == 0 then TotalCost(cost, a, n) <= TotalCost(cost, b, n)
    else TotalCost(cost, a, n) < TotalCost(cost, b, n) + Slack(n, m, eps)
  }

  /** A complete assignment on cells within eps of signed feasible potentials costs less than
      any other complete assignment plus eps for every line of the smaller side. */
  lemma NearOptimal(rows: nat, cols: nat, cost: seq<seq<real>>, u: seq<real>, v: seq<real>, eps: real, a: seq<int>, b: seq<int>)
    requires Shape(rows, cols, cost) && |u| == rows && |v| == cols
    requires Complete(rows, cols, a) && Complete(rows, cols, b)
    requires forall r, c :: 0 <= r < rows && 0 <= c < cols ==> u[r] + v[c] <= cost[r][c]
    requires forall r :: 0 <= r < rows && a[r] >= 0 ==> cost[r][a[r]] < u[r] + v[a[r]] + eps
    requires LargerSideSigns(rows, cols, a, u, v) && eps > 0.0
    ensures 0 < rows ==> NoWorse(cost, eps, a, b)
  {
    hide Slack;
    TightCost(rows, cols, cost, u, v, eps, a);
    DualBound(rows, cols, cost, u, v, b);
  }
}
