/** Greedy non-maximum suppression per class over a confidence-sorted index array. */
module Suppression {
  import opened Collections

  /** Left-top corner and size of a box. */
  datatype Box = Box(x: real, y: real, w: real, h: real)

  datatype Detection = Detection(box: Box, confidence: real, classId: int)

  function Max(a: real, b: real): real { if a < b then b else a }

  function Min(a: real, b: real): real { if b < a then b else a }

  /** The length two closed pixel intervals share, or 0. */
  function Shared(lo: real, hi: real, lo': real, hi': real): real {
    Max(0.0, Min(hi, hi') - Max(lo, lo') + 1.0)
  }

  function Intersection(a: Box, b: Box): real {
    Shared(a.x, a.x + a.w, b.x, b.x + b.w) * Shared(a.y, a.y + a.h, b.y, b.y + b.h)
  }

  function Area(a: Box): real { (a.w + 1.0) * (a.h + 1.0) }

  function Ratio(i: real, u: real): real { if u <= 0.0 then 0.0 else i / u }

  function CalculateOverlap(a: Box, b: Box): real {
    var i := Intersection(a, b);
    Ratio(i, Area(a) + Area(b) - i)
  }

  lemma SharedSymmetric(lo: real, hi: real, lo': real, hi': real)
    ensures Shared(lo, hi, lo', hi') == Shared(lo', hi', lo, hi)
  {
  }

  lemma OverlapSymmetric(a: Box, b: Box)
    ensures CalculateOverlap(a, b) == CalculateOverlap(b, a)
  {
    hide Shared, Area, Ratio;
    SharedSymmetric(a.x, a.x + a.w, b.x, b.x + b.w);
    SharedSymmetric(a.y, a.y + a.h, b.y, b.y + b.h);
    var i := Intersection(a, b);
    assert Intersection(b, a) == i;
    assert Area(b) + Area(a) - i == Area(a) + Area(b) - i;
  }

  /** The boxes, their classes and the order in which they compete. */
  datatype Field = Field(boxes: seq<Box>, classIds: seq<int>, order: seq<int>, threshold: real) {

    ghost predicate Valid() {
      |classIds| == |boxes| && forall j :: 0 <= j < |order| ==> 0 <= order[j] < |boxes|
    }

    ghost function Class(j: nat): int
      requires Valid() && j < |order|
    {
      classIds[order[j]]
    }

    /** Position i, if it survives, removes position j. */
    ghost predicate Beats(i: nat, j: nat)
      requires Valid() && i < |order| && j < |order|
    {
      Class(i) == Class(j) && CalculateOverlap(boxes[order[i]], boxes[order[j]]) > threshold
    }

    /** No surviving earlier position of the same class overlaps too much. */
    ghost predicate Survives(j: nat)
      requires Valid() && j < |order|
      decreases j
    {
      forall i: nat :: i < j && Survives(i) ==> !Beats(i, j)
    }

    /** The index array once the passes of the given classes have run, in whatever order. */
    ghost predicate After(a: seq<int>, done: set<int>)
      requires Valid()
    {
      |a| == |order| && forall j: nat :: j < |order| ==> a[j] == if Class(j) in done && !Survives(j) then -1 else order[j]
    }

    /** Position j was removed by a survivor among the first k positions. */
    ghost predicate Removed(j: nat, k: nat)
      requires Valid() && j < |order| && k <= |order|
    {
      exists i: nat :: i < k && i < j && Survives(i) && Beats(i, j)
    }

    /** Within the pass of class c: positions of class c have met the first k of them. */
    ghost predicate During(a: seq<int>, done: set<int>, c: int, k: nat)
      requires Valid() && k <= |order|
    {
      && |a| == |order|
      && forall j: nat :: j < |order| ==>
           a[j] == if (Class(j) in done && !Survives(j)) || (Class(j) == c && Removed(j, k)) then -1 else order[j]
    }

    lemma PassStarts(a: seq<int>, done: set<int>, c: int)
      requires Valid() && After(a, done)
      ensures During(a, done, c, 0)
    {
    }

    lemma PassEnds(a: seq<int>, done: set<int>, c: int)
      requires Valid() && During(a, done, c, |order|)
      ensures After(a, done + {c})
    {
      forall j: nat | j < |order| ensures Removed(j, |order|) <==> !Survives(j) {}
    }

    /** What survives position k changes nothing unless position k itself survives. */
    lemma PassSkips(a: seq<int>, done: set<int>, c: int, k: nat)
      requires Valid() && k < |order| && During(a, done, c, k)
      requires c !in done && (a[k] == -1 || Class(k) != c)
      ensures During(a, done, c, k + 1)
    {
      forall j: nat | j < |order| && Class(j) == c ensures Removed(j, k + 1) <==> Removed(j, k) {
        if Removed(j, k + 1) {
          var i: nat :| i < k + 1 && i < j && Survives(i) && Beats(i, j);
          assert i == k ==> Class(k) == c && a[k] == -1;
          assert Removed(k, k) ==> !Survives(k);
        }
      }
    }

    lemma SurvivesUnless(k: nat)
      requires Valid() && k < |order|
      ensures Survives(k) == !Removed(k, k)
    {
    }

    lemma PassReaches(a: seq<int>, done: set<int>, c: int, k: nat)
      requires Valid() && k < |order| && During(a, done, c, k)
      requires c !in done && a[k] != -1 && Class(k) == c
      ensures Survives(k)
      ensures forall j: nat :: j < |order| ==> (Removed(j, k + 1) <==> Removed(j, k) || (k < j && Beats(k, j)))
    {
      SurvivesUnless(k);
      forall j: nat | j < |order| ensures Removed(j, k + 1) <==> Removed(j, k) || (k < j && Beats(k, j)) {
        if k < j && Beats(k, j) { assert Removed(j, k + 1); }
      }
    }
  }

  /** One pass of nms for class c. */
  method Nms(f: Field, a: array<int>, c: int, ghost done: set<int>)
    requires f.Valid() && f.After(a[..], done) && c !in done
    modifies a
    ensures f.After(a[..], done + {c})
  {
    f.PassStarts(a[..], done, c);
    for i := 0 to a.Length
      invariant a.Length == |f.order| && f.During(a[..], done, c, i)
    {
      var n := a[i];
      if n == -1 || f.classIds[n] != c {
        f.PassSkips(a[..], done, c, i);
      } else {
        SuppressAfter(f, a, c, i, done);
      }
    }
    f.PassEnds(a[..], done, c);
  }

  /** The inner loop of nms: position i removes what it beats. */
  method SuppressAfter(f: Field, a: array<int>, c: int, i: nat, ghost done: set<int>)
    requires f.Valid() && i < a.Length == |f.order| && f.During(a[..], done, c, i) && c !in done
    requires a[i] != -1 && f.classIds[a[i]] == c
    modifies a
    ensures f.During(a[..], done, c, i + 1)
  {
    ghost var b := a[..];
    assert b[i] == f.order[i];
    f.PassReaches(b, done, c, i);
    var n := a[i];
    for j := i + 1 to a.Length
      invariant a[i] == n
      invariant forall k: nat :: k < |b| ==>
        a[k] == if i < k < j && b[k] != -1 && f.Class(k) == c && f.Beats(i, k) then -1 else b[k]
    {
      var m := a[j];
      if m != -1 && f.classIds[m] == c {
        assert m == f.order[j];
        var iou := CalculateOverlap(f.boxes[n], f.boxes[m]);
        if iou > f.threshold { a[j] := -1; }
      }
    }
    forall j: nat | j < |f.order|
      ensures a[j] == if (f.Class(j) in done && !f.Survives(j)) || (f.Class(j) == c && f.Removed(j, i + 1)) then -1 else f.order[j]
    {
      assert f.Removed(j, i + 1) <==> f.Removed(j, i) || (i < j && f.Beats(i, j));
    }
  }

  // ----- sorting by confidence

  /** What std::sort promises for the comparator: the same pairs, by non-increasing confidence. */
  ghost predicate Sorted(pairs: seq<(real, int)>, sorted: seq<(real, int)>) {
    && multiset(sorted) == multiset(pairs)
    && forall i, j :: 0 <= i < j < |sorted| ==> sorted[i].0 >= sorted[j].0
  }

  function Zip(a: seq<real>, b: seq<int>): seq<(real, int)>
    requires |a| == |b|
  {
    seq(|a|, i requires 0 <= i < |a| => (a[i], b[i]))
  }

  function Pairs(probs: seq<real>): seq<(real, int)> {
    Zip(probs, seq(|probs|, i => i))
  }

  lemma SortedSingle(pairs: seq<(real, int)>, sorted: seq<(real, int)>)
    requires Sorted(pairs, sorted)
    ensures |sorted| == |pairs| && (|pairs| <= 1 ==> sorted == pairs)
  {
    assert |multiset(pairs)| == |multiset(sorted)|;
    if |pairs| == 1 {
      assert sorted[0] in multiset(sorted);
      assert sorted[0] in pairs;
    }
  }

  /** Sorts the confidences and carries the indices along; `sorted` is the result of std::sort. */
  method SortByConfidenceDesc(input: array<real>, indices: array<int>, sorted: seq<(real, int)>)
    requires input.Length == indices.Length
    requires Sorted(Zip(input[..], indices[..]), sorted)
    modifies input, indices
    ensures |sorted| == input.Length
    ensures forall i :: 0 <= i < |sorted| ==> input[i] == sorted[i].0 && indices[i] == sorted[i].1
  {
    SortedSingle(Zip(input[..], indices[..]), sorted);
    if input.Length <= 1 { return; }
    for i := 0 to |sorted|
      invariant forall k :: 0 <= k < i ==> input[k] == sorted[k].0 && indices[k] == sorted[k].1
    {
      input[i] := sorted[i].0;
      indices[i] := sorted[i].1;
    }
  }

  /** The sorted indices name every box exactly once, each with its own confidence. */
  lemma SortedIndices(probs: seq<real>, sorted: seq<(real, int)>)
    requires Sorted(Pairs(probs), sorted)
    ensures |sorted| == |probs|
    ensures forall i :: 0 <= i < |sorted| ==> 0 <= sorted[i].1 < |probs| && sorted[i].0 == probs[sorted[i].1]
    ensures forall n :: 0 <= n < |probs| ==> (probs[n], n) in sorted
  {
    assert |multiset(Pairs(probs))| == |multiset(sorted)|;
    forall i | 0 <= i < |sorted| ensures 0 <= sorted[i].1 < |probs| && sorted[i].0 == probs[sorted[i].1] {
      assert sorted[i] in multiset(sorted);
      assert sorted[i] in Pairs(probs);
    }
    forall n | 0 <= n < |probs| ensures (probs[n], n) in sorted {
      assert Pairs(probs)[n] in multiset(Pairs(probs));
    }
  }

  // ----- the selected detections

  /** The surviving ones of the first k positions, each box with its own confidence and class. */
  ghost function Selected(f: Field, probs: seq<real>, k: nat): seq<Detection>
    requires f.Valid() && |probs| == |f.boxes| && k <= |f.order|
  {
    if k == 0 then []
    else
      var n := f.order[k - 1];
      Selected(f, probs, k - 1)
      + if f.Survives(k - 1) then [Detection(f.boxes[n], probs[n], f.classIds[n])] else []
  }

  ghost function Order(sorted: seq<(real, int)>): seq<int> {
    seq(|sorted|, i requires 0 <= i < |sorted| => sorted[i].1)
  }

  /** The selection part of the post-processing. */
  method SelectDetections(boxes: seq<Box>, probs: seq<real>, classIds: seq<int>, threshold: real, sorted: seq<(real, int)>)
    returns (results: seq<Detection>)
    requires |boxes| == |probs| == |classIds| && Sorted(Pairs(probs), sorted)
    ensures Field(boxes, classIds, Order(sorted), threshold).Valid() && |sorted| == |probs|
    ensures results == Selected(Field(boxes, classIds, Order(sorted), threshold), probs, |sorted|)
  {
    hide Field.Survives, CalculateOverlap, Selected;
    SortedIndices(probs, sorted);
    results := [];
    if |boxes| <= 0 {
      NoneSelected(Field(boxes, classIds, Order(sorted), threshold), probs);
      return;
    }
    var scores, indices := new real[|probs|], new int[|probs|];
    for i := 0 to |probs|
      invariant forall k :: 0 <= k < i ==> scores[k] == probs[k] && indices[k] == k
    {
      scores[i], indices[i] := probs[i], i;
    }
    assert scores[..] == probs && indices[..] == seq(|probs|, i => i);
    SortByConfidenceDesc(scores, indices, sorted);
    var f := Field(boxes, classIds, indices[..], threshold);
    assert f.order == Order(sorted);
    RunPasses(f, indices);
    results := Collect(f, scores, indices, probs);
  }

  lemma NoneSelected(f: Field, probs: seq<real>)
    requires f.Valid() && |probs| == |f.boxes|
    ensures Selected(f, probs, 0) == []
  {
  }

  /** The last loop: the boxes at the positions that kept their index. */
  method Collect(f: Field, scores: array<real>, a: array<int>, probs: seq<real>) returns (results: seq<Detection>)
    requires f.Valid() && |probs| == |f.boxes| == |f.order| == scores.Length == a.Length
    requires forall j: nat :: j < |f.order| ==> a[j] == (if f.Survives(j) then f.order[j] else -1) && scores[j] == probs[f.order[j]]
    ensures results == Selected(f, probs, |f.order|)
  {
    hide Field.Survives;
    results := [];
    for i := 0 to |probs|
      invariant results == Selected(f, probs, i)
    {
      if a[i] != -1 {
        var n := a[i];
        results := results + [Detection(f.boxes[n], scores[i], f.classIds[n])];
      }
    }
  }

  /** One pass for every class that occurs, in some order. */
  method RunPasses(f: Field, a: array<int>)
    requires f.Valid() && a[..] == f.order && |f.order| == |f.boxes|
    modifies a
    ensures forall j: nat :: j < |f.order| ==> a.Length == |f.order| && a[j] == if f.Survives(j) then f.order[j] else -1
  {
    var todo := set c | c in f.classIds;
    ghost var done := {};
    while todo != {}
      invariant f.After(a[..], done) && todo !! done && forall c :: c in f.classIds ==> c in todo || c in done
    {
      ghost var some := Member(todo);
      var c :| c in todo;
      Nms(f, a, c, done);
      todo, done := todo - {c}, done + {c};
    }
    forall j: nat | j < |f.order| ensures a[j] == if f.Survives(j) then f.order[j] else -1 {
      assert f.Class(j) in f.classIds;
      assert a[..][j] == a[j];
    }
  }

  /** Soundness: two survivors of one class overlap at most by the threshold, whichever comes first. */
  lemma SurvivorsApart(f: Field, i: nat, j: nat)
    requires f.Valid() && i < |f.order| && j < |f.order| && i != j
    requires f.Survives(i) && f.Survives(j) && f.Class(i) == f.Class(j)
    ensures CalculateOverlap(f.boxes[f.order[i]], f.boxes[f.order[j]]) <= f.threshold
  {
    OverlapSymmetric(f.boxes[f.order[i]], f.boxes[f.order[j]]);
    if i < j { assert !f.Beats(i, j); } else { assert !f.Beats(j, i); }
  }

  /** Completeness: a suppressed box overlaps above the threshold with an earlier survivor of
      its class that is at least as confident. */
  lemma SuppressedBy(f: Field, probs: seq<real>, sorted: seq<(real, int)>, j: nat) returns (i: nat)
    requires f.Valid() && |probs| == |f.boxes| && Sorted(Pairs(probs), sorted) && f.order == Order(sorted)
    requires j < |f.order| && !f.Survives(j)
    ensures i < j && f.Survives(i) && f.Class(i) == f.Class(j)
    ensures CalculateOverlap(f.boxes[f.order[i]], f.boxes[f.order[j]]) > f.threshold
    ensures probs[f.order[i]] >= probs[f.order[j]]
  {
    SortedIndices(probs, sorted);
    i :| i < j && f.Survives(i) && f.Beats(i, j);
    assert sorted[i].0 >= sorted[j].0;
  }

  /** The surviving ones of the first k positions. */
  ghost function Surviving(f: Field, k: nat): seq<nat>
    requires f.Valid() && k <= |f.order|
  {
    if k == 0 then [] else Surviving(f, k - 1) + if f.Survives(k - 1) then [k - 1] else []
  }

  lemma {:induction false} SurvivingExactly(f: Field, k: nat)
    requires f.Valid() && k <= |f.order|
    ensures Positions(Surviving(f, k), k) && forall n: nat :: n in Surviving(f, k) <==> n < k && f.Survives(n)
  {
    hide Field.Survives, Positions;
    if k == 0 {
      NoPositions();
    } else {
      SurvivingExactly(f, k - 1);
      var at := MorePositions(Surviving(f, k - 1), k - 1, f.Survives(k - 1));
      assert at == Surviving(f, k);
    }
  }

  lemma {:induction false} SelectedSurviving(f: Field, probs: seq<real>, k: nat)
    requires f.Valid() && |probs| == |f.boxes| && k <= |f.order|
    ensures var r, at := Selected(f, probs, k), Surviving(f, k);
            |r| == |at| && forall j :: 0 <= j < |at| ==>
              at[j] < k && var n := f.order[at[j]]; r[j] == Detection(f.boxes[n], probs[n], f.classIds[n])
  {
    hide Field.Survives;
    if k > 0 { SelectedSurviving(f, probs, k - 1); }
  }

  /** The detections given are those at the surviving positions and no others, in order of
      non-increasing confidence, each with its own box, confidence and class. */
  lemma SelectedExactly(f: Field, probs: seq<real>, sorted: seq<(real, int)>) returns (at: seq<nat>)
    requires f.Valid() && |probs| == |f.boxes| && Sorted(Pairs(probs), sorted) && f.order == Order(sorted)
    ensures Positions(at, |f.order|) && forall n: nat :: n in at <==> n < |f.order| && f.Survives(n)
    ensures var r := Selected(f, probs, |f.order|);
            && |r| == |at|
            && (forall j :: 0 <= j < |at| ==>
                  at[j] < |f.order| && var n := f.order[at[j]]; r[j] == Detection(f.boxes[n], probs[n], f.classIds[n]))
            && forall i, j :: 0 <= i < j < |r| ==> r[i].confidence >= r[j].confidence
  {
    hide Field.Survives, Selected, Surviving;
    SortedIndices(probs, sorted);
    at := Surviving(f, |f.order|);
    SurvivingExactly(f, |f.order|);
    SelectedSurviving(f, probs, |f.order|);
    var r := Selected(f, probs, |f.order|);
    forall i, j | 0 <= i < j < |r| ensures r[i].confidence >= r[j].confidence {
      assert sorted[at[i]].0 >= sorted[at[j]].0;
    }
  }
}
