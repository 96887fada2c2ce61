/** The SORT tracker on objects updated in place, against the relation of module Tracks. */
module SortTracking {
  import opened Assignment
  import opened Matching
  import opened Options
  import opened Tracks
  import opened Hungarian

  class KalmanTracker<K> {
    const trackId: nat
    const classId: int
    var filter: K
    var timeSinceUpdate: nat
    var hits: nat
    var hitStreak: nat
    var age: nat
    ghost var rounds: seq<bool>

    constructor (trackId: nat, classId: int, filter: K)
      ensures Snap() == Track(trackId, classId, filter, 0, 0, 0, 0, [])
    {
      this.trackId, this.classId, this.filter := trackId, classId, filter;
      timeSinceUpdate, hits, hitStreak, age, rounds := 0, 0, 0, 0, [];
    }

    ghost function Snap(): Track<K>
      reads this
    {
      Track(trackId, classId, filter, timeSinceUpdate, hits, hitStreak, age, rounds)
    }

    method Predict<D>(m: Motion<K, D>)
      modifies this
      ensures Snap() == Predicted(m, old(Snap()))
    {
      filter := m.predict(filter);
      age := age + 1;
      if timeSinceUpdate > 0 { hitStreak := 0; }
      timeSinceUpdate := timeSinceUpdate + 1;
      rounds := rounds + [false];
    }

    method Update<D>(m: Motion<K, D>, d: D)
      modifies this
      ensures Snap() == Updated(m, old(Snap()), d)
    {
      if classId != m.classOf(d) { return; }
      timeSinceUpdate := 0;
      hitStreak := hitStreak + 1;
      hits := hits + 1;
      filter := m.correct(filter, d);
      rounds := if rounds == [] then [] else rounds[|rounds| - 1 := true];
    }

    method IsOverAge(maxAge: nat) returns (b: bool)
      ensures b == OverAge(Snap(), maxAge)
    {
      b := timeSinceUpdate > maxAge;
    }

    method IsDetected(minHits: nat, requestSeq: int) returns (b: bool)
      ensures b == Detected(Snap(), minHits, requestSeq)
    {
      b := timeSinceUpdate < 1 && (hitStreak >= minHits || Unsigned(requestSeq) <= minHits);
    }
  }

  ghost predicate Separate<K>(ks: seq<KalmanTracker<K>>) {
    forall i, j :: 0 <= i < j < |ks| ==> ks[i] != ks[j]
  }

  class SORTTracker<K(!new), D(!new)> {
    const cfg: Config<K, D>
    const hungarian: HungarianSolver
    var kalmans: seq<KalmanTracker<K>>
    var predictedBoxes: seq<K>
    var created: nat
    ghost var tracks: seq<Track<K>>  // the state of the trackers, in order

    constructor (cfg: Config<K, D>)
      requires cfg.eps > 0.0
      ensures Valid() && this.cfg == cfg && Abstract() == State([], 1)
    {
      this.cfg := cfg;
      hungarian := new HungarianSolver(cfg.maxSize, cfg.eps);
      kalmans, predictedBoxes, created, tracks := [], [], 1, [];
    }

    ghost predicate Valid()
      reads this, kalmans
    {
      && Mirrored() && created < WIDTH
      && hungarian.Allocated() && hungarian.maxSize == cfg.maxSize && hungarian.eps == cfg.eps
    }

    /** Distinct tracker objects whose states `tracks` lists. */
    ghost predicate Mirrored()
      reads this, kalmans
    {
      && Separate(kalmans) && |tracks| == |kalmans|
      && forall i :: 0 <= i < |kalmans| ==> kalmans[i].Snap() == tracks[i]
    }

    ghost function Abstract(): State<K>
      reads this
    {
      State(tracks, created)
    }

    /** Predicts tracker i and keeps its box, or erases the tracker if the box leaves the frame. */
    method PredictOrErase(i: nat) returns (kept: bool)
      requires i < |kalmans|
      modifies this`kalmans, this`predictedBoxes, kalmans[i]
      ensures old(kalmans[i]).Snap() == Predicted(cfg.motion, old(kalmans[i].Snap()))
      ensures kept == cfg.motion.inFrame(old(kalmans[i]).filter)
      ensures kept ==> kalmans == old(kalmans) && predictedBoxes == old(predictedBoxes) + [old(kalmans[i]).filter]
      ensures !kept ==> kalmans == old(kalmans[..i] + kalmans[i + 1..]) && predictedBoxes == old(predictedBoxes)
    {
      kalmans[i].Predict(cfg.motion);
      kept := cfg.motion.inFrame(kalmans[i].filter);
      if kept {
        predictedBoxes := predictedBoxes + [kalmans[i].filter];
      } else {
        kalmans := kalmans[..i] + kalmans[i + 1..];
      }
    }

    /** The first `done` trackers of `all` are predicted: the survivors `kept` are in state `out`
        beside their boxes, and the rest follows untouched. */
    ghost predicate Scanned(all: seq<KalmanTracker<K>>, snaps: seq<Track<K>>, done: nat, kept: seq<KalmanTracker<K>>, out: seq<Track<K>>)
      reads this, all, kept
    {
      && |kept| == |out| == |predictedBoxes| && done <= |all| == |snaps| && kalmans == kept + all[done..]
      && Picks(kept, all[..done]) && out == Survivors(cfg.motion, snaps[..done])
      && (forall j :: done <= j < |all| ==> all[j].Snap() == snaps[j])
      && (forall j :: 0 <= j < |kept| ==> kept[j].Snap() == out[j] && predictedBoxes[j] == out[j].filter)
    }

    method PredictNext(ghost all: seq<KalmanTracker<K>>, ghost snaps: seq<Track<K>>, ghost done: nat,
                       ghost kept: seq<KalmanTracker<K>>, ghost out: seq<Track<K>>, i: nat)
      returns (i': nat, ghost kept': seq<KalmanTracker<K>>, ghost out': seq<Track<K>>)
      requires Scanned(all, snaps, done, kept, out) && Separate(all) && i == |kept| && done < |all|
      modifies this`kalmans, this`predictedBoxes, all
      ensures Scanned(all, snaps, done + 1, kept', out') && i' == |kept'|
    {
      hide Survivors, Predicted, Picks;
      SurvivorsNext(cfg.motion, snaps, done);
      PickNext(kept, all, done);
      assert kalmans[i] == all[done];
      var stays := PredictOrErase(i);
      if stays {
        i', kept', out' := i + 1, kept + [all[done]], out + [all[done].Snap()];
      } else {
        i', kept', out' := i, kept, out;
      }
    }

    /** Predicts every tracker; the survivors keep their order, each beside its own box. */
    method PredictAll()
      requires Mirrored()
      modifies this`kalmans, this`predictedBoxes, this`tracks, kalmans
      ensures Mirrored() && tracks == Survivors(cfg.motion, old(tracks))
      ensures |predictedBoxes| == |kalmans| && forall i :: 0 <= i < |kalmans| ==> predictedBoxes[i] == kalmans[i].filter
      ensures forall k :: k in kalmans ==> k in old(kalmans)
    {
      hide Survivors, Predicted, Picks;
      ghost var all, snaps, done := kalmans, tracks, 0;
      ghost var kept, out := [], [];
      PicksNone(all);
      SurvivorsNone(cfg.motion, snaps);
      predictedBoxes := [];
      var i := 0;
      while i < |kalmans|
        invariant i == |kept| && Scanned(all, snaps, done, kept, out)
        decreases |all| - done
      {
        i, kept, out := PredictNext(all, snaps, done, kept, out, i);
        done := done + 1;
      }
      assert snaps[..done] == snaps && all[..done] == all && kalmans == kept;
      PicksMean(kept, all);
      tracks := out;
    }

    method EraseAt(i: nat)
      requires Mirrored() && i < |kalmans|
      modifies this`kalmans, this`tracks
      ensures Mirrored() && tracks == old(tracks[..i] + tracks[i + 1..])
      ensures forall k :: k in kalmans ==> k in old(kalmans)
    {
      kalmans := kalmans[..i] + kalmans[i + 1..];
      tracks := tracks[..i] + tracks[i + 1..];
    }

    method UpdateAt(i: nat, d: D)
      requires Mirrored() && i < |kalmans|
      modifies this`tracks, kalmans[i]
      ensures Mirrored() && tracks == old(tracks)[i := Updated(cfg.motion, old(tracks[i]), d)]
    {
      hide Updated;
      kalmans[i].Update(cfg.motion, d);
      tracks := tracks[i := kalmans[i].Snap()];
    }

    /** Starts a tracker on a detection. */
    method Spawn(d: D)
      requires Mirrored() && created < WIDTH
      modifies this`kalmans, this`tracks, this`created
      ensures Mirrored() && tracks == old(tracks) + [Born(cfg.motion, old(created), d)]
      ensures created == (old(created) + 1) % WIDTH
      ensures forall k :: k in kalmans ==> k in old(kalmans) || fresh(k)
    {
      var k := new KalmanTracker(created, cfg.motion.classOf(d), cfg.motion.init(d));
      assert k !in kalmans;
      kalmans := kalmans + [k];
      tracks := tracks + [k.Snap()];
      created := (created + 1) % WIDTH;
    }

    /** Drops the trackers beyond the age limit. */
    method EraseOverAge()
      requires Mirrored()
      modifies this`kalmans, this`tracks
      ensures Mirrored() && tracks == Young(old(tracks), cfg.maxAge)
      ensures forall k :: k in kalmans ==> k in old(kalmans)
    {
      hide Mirrored, Young;
      ghost var ts, done, kept := tracks, 0, Young(tracks[..0], cfg.maxAge);
      YoungNone(tracks, cfg.maxAge);
      var i := 0;
      MirroredLength();
      while i < |kalmans|
        invariant Mirrored() && |kalmans| == |tracks|
        invariant i == |kept| && done <= |ts| && tracks == kept + ts[done..] && kept == Young(ts[..done], cfg.maxAge)
        invariant forall k :: k in kalmans ==> k in old(kalmans)
        decreases |ts| - done
      {
        YoungNext(ts, cfg.maxAge, done);
        MirroredAt(i);
        var old' := kalmans[i].IsOverAge(cfg.maxAge);
        if old' {
          EraseAt(i);
          MirroredLength();
        } else {
          kept := kept + [ts[done]];
          i := i + 1;
        }
        done := done + 1;
      }
      assert ts[..done] == ts;
    }

    /** Reports the detected trackers and drops the ones beyond the age limit. */
    method ReportAndAge(requestSeq: int) returns (results: seq<Report<K>>)
      requires Mirrored()
      modifies this`kalmans, this`tracks
      ensures Mirrored() && tracks == Young(old(tracks), cfg.maxAge)
      ensures results == Reports(old(tracks), cfg.minHits, requestSeq)
      ensures forall k :: k in kalmans ==> k in old(kalmans)
    {
      hide Mirrored, Young, Reports, OverAge, Detected;
      ghost var ts, done, kept := tracks, 0, Young(tracks[..0], cfg.maxAge);
      results := [];
      YoungNone(tracks, cfg.maxAge);
      ReportsNone(tracks, cfg.minHits, requestSeq);
      var i := 0;
      MirroredLength();
      while i < |kalmans|
        invariant Mirrored() && |kalmans| == |tracks|
        invariant i == |kept| && done <= |ts| && tracks == kept + ts[done..] && kept == Young(ts[..done], cfg.maxAge)
        invariant results == Reports(ts[..done], cfg.minHits, requestSeq)
        invariant forall k :: k in kalmans ==> k in old(kalmans)
        decreases |ts| - done
      {
        YoungNext(ts, cfg.maxAge, done);
        ReportsNext(ts, cfg.minHits, requestSeq, done);
        MirroredAt(i);
        var detected := kalmans[i].IsDetected(cfg.minHits, requestSeq);
        if detected {
          results := results + [Report(kalmans[i].trackId, kalmans[i].classId, kalmans[i].filter)];
        }
        var old' := kalmans[i].IsOverAge(cfg.maxAge);
        if old' {
          EraseAt(i);
          MirroredLength();
        } else {
          kept := kept + [ts[done]];
          i := i + 1;
        }
        done := done + 1;
      }
      assert ts[..done] == ts;
    }

    /** The first call: one tracker for every detection. */
    method Initialize(ds: seq<D>)
      requires Valid() && tracks == []
      modifies this`kalmans, this`tracks, this`created
      ensures Valid() && tracks == Births(cfg.motion, old(created), ds, Indices(|ds|)) && created == IdAfter(old(created), |ds|)
    {
      for n := 0 to |ds|
        invariant Valid() && tracks == Births(cfg.motion, old(created), ds, Indices(n)) && created == IdAfter(old(created), n)
        invariant forall k :: k in kalmans ==> k in old(kalmans) || fresh(k)
      {
        BirthsNext(cfg.motion, old(created), ds, Indices(n), n);
        assert Indices(n + 1) == Indices(n) + [n];
        Spawn(ds[n]);
      }
    }

    /** New trackers for the detections left over, in order. */
    method SpawnLeftover(ds: seq<D>, unmatched: set<int>, ghost chosen: seq<seq<nat>>)
      requires Mirrored() && created < WIDTH
      requires |chosen| == |ds| + 1 && chosen[0] == []
      requires forall n :: 0 <= n < |ds| ==> chosen[n + 1] == chosen[n] + if n in unmatched then [n] else []
      requires forall n, i :: 0 <= n < |chosen| && 0 <= i < |chosen[n]| ==> chosen[n][i] < |ds|
      modifies this`kalmans, this`tracks, this`created
      ensures Mirrored() && tracks == old(tracks) + Births(cfg.motion, old(created), ds, chosen[|ds|])
      ensures created == IdAfter(old(created), |chosen[|ds|]|)
      ensures forall k :: k in kalmans ==> k in old(kalmans) || fresh(k)
    {
      for n := 0 to |ds|
        invariant Mirrored() && tracks == old(tracks) + Births(cfg.motion, old(created), ds, chosen[n])
        invariant created == IdAfter(old(created), |chosen[n]|)
        invariant forall k :: k in kalmans ==> k in old(kalmans) || fresh(k)
      {
        if n in unmatched {
          BirthsNext(cfg.motion, old(created), ds, chosen[n], n);
          Spawn(ds[n]);
        }
      }
    }

    method BuildCosts(boxes: seq<K>, ds: seq<D>) returns (cost: seq<seq<real>>)
      ensures |cost| == |boxes| && forall i :: 0 <= i < |cost| ==> |cost[i]| == |ds|
      ensures forall i, j :: 0 <= i < |boxes| && 0 <= j < |ds| ==> cost[i][j] == 1.0 - cfg.motion.iou(boxes[i], ds[j])
    {
      cost := [];
      for i := 0 to |boxes|
        invariant |cost| == i && forall k :: 0 <= k < i ==> |cost[k]| == |ds|
        invariant forall k, j :: 0 <= k < i && 0 <= j < |ds| ==> cost[k][j] == 1.0 - cfg.motion.iou(boxes[k], ds[j])
      {
        var row := [];
        for j := 0 to |ds|
          invariant |row| == j && forall k :: 0 <= k < j ==> row[k] == 1.0 - cfg.motion.iou(boxes[i], ds[k])
        {
          row := row + [1.0 - cfg.motion.iou(boxes[i], ds[j])];
        }
        cost := cost + [row];
      }
    }

    /** Hands every paired detection to its tracker. */
    method UpdatePaired(pairs: seq<(nat, nat)>, ds: seq<D>, ghost cost: seq<seq<real>>, ghost a: seq<int>)
      requires Mirrored() && |kalmans| == |a| == |cost| && forall i :: 0 <= i < |a| ==> a[i] < |ds| && a[i] < |cost[i]|
      requires ArePairs(pairs, cost, a, cfg.threshold)
      modifies this`tracks, kalmans
      ensures Mirrored() && tracks == Corrected(cfg.motion, old(tracks), ds, cost, a, cfg.threshold)
    {
      hide Updated;
      ghost var ts, done := tracks, {};
      for q := 0 to |pairs|
        invariant Mirrored() && done == PairRows(pairs[..q]) && |tracks| == |ts|
        invariant forall i: nat :: i < |ts| ==> tracks[i] == if i in done then Updated(cfg.motion, ts[i], ds[a[i]]) else ts[i]
      {
        assert pairs[..q + 1] == pairs[..q] + [pairs[q]];
        PairRowsNext(pairs[..q], pairs[q]);
        assert pairs[q].0 !in done;
        UpdateAt(pairs[q].0, ds[pairs[q].1]);
        done := done + {pairs[q].0};
      }
      assert pairs[..|pairs|] == pairs;
    }

    method TrackObjects(objects: seq<D>, requestSeq: int) returns (r: Option<seq<Report<K>>>, ghost a: seq<int>)
      requires Valid()
      modifies this, kalmans
      modifies hungarian, hungarian.distIn, hungarian.dist, hungarian.star, hungarian.newStar, hungarian.prime
      modifies hungarian.coveredRows, hungarian.coveredCols, hungarian.assignment
      ensures Valid() && Step(cfg, old(Abstract()), objects, requestSeq, Abstract(), r, a)
    {
      r, a := None, [];
      if objects == [] || cfg.maxSize <= 0 { return; }
      if kalmans == [] {
        Initialize(objects);
        return;
      }
      PredictAll();
      if |predictedBoxes| > cfg.maxSize || |objects| > cfg.maxSize {
        EraseOverAge();
        return;
      }
      if |predictedBoxes| == 0 { return; }
      assert forall i :: 0 <= i < |kalmans| ==> kalmans[i] in old(kalmans);
      var results;
      results, a := MatchAndReport(objects, requestSeq);
      r := Some(results);
    }

    /** The solver's assignment on the costs of the surviving trackers. */
    method Assign(objects: seq<D>) returns (cost: seq<seq<real>>, a: seq<int>)
      requires Valid() && 0 < |kalmans| <= cfg.maxSize && |objects| <= cfg.maxSize
      requires |predictedBoxes| == |kalmans| && forall i :: 0 <= i < |kalmans| ==> predictedBoxes[i] == kalmans[i].filter
      modifies hungarian, hungarian.distIn, hungarian.dist, hungarian.star, hungarian.newStar, hungarian.prime
      modifies hungarian.coveredRows, hungarian.coveredCols, hungarian.assignment
      ensures cost == CostMatrix(cfg.motion, tracks, objects) && Complete(|tracks|, |objects|, a)
      ensures forall b :: Complete(|tracks|, |objects|, b) ==> NoWorse(cost, cfg.eps, a, b)
    {
      cost := BuildCosts(predictedBoxes, objects);
      CostsAreMatrix(cfg.motion, predictedBoxes, tracks, objects, cost);
      a := hungarian.Solve(cost);
    }

    /** The part of a call that reaches the solver. */
    method MatchAndReport(objects: seq<D>, requestSeq: int) returns (results: seq<Report<K>>, ghost a: seq<int>)
      requires Valid() && 0 < |kalmans| <= cfg.maxSize && |objects| <= cfg.maxSize
      requires |predictedBoxes| == |kalmans| && forall i :: 0 <= i < |kalmans| ==> predictedBoxes[i] == kalmans[i].filter
      modifies this`kalmans, this`tracks, this`created, kalmans
      modifies hungarian, hungarian.distIn, hungarian.dist, hungarian.star, hungarian.newStar, hungarian.prime
      modifies hungarian.coveredRows, hungarian.coveredCols, hungarian.assignment
      ensures Valid() && Complete(|old(tracks)|, |objects|, a)
      ensures Matched(cfg, old(created), old(tracks), objects, requestSeq, Abstract(), results, a)
    {
      hide Corrected, Births, Leftover, CostMatrix, NoWorse, Reports, Young, Shape;
      var cost, assignment := Assign(objects);
      a := assignment;
      HandOut(objects, cost, assignment);
      results := ReportAndAge(requestSeq);
      if created > cfg.resetAbove { created := 0; }
    }

    /** Updates the paired trackers and starts new ones for the detections left over. */
    method HandOut(objects: seq<D>, cost: seq<seq<real>>, a: seq<int>)
      requires Valid() && 0 < |tracks|
      requires cost == CostMatrix(cfg.motion, tracks, objects) && Complete(|tracks|, |objects|, a)
      modifies this`kalmans, this`tracks, this`created, kalmans
      ensures Mirrored() && tracks == Listed(cfg, old(created), old(tracks), objects, a)
      ensures created == IdAfter(old(created), |Chosen(cfg, old(tracks), objects, a)|)
    {
      hide Corrected, Births, Leftover, CostMatrix, ArePairs, Taken;
      MatrixShape(cfg.motion, tracks, objects);
      var pairs, unmatched := Split(cost, a, |objects|, cfg.threshold);
      UpdatePaired(pairs, objects, cost, a);
      ghost var chosen := Leftovers(cost, a, cfg.threshold, |objects|, unmatched);
      SpawnLeftover(objects, unmatched, chosen);
    }

    lemma MirroredLength()
      requires Mirrored()
      ensures |kalmans| == |tracks|
    {
    }

    lemma MirroredAt(i: nat)
      requires Mirrored() && i < |kalmans|
      ensures i < |tracks| && kalmans[i].Snap() == tracks[i]
    {
    }
  }

  ghost function PairRows(pairs: seq<(nat, nat)>): set<nat> { set p | p in pairs :: p.0 }

  /** The trackers and detections of the pairs within the threshold, each tracker once. */
  ghost predicate ArePairs(pairs: seq<(nat, nat)>, cost: seq<seq<real>>, a: seq<int>, threshold: real)
    requires |a| == |cost| && forall i :: 0 <= i < |a| ==> a[i] < |cost[i]|
  {
    && (forall q :: 0 <= q < |pairs| ==> pairs[q].0 < |a| && a[pairs[q].0] == pairs[q].1)
    && (forall q, q' :: 0 <= q < q' < |pairs| ==> pairs[q].0 != pairs[q'].0)
    && (forall i: nat :: i < |a| ==> (i in PairRows(pairs) <==> Paired(cost, a, threshold, i)))
  }

  lemma PairRowsNext(pairs: seq<(nat, nat)>, p: (nat, nat))
    ensures PairRows(pairs + [p]) == PairRows(pairs) + {p.0}
  {
    assert p in pairs + [p];
    assert forall q :: q in pairs ==> q in pairs + [p];
  }

  /** Splits the solver's assignment: pairs within the threshold, and the detections no
      tracker is handed. */
  method Split(cost: seq<seq<real>>, a: seq<int>, dets: nat, threshold: real) returns (pairs: seq<(nat, nat)>, unmatched: set<int>)
    requires Complete(|cost|, dets, a) && Shape(|cost|, dets, cost)
    ensures ArePairs(pairs, cost, a, threshold)
    ensures forall n :: n in unmatched <==> 0 <= n < dets && !Taken(cost, a, threshold, n)
  {
    unmatched := {};
    if dets > |cost| {
      var allItems := {};
      for n := 0 to dets
        invariant forall x :: x in allItems <==> 0 <= x < n
      {
        allItems := allItems + {n};
      }
      var matchedItems := {};
      for i := 0 to |cost|
        invariant forall x :: x in matchedItems <==> x in a[..i]
      {
        assert a[..i + 1] == a[..i] + [a[i]];
        matchedItems := matchedItems + {a[i]};
      }
      assert a[..|cost|] == a;
      unmatched := allItems - matchedItems;
    }
    ghost var before := unmatched;
    pairs := [];
    for i := 0 to |cost|
      invariant forall q :: 0 <= q < |pairs| ==> pairs[q].0 < i && a[pairs[q].0] == pairs[q].1
      invariant forall q, q' :: 0 <= q < q' < |pairs| ==> pairs[q].0 != pairs[q'].0
      invariant forall k: nat :: k < |a| ==> (k in PairRows(pairs) <==> k < i && Paired(cost, a, threshold, k))
      invariant forall n :: n in unmatched <==> n in before || Refused(cost, a, threshold, n, i)
    {
      if a[i] != -1 {
        if cost[i][a[i]] > threshold {
          unmatched := unmatched + {a[i]};
        } else {
          PairRowsNext(pairs, (i, a[i]));
          pairs := pairs + [(i, a[i])];
        }
      }
    }
    SplitCoversAll(cost, a, dets, threshold);
  }

  /** The detections left over, one prefix after the other. */
  lemma Leftovers(cost: seq<seq<real>>, a: seq<int>, threshold: real, dets: nat, unmatched: set<int>) returns (chosen: seq<seq<nat>>)
    requires |a| == |cost| && forall i :: 0 <= i < |a| ==> a[i] < |cost[i]|
    requires forall n :: n in unmatched <==> 0 <= n < dets && !Taken(cost, a, threshold, n)
    ensures |chosen| == dets + 1 && chosen[0] == [] && chosen[dets] == Leftover(cost, a, threshold, dets)
    ensures forall n :: 0 <= n < dets ==> chosen[n + 1] == chosen[n] + if n in unmatched then [n] else []
    ensures forall n, i :: 0 <= n < |chosen| && 0 <= i < |chosen[n]| ==> chosen[n][i] < dets
  {
    chosen := seq(dets + 1, n requires 0 <= n <= dets => Leftover(cost, a, threshold, n));
  }

  lemma CostsAreMatrix<K, D>(m: Motion<K, D>, boxes: seq<K>, ts: seq<Track<K>>, ds: seq<D>, cost: seq<seq<real>>)
    requires |boxes| == |ts| == |cost| && forall i :: 0 <= i < |ts| ==> boxes[i] == ts[i].filter && |cost[i]| == |ds|
    requires forall i, j :: 0 <= i < |boxes| && 0 <= j < |ds| ==> cost[i][j] == 1.0 - m.iou(boxes[i], ds[j])
    ensures cost == CostMatrix(m, ts, ds)
  {
    forall i | 0 <= i < |ts| ensures cost[i] == CostMatrix(m, ts, ds)[i] {
    }
  }

  lemma MatrixShape<K, D>(m: Motion<K, D>, ts: seq<Track<K>>, ds: seq<D>)
    ensures Shape(|ts|, |ds|, CostMatrix(m, ts, ds))
  {
  }

  /** One of the first k trackers has detection n above the threshold. */
  ghost predicate Refused(cost: seq<seq<real>>, a: seq<int>, threshold: real, n: int, k: nat)
    requires k <= |a| == |cost| && forall i :: 0 <= i < |a| ==> a[i] < |cost[i]|
  {
    exists i: nat :: i < k && a[i] == n >= 0 && cost[i][a[i]] > threshold
  }

  /** A complete assignment reaches every column when there are at least as many rows. */
  lemma EveryColumn(rows: nat, cols: nat, a: seq<int>, c: nat)
    requires Complete(rows, cols, a) && c < cols <= rows
    ensures c in a
  {
    if rows == cols {
      var m := map r: nat | r < rows :: a[r] as nat;
      MatchingSize(m);
      FullSize(m.Keys, rows);
      assert |m.Keys| == |m|;
      RangeSize(m.Values, cols);
      assert c in m.Values;
      var r :| r in m && m[r] == c;
      assert a[r] == c;
    }
  }

  /** With no more detections than trackers the solver assigns all of them. */
  lemma SplitCovers(cost: seq<seq<real>>, a: seq<int>, dets: nat, threshold: real, n: int)
    requires Complete(|cost|, dets, a) && Shape(|cost|, dets, cost)
    ensures (dets > |cost| && 0 <= n < dets && n !in a) || Refused(cost, a, threshold, n, |a|)
       <==> 0 <= n < dets && !Taken(cost, a, threshold, n)
  {
    if dets <= |cost| && 0 <= n < dets {
      EveryColumn(|cost|, dets, a, n);
    }
    if n in a {
      var i :| 0 <= i < |a| && a[i] == n;
      assert n >= 0 ==> Refused(cost, a, threshold, n, |a|) == (cost[i][n] > threshold);
      assert n >= 0 ==> Taken(cost, a, threshold, n) == Paired(cost, a, threshold, i);
    }
  }

  lemma SplitCoversAll(cost: seq<seq<real>>, a: seq<int>, dets: nat, threshold: real)
    requires Complete(|cost|, dets, a) && Shape(|cost|, dets, cost)
    ensures forall n :: (dets > |cost| && 0 <= n < dets && n !in a) || Refused(cost, a, threshold, n, |a|)
                   <==> 0 <= n < dets && !Taken(cost, a, threshold, n)
  {
    forall n ensures (dets > |cost| && 0 <= n < dets && n !in a) || Refused(cost, a, threshold, n, |a|)
                <==> 0 <= n < dets && !Taken(cost, a, threshold, n) {
      SplitCovers(cost, a, dets, threshold, n);
    }
  }

  lemma YoungNone<K>(ts: seq<Track<K>>, maxAge: nat)
    ensures Young(ts[..0], maxAge) == []
  {
  }

  lemma ReportsNone<K>(ts: seq<Track<K>>, minHits: nat, requestSeq: int)
    ensures Reports(ts[..0], minHits, requestSeq) == []
  {
  }

  /** `kept` picks distinct members of `from`. */
  ghost predicate Picks<T>(kept: seq<T>, from: seq<T>) {
    && (forall i, j :: 0 <= i < j < |kept| ==> kept[i] != kept[j])
    && forall i :: 0 <= i < |kept| ==> kept[i] in from
  }

  lemma PicksNone<T>(all: seq<T>)
    ensures Picks([], all[..0])
  {
  }

  lemma PicksMean<T>(kept: seq<T>, all: seq<T>)
    requires Picks(kept, all)
    ensures forall i, j :: 0 <= i < j < |kept| ==> kept[i] != kept[j]
    ensures forall x :: x in kept ==> x in all
  {
  }

  lemma PickNext<T>(kept: seq<T>, all: seq<T>, k: nat)
    requires k < |all| && Picks(kept, all[..k]) && forall i, j :: 0 <= i < j < |all| ==> all[i] != all[j]
    ensures Picks(kept, all[..k + 1]) && Picks(kept + [all[k]], all[..k + 1]) && all[k] !in kept
    ensures forall j :: k <= j < |all| ==> all[j] !in kept
  {
    assert all[..k + 1] == all[..k] + [all[k]];
    assert all[k] in all[..k + 1];
  }
}
