/** What each call does to the trackers and which it must report, told by detections, boxes and
    the rounds in which a tracker was updated. */
module TrackLives {
  import opened Assignment
  import opened Collections
  import opened Matching
  import opened Options
  import opened Tracks

  /** A tracker one round on: predicted, with no update in the round yet. */
  ghost predicate RoundOn<K, D>(m: Motion<K, D>, t: Track<K>, t': Track<K>) {
    && t'.id == t.id && t'.classId == t.classId && t'.filter == m.predict(t.filter)
    && t'.rounds == t.rounds + [false] && t'.timeSinceUpdate == t.timeSinceUpdate + 1
  }

  // ----- sieves over the list of trackers

  lemma SurvivorsNothing<K, D>(m: Motion<K, D>, ts: seq<Track<K>>)
    ensures ts == [] ==> Survivors(m, ts) == []
  {
  }

  lemma YoungNothing<K>(ts: seq<Track<K>>, maxAge: nat)
    ensures ts == [] ==> Young(ts, maxAge) == []
  {
  }

  lemma ReportsNothing<K>(ts: seq<Track<K>>, minHits: nat, requestSeq: int)
    ensures ts == [] ==> Reports(ts, minHits, requestSeq) == []
  {
  }

  lemma {:induction false} SurvivorsAt<K, D>(m: Motion<K, D>, ts: seq<Track<K>>) returns (at: seq<nat>)
    ensures Positions(at, |ts|) && |Survivors(m, ts)| == |at|
    ensures forall n: nat :: n in at <==> n < |ts| && m.inFrame(m.predict(ts[n].filter))
    ensures forall j :: 0 <= j < |at| ==> Survivors(m, ts)[j] == Predicted(m, ts[at[j]]) && RoundOn(m, ts[at[j]], Survivors(m, ts)[j])
  {
    hide Positions, Survivors;
    if ts == [] {
      at := [];
      NoPositions();
      SurvivorsNothing(m, ts);
    } else {
      var n := |ts| - 1;
      var p := SurvivorsAt(m, ts[..n]);
      at := MorePositions(p, n, m.inFrame(m.predict(ts[n].filter)));
      SurvivorsNext(m, ts, n);
      assert ts[..n + 1] == ts && forall k :: 0 <= k < n ==> ts[..n][k] == ts[k];
    }
  }

  lemma {:induction false} YoungAt<K>(ts: seq<Track<K>>, maxAge: nat) returns (at: seq<nat>)
    ensures Positions(at, |ts|) && |Young(ts, maxAge)| == |at|
    ensures forall n: nat :: n in at <==> n < |ts| && ts[n].timeSinceUpdate <= maxAge
    ensures forall j :: 0 <= j < |at| ==> Young(ts, maxAge)[j] == ts[at[j]]
  {
    hide Positions, Young;
    if ts == [] {
      at := [];
      NoPositions();
      YoungNothing(ts, maxAge);
    } else {
      var n := |ts| - 1;
      var p := YoungAt(ts[..n], maxAge);
      at := MorePositions(p, n, ts[n].timeSinceUpdate <= maxAge);
      YoungNext(ts, maxAge, n);
      assert ts[..n + 1] == ts && forall k :: 0 <= k < n ==> ts[..n][k] == ts[k];
    }
  }

  lemma {:induction false} ReportsAt<K>(ts: seq<Track<K>>, minHits: nat, requestSeq: int) returns (at: seq<nat>)
    ensures Positions(at, |ts|) && |Reports(ts, minHits, requestSeq)| == |at|
    ensures forall n: nat :: n in at <==>
              n < |ts| && ts[n].timeSinceUpdate == 0 && (ts[n].hitStreak >= minHits || requestSeq % 0x1_0000_0000 <= minHits)
    ensures forall j :: 0 <= j < |at| ==>
              Reports(ts, minHits, requestSeq)[j] == Report(ts[at[j]].id, ts[at[j]].classId, ts[at[j]].filter)
  {
    hide Positions, Reports;
    if ts == [] {
      at := [];
      NoPositions();
      ReportsNothing(ts, minHits, requestSeq);
    } else {
      var n := |ts| - 1;
      var p := ReportsAt(ts[..n], minHits, requestSeq);
      at := MorePositions(p, n, Detected(ts[n], minHits, requestSeq));
      ReportsNext(ts, minHits, requestSeq, n);
      assert ts[..n + 1] == ts && forall k :: 0 <= k < n ==> ts[..n][k] == ts[k];
    }
  }

  // ----- what a call does to each tracker

  /** The solver gave tracker i a detection of its class that overlaps enough. */
  ghost predicate UpdatedBy<K, D>(cfg: Config<K, D>, ts: seq<Track<K>>, ds: seq<D>, a: seq<int>, i: nat)
    requires Complete(|ts|, |ds|, a)
  {
    i < |ts| && a[i] >= 0 && cfg.motion.iou(ts[i].filter, ds[a[i]]) >= 1.0 - cfg.threshold && cfg.motion.classOf(ds[a[i]]) == ts[i].classId
  }

  /** Detection n is the solver's choice for a tracker that it overlaps enough. */
  ghost predicate Matches<K, D>(cfg: Config<K, D>, ts: seq<Track<K>>, ds: seq<D>, a: seq<int>, n: nat)
    requires Complete(|ts|, |ds|, a) && n < |ds|
  {
    exists i: nat :: i < |ts| && a[i] == n && cfg.motion.iou(ts[i].filter, ds[n]) >= 1.0 - cfg.threshold
  }

  /** The surviving trackers after a call that matches: exactly those given a detection of their
      class that overlaps enough are corrected, with that detection, and the round counts as
      updated; the others stay as predicted. */
  lemma CorrectedExactly<K, D>(cfg: Config<K, D>, created: nat, ts: seq<Track<K>>, ds: seq<D>, a: seq<int>, i: nat)
    requires Complete(|ts|, |ds|, a) && i < |ts|
    ensures var t, t' := ts[i], Listed(cfg, created, ts, ds, a)[i];
            if UpdatedBy(cfg, ts, ds, a, i) then
              && t'.id == t.id && t'.classId == t.classId && t'.filter == cfg.motion.correct(t.filter, ds[a[i]])
              && t'.timeSinceUpdate == 0 && |t'.rounds| == |t.rounds|
              && forall k :: 0 <= k < |t.rounds| ==> t'.rounds[k] == (t.rounds[k] || k == |t.rounds| - 1)
            else t' == t
  {
    assert Paired(CostMatrix(cfg.motion, ts, ds), a, cfg.threshold, i) <==> a[i] >= 0 && 1.0 - cfg.motion.iou(ts[i].filter, ds[a[i]]) <= cfg.threshold;
  }

  lemma MatchesTaken<K, D>(cfg: Config<K, D>, ts: seq<Track<K>>, ds: seq<D>, a: seq<int>, n: nat)
    requires Complete(|ts|, |ds|, a) && n < |ds|
    ensures Matches(cfg, ts, ds, a, n) <==> Taken(CostMatrix(cfg.motion, ts, ds), a, cfg.threshold, n)
  {
    var cost := CostMatrix(cfg.motion, ts, ds);
    if Matches(cfg, ts, ds, a, n) {
      var i: nat :| i < |ts| && a[i] == n && cfg.motion.iou(ts[i].filter, ds[n]) >= 1.0 - cfg.threshold;
      assert Paired(cost, a, cfg.threshold, i);
    }
  }

  /** The trackers a matching call starts: one for every detection that matches no tracker, in
      order, with the next ids. */
  lemma StartedExactly<K, D>(cfg: Config<K, D>, created: nat, ts: seq<Track<K>>, ds: seq<D>, a: seq<int>) returns (at: seq<nat>)
    requires Complete(|ts|, |ds|, a)
    ensures Positions(at, |ds|) && forall n: nat :: n in at <==> n < |ds| && !Matches(cfg, ts, ds, a, n)
    ensures var all := Listed(cfg, created, ts, ds, a);
            && |all| == |ts| + |at|
            && forall j :: 0 <= j < |at| ==>
                 all[|ts| + j] == Track((created + j) % 0x1_0000_0000, cfg.motion.classOf(ds[at[j]]), cfg.motion.init(ds[at[j]]), 0, 0, 0, 0, [])
  {
    hide Matches, Listed, Positions;
    at := ChosenAt(cfg, ts, ds, a);
    ListedStarts(cfg, created, ts, ds, a);
    forall n: nat ensures n in at <==> n < |ds| && !Matches(cfg, ts, ds, a, n) {
      if n < |ds| { MatchesTaken(cfg, ts, ds, a, n); }
    }
  }

  lemma ChosenAt<K, D>(cfg: Config<K, D>, ts: seq<Track<K>>, ds: seq<D>, a: seq<int>) returns (at: seq<nat>)
    requires Complete(|ts|, |ds|, a)
    ensures at == Chosen(cfg, ts, ds, a) && Positions(at, |ds|)
    ensures forall n: nat :: n in at <==> n < |ds| && !Taken(CostMatrix(cfg.motion, ts, ds), a, cfg.threshold, n)
  {
    hide Leftover, Taken;
    LeftoverExact(CostMatrix(cfg.motion, ts, ds), a, cfg.threshold, |ds|);
    at := Chosen(cfg, ts, ds, a);
  }

  lemma ListedStarts<K, D>(cfg: Config<K, D>, created: nat, ts: seq<Track<K>>, ds: seq<D>, a: seq<int>)
    requires Complete(|ts|, |ds|, a)
    ensures var all, at := Listed(cfg, created, ts, ds, a), Chosen(cfg, ts, ds, a);
            && |all| == |ts| + |at|
            && forall j :: 0 <= j < |at| ==>
                 at[j] < |ds| && all[|ts| + j] == Track((created + j) % 0x1_0000_0000, cfg.motion.classOf(ds[at[j]]), cfg.motion.init(ds[at[j]]), 0, 0, 0, 0, [])
  {
    hide Complete, Leftover, Taken;
  }

  // ----- calls that do not match

  /** A call that predicts but does not match keeps exactly the trackers whose predicted box is in
      the frame and that are within the age limit, and starts none. */
  lemma UnmatchedExactly<K, D>(cfg: Config<K, D>, s: State<K>, ds: seq<D>, requestSeq: int,
    s': State<K>, r: Option<seq<Report<K>>>, a: seq<int>) returns (at: seq<nat>)
    requires Step(cfg, s, ds, requestSeq, s', r, a) && r.None? && ds != [] && cfg.maxSize > 0 && s.tracks != []
    ensures s'.created == s.created && Positions(at, |s.tracks|) && |s'.tracks| == |at|
    ensures forall n: nat :: n in at <==>
              n < |s.tracks| && cfg.motion.inFrame(cfg.motion.predict(s.tracks[n].filter)) && s.tracks[n].timeSinceUpdate + 1 <= cfg.maxAge
    ensures forall j :: 0 <= j < |at| ==> RoundOn(cfg.motion, s.tracks[at[j]], s'.tracks[j])
  {
    hide Survivors, Matched;
    var ts := Survivors(cfg.motion, s.tracks);
    var p := SurvivorsAt(cfg.motion, s.tracks);
    var q := YoungAt(ts, cfg.maxAge);
    at := ComposedPositions(p, q, |s.tracks|);
    assert s'.tracks == Young(ts, cfg.maxAge);
    forall n: nat ensures n in at <==>
      n < |s.tracks| && cfg.motion.inFrame(cfg.motion.predict(s.tracks[n].filter)) && s.tracks[n].timeSinceUpdate + 1 <= cfg.maxAge
    {
      if n in p {
        var i := PositionOf(p, n);
        assert ts[i] == Predicted(cfg.motion, s.tracks[n]);
      }
    }
  }

  /** When a call matches and reports. */
  lemma MatchesExactly<K, D>(cfg: Config<K, D>, s: State<K>, ds: seq<D>, requestSeq: int,
    s': State<K>, r: Option<seq<Report<K>>>, a: seq<int>) returns (at: seq<nat>)
    requires Step(cfg, s, ds, requestSeq, s', r, a)
    ensures Positions(at, |s.tracks|) && forall n: nat :: n in at <==> n < |s.tracks| && cfg.motion.inFrame(cfg.motion.predict(s.tracks[n].filter))
    ensures r.Some? <==> 0 < |at| <= cfg.maxSize && 0 < |ds| <= cfg.maxSize
    ensures r.Some? ==> Complete(|at|, |ds|, a)
  {
    at := SurvivorsAt(cfg.motion, s.tracks);
  }

  /** After a call that matches, exactly the listed trackers within the age limit go on, unchanged,
      and the counter has moved by the trackers started, back to zero beyond its limit. */
  lemma KeptExactly<K, D>(cfg: Config<K, D>, s: State<K>, ds: seq<D>, requestSeq: int,
    s': State<K>, r: Option<seq<Report<K>>>, a: seq<int>) returns (at: seq<nat>)
    requires Step(cfg, s, ds, requestSeq, s', r, a) && r.Some?
    ensures var ts := Survivors(cfg.motion, s.tracks);
            var all := Listed(cfg, s.created, ts, ds, a);
            && Positions(at, |all|) && |s'.tracks| == |at|
            && (forall n: nat :: n in at <==> n < |all| && all[n].timeSinceUpdate <= cfg.maxAge)
            && (forall j :: 0 <= j < |at| ==> s'.tracks[j] == all[at[j]])
            && var next := (s.created + |all| - |ts|) % 0x1_0000_0000;
               s'.created == if next > cfg.resetAbove then 0 else next
  {
    hide Survivors, Young, NoWorse, Complete;
    at := YoungAt(Listed(cfg, s.created, Survivors(cfg.motion, s.tracks), ds, a), cfg.maxAge);
  }

  /** A call without trackers starts one for every detection, in order. */
  lemma FirstExactly<K, D>(cfg: Config<K, D>, s: State<K>, ds: seq<D>, requestSeq: int,
    s': State<K>, r: Option<seq<Report<K>>>, a: seq<int>)
    requires Step(cfg, s, ds, requestSeq, s', r, a) && ds != [] && cfg.maxSize > 0 && s.tracks == []
    ensures r.None? && s'.created == (s.created + |ds|) % 0x1_0000_0000 && |s'.tracks| == |ds|
    ensures forall j :: 0 <= j < |ds| ==>
              s'.tracks[j] == Track((s.created + j) % 0x1_0000_0000, cfg.motion.classOf(ds[j]), cfg.motion.init(ds[j]), 0, 0, 0, 0, [])
  {
  }

  // ----- which trackers a call reports

  /** After warm-up a tracker is reported only in a streak: each of its last `minHits` rounds
      brought an update. */
  predicate Steady<K>(t: Track<K>, minHits: nat) {
    minHits <= |t.rounds| && forall i :: |t.rounds| - minHits <= i < |t.rounds| ==> t.rounds[i]
  }

  lemma SteadyStreak<K>(t: Track<K>, minHits: nat)
    requires Faithful(t) && t.timeSinceUpdate == 0
    ensures t.hitStreak >= minHits <==> Steady(t, minHits)
  {
    DetectedStreak(t);
    RunMeans(t.rounds, minHits);
  }

  /** The reports of a call are, in order, exactly those about the trackers updated or born in it
      that are within the first `minHits` calls or steady. */
  lemma ReportedExactly<K, D>(cfg: Config<K, D>, s: State<K>, ds: seq<D>, requestSeq: int,
    s': State<K>, r: Option<seq<Report<K>>>, a: seq<int>) returns (at: seq<nat>)
    requires Step(cfg, s, ds, requestSeq, s', r, a) && r.Some? && AllFaithful(s.tracks)
    ensures var ts := Survivors(cfg.motion, s.tracks);
            var all := Listed(cfg, s.created, ts, ds, a);
            && Positions(at, |all|) && |r.value| == |at|
            && (forall j :: 0 <= j < |at| ==> r.value[j] == Report(all[at[j]].id, all[at[j]].classId, all[at[j]].filter))
            && forall n: nat :: n in at <==>
                 && n < |all| && (n >= |ts| || UpdatedBy(cfg, ts, ds, a, n))
                 && (requestSeq % 0x1_0000_0000 <= cfg.minHits || Steady(all[n], cfg.minHits))
  {
    hide Listed, Chosen, Survivors, Young, Complete, NoWorse, Faithful, Reports, UpdatedBy, Steady;
    var ts := Survivors(cfg.motion, s.tracks);
    SurvivorsFaithful(cfg.motion, s.tracks);
    SurvivorsFresh(cfg.motion, s.tracks);
    var all := Listed(cfg, s.created, ts, ds, a);
    ListedFaithful(cfg, s.created, ts, ds, a);
    at := ReportsAt(all, cfg.minHits, requestSeq);
    var born := StartedExactly(cfg, s.created, ts, ds, a);
    forall n: nat | n < |all|
      ensures all[n].timeSinceUpdate == 0 <==> n >= |ts| || UpdatedBy(cfg, ts, ds, a, n)
      ensures all[n].timeSinceUpdate == 0 ==> (all[n].hitStreak >= cfg.minHits <==> Steady(all[n], cfg.minHits))
    {
      assert all[n] in all;
      if n < |ts| {
        assert ts[n] in ts;
        CorrectedExactly(cfg, s.created, ts, ds, a, n);
      } else {
        var j := n - |ts|;
        assert born[j] < |ds| && all[|ts| + j].timeSinceUpdate == 0;
      }
      if all[n].timeSinceUpdate == 0 { SteadyStreak(all[n], cfg.minHits); }
    }
  }

  /** The same for every call of every run. */
  lemma RunReportedExactly<K, D>(cfg: Config<K, D>, states: seq<State<K>>, calls: seq<Call<K, D>>, k: nat) returns (at: seq<nat>)
    requires IsRun(cfg, states, calls) && k < |calls| && calls[k].result.Some?
    ensures var c := calls[k];
            var ts := Survivors(cfg.motion, states[k].tracks);
            && Complete(|ts|, |c.ds|, c.a)
            && var all := Listed(cfg, states[k].created, ts, c.ds, c.a);
               && Positions(at, |all|) && |c.result.value| == |at|
               && (forall j :: 0 <= j < |at| ==> c.result.value[j] == Report(all[at[j]].id, all[at[j]].classId, all[at[j]].filter))
               && forall n: nat :: n in at <==>
                    && n < |all| && (n >= |ts| || UpdatedBy(cfg, ts, c.ds, c.a, n))
                    && (c.requestSeq % 0x1_0000_0000 <= cfg.minHits || Steady(all[n], cfg.minHits))
  {
    hide AllFaithful, Listed, Survivors, UpdatedBy, Steady;
    RunCounters(cfg, states, calls, k);
    var c := calls[k];
    at := ReportedExactly(cfg, states[k], c.ds, c.requestSeq, states[k + 1], c.result, c.a);
  }
}
