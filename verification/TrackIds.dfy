/** Track ids beyond the reset of the counter, and what the class of a tracker changes. */
module TrackIds {
  import opened Assignment
  import opened Options
  import opened Tracks

  // ----- classes

  /** The hit counter of tracker i moves in this call, with detection n. */
  ghost predicate Hit<K, D>(cfg: Config<K, D>, created: nat, ts: seq<Track<K>>, ds: seq<D>, a: seq<int>, n: nat, i: nat)
    requires Complete(|ts|, |ds|, a)
  {
    i < |ts| && a[i] == n && Listed(cfg, created, ts, ds, a)[i].hits == ts[i].hits + 1
  }

  /** No tracker of another class is handed detection n. */
  ghost predicate ClassFits<K, D>(cfg: Config<K, D>, ts: seq<Track<K>>, ds: seq<D>, a: seq<int>, n: nat)
    requires Complete(|ts|, |ds|, a) && n < |ds|
  {
    forall i: nat :: i < |ts| && a[i] == n && Paired(CostMatrix(cfg.motion, ts, ds), a, cfg.threshold, i) ==> ts[i].classId == cfg.motion.classOf(ds[n])
  }

  /** A detection updates a tracker or starts one, and only one of these, if and only if the
      tracker it is handed to has its class; otherwise it does neither. */
  lemma DetectionUsed<K, D>(cfg: Config<K, D>, s: State<K>, ds: seq<D>, requestSeq: int,
    s': State<K>, r: Option<seq<Report<K>>>, a: seq<int>, n: nat)
    requires Step(cfg, s, ds, requestSeq, s', r, a) && r.Some? && n < |ds|
    ensures var ts := Survivors(cfg.motion, s.tracks);
            var chosen := Chosen(cfg, ts, ds, a);
            && ((exists i: nat :: Hit(cfg, s.created, ts, ds, a, n, i)) || n in chosen <==> ClassFits(cfg, ts, ds, a, n))
            && (n in chosen ==> forall i: nat :: !Hit(cfg, s.created, ts, ds, a, n, i))
            && (forall i: nat, j: nat :: Hit(cfg, s.created, ts, ds, a, n, i) && Hit(cfg, s.created, ts, ds, a, n, j) ==> i == j)
  {
    hide NoWorse, Survivors;
    var ts := Survivors(cfg.motion, s.tracks);
    var cost := CostMatrix(cfg.motion, ts, ds);
    Conservation(cfg, s, ds, requestSeq, s', r, a);
    forall i: nat | i < |ts| && a[i] == n
      ensures Hit(cfg, s.created, ts, ds, a, n, i) <==> Paired(cost, a, cfg.threshold, i) && ts[i].classId == cfg.motion.classOf(ds[n]) {}
    if Taken(cost, a, cfg.threshold, n) {
      var i: nat :| i < |a| && a[i] == n && Paired(cost, a, cfg.threshold, i);
      assert Hit(cfg, s.created, ts, ds, a, n, i) <==> ts[i].classId == cfg.motion.classOf(ds[n]);
    }
  }

  ghost predicate OneClass<K>(ts: seq<Track<K>>, classId: int) { forall t :: t in ts ==> t.classId == classId }

  ghost predicate AllOf<K, D>(cfg: Config<K, D>, ds: seq<D>, classId: int) { forall d :: d in ds ==> cfg.motion.classOf(d) == classId }

  lemma {:induction false} SurvivorsClass<K, D>(m: Motion<K, D>, ts: seq<Track<K>>, classId: int)
    requires OneClass(ts, classId)
    ensures OneClass(Survivors(m, ts), classId)
  {
    if ts != [] { SurvivorsClass(m, ts[..|ts| - 1], classId); }
  }

  lemma StepClass<K, D>(cfg: Config<K, D>, s: State<K>, ds: seq<D>, requestSeq: int,
    s': State<K>, r: Option<seq<Report<K>>>, a: seq<int>, classId: int)
    requires Step(cfg, s, ds, requestSeq, s', r, a) && OneClass(s.tracks, classId) && AllOf(cfg, ds, classId)
    ensures OneClass(s'.tracks, classId)
  {
    hide NoWorse, Survivors, Young, CostMatrix, Reports;
    SurvivorsClass(cfg.motion, s.tracks, classId);
    var ts := Survivors(cfg.motion, s.tracks);
    YoungIds(ts, cfg.maxAge);
    if r.Some? { YoungIds(Listed(cfg, s.created, ts, ds, a), cfg.maxAge); }
  }

  /** With detections of one class in every call of a run, as the detector unit calls a tracker,
      every detection of every call that matches updates a tracker or starts one. */
  lemma {:induction false} OneClassUsesAll<K, D>(cfg: Config<K, D>, states: seq<State<K>>, calls: seq<Call<K, D>>, classId: int, k: nat)
    requires IsRun(cfg, states, calls) && k < |states| && forall i :: 0 <= i < |calls| ==> AllOf(cfg, calls[i].ds, classId)
    ensures OneClass(states[k].tracks, classId)
    ensures k < |calls| && calls[k].result.Some? ==>
              var c, ts := calls[k], Survivors(cfg.motion, states[k].tracks);
              Complete(|ts|, |c.ds|, c.a) && forall n: nat :: n < |c.ds| ==> Used(cfg, states[k].created, ts, c.ds, c.a, n)
  {
    hide Step, OneClass, AllOf, Used;
    if k > 0 {
      OneClassUsesAll(cfg, states, calls, classId, k - 1);
      var c := calls[k - 1];
      StepClass(cfg, states[k - 1], c.ds, c.requestSeq, states[k], c.result, c.a, classId);
    } else {
      NoTracks<K>(classId);
    }
    if k < |calls| && calls[k].result.Some? {
      var c := calls[k];
      Conservation(cfg, states[k], c.ds, c.requestSeq, states[k + 1], c.result, c.a);
      forall n: nat | n < |c.ds| ensures Used(cfg, states[k].created, Survivors(cfg.motion, states[k].tracks), c.ds, c.a, n) {
        OneClassUsed(cfg, states[k], c.ds, c.requestSeq, states[k + 1], c.result, c.a, n, classId);
      }
    }
  }

  lemma NoTracks<K>(classId: int)
    ensures OneClass<K>([], classId)
  {
  }

  /** Detection n updates a tracker or starts one. */
  ghost predicate Used<K, D>(cfg: Config<K, D>, created: nat, ts: seq<Track<K>>, ds: seq<D>, a: seq<int>, n: nat)
    requires Complete(|ts|, |ds|, a)
  {
    (exists i: nat :: Hit(cfg, created, ts, ds, a, n, i)) || n in Chosen(cfg, ts, ds, a)
  }

  lemma OneClassUsed<K, D>(cfg: Config<K, D>, s: State<K>, ds: seq<D>, requestSeq: int,
    s': State<K>, r: Option<seq<Report<K>>>, a: seq<int>, n: nat, classId: int)
    requires Step(cfg, s, ds, requestSeq, s', r, a) && r.Some? && n < |ds| && OneClass(s.tracks, classId) && AllOf(cfg, ds, classId)
    ensures Used(cfg, s.created, Survivors(cfg.motion, s.tracks), ds, a, n)
  {
    DetectionUsed(cfg, s, ds, requestSeq, s', r, a, n);
    SurvivorsClass(cfg.motion, s.tracks, classId);
    var ts := Survivors(cfg.motion, s.tracks);
    forall i: nat | i < |ts| ensures ts[i].classId == classId { assert ts[i] in ts; }
    assert ds[n] in ds;
  }

  // ----- ids after the reset

  /** The next n ids are different and none of them is in use. */
  ghost predicate Unused(ids: set<nat>, created: nat, n: nat) {
    n <= WIDTH && forall i: nat :: i < n ==> IdAfter(created, i) !in ids
  }

  lemma IdsApart(created: nat, i: nat, j: nat)
    requires i < j && j - i < WIDTH
    ensures IdAfter(created, i) != IdAfter(created, j)
  {
    var x, y := created + i, created + j;
    assert x == x / WIDTH * WIDTH + x % WIDTH && y == y / WIDTH * WIDTH + y % WIDTH;
  }

  lemma IdsRepeat(created: nat)
    ensures IdAfter(created, 0) == IdAfter(created, WIDTH)
  {
  }

  /** The trackers of a matching call have different ids if and only if none of those it starts
      gets an id in use. */
  lemma ListedDistinct<K, D>(cfg: Config<K, D>, created: nat, ts: seq<Track<K>>, ds: seq<D>, a: seq<int>)
    requires Complete(|ts|, |ds|, a) && DistinctIds(ts)
    ensures DistinctIds(Listed(cfg, created, ts, ds, a)) <==> Unused(Ids(ts), created, |Chosen(cfg, ts, ds, a)|)
  {
    hide Complete, Chosen, CostMatrix, IdAfter;
    var all, n := Listed(cfg, created, ts, ds, a), |Chosen(cfg, ts, ds, a)|;
    assert |all| == |ts| + n;
    forall i | 0 <= i < |all| ensures all[i].id == if i < |ts| then ts[i].id else IdAfter(created, i - |ts|) {}
    forall i | 0 <= i < |ts| ensures ts[i].id in Ids(ts) { assert ts[i] in ts; }
    if Unused(Ids(ts), created, n) {
      forall i, j | 0 <= i < j < |all| ensures all[i].id != all[j].id {
        if |ts| <= i { IdsApart(created, i - |ts|, j - |ts|); }
      }
    } else if n > WIDTH {
      IdsRepeat(created);
      assert all[|ts|].id == all[|ts| + WIDTH].id;
    } else {
      var i: nat :| i < n && IdAfter(created, i) in Ids(ts);
      var t :| t in ts && t.id == IdAfter(created, i);
      var k :| 0 <= k < |ts| && ts[k] == t;
      assert all[k].id == all[|ts| + i].id;
    }
  }

  /** The ids a call is about to issue are unused by the trackers that survive in it. */
  ghost predicate Clear<K, D>(cfg: Config<K, D>, s: State<K>, ds: seq<D>, a: seq<int>) {
    if ds == [] || cfg.maxSize == 0 then true
    else if s.tracks == [] then |ds| <= WIDTH
    else
      var ts := Survivors(cfg.motion, s.tracks);
      0 < |ts| <= cfg.maxSize && |ds| <= cfg.maxSize && Complete(|ts|, |ds|, a) ==> Unused(Ids(ts), s.created, |Chosen(cfg, ts, ds, a)|)
  }

  lemma StepDistinct<K, D>(cfg: Config<K, D>, s: State<K>, ds: seq<D>, requestSeq: int,
    s': State<K>, r: Option<seq<Report<K>>>, a: seq<int>)
    requires Step(cfg, s, ds, requestSeq, s', r, a) && DistinctIds(s.tracks) && Clear(cfg, s, ds, a)
    ensures DistinctIds(s'.tracks) && (r.Some? ==> DistinctReports(r.value))
  {
    hide Listed, Chosen, Survivors, Young, Reports, DistinctIds, Complete, NoWorse, Unused, IdAfter;
    if ds == [] || cfg.maxSize == 0 {
    } else if s.tracks == [] {
      BornDistinct(cfg.motion, s.created, ds);
    } else {
      var ts := Survivors(cfg.motion, s.tracks);
      SurvivorsIds(cfg.motion, s.tracks);
      if r.Some? {
        var all := Listed(cfg, s.created, ts, ds, a);
        ListedDistinct(cfg, s.created, ts, ds, a);
        YoungIds(all, cfg.maxAge);
        ReportsIds(all, cfg.minHits, requestSeq);
      } else {
        YoungIds(ts, cfg.maxAge);
        NoneDistinct<K>();
      }
    }
  }

  lemma NoneDistinct<K>()
    ensures DistinctIds<K>([])
  {
  }

  lemma BornDistinct<K, D>(m: Motion<K, D>, created: nat, ds: seq<D>)
    requires |ds| <= WIDTH
    ensures DistinctIds(Births(m, created, ds, Indices(|ds|)))
  {
    hide IdAfter;
    forall i, j | 0 <= i < j < |ds| ensures IdAfter(created, i) != IdAfter(created, j) { IdsApart(created, i, j); }
  }

  /** Live ids stay different over every run, the reset included, as long as no call issues an
      id in use. */
  lemma {:induction false} RunDistinct<K, D>(cfg: Config<K, D>, states: seq<State<K>>, calls: seq<Call<K, D>>, k: nat)
    requires IsRun(cfg, states, calls) && k < |states| && forall i :: 0 <= i < k ==> Clear(cfg, states[i], calls[i].ds, calls[i].a)
    ensures DistinctIds(states[k].tracks)
  {
    hide Clear, DistinctIds;
    if k == 0 {
      NoneDistinct<K>();
    } else {
      RunDistinct(cfg, states, calls, k - 1);
      var c := calls[k - 1];
      StepDistinct(cfg, states[k - 1], c.ds, c.requestSeq, states[k], c.result, c.a);
    }
  }

  // ----- a run that issues an id in use

  /** Boxes and detections are numbers: 0 stays and overlaps fully, 1 leaves the frame. */
  function TwoBoxes(): Motion<int, int> {
    Motion((d: int) => d, (k: int) => k, (k: int, d: int) => k, (k: int) => k == 0, (k: int, d: int) => if k == 0 && d == 0 then 1.0 else 0.0, (d: int) => 0)
  }

  /** Tracker 0 was just updated; the one started beside it will leave the frame. */
  ghost predicate Beside(s: State<int>, id: nat) {
    && 0 < |s.tracks| <= 2 && s.tracks[0].id == 0 && s.tracks[0].filter == 0 && s.tracks[0].classId == 0
    && (|s.tracks| == 2 ==> s.tracks[1].id == id && s.tracks[1].filter == 1)
  }

  lemma BesideSurvivors(s: State<int>, id: nat)
    requires Beside(s, id)
    ensures Survivors(TwoBoxes(), s.tracks) == [Predicted(TwoBoxes(), s.tracks[0])]
  {
    var m, ts := TwoBoxes(), s.tracks;
    SurvivorsNone(m, ts);
    SurvivorsNext(m, ts, 0);
    if |ts| == 2 { SurvivorsNext(m, ts, 1); }
    assert ts[..|ts|] == ts;
  }

  lemma BesideChosen(cfg: Config<int, int>, t: Track<int>)
    requires cfg.motion == TwoBoxes() && 0.0 <= cfg.threshold < 1.0 && t.filter == 0
    ensures Complete(1, 2, [0]) && Chosen(cfg, [t], [0, 1], [0]) == [1]
    ensures var cost := CostMatrix(cfg.motion, [t], [0, 1]); Shape(1, 2, cost) && cost[0][0] == 0.0 && cost[0][1] == 1.0
    ensures Paired(CostMatrix(cfg.motion, [t], [0, 1]), [0], cfg.threshold, 0)
  {
    var cost := CostMatrix(cfg.motion, [t], [0, 1]);
    assert cost[0][0] == 0.0 && cost[0][1] == 1.0;
    assert Paired(cost, [0], cfg.threshold, 0);
    assert Taken(cost, [0], cfg.threshold, 0) && !Taken(cost, [0], cfg.threshold, 1);
    assert Leftover(cost, [0], cfg.threshold, 1) == [];
  }

  lemma BesideListed(cfg: Config<int, int>, t: Track<int>, created: nat)
    requires cfg.motion == TwoBoxes() && 0.0 <= cfg.threshold < 1.0 && t.filter == 0 && t.id == 0 && t.classId == 0
    ensures Complete(1, 2, [0])
    ensures var all := Listed(cfg, created, [t], [0, 1], [0]);
            && |all| == 2 && all[0] == Updated(cfg.motion, t, 0) && all[1] == Born(cfg.motion, IdAfter(created, 0), 1)
            && Young(all, cfg.maxAge) == all
  {
    hide CostMatrix, Chosen, Paired;
    BesideChosen(cfg, t);
    var all := Listed(cfg, created, [t], [0, 1], [0]);
    YoungNext(all, cfg.maxAge, 0);
    YoungNext(all, cfg.maxAge, 1);
    assert all[..2] == all && all[..0] == [];
  }

  /** Tracker 0 takes detection 0, and detection 1 starts a tracker. */
  lemma BesideStep(cfg: Config<int, int>, s: State<int>, id: nat) returns (s': State<int>, r: Option<seq<Report<int>>>)
    requires cfg.motion == TwoBoxes() && cfg.maxSize >= 2 && 0.0 <= cfg.threshold < 1.0 && cfg.eps > 0.0 && Beside(s, id) && s.created < WIDTH
    ensures Step(cfg, s, [0, 1], 0, s', r, [0]) && Beside(s', s.created) && |s'.tracks| == 2
    ensures s'.created == NextCounter(IdAfter(s.created, 1), cfg.resetAbove)
  {
    hide Survivors, CostMatrix, Chosen, Listed, Young, Reports, NoWorse;
    BesideSurvivors(s, id);
    var t := Predicted(cfg.motion, s.tracks[0]);
    BesideChosen(cfg, t);
    BesideListed(cfg, t, s.created);
    forall b | Complete(1, 2, b) ensures NoWorse(CostMatrix(cfg.motion, [t], [0, 1]), cfg.eps, [0], b) {
      BesideCosts(CostMatrix(cfg.motion, [t], [0, 1]), cfg.eps, b);
    }
    var all := Listed(cfg, s.created, [t], [0, 1], [0]);
    r := Some(Reports(all, cfg.minHits, 0));
    s' := State(all, NextCounter(IdAfter(s.created, 1), cfg.resetAbove));
  }

  lemma BesideCosts(cost: seq<seq<real>>, eps: real, b: seq<int>)
    requires Shape(1, 2, cost) && cost[0][0] == 0.0 && cost[0][1] == 1.0 && eps > 0.0 && Complete(1, 2, b)
    ensures NoWorse(cost, eps, [0], b)
  {
    assert TotalCost(cost, [0], 1) == 0.0;
    assert TotalCost(cost, b, 1) == cost[0][b[0]];
  }

  lemma Continue(cfg: Config<int, int>, states: seq<State<int>>, calls: seq<Call<int, int>>, c: Call<int, int>, s': State<int>)
    requires IsRun(cfg, states, calls) && Step(cfg, states[|calls|], c.ds, c.requestSeq, s', c.result, c.a)
    ensures IsRun(cfg, states + [s'], calls + [c])
  {
    hide Step;
    var longer, more := states + [s'], calls + [c];
    forall k | 0 <= k < |more| ensures Step(cfg, longer[k], more[k].ds, more[k].requestSeq, longer[k + 1], more[k].result, more[k].a) {
      if k < |calls| { assert longer[k] == states[k] && longer[k + 1] == states[k + 1] && more[k] == calls[k]; }
    }
  }

  /** Without that condition it fails, for the source's parameters too: a tracker that lives
      until the counter is reset shares its id with one started after the reset. */
  lemma IdsMeetAfterReset(maxSize: nat, maxAge: nat, minHits: nat, threshold: real, eps: real, resetAbove: nat)
      returns (states: seq<State<int>>, calls: seq<Call<int, int>>)
    requires maxSize >= 2 && 0.0 <= threshold < 1.0 && eps > 0.0 && 0 < resetAbove < WIDTH - 1
    ensures IsRun(Config(TwoBoxes(), maxSize, maxAge, minHits, threshold, eps, resetAbove), states, calls)
    ensures states[0] == State([], 0) && !DistinctIds(states[|calls|].tracks)
  {
    hide IsRun, Step, Beside, Listed;
    var cfg := Config(TwoBoxes(), maxSize, maxAge, minHits, threshold, eps, resetAbove);
    states, calls := FirstCall(cfg);
    for k := 1 to resetAbove + 1
      invariant IsRun(cfg, states, calls) && |states| == |calls| + 1 && states[0] == State([], 0)
      invariant exists id: nat :: Beside(states[|calls|], id)
      invariant states[|calls|].created == if k <= resetAbove then k else 0
    {
      states, calls := NextCall(cfg, states, calls);
    }
    states, calls := NextCall(cfg, states, calls);
    Meet(states[|calls|]);
  }

  lemma Meet(s: State<int>)
    requires Beside(s, 0) && |s.tracks| == 2
    ensures !DistinctIds(s.tracks)
  {
    assert s.tracks[0].id == s.tracks[1].id;
  }

  lemma FirstCall(cfg: Config<int, int>) returns (states: seq<State<int>>, calls: seq<Call<int, int>>)
    requires cfg.motion == TwoBoxes() && cfg.maxSize >= 2
    ensures IsRun(cfg, states, calls) && |states| == |calls| + 1 && states[0] == State([], 0)
    ensures (exists id: nat :: Beside(states[|calls|], id)) && states[|calls|].created == 1
  {
    var s: State<int> := State([], 0);
    var t := State(Births(cfg.motion, 0, [0], Indices(1)), 1);
    assert Beside(t, 0);
    var noReports: Option<seq<Report<int>>> := None;
    states, calls := [s, t], [Call([0], 0, noReports, [])];
    assert Step(cfg, states[0], calls[0].ds, calls[0].requestSeq, states[1], calls[0].result, calls[0].a);
  }

  lemma NextCall(cfg: Config<int, int>, states: seq<State<int>>, calls: seq<Call<int, int>>)
      returns (states': seq<State<int>>, calls': seq<Call<int, int>>)
    requires IsRun(cfg, states, calls) && |states| == |calls| + 1 && exists id: nat :: Beside(states[|calls|], id)
    requires cfg.motion == TwoBoxes() && cfg.maxSize >= 2 && 0.0 <= cfg.threshold < 1.0 && cfg.eps > 0.0 && states[|calls|].created < WIDTH
    ensures IsRun(cfg, states', calls') && |states'| == |calls'| + 1 && states'[0] == states[0] && |states'[|calls'|].tracks| == 2
    ensures Beside(states'[|calls'|], states[|calls|].created)
    ensures states'[|calls'|].created == NextCounter(IdAfter(states[|calls|].created, 1), cfg.resetAbove)
  {
    hide IsRun, Step, Beside;
    var s := states[|calls|];
    var id: nat :| Beside(s, id);
    var s', r := BesideStep(cfg, s, id);
    var c := Call([0, 1], 0, r, [0]);
    Continue(cfg, states, calls, c, s');
    states', calls' := states + [s'], calls + [c];
  }
}
