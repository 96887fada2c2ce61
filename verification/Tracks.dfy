/** The SORT tracker life cycle on values: one call as a relation between states, and what
    holds over every run of calls. */
module Tracks {
  import opened Assignment
  import opened Matching
  import opened Options

  /** The Kalman filter, the boxes and the overlap measure, left uninterpreted. */
  datatype Motion<!K, !D> = Motion(
    init: D -> K, predict: K -> K, correct: (K, D) -> K, inFrame: K -> bool,
    iou: (K, D) -> real, classOf: D -> int)

  /** A tracker: the counters of the source, and one entry per predict round that says
      whether the tracker was updated in it. */
  datatype Track<K> = Track(
    id: nat, classId: int, filter: K,
    timeSinceUpdate: nat, hits: nat, hitStreak: nat, age: nat, rounds: seq<bool>)

  /** What a call reports about a track. */
  datatype Report<K> = Report(trackId: nat, classId: int, filter: K)

  datatype Config<!K, !D> = Config(
    motion: Motion<K, D>, maxSize: nat, maxAge: nat, minHits: nat, threshold: real, eps: real, resetAbove: nat)

  datatype State<K> = State(tracks: seq<Track<K>>, created: nat)

  const WIDTH: nat := 0x1_0000_0000

  /** The value of an `int` passed as `unsigned int`. */
  function Unsigned(x: int): nat { x % WIDTH }

  // ----- one tracker

  function Born<K, D>(m: Motion<K, D>, id: nat, d: D): Track<K> {
    Track(id, m.classOf(d), m.init(d), 0, 0, 0, 0, [])
  }

  function Predicted<K, D>(m: Motion<K, D>, t: Track<K>): Track<K> {
    t.(filter := m.predict(t.filter), age := t.age + 1, rounds := t.rounds + [false],
       hitStreak := if t.timeSinceUpdate > 0 then 0 else t.hitStreak,
       timeSinceUpdate := t.timeSinceUpdate + 1)
  }

  /** An update in the current round; a detection of another class is ignored. */
  function Updated<K, D>(m: Motion<K, D>, t: Track<K>, d: D): Track<K> {
    if t.classId != m.classOf(d) then t
    else t.(filter := m.correct(t.filter, d), timeSinceUpdate := 0, hits := t.hits + 1, hitStreak := t.hitStreak + 1,
            rounds := if t.rounds == [] then [] else t.rounds[|t.rounds| - 1 := true])
  }

  predicate OverAge<K>(t: Track<K>, maxAge: nat) { t.timeSinceUpdate > maxAge }

  predicate Detected<K>(t: Track<K>, minHits: nat, requestSeq: int) {
    t.timeSinceUpdate < 1 && (t.hitStreak >= minHits || Unsigned(requestSeq) <= minHits)
  }

  /** Length of the run of updated rounds at the end. */
  function Run(rounds: seq<bool>): nat {
    if rounds == [] || !rounds[|rounds| - 1] then 0 else 1 + Run(rounds[..|rounds| - 1])
  }

  /** How the counters mirror the rounds: the last `timeSinceUpdate` rounds brought no update,
      and the streak is the run before them until a second round is missed. */
  ghost predicate Faithful<K>(t: Track<K>) {
    && t.timeSinceUpdate <= |t.rounds| == t.age
    && (forall i :: |t.rounds| - t.timeSinceUpdate <= i < |t.rounds| ==> !t.rounds[i])
    && (0 < |t.rounds| - t.timeSinceUpdate ==> t.rounds[|t.rounds| - t.timeSinceUpdate - 1])
    && t.hitStreak == if t.timeSinceUpdate <= 1 then Run(t.rounds[..|t.rounds| - t.timeSinceUpdate]) else 0
  }

  lemma PredictFaithful<K, D>(m: Motion<K, D>, t: Track<K>)
    requires Faithful(t)
    ensures Faithful(Predicted(m, t))
  {
    var t' := Predicted(m, t);
    assert t.rounds[..|t.rounds| - t.timeSinceUpdate] == t'.rounds[..|t'.rounds| - t'.timeSinceUpdate];
  }

  lemma UpdateFaithful<K, D>(m: Motion<K, D>, t: Track<K>, d: D)
    requires Faithful(t) && t.timeSinceUpdate > 0
    ensures Faithful(Updated(m, t, d))
  {
    if t.classId == m.classOf(d) {
      RunUpdated(t.rounds);
      assert Updated(m, t, d).rounds[..|t.rounds|] == t.rounds[|t.rounds| - 1 := true];
      if t.timeSinceUpdate > 1 {
        assert !t.rounds[|t.rounds| - 2];
      }
    }
  }

  lemma RunUpdated(rounds: seq<bool>)
    requires |rounds| > 0
    ensures Run(rounds[|rounds| - 1 := true]) == 1 + Run(rounds[..|rounds| - 1])
    ensures |rounds| > 1 && !rounds[|rounds| - 2] ==> Run(rounds[..|rounds| - 1]) == 0
  {
    assert rounds[|rounds| - 1 := true][..|rounds| - 1] == rounds[..|rounds| - 1];
  }

  /** A streak is at least k if and only if the last k rounds all brought an update. */
  lemma {:induction false} RunMeans(rounds: seq<bool>, k: nat)
    ensures k <= Run(rounds) <==> k <= |rounds| && forall i :: |rounds| - k <= i < |rounds| ==> rounds[i]
  {
    if k > 0 && rounds != [] {
      var n := |rounds| - 1;
      RunMeans(rounds[..n], k - 1);
      if k <= |rounds| && rounds[n] && k <= Run(rounds) {
        forall i | |rounds| - k <= i < |rounds| ensures rounds[i] { if i < n { assert rounds[..n][i] == rounds[i]; } }
      }
      if k <= |rounds| && forall i :: |rounds| - k <= i < |rounds| ==> rounds[i] {
        assert forall i :: n - (k - 1) <= i < n ==> rounds[..n][i] == rounds[i];
      }
    }
  }

  // ----- one call

  /** The predicted trackers whose box stays in the frame, in order. */
  function Survivors<K, D>(m: Motion<K, D>, ts: seq<Track<K>>): seq<Track<K>> {
    if ts == [] then []
    else
      var t := Predicted(m, ts[|ts| - 1]);
      Survivors(m, ts[..|ts| - 1]) + if m.inFrame(t.filter) then [t] else []
  }

  function Young<K>(ts: seq<Track<K>>, maxAge: nat): seq<Track<K>> {
    if ts == [] then []
    else Young(ts[..|ts| - 1], maxAge) + if OverAge(ts[|ts| - 1], maxAge) then [] else [ts[|ts| - 1]]
  }

  function Reports<K>(ts: seq<Track<K>>, minHits: nat, requestSeq: int): seq<Report<K>> {
    if ts == [] then []
    else
      var t := ts[|ts| - 1];
      Reports(ts[..|ts| - 1], minHits, requestSeq)
      + if Detected(t, minHits, requestSeq) then [Report(t.id, t.classId, t.filter)] else []
  }

  /** The id `k` births after the counter stood at `created`. */
  function IdAfter(created: nat, k: nat): nat { (created + k) % WIDTH }

  function Births<K, D>(m: Motion<K, D>, created: nat, ds: seq<D>, chosen: seq<nat>): seq<Track<K>>
    requires forall i :: 0 <= i < |chosen| ==> chosen[i] < |ds|
  {
    seq(|chosen|, i requires 0 <= i < |chosen| => Born(m, IdAfter(created, i), ds[chosen[i]]))
  }

  function Indices(n: nat): seq<nat> { seq(n, i requires 0 <= i < n => i) }

  function Cost<K, D>(m: Motion<K, D>, t: Track<K>, d: D): real { 1.0 - m.iou(t.filter, d) }

  function CostMatrix<K, D>(m: Motion<K, D>, ts: seq<Track<K>>, ds: seq<D>): seq<seq<real>> {
    seq(|ts|, i requires 0 <= i < |ts| => seq(|ds|, j requires 0 <= j < |ds| => Cost(m, ts[i], ds[j])))
  }

  /** Tracker i is handed its detection: it has one and the cost is not above the threshold. */
  predicate Paired(cost: seq<seq<real>>, a: seq<int>, threshold: real, i: nat)
    requires i < |a| && i < |cost| && a[i] < |cost[i]|
  {
    a[i] >= 0 && cost[i][a[i]] <= threshold
  }

  ghost predicate Taken(cost: seq<seq<real>>, a: seq<int>, threshold: real, n: int)
    requires |a| == |cost| && forall i :: 0 <= i < |a| ==> a[i] < |cost[i]|
  {
    exists i: nat :: i < |a| && a[i] == n && Paired(cost, a, threshold, i)
  }

  /** The first k detections no tracker is handed, in order. */
  ghost function Leftover(cost: seq<seq<real>>, a: seq<int>, threshold: real, k: nat): (c: seq<nat>)
    requires |a| == |cost| && forall i :: 0 <= i < |a| ==> a[i] < |cost[i]|
    ensures |c| <= k && forall i :: 0 <= i < |c| ==> c[i] < k
  {
    if k == 0 then []
    else Leftover(cost, a, threshold, k - 1) + if Taken(cost, a, threshold, k - 1) then [] else [k - 1]
  }

  function Corrected<K, D>(m: Motion<K, D>, ts: seq<Track<K>>, ds: seq<D>, cost: seq<seq<real>>, a: seq<int>, threshold: real): seq<Track<K>>
    requires |ts| == |a| == |cost| && forall i :: 0 <= i < |a| ==> a[i] < |ds| && a[i] < |cost[i]|
  {
    seq(|ts|, i requires 0 <= i < |ts| => if Paired(cost, a, threshold, i) then Updated(m, ts[i], ds[a[i]]) else ts[i])
  }

  function NextCounter(created: nat, resetAbove: nat): nat { if created > resetAbove then 0 else created }

  /** The detections a matching call starts new trackers for. */
  ghost function Chosen<K, D>(cfg: Config<K, D>, ts: seq<Track<K>>, ds: seq<D>, a: seq<int>): seq<nat>
    requires Complete(|ts|, |ds|, a)
  {
    Leftover(CostMatrix(cfg.motion, ts, ds), a, cfg.threshold, |ds|)
  }

  /** The trackers a matching call reports from and ages: the surviving ones, then the new ones. */
  ghost function Listed<K, D>(cfg: Config<K, D>, created: nat, ts: seq<Track<K>>, ds: seq<D>, a: seq<int>): seq<Track<K>>
    requires Complete(|ts|, |ds|, a)
  {
    Corrected(cfg.motion, ts, ds, CostMatrix(cfg.motion, ts, ds), a, cfg.threshold)
    + Births(cfg.motion, created, ds, Chosen(cfg, ts, ds, a))
  }

  ghost predicate Matched<K, D>(cfg: Config<K, D>, created: nat, ts: seq<Track<K>>, ds: seq<D>, requestSeq: int,
    s': State<K>, r: seq<Report<K>>, a: seq<int>)
    requires |ts| > 0 && Complete(|ts|, |ds|, a)
  {
    var all := Listed(cfg, created, ts, ds, a);
    && (forall b :: Complete(|ts|, |ds|, b) ==> NoWorse(CostMatrix(cfg.motion, ts, ds), cfg.eps, a, b))
    && r == Reports(all, cfg.minHits, requestSeq)
    && s' == State(Young(all, cfg.maxAge), NextCounter(IdAfter(created, |Chosen(cfg, ts, ds, a)|), cfg.resetAbove))
  }

  /** One call of TrackObjects; `a` is the solver's assignment where the call reaches it. */
  ghost predicate Step<K, D>(cfg: Config<K, D>, s: State<K>, ds: seq<D>, requestSeq: int,
    s': State<K>, r: Option<seq<Report<K>>>, a: seq<int>)
  {
    if ds == [] || cfg.maxSize == 0 then s' == s && r == None
    else if s.tracks == [] then
      r == None && s' == State(Births(cfg.motion, s.created, ds, Indices(|ds|)), IdAfter(s.created, |ds|))
    else
      var ts := Survivors(cfg.motion, s.tracks);
      if |ts| > cfg.maxSize || |ds| > cfg.maxSize then r == None && s' == State(Young(ts, cfg.maxAge), s.created)
      else if ts == [] then r == None && s' == State([], s.created)
      else r.Some? && Complete(|ts|, |ds|, a) && Matched(cfg, s.created, ts, ds, requestSeq, s', r.value, a)
  }

  lemma SurvivorsNone<K, D>(m: Motion<K, D>, ts: seq<Track<K>>)
    ensures Survivors(m, ts[..0]) == []
  {
  }

  lemma SurvivorsNext<K, D>(m: Motion<K, D>, ts: seq<Track<K>>, k: nat)
    requires k < |ts|
    ensures var t := Predicted(m, ts[k]);
            Survivors(m, ts[..k + 1]) == Survivors(m, ts[..k]) + if m.inFrame(t.filter) then [t] else []
  {
    assert ts[..k + 1][..k] == ts[..k];
  }

  lemma YoungNext<K>(ts: seq<Track<K>>, maxAge: nat, k: nat)
    requires k < |ts|
    ensures Young(ts[..k + 1], maxAge) == Young(ts[..k], maxAge) + if OverAge(ts[k], maxAge) then [] else [ts[k]]
  {
    assert ts[..k + 1][..k] == ts[..k];
  }

  lemma ReportsNext<K>(ts: seq<Track<K>>, minHits: nat, requestSeq: int, k: nat)
    requires k < |ts|
    ensures Reports(ts[..k + 1], minHits, requestSeq)
         == Reports(ts[..k], minHits, requestSeq)
            + if Detected(ts[k], minHits, requestSeq) then [Report(ts[k].id, ts[k].classId, ts[k].filter)] else []
  {
    assert ts[..k + 1][..k] == ts[..k];
  }

  lemma BirthsNext<K, D>(m: Motion<K, D>, created: nat, ds: seq<D>, chosen: seq<nat>, n: nat)
    requires n < |ds| && forall i :: 0 <= i < |chosen| ==> chosen[i] < |ds|
    ensures Births(m, created, ds, chosen + [n]) == Births(m, created, ds, chosen) + [Born(m, IdAfter(created, |chosen|), ds[n])]
    ensures (IdAfter(created, |chosen|) + 1) % WIDTH == IdAfter(created, |chosen| + 1)
  {
  }

  // ----- detections are neither lost nor shared

  lemma {:induction false} LeftoverExact(cost: seq<seq<real>>, a: seq<int>, threshold: real, k: nat)
    requires |a| == |cost| && forall i :: 0 <= i < |a| ==> a[i] < |cost[i]|
    ensures forall n: nat :: n in Leftover(cost, a, threshold, k) <==> n < k && !Taken(cost, a, threshold, n)
    ensures var c := Leftover(cost, a, threshold, k); |c| <= k && forall i, j :: 0 <= i < j < |c| ==> c[i] < c[j]
  {
    if k > 0 {
      LeftoverExact(cost, a, threshold, k - 1);
      var c := Leftover(cost, a, threshold, k - 1);
      var c' := Leftover(cost, a, threshold, k);
      forall i, j | 0 <= i < j < |c'| ensures c'[i] < c'[j] {
        var x := c[i];
        assert x in Leftover(cost, a, threshold, k - 1);
        assert x < k - 1;
        if j < |c| { assert c[i] < c[j]; assert c'[j] == c[j]; } else { assert c'[j] == k - 1; }
      }
    }
  }

  /** Every detection is handed to exactly one tracker at a cost within the threshold, or
      starts exactly one new tracker, and never both. */
  lemma Conservation<K, D>(cfg: Config<K, D>, s: State<K>, ds: seq<D>, requestSeq: int,
    s': State<K>, r: Option<seq<Report<K>>>, a: seq<int>)
    requires Step(cfg, s, ds, requestSeq, s', r, a) && r.Some?
    ensures var ts := Survivors(cfg.motion, s.tracks);
            var cost := CostMatrix(cfg.motion, ts, ds);
            && Complete(|ts|, |ds|, a)
            && var chosen := Chosen(cfg, ts, ds, a);
            && (forall n: nat :: n < |ds| ==> (n in chosen) != Taken(cost, a, cfg.threshold, n))
            && (forall i, j :: 0 <= i < |a| && 0 <= j < |a| && a[i] == a[j] >= 0 ==> i == j)
            && (forall i, j :: 0 <= i < j < |chosen| ==> chosen[i] < chosen[j] < |ds|)
  {
    var ts := Survivors(cfg.motion, s.tracks);
    LeftoverExact(CostMatrix(cfg.motion, ts, ds), a, cfg.threshold, |ds|);
  }

  // ----- reports

  /** The detection track i of the call's list was updated with or born from, or -1. */
  ghost function Owners(cost: seq<seq<real>>, a: seq<int>, threshold: real, chosen: seq<nat>): seq<int>
    requires |a| == |cost| && forall i :: 0 <= i < |a| ==> a[i] < |cost[i]|
  {
    seq(|a|, i requires 0 <= i < |a| => if Paired(cost, a, threshold, i) then a[i] else -1)
    + seq(|chosen|, i requires 0 <= i < |chosen| => chosen[i])
  }

  lemma OwnersInjective(rows: nat, cols: nat, cost: seq<seq<real>>, a: seq<int>, threshold: real)
    requires Shape(rows, cols, cost) && Partial(rows, cols, a)
    ensures Partial(rows + |Leftover(cost, a, threshold, cols)|, cols, Owners(cost, a, threshold, Leftover(cost, a, threshold, cols)))
  {
    LeftoverExact(cost, a, threshold, cols);
    var chosen := Leftover(cost, a, threshold, cols);
    var o := Owners(cost, a, threshold, chosen);
    assert forall i :: 0 <= i < |chosen| ==> chosen[i] in chosen;
    forall i, j | 0 <= i < j < |o| && o[i] == o[j] ensures o[i] == -1 {
      if o[i] != -1 && i < rows <= j { assert false; }
    }
  }

  /** Tracks updated in a call are reported at most once for every detection. */
  lemma {:induction false} ReportsBounded<K>(ts: seq<Track<K>>, minHits: nat, requestSeq: int, owners: seq<int>, cols: nat) returns (used: set<nat>)
    requires |owners| == |ts| && Partial(|ts|, cols, owners)
    requires forall i :: 0 <= i < |ts| && ts[i].timeSinceUpdate == 0 ==> owners[i] >= 0
    ensures |Reports(ts, minHits, requestSeq)| <= |used|
    ensures forall x :: x in used ==> x < cols && x in owners
  {
    if ts == [] {
      used := {};
    } else {
      var n := |ts| - 1;
      used := ReportsBounded(ts[..n], minHits, requestSeq, owners[..n], cols);
      if Detected(ts[n], minHits, requestSeq) {
        assert owners[n] !in used;
        used := used + {owners[n]};
      }
    }
  }

  lemma {:induction false} SurvivorsFresh<K, D>(m: Motion<K, D>, ts: seq<Track<K>>)
    ensures forall t :: t in Survivors(m, ts) ==> t.timeSinceUpdate > 0 && m.inFrame(t.filter)
  {
    if ts != [] { SurvivorsFresh(m, ts[..|ts| - 1]); }
  }

  /** A call reports at most as many tracks as it was given detections. */
  lemma ReportsAtMostDetections<K, D>(cfg: Config<K, D>, s: State<K>, ds: seq<D>, requestSeq: int,
    s': State<K>, r: Option<seq<Report<K>>>, a: seq<int>)
    requires Step(cfg, s, ds, requestSeq, s', r, a) && r.Some?
    ensures |r.value| <= |ds|
  {
    var ts := Survivors(cfg.motion, s.tracks);
    var cost := CostMatrix(cfg.motion, ts, ds);
    var all := Listed(cfg, s.created, ts, ds, a);
    var owners := Owners(cost, a, cfg.threshold, Chosen(cfg, ts, ds, a));
    OwnersInjective(|ts|, |ds|, cost, a, cfg.threshold);
    SurvivorsFresh(cfg.motion, s.tracks);
    forall i | 0 <= i < |all| && all[i].timeSinceUpdate == 0 ensures owners[i] >= 0 {
      if i < |ts| { assert ts[i] in ts; }
    }
    var used := ReportsBounded(all, cfg.minHits, requestSeq, owners, |ds|);
    RangeSize(used, |ds|);
  }

  // ----- track ids

  ghost predicate DistinctIds<K>(ts: seq<Track<K>>) {
    forall i, j :: 0 <= i < j < |ts| ==> ts[i].id != ts[j].id
  }

  ghost function Ids<K>(ts: seq<Track<K>>): set<nat> { set t | t in ts :: t.id }

  lemma {:induction false} SurvivorsIds<K, D>(m: Motion<K, D>, ts: seq<Track<K>>)
    ensures Ids(Survivors(m, ts)) <= Ids(ts)
    ensures DistinctIds(ts) ==> DistinctIds(Survivors(m, ts))
  {
    if ts != [] {
      SurvivorsIds(m, ts[..|ts| - 1]);
      PrefixIds(ts);
      var p, q := Survivors(m, ts[..|ts| - 1]), Survivors(m, ts);
      if p != q { AppendIds(p, q[|q| - 1]); assert q == p + [q[|q| - 1]]; }
    }
  }

  lemma {:induction false} YoungIds<K>(ts: seq<Track<K>>, maxAge: nat)
    ensures Ids(Young(ts, maxAge)) <= Ids(ts)
    ensures DistinctIds(ts) ==> DistinctIds(Young(ts, maxAge))
    ensures forall t :: t in Young(ts, maxAge) <==> t in ts && t.timeSinceUpdate <= maxAge
  {
    if ts != [] {
      YoungIds(ts[..|ts| - 1], maxAge);
      PrefixIds(ts);
      var p, q := Young(ts[..|ts| - 1], maxAge), Young(ts, maxAge);
      if p != q { AppendIds(p, q[|q| - 1]); assert q == p + [q[|q| - 1]]; }
    }
  }

  lemma PrefixIds<K>(ts: seq<Track<K>>)
    requires ts != []
    ensures var p, t := ts[..|ts| - 1], ts[|ts| - 1];
            Ids(ts) == Ids(p) + {t.id} && (DistinctIds(ts) ==> DistinctIds(p) && t.id !in Ids(p))
  {
    var p, t := ts[..|ts| - 1], ts[|ts| - 1];
    assert ts == p + [t];
    AppendIds(p, t);
  }

  lemma AppendIds<K>(p: seq<Track<K>>, t: Track<K>)
    ensures Ids(p + [t]) == Ids(p) + {t.id}
    ensures DistinctIds(p) && t.id !in Ids(p) <==> DistinctIds(p + [t])
  {
    assert t in p + [t];
    forall x | x in p ensures x in p + [t] {}
    if DistinctIds(p + [t]) {
      forall i, j | 0 <= i < j < |p| ensures p[i].id != p[j].id {
        assert (p + [t])[i].id != (p + [t])[j].id;
      }
      forall i | 0 <= i < |p| ensures p[i].id != t.id {
        assert (p + [t])[i].id != (p + [t])[|p|].id;
      }
    }
  }

  ghost predicate Below(ids: set<nat>, n: nat) { forall i :: i in ids ==> i < n }

  lemma BirthIds<K, D>(m: Motion<K, D>, ts: seq<Track<K>>, created: nat, ds: seq<D>, chosen: seq<nat>)
    requires forall i :: 0 <= i < |chosen| ==> chosen[i] < |ds|
    requires DistinctIds(ts) && Below(Ids(ts), created) && created + |chosen| < WIDTH
    ensures var all := ts + Births(m, created, ds, chosen);
            && DistinctIds(all) && Below(Ids(all), created + |chosen|)
            && forall i :: i in Ids(all) ==> i in Ids(ts) || created <= i
  {
    var b := Births(m, created, ds, chosen);
    var all := ts + b;
    forall i | 0 <= i < |all| ensures if i < |ts| then all[i].id in Ids(ts) else all[i].id == created + i - |ts| {
      if i < |ts| { assert ts[i] in ts; }
    }
    forall i, j | 0 <= i < j < |all| ensures all[i].id != all[j].id {
      if j < |ts| { assert ts[i].id != ts[j].id; }
    }
    forall x | x in Ids(all) ensures x < created + |chosen| && (x in Ids(ts) || created <= x) {
      var t :| t in all && t.id == x;
      var i :| 0 <= i < |all| && all[i] == t;
    }
  }

  lemma CorrectedIds<K, D>(m: Motion<K, D>, ts: seq<Track<K>>, ds: seq<D>, cost: seq<seq<real>>, a: seq<int>, threshold: real)
    requires |ts| == |a| == |cost| && forall i :: 0 <= i < |a| ==> a[i] < |ds| && a[i] < |cost[i]|
    requires DistinctIds(ts)
    ensures DistinctIds(Corrected(m, ts, ds, cost, a, threshold))
    ensures Ids(Corrected(m, ts, ds, cost, a, threshold)) <= Ids(ts)
  {
    var c := Corrected(m, ts, ds, cost, a, threshold);
    forall i | 0 <= i < |c| ensures c[i].id == ts[i].id && c[i].id in Ids(ts) {
      assert ts[i] in ts;
    }
    forall i, j | 0 <= i < j < |c| ensures c[i].id != c[j].id {
      assert ts[i].id != ts[j].id;
    }
  }

  ghost predicate FreshIds<K>(s: State<K>) {
    DistinctIds(s.tracks) && Below(Ids(s.tracks), s.created)
  }

  /** What one call does to the ids while the counter stays clear of its reset. */
  ghost predicate IdsMove<K>(s: State<K>, s': State<K>, n: nat) {
    && FreshIds(s')
    && s.created <= s'.created <= s.created + n
    && forall i :: i in Ids(s'.tracks) ==> i in Ids(s.tracks) || s.created <= i
  }

  ghost predicate DistinctReports<K>(r: seq<Report<K>>) {
    forall i, j :: 0 <= i < j < |r| ==> r[i].trackId != r[j].trackId
  }

  lemma ListedIds<K, D>(cfg: Config<K, D>, created: nat, ts: seq<Track<K>>, ds: seq<D>, a: seq<int>)
    requires Complete(|ts|, |ds|, a)
    requires DistinctIds(ts) && Below(Ids(ts), created) && created + |ds| < WIDTH
    ensures var all := Listed(cfg, created, ts, ds, a);
            && DistinctIds(all) && Below(Ids(all), created + |Chosen(cfg, ts, ds, a)|) && |Chosen(cfg, ts, ds, a)| <= |ds|
            && forall i :: i in Ids(all) ==> i in Ids(ts) || created <= i
  {
    var c := Corrected(cfg.motion, ts, ds, CostMatrix(cfg.motion, ts, ds), a, cfg.threshold);
    CorrectedIds(cfg.motion, ts, ds, CostMatrix(cfg.motion, ts, ds), a, cfg.threshold);
    BirthIds(cfg.motion, c, created, ds, Chosen(cfg, ts, ds, a));
  }

  lemma MatchedIds<K, D>(cfg: Config<K, D>, s: State<K>, ds: seq<D>, requestSeq: int, s': State<K>, r: seq<Report<K>>, a: seq<int>)
    requires var ts := Survivors(cfg.motion, s.tracks);
             |ts| > 0 && Complete(|ts|, |ds|, a) && Matched(cfg, s.created, ts, ds, requestSeq, s', r, a)
    requires FreshIds(s) && s.created + |ds| <= cfg.resetAbove < WIDTH
    ensures IdsMove(s, s', |ds|) && DistinctReports(r)
  {
    hide Listed, Chosen, Survivors, Young, Reports, DistinctIds, Complete, NoWorse;
    var ts := Survivors(cfg.motion, s.tracks);
    var all := Listed(cfg, s.created, ts, ds, a);
    SurvivorsIds(cfg.motion, s.tracks);
    ListedIds(cfg, s.created, ts, ds, a);
    YoungIds(all, cfg.maxAge);
    ReportsIds(all, cfg.minHits, requestSeq);
  }

  lemma StepIds<K, D>(cfg: Config<K, D>, s: State<K>, ds: seq<D>, requestSeq: int,
    s': State<K>, r: Option<seq<Report<K>>>, a: seq<int>)
    requires Step(cfg, s, ds, requestSeq, s', r, a)
    requires FreshIds(s) && s.created + |ds| <= cfg.resetAbove < WIDTH
    ensures IdsMove(s, s', |ds|)
    ensures r.Some? ==> DistinctReports(r.value)
  {
    if ds == [] || cfg.maxSize == 0 {
    } else if s.tracks == [] {
      BirthIds(cfg.motion, s.tracks, s.created, ds, Indices(|ds|));
      assert s.tracks + s'.tracks == s'.tracks;
    } else if r.Some? {
      MatchedIds(cfg, s, ds, requestSeq, s', r.value, a);
    } else {
      var ts := Survivors(cfg.motion, s.tracks);
      SurvivorsIds(cfg.motion, s.tracks);
      YoungIds(ts, cfg.maxAge);
    }
  }

  /** The track a report is about. */
  lemma {:induction false} ReportSource<K>(ts: seq<Track<K>>, minHits: nat, requestSeq: int, k: nat) returns (t: Track<K>)
    requires k < |Reports(ts, minHits, requestSeq)|
    ensures t in ts && Detected(t, minHits, requestSeq)
    ensures Reports(ts, minHits, requestSeq)[k] == Report(t.id, t.classId, t.filter)
  {
    var p := ts[..|ts| - 1];
    if k < |Reports(p, minHits, requestSeq)| {
      t := ReportSource(p, minHits, requestSeq, k);
    } else {
      t := ts[|ts| - 1];
    }
  }

  lemma {:induction false} ReportsIds<K>(ts: seq<Track<K>>, minHits: nat, requestSeq: int)
    requires DistinctIds(ts)
    ensures DistinctReports(Reports(ts, minHits, requestSeq))
  {
    if ts != [] {
      var p := ts[..|ts| - 1];
      PrefixIds(ts);
      ReportsIds(p, minHits, requestSeq);
      var q := Reports(p, minHits, requestSeq);
      forall i | 0 <= i < |q| ensures q[i].trackId in Ids(p) {
        var t := ReportSource(p, minHits, requestSeq, i);
      }
    }
  }

  // ----- counters

  ghost predicate AllFaithful<K>(ts: seq<Track<K>>) { forall t :: t in ts ==> Faithful(t) }

  ghost predicate AllYoung<K>(ts: seq<Track<K>>, maxAge: nat) { forall t :: t in ts ==> t.timeSinceUpdate <= maxAge }

  lemma {:induction false} SurvivorsFaithful<K, D>(m: Motion<K, D>, ts: seq<Track<K>>)
    requires AllFaithful(ts)
    ensures AllFaithful(Survivors(m, ts))
  {
    if ts != [] {
      SurvivorsFaithful(m, ts[..|ts| - 1]);
      PredictFaithful(m, ts[|ts| - 1]);
    }
  }

  lemma ListedFaithful<K, D>(cfg: Config<K, D>, created: nat, ts: seq<Track<K>>, ds: seq<D>, a: seq<int>)
    requires Complete(|ts|, |ds|, a)
    requires AllFaithful(ts) && forall t :: t in ts ==> t.timeSinceUpdate > 0
    ensures AllFaithful(Listed(cfg, created, ts, ds, a))
  {
    var cost := CostMatrix(cfg.motion, ts, ds);
    forall i | 0 <= i < |ts| ensures Faithful(Corrected(cfg.motion, ts, ds, cost, a, cfg.threshold)[i]) {
      assert ts[i] in ts;
      if Paired(cost, a, cfg.threshold, i) { UpdateFaithful(cfg.motion, ts[i], ds[a[i]]); }
    }
  }

  /** Every call keeps the meaning of the counters, and leaves no tracker beyond the age limit. */
  lemma StepCounters<K, D>(cfg: Config<K, D>, s: State<K>, ds: seq<D>, requestSeq: int,
    s': State<K>, r: Option<seq<Report<K>>>, a: seq<int>)
    requires Step(cfg, s, ds, requestSeq, s', r, a)
    requires AllFaithful(s.tracks) && AllYoung(s.tracks, cfg.maxAge)
    ensures AllFaithful(s'.tracks) && AllYoung(s'.tracks, cfg.maxAge)
  {
    if ds != [] && cfg.maxSize > 0 && s.tracks != [] {
      var ts := Survivors(cfg.motion, s.tracks);
      SurvivorsFaithful(cfg.motion, s.tracks);
      SurvivorsFresh(cfg.motion, s.tracks);
      YoungIds(ts, cfg.maxAge);
      if r.Some? {
        ListedFaithful(cfg, s.created, ts, ds, a);
        YoungIds(Listed(cfg, s.created, ts, ds, a), cfg.maxAge);
      }
    }
  }

  /** While a track was just updated its streak is the run at the end of its rounds. */
  lemma DetectedStreak<K>(t: Track<K>)
    requires Faithful(t) && t.timeSinceUpdate == 0
    ensures t.hitStreak == Run(t.rounds)
  {
    assert t.rounds[..|t.rounds|] == t.rounds;
  }

  /** A reported track is alive after the call, was updated or born in it and, past the first
      `minHits` calls, was updated in each of its last `minHits` rounds. */
  lemma ReportsMean<K, D>(cfg: Config<K, D>, s: State<K>, ds: seq<D>, requestSeq: int,
    s': State<K>, r: Option<seq<Report<K>>>, a: seq<int>, k: nat) returns (t: Track<K>)
    requires Step(cfg, s, ds, requestSeq, s', r, a) && r.Some? && k < |r.value|
    requires AllFaithful(s.tracks)
    ensures t in s'.tracks && r.value[k] == Report(t.id, t.classId, t.filter) && t.timeSinceUpdate == 0
    ensures Unsigned(requestSeq) > cfg.minHits ==>
              cfg.minHits <= |t.rounds| && forall i :: |t.rounds| - cfg.minHits <= i < |t.rounds| ==> t.rounds[i]
  {
    hide Listed, Chosen, Survivors, Young, Complete, NoWorse, Faithful;
    var ts := Survivors(cfg.motion, s.tracks);
    SurvivorsFaithful(cfg.motion, s.tracks);
    SurvivorsFresh(cfg.motion, s.tracks);
    var all := Listed(cfg, s.created, ts, ds, a);
    ListedFaithful(cfg, s.created, ts, ds, a);
    YoungIds(all, cfg.maxAge);
    t := ReportSource(all, cfg.minHits, requestSeq, k);
    DetectedStreak(t);
    if Unsigned(requestSeq) > cfg.minHits { RunMeans(t.rounds, cfg.minHits); }
  }

  // ----- runs

  datatype Call<K, D> = Call(ds: seq<D>, requestSeq: int, result: Option<seq<Report<K>>>, a: seq<int>)

  ghost predicate IsRun<K, D>(cfg: Config<K, D>, states: seq<State<K>>, calls: seq<Call<K, D>>) {
    && |states| == |calls| + 1 && states[0].tracks == []
    && forall k :: 0 <= k < |calls| ==>
         Step(cfg, states[k], calls[k].ds, calls[k].requestSeq, states[k + 1], calls[k].result, calls[k].a)
  }

  /** In every state of every run no tracker is over age and the streak means what it counts. */
  lemma {:induction false} RunCounters<K, D>(cfg: Config<K, D>, states: seq<State<K>>, calls: seq<Call<K, D>>, k: nat)
    requires IsRun(cfg, states, calls) && k < |states|
    ensures AllFaithful(states[k].tracks) && AllYoung(states[k].tracks, cfg.maxAge)
  {
    if k > 0 {
      RunCounters(cfg, states, calls, k - 1);
      var c := calls[k - 1];
      StepCounters(cfg, states[k - 1], c.ds, c.requestSeq, states[k], c.result, c.a);
    }
  }

  /** No call of the run brings the counter to its reset. */
  ghost predicate BeforeReset<K, D>(cfg: Config<K, D>, states: seq<State<K>>, calls: seq<Call<K, D>>)
    requires |states| == |calls| + 1
  {
    cfg.resetAbove < WIDTH && forall k :: 0 <= k < |calls| ==> states[k].created + |calls[k].ds| <= cfg.resetAbove
  }

  /** Up to the reset, live ids are distinct and an id that is gone does not come back: a track
      of state j whose id was issued by state i was alive in state i. */
  lemma {:induction false} RunIds<K, D>(cfg: Config<K, D>, states: seq<State<K>>, calls: seq<Call<K, D>>, i: nat, j: nat)
    requires IsRun(cfg, states, calls) && BeforeReset(cfg, states, calls) && i <= j < |states|
    ensures FreshIds(states[j]) && states[i].created <= states[j].created
    ensures forall x :: x in Ids(states[j].tracks) && x < states[i].created ==> x in Ids(states[i].tracks)
    decreases j
  {
    if i < j {
      RunIds(cfg, states, calls, i, j - 1);
      var c := calls[j - 1];
      StepIds(cfg, states[j - 1], c.ds, c.requestSeq, states[j], c.result, c.a);
    } else if j > 0 {
      RunIds(cfg, states, calls, j - 1, j - 1);
      var c := calls[j - 1];
      StepIds(cfg, states[j - 1], c.ds, c.requestSeq, states[j], c.result, c.a);
    }
  }
}
