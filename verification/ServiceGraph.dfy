/** The service block graph: building it, its execution order and its cycle test. */
module ServiceGraph {
  import opened Collections

  datatype StreamType = NoStream | InternalQueueing | SocketIO | RTSP | GRPC

  datatype ModuleType = DetectorRtsp | DetectorSocketIO

  datatype BuildType = Unique | ByUnit

  const EXTERN_ID: int := 99

  datatype Profile = Profile(id: int, moduleType: ModuleType, buildType: BuildType,
                             inputs: map<int, StreamType>, outputs: map<int, StreamType>)

  type Blocks = map<int, Profile>

  // ----- the graph of the outputs

  ghost predicate Edge(g: Blocks, u: int, w: int) { u in g && w in g[u].outputs }

  /** Every output leads to a block. */
  ghost predicate Closed(g: Blocks) { forall u, w :: Edge(g, u, w) ==> w in g }

  ghost predicate Linked(g: Blocks, p: seq<int>, i: nat)
    requires 0 < i < |p|
  {
    Edge(g, p[i - 1], p[i])
  }

  ghost predicate Walk(g: Blocks, p: seq<int>) {
    |p| > 0 && p[0] in g && forall i :: 0 < i < |p| ==> Linked(g, p, i)
  }

  /** A closed walk along at least one edge. */
  ghost predicate IsCycle(g: Blocks, p: seq<int>) {
    |p| > 1 && p[0] == p[|p| - 1] && Walk(g, p)
  }

  ghost predicate HasCycle(g: Blocks) { exists p :: IsCycle(g, p) }

  /** A walk to w that passes some block twice. */
  ghost predicate FromCycle(g: Blocks, p: seq<int>, w: int) {
    Walk(g, p) && p[|p| - 1] == w && exists i, j :: 0 <= i < j < |p| && p[i] == p[j]
  }

  ghost predicate BehindCycle(g: Blocks, w: int) { exists p :: FromCycle(g, p, w) }

  ghost predicate Distinct(s: seq<int>) { forall i, j :: 0 <= i < j < |s| ==> s[i] != s[j] }

  ghost function Elements(s: seq<int>): set<int> { set x | x in s }

  /** Every listed block comes after all blocks with an edge to it. */
  ghost predicate Topological(g: Blocks, s: seq<int>) {
    forall j, u :: 0 <= j < |s| && Edge(g, u, s[j]) ==> u in s[..j]
  }

  /** Blocks outside s that lead to w. */
  ghost function Waiting(g: Blocks, s: set<int>, w: int): set<int> { set u | u in g && w in g[u].outputs && u !in s }

  // ----- what an order without further candidates says

  /** Nothing is left to list: every other block waits for a block that is not listed. */
  ghost predicate Exhausted(g: Blocks, s: seq<int>) {
    forall w :: w in g && w !in s ==> Waiting(g, Elements(s), w) != {}
  }

  ghost predicate IsOrder(g: Blocks, s: seq<int>) {
    Distinct(s) && Elements(s) <= g.Keys && Topological(g, s) && Exhausted(g, s)
  }

  /** Along a walk that ends in the list the positions grow, so it passes no block twice. */
  lemma {:induction false} WalkListed(g: Blocks, s: seq<int>, p: seq<int>, k: nat) returns (at: seq<nat>)
    requires Topological(g, s) && Distinct(s) && Walk(g, p) && p[|p| - 1] == (if k < |s| then s[k] else p[|p| - 1]) && k < |s|
    ensures |at| == |p| && forall i :: 0 <= i < |p| ==> at[i] < |s| && s[at[i]] == p[i]
    ensures forall i, j :: 0 <= i < j < |p| ==> at[i] < at[j]
    ensures at[|p| - 1] == k
    decreases |p|
  {
    if |p| == 1 {
      at := [k];
    } else {
      var n := |p| - 1;
      var q := p[..n];
      assert Linked(g, p, n);
      var m :| 0 <= m < k && s[..k][m] == p[n - 1];
      assert Walk(g, q) by {
        forall i | 0 < i < |q| ensures Linked(g, q, i) { assert Linked(g, p, i); }
      }
      var before := WalkListed(g, s, q, m);
      at := before + [k];
    }
  }

  /** Walking back from an unlisted block over unlisted blocks. */
  lemma {:induction false} WalkBack(g: Blocks, s: seq<int>, w: int, n: nat) returns (p: seq<int>)
    requires Exhausted(g, s) && w in g && w !in s
    ensures Walk(g, p) && |p| == n + 1 && p[n] == w && forall i :: 0 <= i < |p| ==> p[i] in g && p[i] !in s
  {
    if n == 0 {
      p := [w];
    } else {
      var q := WalkBack(g, s, w, n - 1);
      var u := Member(Waiting(g, Elements(s), q[0]));
      p := [u] + q;
      WalkExtends(g, u, q);
    }
  }

  lemma WalkExtends(g: Blocks, u: int, q: seq<int>)
    requires Walk(g, q) && Edge(g, u, q[0])
    ensures Walk(g, [u] + q)
  {
    var p := [u] + q;
    forall i | 0 < i < |p| ensures Linked(g, p, i) {
      if i > 1 { assert Linked(g, q, i - 1); }
    }
  }

  /** More entries than values: some value repeats. */
  lemma {:induction false} Pigeonhole(p: seq<int>, s: set<int>) returns (i: nat, j: nat)
    requires (forall k :: 0 <= k < |p| ==> p[k] in s) && |p| > |s|
    ensures i < j < |p| && p[i] == p[j]
    decreases |s|
  {
    var n := |p| - 1;
    if k :| 0 <= k < n && p[k] == p[n] {
      i, j := k, n;
    } else {
      i, j := Pigeonhole(p[..n], s - {p[n]});
    }
  }

  /** An order lists exactly the blocks no cycle leads to. */
  lemma OrderExact(g: Blocks, s: seq<int>, w: int)
    requires IsOrder(g, s) && w in g
    ensures w in s <==> !BehindCycle(g, w)
  {
    if w in s && BehindCycle(g, w) {
      var p :| FromCycle(g, p, w);
      var k :| 0 <= k < |s| && s[k] == w;
      var at := WalkListed(g, s, p, k);
      assert false;
    }
    if w !in s {
      var p := WalkBack(g, s, w, |g.Keys|);
      var i, j := Pigeonhole(p, g.Keys);
      assert FromCycle(g, p, w);
    }
  }

  lemma CycleIsBehind(g: Blocks, p: seq<int>)
    requires IsCycle(g, p)
    ensures p[0] in g && BehindCycle(g, p[0])
  {
    assert 0 <= 0 < |p| - 1 < |p| && p[0] == p[|p| - 1];
    assert FromCycle(g, p, p[0]);
  }

  /** The part of a walk between two visits of a block is a cycle. */
  lemma CycleCut(g: Blocks, p: seq<int>, i: nat, j: nat)
    requires Closed(g) && Walk(g, p) && i < j < |p| && p[i] == p[j]
    ensures HasCycle(g)
  {
    var q := p[i..j + 1];
    forall k | 0 < k < |q| ensures Linked(g, q, k) {
      assert q[k - 1] == p[i + k - 1] && q[k] == p[i + k];
      assert Linked(g, p, i + k);
    }
    if i > 0 { assert Linked(g, p, i); }
    assert Walk(g, q);
    assert IsCycle(g, q);
  }

  /** A cycle exists iff some block is behind one. */
  lemma CycleBehind(g: Blocks)
    requires Closed(g)
    ensures HasCycle(g) <==> exists w :: w in g && BehindCycle(g, w)
  {
    hide Walk, Closed;
    if HasCycle(g) {
      var p :| IsCycle(g, p);
      CycleIsBehind(g, p);
    }
    if w :| w in g && BehindCycle(g, w) {
      var p :| FromCycle(g, p, w);
      var i, j :| 0 <= i < j < |p| && p[i] == p[j];
      CycleCut(g, p, i, j);
    }
  }

  lemma {:induction false} DistinctSize(s: seq<int>)
    requires Distinct(s)
    ensures |Elements(s)| == |s|
  {
    if s == [] {
      assert Elements(s) == {};
    } else {
      var n := |s| - 1;
      DistinctSize(s[..n]);
      assert s == s[..n] + [s[n]];
      assert Elements(s) == Elements(s[..n]) + {s[n]};
    }
  }

  lemma SubsetSame(a: set<int>, b: set<int>)
    requires a <= b && |a| == |b|
    ensures a == b
  {
    assert b * a == a;
    assert |b - a| == 0;
  }

  lemma SizeOutside(a: set<int>, b: set<int>)
    requires a <= b
    ensures |b - a| == |b| - |a|
  {
    assert b == a + (b - a);
    assert a !! (b - a);
  }

  /** Comparing sizes decides whether the graph has a cycle. */
  lemma SizeTest(g: Blocks, s: seq<int>)
    requires Closed(g) && IsOrder(g, s)
    ensures |s| != |g| <==> HasCycle(g)
  {
    DistinctSize(s);
    CycleBehind(g);
    assert |g.Keys| == |g|;
    SizeOutside(Elements(s), g.Keys);
    if |s| == |g| {
      SubsetSame(Elements(s), g.Keys);
      AllListed(g, s);
    } else {
      var w := Member(g.Keys - Elements(s));
      OrderExact(g, s, w);
    }
  }

  lemma AllListed(g: Blocks, s: seq<int>)
    requires IsOrder(g, s) && Elements(s) == g.Keys
    ensures forall w :: w in g ==> !BehindCycle(g, w)
  {
    forall w | w in g ensures !BehindCycle(g, w) {
      assert w in Elements(s);
      OrderExact(g, s, w);
    }
  }

  // ----- the Kahn loop on values

  /** Between two rounds: `deg` counts the blocks each block still waits for, and the queue
      holds exactly the unlisted blocks that wait for none. */
  ghost predicate Kahn(g: Blocks, order: seq<int>, queue: seq<int>, deg: map<int, int>) {
    && Closed(g) && deg.Keys == g.Keys
    && (forall w :: w in g ==> deg[w] == |Waiting(g, Elements(order), w)|)
    && Distinct(order) && Distinct(queue) && Elements(order) <= g.Keys
    && (forall w :: w in queue <==> w in g && w !in order && deg[w] == 0)
    && (forall w :: w in order ==> deg[w] == 0)
    && Topological(g, order)
  }

  lemma OutputsKnown(g: Blocks, u: int)
    requires Closed(g) && u in g
    ensures g[u].outputs.Keys <= g.Keys
  {
    forall w | w in g[u].outputs.Keys ensures w in g { assert Edge(g, u, w); }
  }

  lemma WaitingStep(g: Blocks, order: seq<int>, curr: int, w: int)
    requires curr in g && curr !in order
    ensures |Waiting(g, Elements(order + [curr]), w)| == |Waiting(g, Elements(order), w)| - if w in g[curr].outputs then 1 else 0
  {
    var a, b := Waiting(g, Elements(order), w), Waiting(g, Elements(order + [curr]), w);
    assert b == a - {curr} by {
      forall u ensures u in b <==> u in a - {curr} {
        assert u in order + [curr] <==> u in order || u == curr;
      }
    }
    assert curr in a <==> w in g[curr].outputs by { assert curr !in Elements(order); }
  }

  lemma TopologicalStep(g: Blocks, order: seq<int>, curr: int)
    requires Topological(g, order) && Waiting(g, Elements(order), curr) == {}
    ensures Topological(g, order + [curr])
  {
    var s := order + [curr];
    forall j, u | 0 <= j < |s| && Edge(g, u, s[j]) ensures u in s[..j] {
      if j < |order| {
        assert s[j] == order[j] && s[..j] == order[..j];
      } else {
        assert u !in Waiting(g, Elements(order), curr);
        assert s[..j] == order;
      }
    }
  }

  lemma KahnStep(g: Blocks, order: seq<int>, queue: seq<int>, curr: int, deg: map<int, int>, deg': map<int, int>, fresh': seq<int>)
    requires Kahn(g, order, queue, deg) && queue != [] && curr == queue[0] && curr in g && deg'.Keys == deg.Keys
    requires forall w :: w in deg ==> deg'[w] == deg[w] - if w in g[curr].outputs then 1 else 0
    requires Distinct(fresh') && forall w :: w in fresh' <==> w in deg' && w in g[curr].outputs && deg'[w] == 0
    ensures Kahn(g, order + [curr], queue[1..] + fresh', deg')
  {
    assert curr in queue;
    var order', queue' := order + [curr], queue[1..] + fresh';
    forall w | w in g ensures deg'[w] == |Waiting(g, Elements(order'), w)| {
      WaitingStep(g, order, curr, w);
    }
    TopologicalStep(g, order, curr);
    assert queue == [curr] + queue[1..];
    KahnQueue(g, order, queue, curr, deg, deg', fresh');
  }

  lemma KahnQueue(g: Blocks, order: seq<int>, queue: seq<int>, curr: int, deg: map<int, int>, deg': map<int, int>, fresh': seq<int>)
    requires Kahn(g, order, queue, deg) && queue != [] && curr == queue[0] && curr in g && deg'.Keys == deg.Keys
    requires forall w :: w in deg ==> deg'[w] == deg[w] - if w in g[curr].outputs then 1 else 0
    requires forall w :: w in g ==> deg'[w] >= 0
    requires Distinct(fresh') && forall w :: w in fresh' <==> w in deg' && w in g[curr].outputs && deg'[w] == 0
    ensures Distinct(queue[1..] + fresh') && Distinct(order + [curr])
    ensures forall w :: w in queue[1..] + fresh' <==> w in g && w !in order + [curr] && deg'[w] == 0
    ensures forall w :: w in order + [curr] ==> deg'[w] == 0
    ensures Elements(order + [curr]) <= g.Keys
  {
    assert queue == [curr] + queue[1..];
    assert curr in queue;
    forall w ensures w in queue[1..] <==> w in queue && w != curr {
      if w in queue && w != curr { assert w in [curr] + queue[1..]; }
      if w in queue[1..] {
        var i :| 0 <= i < |queue| - 1 && queue[1..][i] == w;
        assert queue[i + 1] == w && queue[0] != queue[i + 1];
      }
    }
    assert forall w :: w in g[curr].outputs ==> Edge(g, curr, w);
    forall w | w in g && deg[w] == 0 ensures w !in g[curr].outputs { assert deg'[w] >= 0; }
    forall i, j | 0 <= i < |queue| - 1 && 0 <= j < |fresh'| ensures queue[1..][i] != fresh'[j] {
      assert queue[1..][i] in queue[1..] && fresh'[j] in fresh';
    }
    assert curr !in order;
  }

  lemma KahnDone(g: Blocks, order: seq<int>, deg: map<int, int>)
    requires Kahn(g, order, [], deg)
    ensures IsOrder(g, order)
  {
  }

  lemma KahnBound(g: Blocks, order: seq<int>, queue: seq<int>, deg: map<int, int>)
    requires Kahn(g, order, queue, deg)
    ensures |order| <= |g.Keys| && (queue != [] ==> |order| < |g.Keys|)
  {
    DistinctSize(order);
    SubsetSize(Elements(order), g.Keys);
    if queue != [] {
      var c := queue[0];
      assert c in queue;
      SubsetSize(Elements(order) + {c}, g.Keys);
    }
  }

  // ----- the graph object

  /** Outputs and inputs mirror each other, apart from the external input, and the reverse
      index lists the inputs. */
  ghost predicate Mirrored(g: Blocks, reverse: map<int, set<int>>) {
    && reverse.Keys <= g.Keys
    && (forall w :: w in g ==> g[w].id == w)
    && (forall u, w :: Edge(g, u, w) ==> w in g && u in g[w].inputs)
    && (forall w, u :: w in g && u in g[w].inputs && u != EXTERN_ID ==> Edge(g, u, w))
    && (forall w, u :: w in g ==> (u in g[w].inputs <==> w in reverse && u in reverse[w]))
  }

  function Connected(g: Blocks, from: int, to: int, streamType: StreamType): Blocks
    requires from in g && to in g
  {
    var h := g[to := g[to].(inputs := g[to].inputs[from := streamType])];
    h[from := h[from].(outputs := h[from].outputs[to := streamType])]
  }

  lemma ConnectedEdges(g: Blocks, from: int, to: int, streamType: StreamType)
    requires from in g && to in g
    ensures forall u, w :: Edge(Connected(g, from, to, streamType), u, w) <==> Edge(g, u, w) || (u == from && w == to)
    ensures forall w :: w in g ==> Connected(g, from, to, streamType)[w].id == g[w].id
    ensures forall w, u :: w in g ==>
              (u in Connected(g, from, to, streamType)[w].inputs <==> u in g[w].inputs || (u == from && w == to))
    ensures Connected(g, from, to, streamType).Keys == g.Keys
  {
  }

  lemma ConnectedMirrored(g: Blocks, reverse: map<int, set<int>>, from: int, to: int, streamType: StreamType)
    requires Mirrored(g, reverse) && from in g && to in g
    ensures Mirrored(Connected(g, from, to, streamType), reverse[to := (if to in reverse then reverse[to] else {}) + {from}])
  {
    hide Connected;
    ConnectedEdges(g, from, to, streamType);
    hide Edge;
  }

  function FromExtern(g: Blocks, to: int, streamType: StreamType): Blocks
    requires to in g
  {
    g[to := g[to].(inputs := g[to].inputs[EXTERN_ID := streamType])]
  }

  lemma FromExternEdges(g: Blocks, to: int, streamType: StreamType)
    requires to in g
    ensures forall u, w :: Edge(FromExtern(g, to, streamType), u, w) <==> Edge(g, u, w)
    ensures forall w :: w in g ==> FromExtern(g, to, streamType)[w].id == g[w].id
    ensures forall w, u :: w in g ==>
              (u in FromExtern(g, to, streamType)[w].inputs <==> u in g[w].inputs || (u == EXTERN_ID && w == to))
    ensures FromExtern(g, to, streamType).Keys == g.Keys
  {
  }

  lemma FromExternMirrored(g: Blocks, reverse: map<int, set<int>>, to: int, streamType: StreamType)
    requires Mirrored(g, reverse) && to in g
    ensures Mirrored(FromExtern(g, to, streamType), reverse[to := (if to in reverse then reverse[to] else {}) + {EXTERN_ID}])
  {
    hide FromExtern;
    FromExternEdges(g, to, streamType);
    hide Edge;
  }

  class EntireServiceBlockProfileGraph {
    var blocks: Blocks
    var externStreams: map<int, StreamType>
    var reverseInputs: map<int, set<int>>

    constructor ()
      ensures Valid() && blocks == map[] && externStreams == map[]
    {
      blocks, externStreams, reverseInputs := map[], map[], map[];
    }

    ghost predicate Valid()
      reads this
    {
      Mirrored(blocks, reverseInputs)
    }

    method AddServiceBlock(id: int, moduleType: ModuleType, buildType: BuildType) returns (ok: bool)
      requires Valid()
      modifies this
      ensures Valid() && externStreams == old(externStreams)
      ensures ok == (id !in old(blocks))
      ensures blocks == if ok then old(blocks)[id := Profile(id, moduleType, buildType, map[], map[])] else old(blocks)
      ensures forall u, w :: Edge(blocks, u, w) <==> Edge(old(blocks), u, w)
    {
      if id in blocks { return false; }
      ghost var g := blocks;
      blocks := blocks[id := Profile(id, moduleType, buildType, map[], map[])];
      assert forall u, w :: Edge(blocks, u, w) <==> Edge(g, u, w);
      ok := true;
    }

    method AddStreamPipeline(from: int, to: int, streamType: StreamType) returns (ok: bool)
      requires Valid()
      modifies this
      ensures Valid() && externStreams == old(externStreams) && blocks.Keys == old(blocks.Keys)
      ensures ok == (from in old(blocks) && to in old(blocks)) && (!ok ==> blocks == old(blocks))
      ensures ok ==> forall u, w :: Edge(blocks, u, w) <==> Edge(old(blocks), u, w) || (u == from && w == to)
      ensures ok ==> blocks == Connected(old(blocks), from, to, streamType)
    {
      if from !in blocks || to !in blocks { return false; }
      ConnectedEdges(blocks, from, to, streamType);
      ConnectedMirrored(blocks, reverseInputs, from, to, streamType);
      blocks := blocks[to := blocks[to].(inputs := blocks[to].inputs[from := streamType])];
      blocks := blocks[from := blocks[from].(outputs := blocks[from].outputs[to := streamType])];
      assert blocks == Connected(old(blocks), from, to, streamType);
      reverseInputs := reverseInputs[to := (if to in reverseInputs then reverseInputs[to] else {}) + {from}];
      ok := true;
    }

    method AddInputFromExtern(to: int, streamType: StreamType) returns (ok: bool)
      requires Valid()
      modifies this
      ensures Valid() && externStreams == old(externStreams) && blocks.Keys == old(blocks.Keys)
      ensures ok == (to in old(blocks)) && (!ok ==> blocks == old(blocks))
      ensures ok ==> blocks == FromExtern(old(blocks), to, streamType)
      ensures forall u, w :: Edge(blocks, u, w) <==> Edge(old(blocks), u, w)
    {
      hide Edge, Mirrored;
      if to !in blocks { return false; }
      FromExternEdges(blocks, to, streamType);
      FromExternMirrored(blocks, reverseInputs, to, streamType);
      blocks := blocks[to := blocks[to].(inputs := blocks[to].inputs[EXTERN_ID := streamType])];
      reverseInputs := reverseInputs[to := (if to in reverseInputs then reverseInputs[to] else {}) + {EXTERN_ID}];
      ok := true;
    }

    method AddOutputToExtern(from: int, streamType: StreamType) returns (ok: bool)
      requires Valid()
      modifies this
      ensures Valid() && blocks == old(blocks) && ok == (from in blocks)
      ensures externStreams == if ok then old(externStreams)[from := streamType] else old(externStreams)
    {
      if from !in blocks { return false; }
      externStreams := externStreams[from := streamType];
      ok := true;
    }

    /** The number of inputs from blocks, for every block. */
    method InDegrees() returns (deg: map<int, int>)
      requires Closed(blocks)
      ensures deg.Keys == blocks.Keys && forall w :: w in blocks ==> deg[w] == |Waiting(blocks, {}, w)|
    {
      deg := map w | w in blocks :: 0;
      var todo := blocks.Keys;
      assert forall w :: Waiting(blocks, todo, w) == {};
      while todo != {}
        invariant todo <= blocks.Keys && deg.Keys == blocks.Keys
        invariant forall w :: w in blocks ==> deg[w] == |Waiting(blocks, todo, w)|
      {
        ghost var some := Member(todo);
        var u :| u in todo;
        OutputsKnown(blocks, u);
        deg := Increment(deg, blocks[u].outputs.Keys);
        forall w | w in blocks ensures |Waiting(blocks, todo - {u}, w)| == |Waiting(blocks, todo, w)| + if w in blocks[u].outputs then 1 else 0 {
          WaitingFewer(blocks, todo, u, w);
        }
        todo := todo - {u};
      }
    }

    /** Lists every block that no cycle leads to, each once, after all blocks with an edge to it. */
    method GetExecutionOrder() returns (order: seq<int>)
      requires Valid()
      ensures IsOrder(blocks, order)
    {
      var deg := InDegrees();
      var queue := ZeroEntries(deg);
      order := [];
      assert Elements([]) == {};
      while queue != []
        invariant Kahn(blocks, order, queue, deg)
        decreases |blocks.Keys| - |order|
      {
        KahnBound(blocks, order, queue, deg);
        var curr := queue[0];
        assert curr in queue;
        OutputsKnown(blocks, curr);
        var deg', fresh' := Release(deg, blocks[curr].outputs.Keys);
        KahnStep(blocks, order, queue, curr, deg, deg', fresh');
        order, queue, deg := order + [curr], queue[1..] + fresh', deg';
      }
      KahnDone(blocks, order, deg);
    }

    /** True exactly when the outputs form a cycle. */
    method DetectCycle() returns (b: bool)
      requires Valid()
      ensures b <==> HasCycle(blocks)
    {
      var order := GetExecutionOrder();
      SizeTest(blocks, order);
      b := |order| != |blocks|;
    }
  }

  lemma WaitingFewer(g: Blocks, todo: set<int>, u: int, w: int)
    requires u in todo && u in g
    ensures |Waiting(g, todo - {u}, w)| == |Waiting(g, todo, w)| + if w in g[u].outputs then 1 else 0
  {
    var a, b := Waiting(g, todo, w), Waiting(g, todo - {u}, w);
    assert u !in a;
    if w in g[u].outputs { assert b == a + {u}; } else { assert b == a; }
  }

  method Increment(deg: map<int, int>, outs: set<int>) returns (r: map<int, int>)
    requires outs <= deg.Keys
    ensures r.Keys == deg.Keys && forall w :: w in deg ==> r[w] == deg[w] + if w in outs then 1 else 0
  {
    r := deg;
    var todo := outs;
    while todo != {}
      invariant todo <= outs && r.Keys == deg.Keys
      invariant forall w :: w in deg ==> r[w] == deg[w] + if w in outs && w !in todo then 1 else 0
    {
      ghost var some := Member(todo);
      var w :| w in todo;
      r := r[w := r[w] + 1];
      todo := todo - {w};
    }
  }

  /** The blocks that wait for none, in some order. */
  method ZeroEntries(deg: map<int, int>) returns (q: seq<int>)
    ensures Distinct(q) && forall w :: w in q <==> w in deg && deg[w] == 0
  {
    q := [];
    var todo := deg.Keys;
    while todo != {}
      invariant todo <= deg.Keys && Distinct(q)
      invariant forall w :: w in q <==> w in deg && w !in todo && deg[w] == 0
    {
      ghost var some := Member(todo);
      var w :| w in todo;
      if deg[w] == 0 { q := q + [w]; }
      todo := todo - {w};
    }
  }

  /** One input less for every target, and the targets that now wait for none, in some order. */
  method Release(deg: map<int, int>, outs: set<int>) returns (r: map<int, int>, q: seq<int>)
    requires outs <= deg.Keys
    ensures r.Keys == deg.Keys && forall w :: w in deg ==> r[w] == deg[w] - if w in outs then 1 else 0
    ensures Distinct(q) && forall w :: w in q <==> w in outs && r[w] == 0
  {
    r, q := deg, [];
    var todo := outs;
    while todo != {}
      invariant todo <= outs && r.Keys == deg.Keys && Distinct(q)
      invariant forall w :: w in deg ==> r[w] == deg[w] - if w in outs && w !in todo then 1 else 0
      invariant forall w :: w in q <==> w in outs && w !in todo && r[w] == 0
    {
      ghost var some := Member(todo);
      var w :| w in todo;
      r := r[w := r[w] - 1];
      if r[w] == 0 { q := q + [w]; }
      todo := todo - {w};
    }
  }
}
