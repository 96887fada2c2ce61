/** The calls of a run of an event checker: which are due, and which sightings of a track its history
    rests on. */
module Sightings {
  import opened Geometry
  import opened Options
  import opened Events

  /** The index-th object of a call. */
  datatype Moment = Moment(call: nat, index: nat)

  predicate Before(a: Moment, b: Moment) { a.call < b.call || (a.call == b.call && a.index < b.index) }

  lemma BeforeMore(k: nat, n: nat)
    ensures forall a :: Before(a, Moment(k, n + 1)) <==> Before(a, Moment(k, n)) || a == Moment(k, n)
    ensures !Before(Moment(k, n), Moment(k, n))
  {
    forall a ensures Before(a, Moment(k, n + 1)) <==> Before(a, Moment(k, n)) || a == Moment(k, n) {
      assert a == Moment(a.call, a.index);
    }
  }

  /** A call outside the schedule looks at no object. */
  function Objects(c: Call): seq<TrackedObject> { if c.scheduled then c.objects else [] }

  predicate IsMoment(calls: seq<Call>, m: Moment) { m.call < |calls| && m.index < |Objects(calls[m.call])| }

  function ObjectAt(calls: seq<Call>, m: Moment): TrackedObject
    requires IsMoment(calls, m)
  {
    Objects(calls[m.call])[m.index]
  }

  /** The checker for `name` looks at the track. */
  predicate Sighted(cfg: Config, calls: seq<Call>, name: string, id: int, m: Moment)
    requires cfg.classEqual.Some?
  {
    IsMoment(calls, m) && ObjectAt(calls, m).trackId == id && cfg.Relevant(ObjectAt(calls, m), name)
  }

  /** Sightings in the order of the run. */
  predicate InOrder(trail: seq<Moment>) { forall i, j :: 0 <= i < j < |trail| ==> Before(trail[i], trail[j]) }

  lemma InOrderMore(trail: seq<Moment>, m: Moment)
    requires InOrder(trail) && forall a :: a in trail ==> Before(a, m)
    ensures InOrder(trail + [m])
  {
  }

  function Last<T>(s: seq<T>, n: nat): seq<T>
    requires n <= |s|
  {
    s[|s| - n..]
  }

  // ----- when a call is due

  /** More than the interval has passed since the schedule was made and since every earlier call
      that reported. */
  ghost predicate Due(cfg: Config, start: int, calls: seq<Call>, k: nat)
    requires k < |calls|
  {
    && calls[k].later - start > cfg.intervalSecs * 1000
    && forall j :: 0 <= j < k && calls[j].results != [] ==> calls[k].later - calls[j].later > cfg.intervalSecs * 1000
  }

  lemma {:induction false} LastActiveSource(cfg: Config, start: int, states: seq<State>, calls: seq<Call>, k: nat)
    requires IsRun(cfg, start, states, calls) && k < |states|
    ensures states[k].lastActive == start || exists j :: 0 <= j < k && calls[j].results != [] && calls[j].later == states[k].lastActive
  {
    hide IsRun;
    if k > 0 {
      RunSizes(cfg, start, states, calls);
      LastActiveSource(cfg, start, states, calls, k - 1);
      CallKept(cfg, start, states, calls, k - 1);
    } else {
      RunSizes(cfg, start, states, calls);
    }
  }

  lemma RunSizes(cfg: Config, start: int, states: seq<State>, calls: seq<Call>)
    requires IsRun(cfg, start, states, calls)
    ensures |states| == |calls| + 1 && states[0] == State(map[], map[], map[], start)
    ensures forall i, j :: 0 <= i <= j < |calls| ==> calls[i].now <= calls[i].later && calls[i].now <= calls[j].now && calls[i].later <= calls[j].later
  {
    forall i, j | 0 <= i <= j < |calls| ensures calls[i].now <= calls[j].now && calls[i].later <= calls[j].later {
      if i < j { assert calls[i].later <= calls[j].now; }
    }
  }

  lemma DueExactly(cfg: Config, start: int, states: seq<State>, calls: seq<Call>, k: nat)
    requires IsRun(cfg, start, states, calls) && k < |calls|
    ensures |states| == |calls| + 1 && (Due(cfg, start, calls, k) <==> Enough(cfg, states[k].lastActive, calls[k].later))
  {
    hide IsRun;
    RunSizes(cfg, start, states, calls);
    LastActiveSource(cfg, start, states, calls, k);
    LastActiveFromStart(cfg, start, states, calls, k);
    forall j | 0 <= j < k && calls[j].results != [] ensures calls[j].later <= states[k].lastActive {
      LastActiveGrows(cfg, start, states, calls, j, k);
    }
  }

  // ----- histories of the line and zone checkers

  ghost predicate Shows(c: Call, id: int) { c.scheduled && Appears(c.objects, id) }

  /** No call in the 10 s before call j showed the track. */
  ghost predicate Lapses(calls: seq<Call>, id: int, j: nat)
    requires j < |calls|
  {
    calls[j].scheduled && forall i :: 0 <= i < j && Shows(calls[i], id) ==> calls[j].now - calls[i].now >= 10 * 1000
  }

  predicate Moments(calls: seq<Call>, trail: seq<Moment>) { forall i :: 0 <= i < |trail| ==> IsMoment(calls, trail[i]) }

  /** The sightings of the track, of those before object n of call k, since its history lapsed. */
  ghost function Trail(cfg: Config, calls: seq<Call>, name: string, id: int, k: nat, n: nat): (trail: seq<Moment>)
    requires cfg.classEqual.Some? && k < |calls|
    ensures Moments(calls, trail)
    decreases k, n
  {
    if n > 0 then
      Trail(cfg, calls, name, id, k, n - 1) + if Sighted(cfg, calls, name, id, Moment(k, n - 1)) then [Moment(k, n - 1)] else []
    else if k == 0 || Lapses(calls, id, k) then []
    else Trail(cfg, calls, name, id, k - 1, |Objects(calls[k - 1])|)
  }

  lemma TrailSeen(cfg: Config, calls: seq<Call>, name: string, id: int, k: nat, n: nat)
    requires cfg.classEqual.Some? && k < |calls|
    ensures Trail(cfg, calls, name, id, k, n + 1)
         == Trail(cfg, calls, name, id, k, n) + if Sighted(cfg, calls, name, id, Moment(k, n)) then [Moment(k, n)] else []
    ensures Sighted(cfg, calls, name, id, Moment(k, n)) ==> IsMoment(calls, Moment(k, n))
  {
    hide Lapses;
  }

  /** The trail holds, in their order, exactly the sightings from which on no call lapsed. */
  lemma {:induction false} TrailExactly(cfg: Config, calls: seq<Call>, name: string, id: int, k: nat, n: nat)
    requires cfg.classEqual.Some? && k < |calls| && n <= |Objects(calls[k])|
    ensures var trail := Trail(cfg, calls, name, id, k, n);
            && InOrder(trail)
            && forall a :: a in trail <==>
                 Sighted(cfg, calls, name, id, a) && Before(a, Moment(k, n)) && forall j :: a.call < j <= k ==> !Lapses(calls, id, j)
    decreases k, n
  {
    hide Sighted, Lapses, InOrder;
    if n > 0 {
      TrailExactly(cfg, calls, name, id, k, n - 1);
      var m, p := Moment(k, n - 1), Trail(cfg, calls, name, id, k, n - 1);
      InOrderMore(p, m);
      assert Trail(cfg, calls, name, id, k, n) == if Sighted(cfg, calls, name, id, m) then p + [m] else p;
      BeforeMore(k, n - 1);
    } else if k == 0 {
      NoneInOrder();
    } else {
      var e := |Objects(calls[k - 1])|;
      TrailExactly(cfg, calls, name, id, k - 1, e);
      NoneInOrder();
      SightedBounds(cfg, calls, name, id);
      assert forall a :: Sighted(cfg, calls, name, id, a) ==> (Before(a, Moment(k, 0)) <==> Before(a, Moment(k - 1, e)));
      if Lapses(calls, id, k) {
        assert forall a :: Before(a, Moment(k, 0)) ==> a.call < k <= k;
      }
    }
  }

  lemma NoneInOrder()
    ensures InOrder([])
  {
  }

  lemma SightedBounds(cfg: Config, calls: seq<Call>, name: string, id: int)
    requires cfg.classEqual.Some?
    ensures forall a :: Sighted(cfg, calls, name, id, a) ==> a.call < |calls| && a.index < |Objects(calls[a.call])|
  {
  }

  /** The history is as old as the last call that showed the track, of those up to call k. */
  ghost predicate Dated<T>(h: History<T>, calls: seq<Call>, id: int, k: int)
    requires k < |calls|
  {
    id in h ==>
      && (exists i :: 0 <= i <= k && Shows(calls[i], id) && h[id].since == calls[i].now)
      && forall i :: 0 <= i <= k && Shows(calls[i], id) ==> calls[i].now <= h[id].since
  }

  ghost predicate Clocked(calls: seq<Call>) { forall i, j :: 0 <= i <= j < |calls| ==> calls[i].now <= calls[j].now }

  /** The histories with which a call starts. */
  ghost function Entering<T>(h: History<T>, c: Call, limit: int): History<T> {
    if c.scheduled then Released(h, c.objects, c.now, limit) else h
  }

  lemma EnteringDated<T>(h: History<T>, calls: seq<Call>, id: int, k: nat)
    requires k < |calls| && Clocked(calls) && Dated(h, calls, id, k - 1)
    ensures var t := Entering(h, calls[k], 10 * 1000);
            && (id in t <==> id in h && !Lapses(calls, id, k)) && (id in t ==> t[id].data == h[id].data) && Dated(t, calls, id, k)
  {
    hide Appears;
    var c := calls[k];
    if id in h && c.scheduled {
      var i :| 0 <= i <= k - 1 && Shows(calls[i], id) && h[id].since == calls[i].now;
      assert Lapses(calls, id, k) <==> c.now - h[id].since >= 10 * 1000;
    }
  }

  /** A sighting finds no history, or one that is not too old. */
  lemma FetchedDated<T>(h: History<T>, calls: seq<Call>, id: int, k: nat, blank: T, data: T)
    requires k < |calls| && Clocked(calls) && Dated(h, calls, id, k) && Shows(calls[k], id)
    ensures Stale(h, id, calls[k].now, 10 * 1000) <==> id !in h
    ensures var f := Fetched(h, id, calls[k].now, 10 * 1000, blank);
            id in f && Dated(Stored(f, id, data), calls, id, k)
  {
  }

  lemma OtherDated<T>(h: History<T>, t: History<T>, calls: seq<Call>, id: int, k: nat)
    requires k < |calls| && Dated(h, calls, id, k) && (id in t <==> id in h) && (id in t ==> t[id] == h[id])
    ensures Dated(t, calls, id, k)
  {
  }

  lemma SightedShows(cfg: Config, calls: seq<Call>, name: string, id: int, m: Moment)
    requires cfg.classEqual.Some? && Sighted(cfg, calls, name, id, m)
    ensures Shows(calls[m.call], id)
  {
    var c := calls[m.call];
    assert c.objects[m.index].trackId == id;
  }
}
