/** What the zone checker reports, told in the calls of a run alone. */
module ZoneReports {
  import opened Collections
  import opened Geometry
  import opened Options
  import opened Events
  import opened Sightings

  ghost predicate ZoneRun(cfg: Config, start: int, states: seq<State>, calls: seq<Call>) {
    IsRun(cfg, start, states, calls) && |states| == |calls| + 1 && cfg.event == AreaIntrusion && cfg.classEqual.Some?
  }

  /** The checker's state in call k before its n-th object. */
  ghost function ZoneAt(cfg: Config, states: seq<State>, calls: seq<Call>, k: nat, n: nat): ZoneState
    requires cfg.classEqual.Some? && k < |calls| < |states| && n <= |Objects(calls[k])|
  {
    var s, c := states[k], calls[k];
    ZoneLayer(cfg, ZoneState(Entering(s.zones, c, cfg.ReleaseMs()), []), Objects(c), n, c.now, c.later, Enough(cfg, s.lastActive, c.later))
  }

  lemma ZoneCall(cfg: Config, start: int, states: seq<State>, calls: seq<Call>, k: nat)
    requires ZoneRun(cfg, start, states, calls) && k < |calls|
    ensures var t := ZoneAt(cfg, states, calls, k, |Objects(calls[k])|);
            t.zones == states[k + 1].zones && t.results == calls[k].results
  {
    hide ZoneObject;
    assert Answers(cfg, states[k], calls[k], states[k + 1]);
  }

  lemma ZoneNext(cfg: Config, states: seq<State>, calls: seq<Call>, k: nat, n: nat)
    requires cfg.classEqual.Some? && k < |calls| < |states| && n < |Objects(calls[k])|
    ensures ZoneAt(cfg, states, calls, k, n + 1)
         == ZoneObject(cfg, ZoneAt(cfg, states, calls, k, n), Objects(calls[k])[n], calls[k].now, calls[k].later,
                       Enough(cfg, states[k].lastActive, calls[k].later))
  {
    hide ZoneObject;
  }

  lemma ZoneFirst(cfg: Config, start: int, states: seq<State>, calls: seq<Call>, k: nat)
    requires ZoneRun(cfg, start, states, calls) && k < |calls|
    ensures ZoneAt(cfg, states, calls, k, 0) == ZoneState(Entering(states[k].zones, calls[k], 10 * 1000), [])
    ensures k == 0 ==> states[k].zones == map[]
  {
    hide ZoneObject;
  }

  // ----- when a track was last outside

  predicate Outside(cfg: Config, calls: seq<Call>, a: Moment)
    requires IsMoment(calls, a)
  {
    !InsideSome(cfg.rois, ObjectAt(calls, a).mid)
  }

  /** The last sighting of the trail that was outside every region. */
  function LastOutside(cfg: Config, calls: seq<Call>, trail: seq<Moment>): Option<Moment>
    requires Moments(calls, trail)
  {
    if trail == [] then None
    else if Outside(cfg, calls, trail[|trail| - 1]) then Some(trail[|trail| - 1])
    else LastOutside(cfg, calls, trail[..|trail| - 1])
  }

  lemma {:induction false} LastOutsideExactly(cfg: Config, calls: seq<Call>, trail: seq<Moment>)
    requires Moments(calls, trail)
    ensures match LastOutside(cfg, calls, trail)
            case None => forall i :: 0 <= i < |trail| ==> !Outside(cfg, calls, trail[i])
            case Some(a) => exists i :: 0 <= i < |trail| && trail[i] == a && Outside(cfg, calls, a)
                                        && forall j :: i < j < |trail| ==> !Outside(cfg, calls, trail[j])
  {
    hide Outside;
    if trail != [] && !Outside(cfg, calls, trail[|trail| - 1]) {
      var p := trail[..|trail| - 1];
      LastOutsideExactly(cfg, calls, p);
      assert forall i :: 0 <= i < |p| ==> p[i] == trail[i];
    }
  }

  lemma LastOutsideMore(cfg: Config, calls: seq<Call>, trail: seq<Moment>, m: Moment)
    requires Moments(calls, trail) && IsMoment(calls, m)
    ensures Moments(calls, trail + [m])
    ensures LastOutside(cfg, calls, trail + [m]) == if Outside(cfg, calls, m) then Some(m) else LastOutside(cfg, calls, trail)
  {
    hide Outside;
    assert (trail + [m])[..|trail|] == trail;
  }

  // ----- the mark of a history

  /** Where the track was outside last, as far as its history goes back before object n of call k. */
  ghost function Left(cfg: Config, calls: seq<Call>, id: int, k: nat, n: nat): Option<Moment>
    requires cfg.classEqual.Some? && k < |calls|
  {
    LastOutside(cfg, calls, Trail(cfg, calls, "Person", id, k, n))
  }

  ghost predicate Marks(cfg: Config, calls: seq<Call>, info: ZoneInfo, left: Option<Moment>) {
    match left
    case None => !info.continuous
    case Some(a) => info.continuous && a.call < |calls| && info.eventTime == calls[a.call].later
  }

  ghost predicate ZoneKnown(cfg: Config, zones: History<ZoneInfo>, calls: seq<Call>, id: int, k: nat, n: nat)
    requires cfg.classEqual.Some? && k < |calls|
  {
    && (id in zones <==> Trail(cfg, calls, "Person", id, k, n) != [])
    && (id in zones ==> Marks(cfg, calls, zones[id].data, Left(cfg, calls, id, k, n)))
    && Dated(zones, calls, id, k)
  }

  lemma LeftNone(cfg: Config, calls: seq<Call>, id: int, k: nat, n: nat)
    requires cfg.classEqual.Some? && k < |calls|
    ensures Trail(cfg, calls, "Person", id, k, n) == [] ==> Left(cfg, calls, id, k, n) == None
  {
    hide Trail;
  }

  lemma LeftMore(cfg: Config, calls: seq<Call>, id: int, k: nat, n: nat)
    requires cfg.classEqual.Some? && k < |calls| && Sighted(cfg, calls, "Person", id, Moment(k, n))
    ensures IsMoment(calls, Moment(k, n))
    ensures Left(cfg, calls, id, k, n + 1) == if Outside(cfg, calls, Moment(k, n)) then Some(Moment(k, n)) else Left(cfg, calls, id, k, n)
  {
    hide Trail, LastOutside, Outside, Sighted;
    TrailSeen(cfg, calls, "Person", id, k, n);
    LastOutsideMore(cfg, calls, Trail(cfg, calls, "Person", id, k, n), Moment(k, n));
  }

  lemma ZoneObjectMark(cfg: Config, s: ZoneState, o: TrackedObject, id: int, now: int, later: int, enough: bool)
    requires cfg.classEqual.Some? && cfg.event != VehicleParking
    ensures var t := ZoneObject(cfg, s, o, now, later, enough);
            if o.trackId == id && cfg.Relevant(o, "Person") then
              var f := Fetched(s.zones, id, now, 10 * 1000, ZoneInfo(false, now));
              id in f && t.zones == Stored(f, id, if InsideSome(cfg.rois, o.mid) then f[id].data else ZoneInfo(true, later))
            else (id in t.zones <==> id in s.zones) && (id in t.zones ==> t.zones[id] == s.zones[id])
  {
    hide InsideSome, Config.Relevant, Listed;
  }

  lemma ZoneKnownSeen(cfg: Config, zones: History<ZoneInfo>, calls: seq<Call>, id: int, k: nat, n: nat)
    requires cfg.classEqual.Some? && k < |calls| && Clocked(calls)
    requires ZoneKnown(cfg, zones, calls, id, k, n) && Sighted(cfg, calls, "Person", id, Moment(k, n))
    ensures IsMoment(calls, Moment(k, n))
    ensures var f := Fetched(zones, id, calls[k].now, 10 * 1000, ZoneInfo(false, calls[k].now));
            && id in f && Marks(cfg, calls, f[id].data, Left(cfg, calls, id, k, n))
            && ZoneKnown(cfg, Stored(f, id, if Outside(cfg, calls, Moment(k, n)) then ZoneInfo(true, calls[k].later) else f[id].data), calls, id, k, n + 1)
  {
    hide Sighted, Clocked, Dated, Shows, Trail, Left, Outside;
    var blank := ZoneInfo(false, calls[k].now);
    var f := Fetched(zones, id, calls[k].now, 10 * 1000, blank);
    LeftMore(cfg, calls, id, k, n);
    LeftNone(cfg, calls, id, k, n);
    SightedShows(cfg, calls, "Person", id, Moment(k, n));
    FetchedDated(zones, calls, id, k, blank, if Outside(cfg, calls, Moment(k, n)) then ZoneInfo(true, calls[k].later) else f[id].data);
    TrailSeen(cfg, calls, "Person", id, k, n);
  }

  lemma ZoneKnownUnseen(cfg: Config, zones: History<ZoneInfo>, zones': History<ZoneInfo>, calls: seq<Call>, id: int, k: nat, n: nat)
    requires cfg.classEqual.Some? && k < |calls|
    requires ZoneKnown(cfg, zones, calls, id, k, n) && !Sighted(cfg, calls, "Person", id, Moment(k, n))
    requires (id in zones' <==> id in zones) && (id in zones' ==> zones'[id] == zones[id])
    ensures ZoneKnown(cfg, zones', calls, id, k, n + 1)
  {
    hide Sighted, Dated, Trail, Marks;
    TrailSeen(cfg, calls, "Person", id, k, n);
    assert Trail(cfg, calls, "Person", id, k, n + 1) == Trail(cfg, calls, "Person", id, k, n);
    OtherDated(zones, zones', calls, id, k);
  }

  lemma ZoneKnownNext(cfg: Config, states: seq<State>, calls: seq<Call>, id: int, k: nat, n: nat)
    requires cfg.classEqual.Some? && cfg.event != VehicleParking && k < |calls| < |states| && n < |Objects(calls[k])| && Clocked(calls)
    requires ZoneKnown(cfg, ZoneAt(cfg, states, calls, k, n).zones, calls, id, k, n)
    ensures ZoneKnown(cfg, ZoneAt(cfg, states, calls, k, n + 1).zones, calls, id, k, n + 1)
  {
    hide ZoneAt, ZoneObject, Config.Relevant, Clocked, ZoneKnown, Fetched, Stored, InsideSome;
    var s, o, c, m := ZoneAt(cfg, states, calls, k, n), Objects(calls[k])[n], calls[k], Moment(k, n);
    ZoneNext(cfg, states, calls, k, n);
    ZoneObjectMark(cfg, s, o, id, c.now, c.later, Enough(cfg, states[k].lastActive, c.later));
    assert IsMoment(calls, m) && ObjectAt(calls, m) == o;
    if Sighted(cfg, calls, "Person", id, m) {
      ZoneKnownSeen(cfg, s.zones, calls, id, k, n);
    } else {
      ZoneKnownUnseen(cfg, s.zones, ZoneAt(cfg, states, calls, k, n + 1).zones, calls, id, k, n);
    }
  }

  lemma ZoneKnownEnters(cfg: Config, zones: History<ZoneInfo>, calls: seq<Call>, id: int, k: nat)
    requires cfg.classEqual.Some? && 0 < k < |calls| && Clocked(calls)
    requires ZoneKnown(cfg, zones, calls, id, k - 1, |Objects(calls[k - 1])|)
    ensures ZoneKnown(cfg, Entering(zones, calls[k], 10 * 1000), calls, id, k, 0)
  {
    hide Dated, Entering, Lapses, Clocked;
    EnteringDated(zones, calls, id, k);
  }

  lemma ZoneKnownStarts(cfg: Config, calls: seq<Call>, id: int)
    requires cfg.classEqual.Some? && |calls| > 0
    ensures ZoneKnown(cfg, Entering(map[], calls[0], 10 * 1000), calls, id, 0, 0)
  {
    hide Lapses;
    assert Entering<ZoneInfo>(map[], calls[0], 10 * 1000) == map[];
  }

  /** In every run the mark of a track's history says whether and when the track was last outside
      every region since its history lapsed. */
  lemma {:induction false} ZoneMark(cfg: Config, start: int, states: seq<State>, calls: seq<Call>, id: int, k: nat, n: nat)
    requires ZoneRun(cfg, start, states, calls) && k < |calls| && n <= |Objects(calls[k])|
    ensures ZoneKnown(cfg, ZoneAt(cfg, states, calls, k, n).zones, calls, id, k, n)
    decreases k, n
  {
    hide IsRun, ZoneAt, ZoneKnown;
    RunSizes(cfg, start, states, calls);
    if n > 0 {
      ZoneMark(cfg, start, states, calls, id, k, n - 1);
      ZoneKnownNext(cfg, states, calls, id, k, n - 1);
    } else if k > 0 {
      ZoneMark(cfg, start, states, calls, id, k - 1, |Objects(calls[k - 1])|);
      ZoneCall(cfg, start, states, calls, k - 1);
      ZoneFirst(cfg, start, states, calls, k);
      ZoneKnownEnters(cfg, states[k].zones, calls, id, k);
    } else {
      ZoneFirst(cfg, start, states, calls, k);
      ZoneKnownStarts(cfg, calls, id);
    }
  }

  // ----- what the zone checker reports

  /** The n-th object of call k is looked at while the call is due, is inside a region, and its
      track was outside every region before, since its history lapsed. */
  ghost predicate Enters(cfg: Config, start: int, calls: seq<Call>, k: nat, n: nat)
    requires cfg.classEqual.Some? && k < |calls| && n < |Objects(calls[k])|
  {
    var o := Objects(calls[k])[n];
    cfg.Relevant(o, "Person") && Due(cfg, start, calls, k) && InsideSome(cfg.rois, o.mid) && Left(cfg, calls, o.trackId, k, n).Some?
  }

  /** The track enters with one of the first n objects of call k. */
  ghost predicate Entered(cfg: Config, start: int, calls: seq<Call>, k: nat, n: nat, id: int)
    requires cfg.classEqual.Some? && k < |calls| && n <= |Objects(calls[k])|
  {
    exists i :: 0 <= i < n && Objects(calls[k])[i].trackId == id && Enters(cfg, start, calls, k, i)
  }

  /** To be reported: the first object of the call with which its track enters. */
  ghost predicate ZoneReported(cfg: Config, start: int, calls: seq<Call>, k: nat, n: nat)
    requires cfg.classEqual.Some? && k < |calls| && n < |Objects(calls[k])|
  {
    Enters(cfg, start, calls, k, n) && !Entered(cfg, start, calls, k, n, Objects(calls[k])[n].trackId)
  }

  /** Whole seconds since the track was last outside. */
  ghost predicate ZoneSeconds(cfg: Config, calls: seq<Call>, k: nat, n: nat, value: int)
    requires cfg.classEqual.Some? && k < |calls| && n < |Objects(calls[k])|
  {
    var left := Left(cfg, calls, Objects(calls[k])[n].trackId, k, n);
    left.Some? && left.value.call < |calls| && value == (calls[k].later - calls[left.value.call].later) / 1000
  }

  lemma ZoneObjectResult(cfg: Config, s: ZoneState, o: TrackedObject, now: int, later: int, enough: bool)
    requires cfg.classEqual.Some? && cfg.event != VehicleParking
    ensures var f := Fetched(s.zones, o.trackId, now, 10 * 1000, ZoneInfo(false, now));
            && o.trackId in f
            && var info := f[o.trackId].data;
               ZoneObject(cfg, s, o, now, later, enough).results
               == if cfg.Relevant(o, "Person") && enough && InsideSome(cfg.rois, o.mid) && info.continuous && !Listed(s.results, o.trackId)
                  then s.results + [Report(o.trackId, (later - info.eventTime) / 1000)] else s.results
  {
    hide InsideSome, Config.Relevant, Listed;
    assert s.results + [] == s.results;
  }

  lemma ZoneResultNext(cfg: Config, start: int, states: seq<State>, calls: seq<Call>, k: nat, n: nat)
    requires ZoneRun(cfg, start, states, calls) && k < |calls| && n < |Objects(calls[k])|
    ensures var r, r', o := ZoneAt(cfg, states, calls, k, n).results, ZoneAt(cfg, states, calls, k, n + 1).results, Objects(calls[k])[n];
            if Enters(cfg, start, calls, k, n) && !Listed(r, o.trackId) then
              |r'| == |r| + 1 && r'[..|r|] == r && r'[|r|].trackId == o.trackId && ZoneSeconds(cfg, calls, k, n, r'[|r|].value)
            else r' == r
  {
    hide ZoneAt, ZoneObject, Config.Relevant, IsRun, Due, Left, Dated, Trail, Enough, InsideSome, Listed, Fetched, Outside;
    var c, o, m := calls[k], Objects(calls[k])[n], Moment(k, n);
    var s, enough := ZoneAt(cfg, states, calls, k, n), Enough(cfg, states[k].lastActive, c.later);
    RunSizes(cfg, start, states, calls);
    ZoneNext(cfg, states, calls, k, n);
    DueExactly(cfg, start, states, calls, k);
    ZoneObjectResult(cfg, s, o, c.now, c.later, enough);
    ZoneMark(cfg, start, states, calls, o.trackId, k, n);
    assert IsMoment(calls, m) && ObjectAt(calls, m) == o;
    if cfg.Relevant(o, "Person") { ZoneKnownSeen(cfg, s.zones, calls, o.trackId, k, n); }
  }

  /** The reports are about the objects at these positions, each with its seconds. */
  ghost predicate ZonesListed(cfg: Config, calls: seq<Call>, k: nat, results: seq<Report>, at: seq<nat>)
    requires cfg.classEqual.Some? && k < |calls|
  {
    |results| == |at| && forall j :: 0 <= j < |at| ==>
      && at[j] < |Objects(calls[k])|
      && results[j].trackId == Objects(calls[k])[at[j]].trackId && ZoneSeconds(cfg, calls, k, at[j], results[j].value)
  }

  lemma NoZones(cfg: Config, calls: seq<Call>, k: nat)
    requires cfg.classEqual.Some? && k < |calls|
    ensures ZonesListed(cfg, calls, k, [], [])
  {
  }

  lemma MoreZones(cfg: Config, calls: seq<Call>, k: nat, r: seq<Report>, r': seq<Report>, at: seq<nat>, n: nat)
    requires cfg.classEqual.Some? && k < |calls| && n < |Objects(calls[k])| && ZonesListed(cfg, calls, k, r, at)
    requires |r'| == |r| + 1 && r'[..|r|] == r && r'[|r|].trackId == Objects(calls[k])[n].trackId && ZoneSeconds(cfg, calls, k, n, r'[|r|].value)
    ensures ZonesListed(cfg, calls, k, r', at + [n])
  {
    hide ZoneSeconds;
    assert forall j :: 0 <= j < |r| ==> r'[j] == r[j];
  }

  lemma ListedMore(r: seq<Report>, r': seq<Report>, id: int)
    requires |r'| == |r| + 1 && r'[..|r|] == r
    ensures Listed(r', id) <==> Listed(r, id) || r'[|r|].trackId == id
  {
    assert forall j :: 0 <= j < |r| ==> r'[j] == r[j];
    if Listed(r, id) {
      var i :| 0 <= i < |r| && r[i].trackId == id;
      assert r'[i].trackId == id;
    }
  }

  lemma {:induction false} ZoneResults(cfg: Config, start: int, states: seq<State>, calls: seq<Call>, k: nat, n: nat) returns (at: seq<nat>)
    requires ZoneRun(cfg, start, states, calls) && k < |calls| && n <= |Objects(calls[k])|
    ensures Positions(at, n) && forall i: nat :: i in at <==> i < n && ZoneReported(cfg, start, calls, k, i)
    ensures ZonesListed(cfg, calls, k, ZoneAt(cfg, states, calls, k, n).results, at)
    ensures forall id :: Listed(ZoneAt(cfg, states, calls, k, n).results, id) <==> Entered(cfg, start, calls, k, n, id)
  {
    hide IsRun, ZoneAt, Enters, Positions, ZonesListed, Listed, ZoneSeconds;
    if n == 0 {
      ZoneFirst(cfg, start, states, calls, k);
      at := [];
      NoPositions();
      NoZones(cfg, calls, k);
      NoneListed();
    } else {
      var p := ZoneResults(cfg, start, states, calls, k, n - 1);
      var r, r', o := ZoneAt(cfg, states, calls, k, n - 1).results, ZoneAt(cfg, states, calls, k, n).results, Objects(calls[k])[n - 1];
      assert Listed(r, o.trackId) <==> Entered(cfg, start, calls, k, n - 1, o.trackId);
      at := MorePositions(p, n - 1, ZoneReported(cfg, start, calls, k, n - 1));
      ZoneResultNext(cfg, start, states, calls, k, n - 1);
      forall id ensures Entered(cfg, start, calls, k, n, id) <==>
        Entered(cfg, start, calls, k, n - 1, id) || (o.trackId == id && Enters(cfg, start, calls, k, n - 1)) {
        EnteredMore(cfg, start, calls, k, n - 1, id);
      }
      if ZoneReported(cfg, start, calls, k, n - 1) {
        MoreZones(cfg, calls, k, r, r', p, n - 1);
        forall id ensures Listed(r', id) <==> Listed(r, id) || o.trackId == id { ListedMore(r, r', id); }
      }
    }
  }

  lemma EnteredMore(cfg: Config, start: int, calls: seq<Call>, k: nat, n: nat, id: int)
    requires cfg.classEqual.Some? && k < |calls| && n < |Objects(calls[k])|
    ensures Entered(cfg, start, calls, k, n + 1, id) <==>
              Entered(cfg, start, calls, k, n, id) || (Objects(calls[k])[n].trackId == id && Enters(cfg, start, calls, k, n))
  {
    hide Enters;
  }

  lemma NoneListed()
    ensures forall id :: !Listed([], id)
  {
  }

  /** In every run a call reports, in order, for every track exactly the first object with which it
      enters a region after having been outside all of them, as long as the call is due and the
      history has not lapsed between; with each it gives the seconds since it was last outside. */
  lemma ZoneReport(cfg: Config, start: int, states: seq<State>, calls: seq<Call>, k: nat) returns (at: seq<nat>)
    requires ZoneRun(cfg, start, states, calls) && k < |calls|
    ensures Positions(at, |Objects(calls[k])|)
    ensures forall n: nat :: n in at <==> n < |Objects(calls[k])| && ZoneReported(cfg, start, calls, k, n)
    ensures ZonesListed(cfg, calls, k, calls[k].results, at)
  {
    hide IsRun, ZoneAt, ZoneReported, Positions, ZonesListed, Entered;
    ZoneCall(cfg, start, states, calls, k);
    at := ZoneResults(cfg, start, states, calls, k, |Objects(calls[k])|);
  }
}
