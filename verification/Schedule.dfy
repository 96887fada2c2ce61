/** The event checkers on objects updated in place, against the functions of module Events. */
module Schedules {
  import opened Collections
  import opened Geometry
  import opened Options
  import opened Events

  /** Data kept per track, dropped after a time without activity. */
  class HistoryChecker<T> {
    const limit: int
    var historyMap: History<T>

    constructor (limit: int)
      ensures historyMap == map[] && this.limit == limit
    {
      this.limit := limit;
      historyMap := map[];
    }

    method GetHistory(id: int, now: int, blank: T) returns (data: T)
      modifies this
      ensures historyMap == Fetched(old(historyMap), id, now, limit, blank)
      ensures id in historyMap && data == historyMap[id].data
    {
      if id !in historyMap {
        historyMap := historyMap[id := Entry(blank, now)];
      } else if now - historyMap[id].since > limit {
        historyMap := historyMap[id := Entry(blank, now)];
      }
      data := historyMap[id].data;
    }

    /** Writes through the reference GetHistory gave. */
    method Store(id: int, data: T)
      requires id in historyMap
      modifies this
      ensures historyMap == Stored(old(historyMap), id, data)
    {
      historyMap := historyMap[id := Entry(data, historyMap[id].since)];
    }

    /** Drops the histories at the limit and refreshes those of the given objects. */
    method ReleaseInactiveHistory(objects: seq<TrackedObject>, now: int)
      modifies this
      ensures historyMap == Released(old(historyMap), objects, now, limit)
    {
      ghost var before := historyMap;
      var todo := historyMap.Keys;
      while todo != {}
        invariant todo <= before.Keys
        invariant forall id :: id in todo ==> id in historyMap && historyMap[id] == before[id]
        invariant forall id :: id in before && id !in todo ==>
                    (id in historyMap <==> id in Released(before, objects, now, limit))
                    && (id in historyMap ==> historyMap[id] == Released(before, objects, now, limit)[id])
        invariant historyMap.Keys <= before.Keys
      {
        ghost var some := Member(todo);
        var id :| id in todo;
        var exists' := FindTrack(objects, id);
        if now - historyMap[id].since >= limit {
          historyMap := historyMap - {id};
        } else if exists' {
          historyMap := historyMap[id := Entry(historyMap[id].data, now)];
        }
        todo := todo - {id};
      }
    }
  }

  method FindTrack(objects: seq<TrackedObject>, id: int) returns (b: bool)
    ensures b <==> exists i :: 0 <= i < |objects| && objects[i].trackId == id
  {
    for i := 0 to |objects|
      invariant forall k :: 0 <= k < i ==> objects[k].trackId != id
    {
      if objects[i].trackId == id { return true; }
    }
    b := false;
  }

  method FindInside(rois: seq<seq<Point>>, p: Point) returns (b: bool)
    ensures b <==> exists i :: 0 <= i < |rois| && Included(p, rois[i])
  {
    b := false;
    for i := 0 to |rois|
      invariant b <==> exists k :: 0 <= k < i && Included(p, rois[k])
    {
      var inside := IsIncludePoint(p, rois[i]);
      if inside { b := true; }
    }
  }

  class Schedule {
    const cfg: Config
    const objectHistory: HistoryChecker<seq<Point>>
    const roiStateHistory: HistoryChecker<ZoneInfo>
    const movingStateHistory: HistoryChecker<seq<Sighting>>
    var lastActiveTime: int

    constructor (cfg: Config, now: int)
      requires cfg.Valid()
      ensures Valid() && this.cfg == cfg && Value() == State(map[], map[], map[], now)
      ensures fresh(objectHistory) && fresh(roiStateHistory) && fresh(movingStateHistory)
    {
      this.cfg := cfg;
      objectHistory := new HistoryChecker(cfg.ReleaseMs());
      roiStateHistory := new HistoryChecker(cfg.ReleaseMs());
      movingStateHistory := new HistoryChecker(cfg.ReleaseMs());
      lastActiveTime := now;
    }

    ghost predicate Valid() {
      cfg.Valid() && objectHistory.limit == roiStateHistory.limit == movingStateHistory.limit == cfg.ReleaseMs()
    }

    ghost function Value(): State
      reads this, objectHistory, roiStateHistory, movingStateHistory
    {
      State(objectHistory.historyMap, roiStateHistory.historyMap, movingStateHistory.historyMap, lastActiveTime)
    }

    method UpdateEventActivateTime(now: int)
      modifies this`lastActiveTime
      ensures lastActiveTime == now
    {
      lastActiveTime := now;
    }

    method GetEnoughEventInterval(now: int) returns (b: bool)
      ensures b <==> now > lastActiveTime + cfg.intervalSecs * 1000
    {
      b := now - lastActiveTime > cfg.intervalSecs * 1000;
    }

    method IsRelevant(o: TrackedObject, name: string) returns (b: bool)
      requires cfg.classEqual.Some?
      ensures b <==> cfg.classEqual.value(o.classId, name) && forall i :: 0 <= i < |cfg.excludeRois| ==> !Included(o.mid, cfg.excludeRois[i])
    {
      if !cfg.classEqual.value(o.classId, name) { return false; }
      var excluded := FindInside(cfg.excludeRois, o.mid);
      b := !excluded;
    }

    /** One object of the line checkers. */
    method LineStep(o: TrackedObject, name: string, now: int, later: int, results: seq<Report>) returns (results': seq<Report>)
      requires Valid() && cfg.classEqual.Some?
      modifies objectHistory
      ensures LineState(objectHistory.historyMap, results')
           == LineObject(cfg, name, LineState(old(objectHistory.historyMap), results), o, now, Enough(cfg, lastActiveTime, later))
    {
      hide ScanRegions;
      results' := results;
      var relevant := IsRelevant(o, name);
      if !relevant { return; }
      var track := objectHistory.GetHistory(o.trackId, now, []);
      track := track + [o.mid];
      if |track| > HIST_MAX { track := []; }
      objectHistory.Store(o.trackId, track);
      if |track| < MIN_TRACKING { return; }
      var enough := GetEnoughEventInterval(later);
      if !enough { return; }
      var direction := NotCrossed;
      ghost var r, l, h;
      var twoWay, oneWay;
      twoWay, r, l, h := CalcLineCross(track, cfg.twoWayRois);
      if twoWay != NotCrossed { direction := twoWay; }
      oneWay, r, l, h := CalcLineCross(track, cfg.oneWayRois);
      if oneWay == Clockwise { direction := oneWay; }
      if direction != NotCrossed {
        results' := results + [Report(o.trackId, DirectionCode(direction))];
      }
    }

    method LineIntrusionBase(objects: seq<TrackedObject>, name: string, now: int, later: int) returns (results: seq<Report>)
      requires Valid()
      modifies this`lastActiveTime, objectHistory
      ensures cfg.classEqual.None? ==> Value() == old(Value()) && results == []
      ensures cfg.classEqual.Some? ==> (Value(), results) == CheckLines(cfg, name, old(Value()), objects, now, later)
    {
      results := [];
      if cfg.classEqual.None? { return; }
      hide LineObject;
      objectHistory.ReleaseInactiveHistory(objects, now);
      ghost var s := LineState(objectHistory.historyMap, []);
      for k := 0 to |objects|
        invariant lastActiveTime == old(lastActiveTime)
        invariant LineState(objectHistory.historyMap, results) == LineLayer(cfg, name, s, objects, k, now, Enough(cfg, lastActiveTime, later))
        invariant roiStateHistory.historyMap == old(roiStateHistory.historyMap) && movingStateHistory.historyMap == old(movingStateHistory.historyMap)
      {
        results := LineStep(objects[k], name, now, later, results);
      }
      if |results| > 0 { UpdateEventActivateTime(later); }
    }

    /** One object of the zone checker. */
    method ZoneStep(o: TrackedObject, now: int, later: int, results: seq<Report>) returns (results': seq<Report>)
      requires Valid() && cfg.classEqual.Some?
      modifies roiStateHistory
      ensures ZoneState(roiStateHistory.historyMap, results')
           == ZoneObject(cfg, ZoneState(old(roiStateHistory.historyMap), results), o, now, later, Enough(cfg, lastActiveTime, later))
    {
      results' := results;
      assert results + [] == results;
      var relevant := IsRelevant(o, "Person");
      if !relevant { return; }
      var inside := FindInside(cfg.rois, o.mid);
      var check := roiStateHistory.GetHistory(o.trackId, now, ZoneInfo(false, now));
      if !inside { check := ZoneInfo(true, later); }
      roiStateHistory.Store(o.trackId, check);
      var enough := GetEnoughEventInterval(later);
      if !enough { return; }
      ghost var reached := false;
      for i := 0 to |cfg.rois|
        modifies {}
        invariant reached <==> exists k :: 0 <= k < i && Included(o.mid, cfg.rois[k])
        invariant results' == if reached && check.continuous && !Listed(results, o.trackId)
                              then results + [Report(o.trackId, (later - check.eventTime) / 1000)] else results
      {
        var at := IsIncludePoint(o.mid, cfg.rois[i]);
        ListedMore(results, results', o.trackId);
        reached := reached || at;
        if check.continuous && at {
          var found := FindReport(results', o.trackId);
          if !found {
            results' := results' + [Report(o.trackId, (later - check.eventTime) / 1000)];
          }
        }
      }
      assert reached <==> inside;
    }

    method IntrusionZone(objects: seq<TrackedObject>, now: int, later: int) returns (results: seq<Report>)
      requires Valid()
      modifies this`lastActiveTime, roiStateHistory
      ensures cfg.classEqual.None? ==> Value() == old(Value()) && results == []
      ensures cfg.classEqual.Some? ==> (Value(), results) == CheckZone(cfg, old(Value()), objects, now, later)
    {
      results := [];
      if cfg.classEqual.None? { return; }
      hide ZoneObject;
      roiStateHistory.ReleaseInactiveHistory(objects, now);
      ghost var s := ZoneState(roiStateHistory.historyMap, []);
      for k := 0 to |objects|
        invariant lastActiveTime == old(lastActiveTime)
        invariant ZoneState(roiStateHistory.historyMap, results)
               == ZoneLayer(cfg, s, objects, k, now, later, Enough(cfg, lastActiveTime, later))
        invariant objectHistory.historyMap == old(objectHistory.historyMap) && movingStateHistory.historyMap == old(movingStateHistory.historyMap)
      {
        results := ZoneStep(objects[k], now, later, results);
      }
      if |results| > 0 { UpdateEventActivateTime(later); }
    }

    /** One object of the parking checker. */
    method ParkingStep(o: TrackedObject, now: int, later: int, results: seq<Report>) returns (results': seq<Report>)
      requires Valid() && cfg.classEqual.Some?
      modifies movingStateHistory
      ensures ParkingState(movingStateHistory.historyMap, results')
           == ParkingObject(cfg, ParkingState(old(movingStateHistory.historyMap), results), o, now, later, Enough(cfg, lastActiveTime, later))
    {
      results' := results;
      var relevant := IsRelevant(o, "Car");
      if !relevant { return; }
      var inside := FindInside(cfg.rois, o.mid);
      var list := movingStateHistory.GetHistory(o.trackId, now, []);
      if !inside { return; }
      list := list + [Sighting(o, later)];
      if |list| > HIST_MAX { list := [list[0]]; }
      movingStateHistory.Store(o.trackId, list);
      if |list| < MIN_TRACKING { return; }
      var length := later - list[0].time;
      var duration := if length > cfg.RequireMs() then length / 1000 else 0;
      var enough := GetEnoughEventInterval(later);
      if duration > 0 && enough {
        results' := results + [Report(o.trackId, duration)];
      }
    }

    method VehicleParkingCheck(objects: seq<TrackedObject>, now: int, later: int) returns (results: seq<Report>)
      requires Valid()
      modifies this`lastActiveTime, movingStateHistory
      ensures cfg.classEqual.None? ==> Value() == old(Value()) && results == []
      ensures cfg.classEqual.Some? ==> (Value(), results) == CheckParking(cfg, old(Value()), objects, now, later)
    {
      results := [];
      if cfg.classEqual.None? { return; }
      hide ParkingObject;
      ghost var s := ParkingState(movingStateHistory.historyMap, []);
      for k := 0 to |objects|
        invariant lastActiveTime == old(lastActiveTime)
        invariant ParkingState(movingStateHistory.historyMap, results) == ParkingLayer(cfg, s, objects, k, now, later, Enough(cfg, lastActiveTime, later))
        invariant objectHistory.historyMap == old(objectHistory.historyMap) && roiStateHistory.historyMap == old(roiStateHistory.historyMap)
      {
        results := ParkingStep(objects[k], now, later, results);
      }
      if |results| > 0 { UpdateEventActivateTime(later); }
    }

    /** Runs the checker of the schedule's event when its times let it. */
    method Check(objects: seq<TrackedObject>, now: int, later: int, scheduled: bool) returns (results: seq<Report>)
      requires Valid()
      modifies this`lastActiveTime, objectHistory, roiStateHistory, movingStateHistory
      ensures (Value(), results) == Checked(cfg, old(Value()), objects, now, later, scheduled)
    {
      results := [];
      if !scheduled { return; }
      hide CheckLines, CheckZone, CheckParking;
      match cfg.event {
        case LineIntrusion => results := LineIntrusionBase(objects, "Person", now, later);
        case AreaIntrusion => results := IntrusionZone(objects, now, later);
        case VehicleIntrusion => results := LineIntrusionBase(objects, "Car", now, later);
        case VehicleParking => results := VehicleParkingCheck(objects, now, later);
        case NotDefined =>
      }
    }
  }

  method FindReport(results: seq<Report>, id: int) returns (b: bool)
    ensures b <==> exists i :: 0 <= i < |results| && results[i].trackId == id
  {
    for i := 0 to |results|
      invariant forall k :: 0 <= k < i ==> results[k].trackId != id
    {
      if results[i].trackId == id { return true; }
    }
    b := false;
  }

  lemma ListedMore(results: seq<Report>, more: seq<Report>, id: int)
    requires results <= more && forall i :: |results| <= i < |more| ==> more[i].trackId == id
    ensures Listed(more, id) <==> Listed(results, id) || |results| < |more|
  {
    if |results| < |more| { assert more[|results|].trackId == id; }
    if Listed(results, id) {
      var i :| 0 <= i < |results| && results[i].trackId == id;
      assert more[i] == results[i];
    }
  }
}
