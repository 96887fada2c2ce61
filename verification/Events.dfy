/** The event checkers of a schedule on values: one call as a function of the state, and what
    holds over every run. Times are milliseconds of one clock. A call reads it twice: `now` for
    the age of the histories, and `later` for the times it stores and for the event interval. */
module Events {
  import opened Geometry
  import opened Options

  /** A tracked object, with the midpoint of its box. */
  datatype TrackedObject = TrackedObject(trackId: int, classId: int, mid: Point)

  /** A reported object and the number appended to its extended data. */
  datatype Report = Report(trackId: int, value: int)

  datatype EventClass = LineIntrusion | AreaIntrusion | VehicleIntrusion | VehicleParking | NotDefined

  datatype Config = Config(
    event: EventClass, classEqual: Option<(int, string) -> bool>,
    rois: seq<seq<Point>>, excludeRois: seq<seq<Point>>, twoWayRois: seq<seq<Point>>, oneWayRois: seq<seq<Point>>,
    intervalSecs: int, loiteringSecs: int)
  {
    /** Inactivity after which a history is dropped. */
    function ReleaseMs(): int { if event == VehicleParking then 120 * 1000 else 10 * 1000 }

    /** How long a history must last before it can bring an event. */
    function RequireMs(): int { if event == VehicleParking then loiteringSecs * 1000 else 1 * 1000 }

    /** Lines of at least one point, as the crossing test demands. */
    ghost predicate Valid() {
      && (forall i :: 0 <= i < |twoWayRois| ==> |twoWayRois[i]| > 0)
      && (forall i :: 0 <= i < |oneWayRois| ==> |oneWayRois[i]| > 0)
    }

    predicate ExcludedAt(p: Point) { InsideSome(excludeRois, p) }

    predicate Relevant(o: TrackedObject, name: string)
      requires classEqual.Some?
    {
      classEqual.value(o.classId, name) && !ExcludedAt(o.mid)
    }
  }

  const HIST_MAX: nat := 600

  const MIN_TRACKING: nat := 10

  predicate InsideSome(rois: seq<seq<Point>>, p: Point) {
    exists i :: 0 <= i < |rois| && Included(p, rois[i])
  }

  // ----- per-track histories

  datatype Entry<T> = Entry(data: T, since: int)

  type History<T> = map<int, Entry<T>>

  /** No history, or one that outlived the release limit. */
  predicate Stale<T>(h: History<T>, id: int, now: int, limit: int) { id !in h || now - h[id].since > limit }

  function Fetched<T>(h: History<T>, id: int, now: int, limit: int, blank: T): History<T> {
    if Stale(h, id, now, limit) then h[id := Entry(blank, now)] else h
  }

  function Stored<T>(h: History<T>, id: int, data: T): History<T>
    requires id in h
  {
    h[id := Entry(data, h[id].since)]
  }

  ghost predicate Appears(objects: seq<TrackedObject>, id: int) {
    exists i :: 0 <= i < |objects| && objects[i].trackId == id
  }

  ghost function Released<T>(h: History<T>, objects: seq<TrackedObject>, now: int, limit: int): History<T> {
    map id | id in h && now - h[id].since < limit :: if Appears(objects, id) then Entry(h[id].data, now) else h[id]
  }

  // ----- line intrusion

  function DirectionCode(o: LineOrientation): int {
    match o
    case NotCrossed => -1
    case OnLine => 0
    case Clockwise => 1
    case CounterClockwise => 2
  }

  function Direction(cfg: Config, track: seq<Point>): LineOrientation {
    var oneWay := ScanRegions(track, cfg.oneWayRois, 0);
    if oneWay == Clockwise then oneWay else ScanRegions(track, cfg.twoWayRois, 0)
  }

  datatype LineState = LineState(tracks: History<seq<Point>>, results: seq<Report>)

  function Lengthened(track: seq<Point>, p: Point): seq<Point> {
    if |track| + 1 > HIST_MAX then [] else track + [p]
  }

  function LineObject(cfg: Config, name: string, s: LineState, o: TrackedObject, now: int, enough: bool): LineState
    requires cfg.classEqual.Some?
  {
    if !cfg.Relevant(o, name) then s
    else
      var h := Fetched(s.tracks, o.trackId, now, cfg.ReleaseMs(), []);
      var track := Lengthened(h[o.trackId].data, o.mid);
      var d := if |track| >= MIN_TRACKING && enough then Direction(cfg, track) else NotCrossed;
      LineState(Stored(h, o.trackId, track),
                s.results + if d != NotCrossed then [Report(o.trackId, DirectionCode(d))] else [])
  }

  function LineLayer(cfg: Config, name: string, s: LineState, objects: seq<TrackedObject>, k: nat, now: int, enough: bool): LineState
    requires cfg.classEqual.Some? && k <= |objects|
  {
    if k == 0 then s
    else LineObject(cfg, name, LineLayer(cfg, name, s, objects, k - 1, now, enough), objects[k - 1], now, enough)
  }

  // ----- zone intrusion

  /** Whether the track was outside every region in this history, and when last. */
  datatype ZoneInfo = ZoneInfo(continuous: bool, eventTime: int)

  datatype ZoneState = ZoneState(zones: History<ZoneInfo>, results: seq<Report>)

  predicate Listed(results: seq<Report>, id: int) { exists i :: 0 <= i < |results| && results[i].trackId == id }

  function ZoneObject(cfg: Config, s: ZoneState, o: TrackedObject, now: int, later: int, enough: bool): ZoneState
    requires cfg.classEqual.Some?
  {
    if !cfg.Relevant(o, "Person") then s
    else
      var id := o.trackId;
      var outside := !InsideSome(cfg.rois, o.mid);
      var h := Fetched(s.zones, id, now, cfg.ReleaseMs(), ZoneInfo(false, now));
      var info := if outside then ZoneInfo(true, later) else h[id].data;
      ZoneState(Stored(h, id, info),
                s.results + if enough && info.continuous && !outside && !Listed(s.results, id)
                            then [Report(id, (later - info.eventTime) / 1000)] else [])
  }

  function ZoneLayer(cfg: Config, s: ZoneState, objects: seq<TrackedObject>, k: nat, now: int, later: int, enough: bool): ZoneState
    requires cfg.classEqual.Some? && k <= |objects|
  {
    if k == 0 then s
    else ZoneObject(cfg, ZoneLayer(cfg, s, objects, k - 1, now, later, enough), objects[k - 1], now, later, enough)
  }

  // ----- vehicle parking

  datatype Sighting = Sighting(object': TrackedObject, time: int)

  datatype ParkingState = ParkingState(cars: History<seq<Sighting>>, results: seq<Report>)

  function Compressed(list: seq<Sighting>): seq<Sighting> { if |list| > HIST_MAX then [list[0]] else list }

  function ParkingObject(cfg: Config, s: ParkingState, o: TrackedObject, now: int, later: int, enough: bool): ParkingState
    requires cfg.classEqual.Some?
  {
    if !cfg.Relevant(o, "Car") then s
    else
      var h := Fetched(s.cars, o.trackId, now, cfg.ReleaseMs(), []);
      if !InsideSome(cfg.rois, o.mid) then ParkingState(h, s.results)
      else
        var list := Compressed(h[o.trackId].data + [Sighting(o, later)]);
        var length := later - list[0].time;
        var duration := if length > cfg.RequireMs() then length / 1000 else 0;
        ParkingState(Stored(h, o.trackId, list),
                     s.results + if |list| >= MIN_TRACKING && duration > 0 && enough then [Report(o.trackId, duration)] else [])
  }

  function ParkingLayer(cfg: Config, s: ParkingState, objects: seq<TrackedObject>, k: nat, now: int, later: int, enough: bool): ParkingState
    requires cfg.classEqual.Some? && k <= |objects|
  {
    if k == 0 then s
    else ParkingObject(cfg, ParkingLayer(cfg, s, objects, k - 1, now, later, enough), objects[k - 1], now, later, enough)
  }

  // ----- one call

  datatype State = State(tracks: History<seq<Point>>, zones: History<ZoneInfo>, cars: History<seq<Sighting>>, lastActive: int)

  predicate Enough(cfg: Config, lastActive: int, now: int) { now - lastActive > cfg.intervalSecs * 1000 }

  function Touched(results: seq<Report>, lastActive: int, now: int): int { if |results| > 0 then now else lastActive }

  ghost function CheckLines(cfg: Config, name: string, s: State, objects: seq<TrackedObject>, now: int, later: int): (State, seq<Report>)
    requires cfg.classEqual.Some?
  {
    var start := LineState(Released(s.tracks, objects, now, cfg.ReleaseMs()), []);
    var r := LineLayer(cfg, name, start, objects, |objects|, now, Enough(cfg, s.lastActive, later));
    (s.(tracks := r.tracks, lastActive := Touched(r.results, s.lastActive, later)), r.results)
  }

  ghost function CheckZone(cfg: Config, s: State, objects: seq<TrackedObject>, now: int, later: int): (State, seq<Report>)
    requires cfg.classEqual.Some?
  {
    var start := ZoneState(Released(s.zones, objects, now, cfg.ReleaseMs()), []);
    var r := ZoneLayer(cfg, start, objects, |objects|, now, later, Enough(cfg, s.lastActive, later));
    (s.(zones := r.zones, lastActive := Touched(r.results, s.lastActive, later)), r.results)
  }

  ghost function CheckParking(cfg: Config, s: State, objects: seq<TrackedObject>, now: int, later: int): (State, seq<Report>)
    requires cfg.classEqual.Some?
  {
    var r := ParkingLayer(cfg, ParkingState(s.cars, []), objects, |objects|, now, later, Enough(cfg, s.lastActive, later));
    (s.(cars := r.cars, lastActive := Touched(r.results, s.lastActive, later)), r.results)
  }

  /** One call; `scheduled` says whether the black list, weekday and time range let it run. */
  ghost function Checked(cfg: Config, s: State, objects: seq<TrackedObject>, now: int, later: int, scheduled: bool): (State, seq<Report>) {
    if !scheduled || cfg.classEqual.None? then (s, [])
    else match cfg.event
      case LineIntrusion => CheckLines(cfg, "Person", s, objects, now, later)
      case AreaIntrusion => CheckZone(cfg, s, objects, now, later)
      case VehicleIntrusion => CheckLines(cfg, "Car", s, objects, now, later)
      case VehicleParking => CheckParking(cfg, s, objects, now, later)
      case NotDefined => (s, [])
  }

  // ----- what every call keeps

  /** Lists stay within the limit, and a parked car's sightings are no older than its history. */
  ghost predicate Kept(s: State) { TracksFit(s.tracks) && SightingsFit(s.cars) }

  ghost predicate SightingsFit(cars: History<seq<Sighting>>) {
    forall id :: id in cars ==>
      |cars[id].data| <= HIST_MAX && forall i :: 0 <= i < |cars[id].data| ==> cars[id].data[i].time >= cars[id].since
  }

  ghost predicate TracksFit(tracks: History<seq<Point>>) { forall id :: id in tracks ==> |tracks[id].data| <= HIST_MAX }

  lemma LineObjectKept(cfg: Config, name: string, s: LineState, o: TrackedObject, now: int, enough: bool)
    requires cfg.classEqual.Some? && TracksFit(s.tracks)
    ensures var t := LineObject(cfg, name, s, o, now, enough); TracksFit(t.tracks) && (!enough ==> t.results == s.results)
  {
    hide Direction;
  }

  lemma {:induction false} LinesKept(cfg: Config, name: string, s: LineState, objects: seq<TrackedObject>, k: nat, now: int, enough: bool)
    requires cfg.classEqual.Some? && k <= |objects| && TracksFit(s.tracks)
    ensures var t := LineLayer(cfg, name, s, objects, k, now, enough); TracksFit(t.tracks) && (!enough ==> t.results == s.results)
  {
    if k > 0 {
      LinesKept(cfg, name, s, objects, k - 1, now, enough);
      LineObjectKept(cfg, name, LineLayer(cfg, name, s, objects, k - 1, now, enough), objects[k - 1], now, enough);
    }
  }

  lemma {:induction false} ZonesQuiet(cfg: Config, s: ZoneState, objects: seq<TrackedObject>, k: nat, now: int, later: int)
    requires cfg.classEqual.Some? && k <= |objects|
    ensures ZoneLayer(cfg, s, objects, k, now, later, false).results == s.results
  {
    if k > 0 { ZonesQuiet(cfg, s, objects, k - 1, now, later); }
  }

  /** Parking reports within what a history can last, the time between the two reads included. */
  ghost predicate ParkingReports(cfg: Config, results: seq<Report>, lag: int) {
    && (results != [] ==> cfg.RequireMs() < cfg.ReleaseMs() + lag)
    && forall i :: 0 <= i < |results| ==> 1000 * results[i].value <= cfg.ReleaseMs() + lag
  }

  ghost predicate Begun(cars: History<seq<Sighting>>, now: int) { forall id :: id in cars ==> cars[id].since <= now }

  lemma ParkingObjectKept(cfg: Config, s: ParkingState, o: TrackedObject, now: int, later: int, enough: bool)
    requires cfg.classEqual.Some? && now <= later
    requires SightingsFit(s.cars) && Begun(s.cars, now) && ParkingReports(cfg, s.results, later - now)
    ensures var t := ParkingObject(cfg, s, o, now, later, enough);
            && SightingsFit(t.cars) && Begun(t.cars, now) && ParkingReports(cfg, t.results, later - now)
            && (!enough ==> t.results == s.results)
  {
    hide InsideSome, Config.Relevant;
  }

  /** A parking report needs a history longer than required, but a history is started anew
      once it is older than the release limit. */
  lemma {:induction false} ParkingKept(cfg: Config, s: ParkingState, objects: seq<TrackedObject>, k: nat, now: int, later: int, enough: bool)
    requires cfg.classEqual.Some? && k <= |objects| && now <= later
    requires SightingsFit(s.cars) && Begun(s.cars, now) && ParkingReports(cfg, s.results, later - now)
    ensures var t := ParkingLayer(cfg, s, objects, k, now, later, enough);
            && SightingsFit(t.cars) && Begun(t.cars, now) && ParkingReports(cfg, t.results, later - now)
            && (!enough ==> t.results == s.results)
  {
    if k > 0 {
      ParkingKept(cfg, s, objects, k - 1, now, later, enough);
      ParkingObjectKept(cfg, ParkingLayer(cfg, s, objects, k - 1, now, later, enough), objects[k - 1], now, later, enough);
    }
  }

  ghost predicate StateKept(s: State, now: int) { Kept(s) && Begun(s.cars, now) }

  /** What one call keeps, and when it may report. */
  lemma CheckKept(cfg: Config, s: State, objects: seq<TrackedObject>, now: int, later: int, scheduled: bool)
    requires StateKept(s, now) && now <= later
    ensures var (t, r) := Checked(cfg, s, objects, now, later, scheduled);
            && StateKept(t, now)
            && (r != [] ==> Enough(cfg, s.lastActive, later) && t.lastActive == later)
            && (r == [] ==> t.lastActive == s.lastActive)
            && (cfg.event == VehicleParking ==> ParkingReports(cfg, r, later - now))
  {
    hide LineLayer, ZoneLayer, ParkingLayer;
    var enough := Enough(cfg, s.lastActive, later);
    if scheduled && cfg.classEqual.Some? {
      match cfg.event {
        case LineIntrusion =>
          LinesKept(cfg, "Person", LineState(Released(s.tracks, objects, now, cfg.ReleaseMs()), []), objects, |objects|, now, enough);
        case AreaIntrusion =>
          if !enough { ZonesQuiet(cfg, ZoneState(Released(s.zones, objects, now, cfg.ReleaseMs()), []), objects, |objects|, now, later); }
        case VehicleIntrusion =>
          LinesKept(cfg, "Car", LineState(Released(s.tracks, objects, now, cfg.ReleaseMs()), []), objects, |objects|, now, enough);
        case VehicleParking =>
          ParkingKept(cfg, ParkingState(s.cars, []), objects, |objects|, now, later, enough);
        case NotDefined =>
      }
    }
  }

  // ----- runs

  datatype Call = Call(objects: seq<TrackedObject>, now: int, later: int, scheduled: bool, results: seq<Report>)

  ghost predicate Answers(cfg: Config, s: State, c: Call, t: State) {
    Checked(cfg, s, c.objects, c.now, c.later, c.scheduled) == (t, c.results)
  }

  /** Calls on one schedule made at time `start`, one after the other, under a clock that does
      not go back. */
  ghost predicate IsRun(cfg: Config, start: int, states: seq<State>, calls: seq<Call>) {
    && |states| == |calls| + 1 && states[0] == State(map[], map[], map[], start)
    && (forall k :: 0 <= k < |calls| ==> Answers(cfg, states[k], calls[k], states[k + 1]))
    && (forall k :: 0 <= k < |calls| ==> start <= calls[k].now <= calls[k].later)
    && (forall i, j :: 0 <= i < j < |calls| ==> calls[i].later <= calls[j].now)
  }

  lemma {:induction false} RunKept(cfg: Config, start: int, states: seq<State>, calls: seq<Call>, k: nat, now: int)
    requires IsRun(cfg, start, states, calls) && k < |states| && start <= now && (k > 0 ==> calls[k - 1].later <= now)
    ensures StateKept(states[k], now) && states[k].lastActive <= now
  {
    hide Checked;
    if k > 0 {
      var c := calls[k - 1];
      RunKept(cfg, start, states, calls, k - 1, c.now);
      CheckKept(cfg, states[k - 1], c.objects, c.now, c.later, c.scheduled);
      assert Answers(cfg, states[k - 1], c, states[k]);
    }
  }

  /** What RunKept and CheckKept say about the k-th call. */
  lemma CallKept(cfg: Config, start: int, states: seq<State>, calls: seq<Call>, k: nat)
    requires IsRun(cfg, start, states, calls) && k < |calls|
    ensures var c, s, t := calls[k], states[k], states[k + 1];
            && StateKept(s, c.now) && s.lastActive <= c.now
            && (c.results != [] ==> Enough(cfg, s.lastActive, c.later) && t.lastActive == c.later)
            && (c.results == [] ==> t.lastActive == s.lastActive)
            && (cfg.event == VehicleParking ==> ParkingReports(cfg, c.results, c.later - c.now))
  {
    hide Checked;
    var c := calls[k];
    RunKept(cfg, start, states, calls, k, c.now);
    CheckKept(cfg, states[k], c.objects, c.now, c.later, c.scheduled);
    assert Answers(cfg, states[k], c, states[k + 1]);
  }

  lemma {:induction false} LastActiveGrows(cfg: Config, start: int, states: seq<State>, calls: seq<Call>, i: nat, j: nat)
    requires IsRun(cfg, start, states, calls) && i < j < |states| && calls[i].results != []
    ensures calls[i].later <= states[j].lastActive
    decreases j
  {
    CallKept(cfg, start, states, calls, j - 1);
    if i < j - 1 { LastActiveGrows(cfg, start, states, calls, i, j - 1); }
  }

  lemma {:induction false} LastActiveFromStart(cfg: Config, start: int, states: seq<State>, calls: seq<Call>, k: nat)
    requires IsRun(cfg, start, states, calls) && k < |states|
    ensures start <= states[k].lastActive
  {
    if k > 0 {
      LastActiveFromStart(cfg, start, states, calls, k - 1);
      CallKept(cfg, start, states, calls, k - 1);
    }
  }

  /** The first event comes more than the notification interval after the schedule was made. */
  lemma FirstEventLate(cfg: Config, start: int, states: seq<State>, calls: seq<Call>, j: nat)
    requires IsRun(cfg, start, states, calls) && j < |calls| && calls[j].results != []
    ensures calls[j].later - start > cfg.intervalSecs * 1000
  {
    CallKept(cfg, start, states, calls, j);
    LastActiveFromStart(cfg, start, states, calls, j);
  }

  /** Two calls that report events are more than the notification interval apart. */
  lemma EventsApart(cfg: Config, start: int, states: seq<State>, calls: seq<Call>, i: nat, j: nat)
    requires IsRun(cfg, start, states, calls) && i < j < |calls| && calls[i].results != [] && calls[j].results != []
    ensures calls[j].later - calls[i].later > cfg.intervalSecs * 1000
  {
    CallKept(cfg, start, states, calls, j);
    LastActiveGrows(cfg, start, states, calls, i, j);
  }

  /** In every state of every run no stored list is longer than the limit. */
  lemma RunListsBounded(cfg: Config, start: int, states: seq<State>, calls: seq<Call>, k: nat)
    requires IsRun(cfg, start, states, calls) && k < |states|
    ensures forall id :: id in states[k].tracks ==> |states[k].tracks[id].data| <= HIST_MAX
    ensures forall id :: id in states[k].cars ==> |states[k].cars[id].data| <= HIST_MAX
  {
    RunKept(cfg, start, states, calls, k, if k > 0 then calls[k - 1].later else start);
  }

  // ----- when a parked car can be reported

  /** The two reads of a call are at most `lag` apart. */
  ghost predicate Within(calls: seq<Call>, lag: int) { forall k :: 0 <= k < |calls| ==> calls[k].later - calls[k].now <= lag }

  /** No parked car is ever reported when the required duration reaches the release limit and
      the time between the two reads. */
  lemma ParkingNeedsShortDuration(cfg: Config, start: int, states: seq<State>, calls: seq<Call>, k: nat, lag: int)
    requires IsRun(cfg, start, states, calls) && Within(calls, lag) && cfg.event == VehicleParking && k < |calls|
    requires cfg.loiteringSecs * 1000 >= 120 * 1000 + lag
    ensures calls[k].results == []
  {
    CallKept(cfg, start, states, calls, k);
  }

  lemma Continue(cfg: Config, start: int, states: seq<State>, calls: seq<Call>, objects: seq<TrackedObject>, now: int, later: int)
      returns (states': seq<State>, calls': seq<Call>)
    requires IsRun(cfg, start, states, calls) && start <= now <= later && forall k :: 0 <= k < |calls| ==> calls[k].later <= now
    ensures var (t, r) := Checked(cfg, states[|calls|], objects, now, later, true);
            states' == states + [t] && calls' == calls + [Call(objects, now, later, true, r)] && IsRun(cfg, start, states', calls')
  {
    hide Checked;
    var (t, r) := Checked(cfg, states[|calls|], objects, now, later, true);
    states', calls' := states + [t], calls + [Call(objects, now, later, true, r)];
    forall k | 0 <= k < |calls'| ensures Answers(cfg, states'[k], calls'[k], states'[k + 1]) {
      if k < |calls| { assert states'[k] == states[k] && states'[k + 1] == states[k + 1] && calls'[k] == calls[k]; }
    }
  }

  /** The state after n sightings of one car at one moment. */
  ghost function Parked(o: TrackedObject, n: nat, at: int, start: int): State
    requires n > 0
  {
    State(map[], map[], map[o.trackId := Entry(seq(n, _ => Sighting(o, at)), at)], start)
  }

  ghost predicate Parks(cfg: Config, o: TrackedObject) {
    cfg.event == VehicleParking && cfg.classEqual.Some? && cfg.Relevant(o, "Car") && InsideSome(cfg.rois, o.mid)
  }

  /** A further sighting at the same moment; fewer than ten bring no report. */
  lemma ParkedMore(cfg: Config, o: TrackedObject, n: nat, at: int, start: int)
    requires Parks(cfg, o) && 0 < n < MIN_TRACKING - 1
    ensures Checked(cfg, Parked(o, n, at, start), [o], at, at, true) == (Parked(o, n + 1, at, start), [])
  {
    hide InsideSome;
    var s := ParkingState(Parked(o, n, at, start).cars, []);
    assert ParkingLayer(cfg, s, [o], 1, at, at, Enough(cfg, start, at)) == ParkingObject(cfg, s, o, at, at, Enough(cfg, start, at));
    var t := ParkingObject(cfg, s, o, at, at, Enough(cfg, start, at));
    assert t.cars[o.trackId].data == Parked(o, n + 1, at, start).cars[o.trackId].data;
    assert t.cars == Parked(o, n + 1, at, start).cars;
    assert t.results == [];
  }

  lemma ParkedFirst(cfg: Config, o: TrackedObject, at: int, start: int)
    requires Parks(cfg, o)
    ensures Checked(cfg, State(map[], map[], map[], start), [o], at, at, true) == (Parked(o, 1, at, start), [])
  {
    hide InsideSome;
    var s := ParkingState(map[], []);
    assert ParkingLayer(cfg, s, [o], 1, at, at, Enough(cfg, start, at)) == ParkingObject(cfg, s, o, at, at, Enough(cfg, start, at));
    var t := ParkingObject(cfg, s, o, at, at, Enough(cfg, start, at));
    assert t.cars[o.trackId].data == Parked(o, 1, at, start).cars[o.trackId].data;
    assert t.cars == Parked(o, 1, at, start).cars;
    assert t.results == [];
  }

  /** The tenth sighting, as late as the history and the two reads allow, is reported. */
  lemma ParkedReported(cfg: Config, o: TrackedObject, at: int, start: int, lag: nat)
    requires Parks(cfg, o) && cfg.loiteringSecs * 1000 < 120 * 1000 + lag && at + cfg.ReleaseMs() + lag - start > cfg.intervalSecs * 1000
    ensures var now := at + cfg.ReleaseMs();
            Checked(cfg, Parked(o, MIN_TRACKING - 1, at, start), [o], now, now + lag, true).1 == [Report(o.trackId, (120 * 1000 + lag) / 1000)]
  {
    hide InsideSome;
    var now, later := at + cfg.ReleaseMs(), at + cfg.ReleaseMs() + lag;
    var s := ParkingState(Parked(o, MIN_TRACKING - 1, at, start).cars, []);
    assert ParkingLayer(cfg, s, [o], 1, now, later, Enough(cfg, start, later)) == ParkingObject(cfg, s, o, now, later, Enough(cfg, start, later));
  }

  /** Below the limit there is a run that reports a parked car, however long the interval. */
  lemma ParkingReportPossible(cfg: Config, start: int, o: TrackedObject, lag: nat) returns (states: seq<State>, calls: seq<Call>)
    requires Parks(cfg, o) && cfg.loiteringSecs * 1000 < 120 * 1000 + lag
    ensures IsRun(cfg, start, states, calls) && Within(calls, lag) && |calls| > 0 && calls[|calls| - 1].results != []
  {
    hide Checked;
    var at := if cfg.intervalSecs > 0 then start + cfg.intervalSecs * 1000 else start;
    states, calls := [State(map[], map[], map[], start)], [];
    states, calls := Continue(cfg, start, states, calls, [o], at, at);
    ParkedFirst(cfg, o, at, start);
    for n := 1 to MIN_TRACKING - 1
      invariant IsRun(cfg, start, states, calls) && |calls| == n && states[n] == Parked(o, n, at, start)
      invariant forall k :: 0 <= k < |calls| ==> calls[k].now == calls[k].later == at
    {
      ParkedMore(cfg, o, n, at, start);
      states, calls := Continue(cfg, start, states, calls, [o], at, at);
    }
    ParkedReported(cfg, o, at, start, lag);
    states, calls := Continue(cfg, start, states, calls, [o], at + cfg.ReleaseMs(), at + cfg.ReleaseMs() + lag);
  }

  ghost predicate ReportsWithin(cfg: Config, start: int, states: seq<State>, calls: seq<Call>, k: nat, lag: int) {
    IsRun(cfg, start, states, calls) && Within(calls, lag) && k < |calls| && calls[k].results != []
  }

  /** A schedule for parked cars can ever report one if and only if the required duration is
      below the time after which histories start anew, plus what passes between the two reads. */
  lemma ParkingReportsExactly(cfg: Config, start: int, o: TrackedObject, lag: nat)
    requires Parks(cfg, o)
    ensures (exists states, calls, k :: ReportsWithin(cfg, start, states, calls, k, lag)) <==> cfg.loiteringSecs * 1000 < 120 * 1000 + lag
  {
    hide IsRun;
    if cfg.loiteringSecs * 1000 < 120 * 1000 + lag {
      var states, calls := ParkingReportPossible(cfg, start, o, lag);
      assert ReportsWithin(cfg, start, states, calls, |calls| - 1, lag);
    } else {
      forall states: seq<State>, calls: seq<Call>, k: nat | IsRun(cfg, start, states, calls) && Within(calls, lag) && k < |calls| ensures calls[k].results == [] {
        ParkingNeedsShortDuration(cfg, start, states, calls, k, lag);
      }
    }
  }
}
