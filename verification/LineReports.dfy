/** What the line checkers report, told in the calls of a run alone. */
module LineReports {
  import opened Collections
  import opened Geometry
  import opened Options
  import opened Events
  import opened Sightings

  /** Persons for line intrusion, cars for vehicle intrusion. */
  function LineName(cfg: Config): string { if cfg.event == LineIntrusion then "Person" else "Car" }

  ghost predicate LineRun(cfg: Config, start: int, states: seq<State>, calls: seq<Call>) {
    && IsRun(cfg, start, states, calls) && |states| == |calls| + 1
    && (cfg.event == LineIntrusion || cfg.event == VehicleIntrusion) && cfg.classEqual.Some?
  }

  /** The checker's state in call k before its n-th object. */
  ghost function LineAt(cfg: Config, states: seq<State>, calls: seq<Call>, k: nat, n: nat): LineState
    requires cfg.classEqual.Some? && k < |calls| < |states| && n <= |Objects(calls[k])|
  {
    var s, c := states[k], calls[k];
    LineLayer(cfg, LineName(cfg), LineState(Entering(s.tracks, c, cfg.ReleaseMs()), []), Objects(c), n, c.now, Enough(cfg, s.lastActive, c.later))
  }

  lemma LineCall(cfg: Config, start: int, states: seq<State>, calls: seq<Call>, k: nat)
    requires LineRun(cfg, start, states, calls) && k < |calls|
    ensures var t := LineAt(cfg, states, calls, k, |Objects(calls[k])|);
            t.tracks == states[k + 1].tracks && t.results == calls[k].results
  {
    hide LineObject;
    assert Answers(cfg, states[k], calls[k], states[k + 1]);
  }

  lemma LineNext(cfg: Config, states: seq<State>, calls: seq<Call>, k: nat, n: nat)
    requires cfg.classEqual.Some? && k < |calls| < |states| && n < |Objects(calls[k])|
    ensures LineAt(cfg, states, calls, k, n + 1)
         == LineObject(cfg, LineName(cfg), LineAt(cfg, states, calls, k, n), Objects(calls[k])[n], calls[k].now,
                       Enough(cfg, states[k].lastActive, calls[k].later))
  {
    hide LineObject;
  }

  lemma LineFirst(cfg: Config, start: int, states: seq<State>, calls: seq<Call>, k: nat)
    requires LineRun(cfg, start, states, calls) && k < |calls|
    ensures LineAt(cfg, states, calls, k, 0) == LineState(Entering(states[k].tracks, calls[k], 10 * 1000), [])
    ensures k == 0 ==> states[k].tracks == map[]
  {
    hide LineObject;
  }

  function Midpoints(calls: seq<Call>, trail: seq<Moment>): seq<Point>
    requires Moments(calls, trail)
  {
    seq(|trail|, i requires 0 <= i < |trail| => ObjectAt(calls, trail[i]).mid)
  }

  /** The points kept of a track: a list that grows to 601 is cleared, so of all on the trail those
      are kept that are left over from groups of 601. */
  ghost function KeptPoints(cfg: Config, calls: seq<Call>, id: int, k: nat, n: nat): seq<Point>
    requires cfg.classEqual.Some? && k < |calls|
  {
    var trail := Trail(cfg, calls, LineName(cfg), id, k, n);
    Midpoints(calls, Last(trail, |trail| % 601))
  }

  lemma LastMore<T>(s: seq<T>, x: T)
    ensures Last(s + [x], |s + [x]| % 601) == if |s| % 601 == 600 then [] else Last(s, |s| % 601) + [x]
  {
  }

  lemma MomentsLast(calls: seq<Call>, trail: seq<Moment>, n: nat)
    requires Moments(calls, trail) && n <= |trail|
    ensures Moments(calls, Last(trail, n))
  {
  }

  lemma MidpointsMore(calls: seq<Call>, trail: seq<Moment>, m: Moment)
    requires Moments(calls, trail) && IsMoment(calls, m)
    ensures Moments(calls, trail + [m]) && Midpoints(calls, trail + [m]) == Midpoints(calls, trail) + [ObjectAt(calls, m).mid]
  {
  }

  lemma KeptMore(cfg: Config, calls: seq<Call>, id: int, k: nat, n: nat)
    requires cfg.classEqual.Some? && k < |calls| && Sighted(cfg, calls, LineName(cfg), id, Moment(k, n))
    ensures var p := KeptPoints(cfg, calls, id, k, n);
            KeptPoints(cfg, calls, id, k, n + 1) == if |p| + 1 > 600 then [] else p + [ObjectAt(calls, Moment(k, n)).mid]
  {
    hide Sighted, Last, Moments, Lapses, Trail;
    var m, trail := Moment(k, n), Trail(cfg, calls, LineName(cfg), id, k, n);
    TrailSeen(cfg, calls, LineName(cfg), id, k, n);
    var d := |trail| % 601;
    LastMore(trail, m);
    LastSize(trail, d);
    MomentsLast(calls, trail, d);
    if d < 600 { MidpointsMore(calls, Last(trail, d), m); }
  }

  lemma LastSize<T>(s: seq<T>, n: nat)
    requires n <= |s|
    ensures |Last(s, n)| == n
  {
  }

  /** What one sighting does to the list of a track. */
  lemma LineObjectTrack(cfg: Config, s: LineState, o: TrackedObject, id: int, now: int, enough: bool)
    requires cfg.classEqual.Some? && cfg.event != VehicleParking
    ensures var t := LineObject(cfg, LineName(cfg), s, o, now, enough);
            if o.trackId == id && cfg.Relevant(o, LineName(cfg)) then
              var f := Fetched(s.tracks, id, now, 10 * 1000, []);
              id in f && t.tracks == Stored(f, id, if |f[id].data| + 1 > 600 then [] else f[id].data + [o.mid])
            else (id in t.tracks <==> id in s.tracks) && (id in t.tracks ==> t.tracks[id] == s.tracks[id])
  {
    hide Direction, Config.Relevant;
  }

  ghost predicate LineKnown(cfg: Config, tracks: History<seq<Point>>, calls: seq<Call>, id: int, k: nat, n: nat)
    requires cfg.classEqual.Some? && k < |calls|
  {
    && (id in tracks <==> Trail(cfg, calls, LineName(cfg), id, k, n) != [])
    && (id in tracks ==> tracks[id].data == KeptPoints(cfg, calls, id, k, n))
    && Dated(tracks, calls, id, k)
  }

  lemma LineKnownSeen(cfg: Config, tracks: History<seq<Point>>, calls: seq<Call>, id: int, k: nat, n: nat)
    requires cfg.classEqual.Some? && k < |calls| && Clocked(calls)
    requires LineKnown(cfg, tracks, calls, id, k, n) && Sighted(cfg, calls, LineName(cfg), id, Moment(k, n))
    ensures var f, o := Fetched(tracks, id, calls[k].now, 10 * 1000, []), ObjectAt(calls, Moment(k, n));
            id in f && LineKnown(cfg, Stored(f, id, if |f[id].data| + 1 > 600 then [] else f[id].data + [o.mid]), calls, id, k, n + 1)
  {
    hide Sighted, Clocked, Dated, Shows, Trail;
    TrailSeen(cfg, calls, LineName(cfg), id, k, n);
    var f, o := Fetched(tracks, id, calls[k].now, 10 * 1000, []), ObjectAt(calls, Moment(k, n));
    SightedShows(cfg, calls, LineName(cfg), id, Moment(k, n));
    FetchedDated(tracks, calls, id, k, [], if |f[id].data| + 1 > 600 then [] else f[id].data + [o.mid]);
    KeptMore(cfg, calls, id, k, n);
    KeptNone(cfg, calls, id, k, n);
  }

  lemma KeptNone(cfg: Config, calls: seq<Call>, id: int, k: nat, n: nat)
    requires cfg.classEqual.Some? && k < |calls|
    ensures Trail(cfg, calls, LineName(cfg), id, k, n) == [] ==> KeptPoints(cfg, calls, id, k, n) == []
  {
    hide Trail;
  }

  lemma LineKnownUnseen(cfg: Config, tracks: History<seq<Point>>, tracks': History<seq<Point>>, calls: seq<Call>, id: int, k: nat, n: nat)
    requires cfg.classEqual.Some? && k < |calls|
    requires LineKnown(cfg, tracks, calls, id, k, n) && !Sighted(cfg, calls, LineName(cfg), id, Moment(k, n))
    requires (id in tracks' <==> id in tracks) && (id in tracks' ==> tracks'[id] == tracks[id])
    ensures LineKnown(cfg, tracks', calls, id, k, n + 1)
  {
    hide Sighted, Dated, Trail;
    TrailSeen(cfg, calls, LineName(cfg), id, k, n);
    OtherDated(tracks, tracks', calls, id, k);
  }

  lemma LineKnownNext(cfg: Config, states: seq<State>, calls: seq<Call>, id: int, k: nat, n: nat)
    requires cfg.classEqual.Some? && cfg.event != VehicleParking && k < |calls| < |states| && n < |Objects(calls[k])| && Clocked(calls)
    requires LineKnown(cfg, LineAt(cfg, states, calls, k, n).tracks, calls, id, k, n)
    ensures LineKnown(cfg, LineAt(cfg, states, calls, k, n + 1).tracks, calls, id, k, n + 1)
  {
    hide LineAt, LineObject, Config.Relevant, Clocked, LineKnown, Fetched, Stored;
    var s, o, c, m := LineAt(cfg, states, calls, k, n), Objects(calls[k])[n], calls[k], Moment(k, n);
    LineNext(cfg, states, calls, k, n);
    LineObjectTrack(cfg, s, o, id, c.now, Enough(cfg, states[k].lastActive, c.later));
    assert IsMoment(calls, m) && ObjectAt(calls, m) == o;
    if Sighted(cfg, calls, LineName(cfg), id, m) {
      LineKnownSeen(cfg, s.tracks, calls, id, k, n);
    } else {
      LineKnownUnseen(cfg, s.tracks, LineAt(cfg, states, calls, k, n + 1).tracks, calls, id, k, n);
    }
  }

  /** In every run the list stored for a track is what KeptPoints says of the calls alone. */
  lemma {:induction false} LineTrail(cfg: Config, start: int, states: seq<State>, calls: seq<Call>, id: int, k: nat, n: nat)
    requires LineRun(cfg, start, states, calls) && k < |calls| && n <= |Objects(calls[k])|
    ensures LineKnown(cfg, LineAt(cfg, states, calls, k, n).tracks, calls, id, k, n)
    decreases k, n
  {
    hide IsRun, LineAt, LineKnown;
    RunSizes(cfg, start, states, calls);
    if n > 0 {
      LineTrail(cfg, start, states, calls, id, k, n - 1);
      LineKnownNext(cfg, states, calls, id, k, n - 1);
    } else if k > 0 {
      var e := |Objects(calls[k - 1])|;
      LineTrail(cfg, start, states, calls, id, k - 1, e);
      LineCall(cfg, start, states, calls, k - 1);
      LineFirst(cfg, start, states, calls, k);
      LineKnownEnters(cfg, states[k].tracks, calls, id, k);
    } else {
      LineFirst(cfg, start, states, calls, k);
      LineKnownStarts(cfg, calls, id);
    }
  }

  lemma LineKnownEnters(cfg: Config, tracks: History<seq<Point>>, calls: seq<Call>, id: int, k: nat)
    requires cfg.classEqual.Some? && 0 < k < |calls| && Clocked(calls)
    requires LineKnown(cfg, tracks, calls, id, k - 1, |Objects(calls[k - 1])|)
    ensures LineKnown(cfg, Entering(tracks, calls[k], 10 * 1000), calls, id, k, 0)
  {
    hide Dated, Entering, Lapses, Clocked;
    EnteringDated(tracks, calls, id, k);
  }

  lemma LineKnownStarts(cfg: Config, calls: seq<Call>, id: int)
    requires cfg.classEqual.Some? && |calls| > 0
    ensures LineKnown(cfg, Entering(map[], calls[0], 10 * 1000), calls, id, 0, 0)
  {
    hide Lapses;
    assert Entering<seq<Point>>(map[], calls[0], 10 * 1000) == map[];
  }

  // ----- the first crossing

  /** The first pair of a step and a region line that meet: regions first, then their lines, then
      the steps. */
  ghost predicate FirstMeeting(track: seq<Point>, rois: seq<seq<Point>>, r: nat, l: nat, h: nat) {
    && r < |rois| && StepCrosses(track, rois[r], l, h)
    && (forall i :: 0 <= i < r ==> !RegionCrossed(track, rois[i]))
    && (forall i: nat :: i < l ==> !LineCrossed(track, rois[r], i))
    && (forall i: nat :: i < h ==> !StepCrosses(track, rois[r], l, i))
  }

  /** On which side of the line from a to b a point lies. */
  predicate EndsOn(p: Point, a: Point, b: Point, o: LineOrientation) {
    match o
    case Clockwise => Beyond(a, b, p)
    case CounterClockwise => Beyond(b, a, p)
    case OnLine => !Beyond(a, b, p) && !Beyond(b, a, p)
    case NotCrossed => false
  }

  /** The first step to meet a region line ends on this side of it. */
  ghost predicate FirstEnds(track: seq<Point>, rois: seq<seq<Point>>, o: LineOrientation) {
    exists r: nat, l: nat, h: nat :: FirstMeeting(track, rois, r, l, h) && EndsOn(track[h + 1], rois[r][l], rois[r][l + 1], o)
  }

  lemma {:induction false} StepsFirst(track: seq<Point>, roi: seq<Point>, l: nat, h: nat) returns (k: nat)
    requires l + 1 < |roi| && ScanSteps(track, roi[l], roi[l + 1], h) != NotCrossed
    ensures h <= k && StepCrosses(track, roi, l, k) && forall i: nat :: h <= i < k ==> !StepCrosses(track, roi, l, i)
    ensures ScanSteps(track, roi[l], roi[l + 1], h) == CheckLineIntersect(track[k], track[k + 1], roi[l], roi[l + 1])
    decreases |track| - h
  {
    hide Meet, CheckLineIntersect;
    SegmentTestExact(track[h], track[h + 1], roi[l], roi[l + 1]);
    if CheckLineIntersect(track[h], track[h + 1], roi[l], roi[l + 1]) != NotCrossed {
      k := h;
    } else {
      k := StepsFirst(track, roi, l, h + 1);
    }
  }

  lemma {:induction false} LinesFirst(track: seq<Point>, roi: seq<Point>, l: nat) returns (m: nat, h: nat)
    requires ScanLines(track, roi, l) != NotCrossed
    ensures l <= m && StepCrosses(track, roi, m, h)
    ensures (forall i: nat :: l <= i < m ==> !LineCrossed(track, roi, i)) && forall i: nat :: i < h ==> !StepCrosses(track, roi, m, i)
    ensures ScanLines(track, roi, l) == CheckLineIntersect(track[h], track[h + 1], roi[m], roi[m + 1])
    decreases |roi| - l
  {
    hide Meet, CheckLineIntersect, ScanSteps;
    ScanStepsExact(track, roi, l, 0);
    if ScanSteps(track, roi[l], roi[l + 1], 0) != NotCrossed {
      m := l;
      h := StepsFirst(track, roi, l, 0);
    } else {
      m, h := LinesFirst(track, roi, l + 1);
    }
  }

  lemma LinesExact(track: seq<Point>, roi: seq<Point>)
    ensures ScanLines(track, roi, 0) != NotCrossed <==> RegionCrossed(track, roi)
  {
    hide StepCrosses, ScanLines;
    ScanLinesExact(track, roi, 0);
    if l: nat, h: nat :| StepCrosses(track, roi, l, h) { assert LineCrossed(track, roi, l); }
  }

  lemma {:induction false} RegionsFirst(track: seq<Point>, rois: seq<seq<Point>>, r: nat) returns (q: nat, l: nat, h: nat)
    requires ScanRegions(track, rois, r) != NotCrossed
    ensures r <= q < |rois| && StepCrosses(track, rois[q], l, h) && forall i :: r <= i < q ==> !RegionCrossed(track, rois[i])
    ensures (forall i: nat :: i < l ==> !LineCrossed(track, rois[q], i)) && forall i: nat :: i < h ==> !StepCrosses(track, rois[q], l, i)
    ensures ScanRegions(track, rois, r) == CheckLineIntersect(track[h], track[h + 1], rois[q][l], rois[q][l + 1])
    decreases |rois| - r
  {
    hide StepCrosses, CheckLineIntersect, ScanLines;
    LinesExact(track, rois[r]);
    if ScanLines(track, rois[r], 0) != NotCrossed {
      q := r;
      l, h := LinesFirst(track, rois[r], 0);
      CrossingInside(track, rois[q], l, h);
    } else {
      q, l, h := RegionsFirst(track, rois, r + 1);
      CrossingInside(track, rois[q], l, h);
    }
  }

  lemma CrossingInside(track: seq<Point>, roi: seq<Point>, l: nat, h: nat)
    requires StepCrosses(track, roi, l, h)
    ensures l + 1 < |roi| && h + 1 < |track|
  {
  }

  lemma OneFirst(track: seq<Point>, rois: seq<seq<Point>>, r: nat, l: nat, h: nat, r': nat, l': nat, h': nat)
    requires FirstMeeting(track, rois, r, l, h) && FirstMeeting(track, rois, r', l', h')
    ensures r == r' && l == l' && h == h'
  {
    hide StepCrosses;
    assert RegionCrossed(track, rois[r]) && RegionCrossed(track, rois[r']);
    assert LineCrossed(track, rois[r], l) && LineCrossed(track, rois[r'], l');
  }

  lemma MeetingEnds(track: seq<Point>, roi: seq<Point>, l: nat, h: nat, o: LineOrientation)
    requires StepCrosses(track, roi, l, h)
    ensures EndsOn(track[h + 1], roi[l], roi[l + 1], o) <==> CheckLineIntersect(track[h], track[h + 1], roi[l], roi[l + 1]) == o
  {
    hide Meet, CheckLineIntersect, Beyond;
    DirectionExact(track[h], track[h + 1], roi[l], roi[l + 1]);
    BeyondTurn(roi[l], roi[l + 1], track[h + 1]);
  }

  lemma FirstEndsAt(track: seq<Point>, rois: seq<seq<Point>>, o: LineOrientation) returns (r: nat, l: nat, h: nat)
    requires FirstEnds(track, rois, o)
    ensures FirstMeeting(track, rois, r, l, h) && l + 1 < |rois[r]| && h + 1 < |track| && EndsOn(track[h + 1], rois[r][l], rois[r][l + 1], o)
  {
    r, l, h :| FirstMeeting(track, rois, r, l, h) && EndsOn(track[h + 1], rois[r][l], rois[r][l + 1], o);
  }

  /** The scan gives the side on which the first step to meet a region line ends. */
  lemma ScanFirst(track: seq<Point>, rois: seq<seq<Point>>, o: LineOrientation)
    ensures FirstEnds(track, rois, o) <==> o != NotCrossed && ScanRegions(track, rois, 0) == o
  {
    hide CheckLineIntersect, ScanRegions, EndsOn, StepCrosses;
    ScanExact(track, rois, 0);
    if ScanRegions(track, rois, 0) != NotCrossed {
      var r, l, h := RegionsFirst(track, rois, 0);
      CrossingInside(track, rois[r], l, h);
      assert FirstMeeting(track, rois, r, l, h);
      MeetingEnds(track, rois[r], l, h, o);
      if FirstEnds(track, rois, o) {
        var r', l', h' := FirstEndsAt(track, rois, o);
        OneFirst(track, rois, r, l, h, r', l', h');
        NoSide(track[h + 1], rois[r][l], rois[r][l + 1]);
      }
    } else if FirstEnds(track, rois, o) {
      var r, l, h := FirstEndsAt(track, rois, o);
      assert false;
    }
  }

  lemma NoSide(p: Point, a: Point, b: Point)
    ensures !EndsOn(p, a, b, NotCrossed)
  {
  }

  // ----- what the line checkers report

  /** The points meet a two-way line, or first meet the one-way lines with a step that ends on
      their clockwise side. */
  ghost predicate Intrudes(cfg: Config, track: seq<Point>) {
    FirstEnds(track, cfg.oneWayRois, Clockwise) || exists i :: 0 <= i < |cfg.twoWayRois| && RegionCrossed(track, cfg.twoWayRois[i])
  }

  /** The number given with a line report: 1 for a clockwise entry over a one-way line, else the
      side of the first two-way line met on which the step ends. */
  ghost predicate LineCode(cfg: Config, track: seq<Point>, value: int) {
    if FirstEnds(track, cfg.oneWayRois, Clockwise) then value == 1
    else
      || (value == 0 && FirstEnds(track, cfg.twoWayRois, OnLine))
      || (value == 1 && FirstEnds(track, cfg.twoWayRois, Clockwise))
      || (value == 2 && FirstEnds(track, cfg.twoWayRois, CounterClockwise))
  }

  lemma DirectionMeans(cfg: Config, track: seq<Point>)
    ensures Direction(cfg, track) != NotCrossed <==> Intrudes(cfg, track)
    ensures Direction(cfg, track) != NotCrossed ==> LineCode(cfg, track, DirectionCode(Direction(cfg, track)))
  {
    hide ScanRegions, FirstEnds, RegionCrossed;
    ScanFirst(track, cfg.oneWayRois, Clockwise);
    ScanFirst(track, cfg.twoWayRois, ScanRegions(track, cfg.twoWayRois, 0));
    ScanExact(track, cfg.twoWayRois, 0);
  }

  /** The n-th object of call k is to be reported. */
  ghost predicate LineReported(cfg: Config, start: int, calls: seq<Call>, k: nat, n: nat)
    requires cfg.classEqual.Some? && k < |calls| && n < |Objects(calls[k])|
  {
    var o := Objects(calls[k])[n];
    var track := KeptPoints(cfg, calls, o.trackId, k, n + 1);
    cfg.Relevant(o, LineName(cfg)) && Due(cfg, start, calls, k) && |track| >= 10 && Intrudes(cfg, track)
  }

  lemma LineObjectResult(cfg: Config, s: LineState, o: TrackedObject, now: int, enough: bool)
    requires cfg.classEqual.Some?
    ensures var t := LineObject(cfg, LineName(cfg), s, o, now, enough);
            if cfg.Relevant(o, LineName(cfg)) then
              && o.trackId in t.tracks
              && var track := t.tracks[o.trackId].data;
                 var d := if |track| >= 10 && enough then Direction(cfg, track) else NotCrossed;
                 t.results == s.results + if d != NotCrossed then [Report(o.trackId, DirectionCode(d))] else []
            else t.results == s.results
  {
    hide Direction, Config.Relevant;
  }

  lemma LineResultNext(cfg: Config, start: int, states: seq<State>, calls: seq<Call>, k: nat, n: nat)
    requires LineRun(cfg, start, states, calls) && k < |calls| && n < |Objects(calls[k])|
    ensures var r, r', o := LineAt(cfg, states, calls, k, n).results, LineAt(cfg, states, calls, k, n + 1).results, Objects(calls[k])[n];
            if LineReported(cfg, start, calls, k, n) then
              && |r'| == |r| + 1 && r'[..|r|] == r && r'[|r|].trackId == o.trackId
              && LineCode(cfg, KeptPoints(cfg, calls, o.trackId, k, n + 1), r'[|r|].value)
            else r' == r
  {
    hide LineAt, LineObject, Config.Relevant, IsRun, Due, Intrudes, LineCode, Direction, KeptPoints, Dated, Trail, Enough;
    var c, o := calls[k], Objects(calls[k])[n];
    var enough := Enough(cfg, states[k].lastActive, c.later);
    LineNext(cfg, states, calls, k, n);
    DueExactly(cfg, start, states, calls, k);
    LineObjectResult(cfg, LineAt(cfg, states, calls, k, n), o, c.now, enough);
    LineTrail(cfg, start, states, calls, o.trackId, k, n + 1);
    DirectionMeans(cfg, KeptPoints(cfg, calls, o.trackId, k, n + 1));
  }

  lemma {:induction false} LineResults(cfg: Config, start: int, states: seq<State>, calls: seq<Call>, k: nat, n: nat) returns (at: seq<nat>)
    requires LineRun(cfg, start, states, calls) && k < |calls| && n <= |Objects(calls[k])|
    ensures Positions(at, n) && forall i: nat :: i in at <==> i < n && LineReported(cfg, start, calls, k, i)
    ensures LinesListed(cfg, calls, k, LineAt(cfg, states, calls, k, n).results, at)
  {
    hide IsRun, LineAt, LineReported, Positions, LinesListed;
    if n == 0 {
      LineFirst(cfg, start, states, calls, k);
      at := [];
      NoPositions();
      NoLines(cfg, calls, k);
    } else {
      var p := LineResults(cfg, start, states, calls, k, n - 1);
      at := MorePositions(p, n - 1, LineReported(cfg, start, calls, k, n - 1));
      LineResultNext(cfg, start, states, calls, k, n - 1);
      MoreLines(cfg, calls, k, LineAt(cfg, states, calls, k, n - 1).results, LineAt(cfg, states, calls, k, n).results, p, n - 1);
    }
  }

  /** The reports are about the objects at these positions, each with its number. */
  ghost predicate LinesListed(cfg: Config, calls: seq<Call>, k: nat, results: seq<Report>, at: seq<nat>)
    requires cfg.classEqual.Some? && k < |calls|
  {
    |results| == |at| && forall j :: 0 <= j < |at| ==>
      && at[j] < |Objects(calls[k])|
      && var id := Objects(calls[k])[at[j]].trackId;
         results[j].trackId == id && LineCode(cfg, KeptPoints(cfg, calls, id, k, at[j] + 1), results[j].value)
  }

  lemma NoLines(cfg: Config, calls: seq<Call>, k: nat)
    requires cfg.classEqual.Some? && k < |calls|
    ensures LinesListed(cfg, calls, k, [], [])
  {
  }

  lemma MoreLines(cfg: Config, calls: seq<Call>, k: nat, r: seq<Report>, r': seq<Report>, at: seq<nat>, n: nat)
    requires cfg.classEqual.Some? && k < |calls| && n < |Objects(calls[k])| && LinesListed(cfg, calls, k, r, at)
    requires |r'| == |r| + 1 && r'[..|r|] == r ==>
               r'[|r|].trackId == Objects(calls[k])[n].trackId && LineCode(cfg, KeptPoints(cfg, calls, Objects(calls[k])[n].trackId, k, n + 1), r'[|r|].value)
    ensures |r'| == |r| + 1 && r'[..|r|] == r ==> LinesListed(cfg, calls, k, r', at + [n])
  {
    hide LineCode, KeptPoints;
    if |r'| == |r| + 1 && r'[..|r|] == r {
      assert forall j :: 0 <= j < |r| ==> r'[j] == r[j];
    }
  }

  /** In every run a call reports, in order, exactly the objects the checker looks at whose track
      has kept at least ten points that meet a two-way line, or first meet the one-way lines
      clockwise, as long as the call is due; with each it gives the side met. */
  lemma LineReport(cfg: Config, start: int, states: seq<State>, calls: seq<Call>, k: nat) returns (at: seq<nat>)
    requires LineRun(cfg, start, states, calls) && k < |calls|
    ensures Positions(at, |Objects(calls[k])|)
    ensures forall n: nat :: n in at <==> n < |Objects(calls[k])| && LineReported(cfg, start, calls, k, n)
    ensures LinesListed(cfg, calls, k, calls[k].results, at)
  {
    hide IsRun, LineAt, LineReported, Positions, LinesListed;
    LineCall(cfg, start, states, calls, k);
    at := LineResults(cfg, start, states, calls, k, |Objects(calls[k])|);
  }
}
