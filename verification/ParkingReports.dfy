/** What the parking checker reports, told in the calls of a run alone. */
module ParkingReports {
  import opened Collections
  import opened Geometry
  import opened Options
  import opened Events
  import opened Sightings

  ghost predicate ParkingRun(cfg: Config, start: int, states: seq<State>, calls: seq<Call>) {
    IsRun(cfg, start, states, calls) && |states| == |calls| + 1 && cfg.event == VehicleParking && cfg.classEqual.Some?
  }

  /** The checker's state in call k before its n-th object. */
  ghost function ParkingAt(cfg: Config, states: seq<State>, calls: seq<Call>, k: nat, n: nat): ParkingState
    requires cfg.classEqual.Some? && k < |calls| < |states| && n <= |Objects(calls[k])|
  {
    var s, c := states[k], calls[k];
    ParkingLayer(cfg, ParkingState(s.cars, []), Objects(c), n, c.now, c.later, Enough(cfg, s.lastActive, c.later))
  }

  lemma ParkingCall(cfg: Config, start: int, states: seq<State>, calls: seq<Call>, k: nat)
    requires ParkingRun(cfg, start, states, calls) && k < |calls|
    ensures var t := ParkingAt(cfg, states, calls, k, |Objects(calls[k])|);
            t.cars == states[k + 1].cars && t.results == calls[k].results
  {
    hide ParkingObject;
    assert Answers(cfg, states[k], calls[k], states[k + 1]);
  }

  lemma ParkingNext(cfg: Config, states: seq<State>, calls: seq<Call>, k: nat, n: nat)
    requires cfg.classEqual.Some? && k < |calls| < |states| && n < |Objects(calls[k])|
    ensures ParkingAt(cfg, states, calls, k, n + 1)
         == ParkingObject(cfg, ParkingAt(cfg, states, calls, k, n), Objects(calls[k])[n], calls[k].now, calls[k].later,
                          Enough(cfg, states[k].lastActive, calls[k].later))
  {
    hide ParkingObject;
  }

  lemma ParkingFirst(cfg: Config, start: int, states: seq<State>, calls: seq<Call>, k: nat)
    requires ParkingRun(cfg, start, states, calls) && k < |calls|
    ensures ParkingAt(cfg, states, calls, k, 0) == ParkingState(states[k].cars, []) && (k == 0 ==> states[k].cars == map[])
  {
    hide ParkingObject;
  }

  // ----- when a history began

  /** The sighting with which the track's history began: the first, and then each one that comes
      more than 120 s after the last such sighting, whatever was seen in between. */
  ghost function Began(cfg: Config, calls: seq<Call>, id: int, k: nat, n: nat): (b: Option<Moment>)
    requires cfg.classEqual.Some? && k < |calls|
    ensures b.Some? ==> Sighted(cfg, calls, "Car", id, b.value) && Before(b.value, Moment(k, n))
    decreases k, n
  {
    if n > 0 then
      var p := Began(cfg, calls, id, k, n - 1);
      if Sighted(cfg, calls, "Car", id, Moment(k, n - 1)) && (p.None? || calls[k].now - calls[p.value.call].now > 120 * 1000)
      then Some(Moment(k, n - 1)) else p
    else if k == 0 then None
    else Began(cfg, calls, id, k - 1, |Objects(calls[k - 1])|)
  }

  /** The sightings inside a region since then. */
  ghost function Stay(cfg: Config, calls: seq<Call>, id: int, k: nat, n: nat): (stay: seq<Moment>)
    requires cfg.classEqual.Some? && k < |calls|
    ensures Moments(calls, stay)
    decreases k, n
  {
    if n > 0 then
      var m := Moment(k, n - 1);
      (if Began(cfg, calls, id, k, n) == Some(m) then [] else Stay(cfg, calls, id, k, n - 1))
      + if Sighted(cfg, calls, "Car", id, m) && InsideSome(cfg.rois, ObjectAt(calls, m).mid) then [m] else []
    else if k == 0 then []
    else Stay(cfg, calls, id, k - 1, |Objects(calls[k - 1])|)
  }

  lemma BeganNext(cfg: Config, calls: seq<Call>, id: int, k: nat, n: nat)
    requires cfg.classEqual.Some? && k < |calls|
    ensures var p, b := Began(cfg, calls, id, k, n), Began(cfg, calls, id, k, n + 1);
            b == if Sighted(cfg, calls, "Car", id, Moment(k, n)) && (p.None? || calls[k].now - calls[p.value.call].now > 120 * 1000)
                 then Some(Moment(k, n)) else p
  {
    hide Sighted;
  }

  lemma StayNext(cfg: Config, calls: seq<Call>, id: int, k: nat, n: nat)
    requires cfg.classEqual.Some? && k < |calls|
    ensures var m, p := Moment(k, n), Began(cfg, calls, id, k, n);
            Stay(cfg, calls, id, k, n + 1)
            == if !Sighted(cfg, calls, "Car", id, m) then Stay(cfg, calls, id, k, n)
               else (if p.None? || calls[k].now - calls[p.value.call].now > 120 * 1000 then [] else Stay(cfg, calls, id, k, n))
                    + if InsideSome(cfg.rois, ObjectAt(calls, m).mid) then [m] else []
  {
    hide Sighted, InsideSome;
    BeganNext(cfg, calls, id, k, n);
  }

  /** A history lasts 120 s: every sighting in it comes at most that long after its first, and the
      history before it, if any, began more than 120 s earlier. */
  lemma {:induction false} BeganExactly(cfg: Config, calls: seq<Call>, id: int, k: nat, n: nat)
    requires cfg.classEqual.Some? && k < |calls| && n <= |Objects(calls[k])|
    ensures match Began(cfg, calls, id, k, n)
            case None => forall a :: Sighted(cfg, calls, "Car", id, a) ==> !Before(a, Moment(k, n))
            case Some(b) =>
              && (forall a :: Sighted(cfg, calls, "Car", id, a) && !Before(a, b) && Before(a, Moment(k, n)) ==> calls[a.call].now - calls[b.call].now <= 120 * 1000)
              && var p := Began(cfg, calls, id, b.call, b.index);
                 p.None? || calls[b.call].now - calls[p.value.call].now > 120 * 1000
    decreases k, n
  {
    hide Sighted;
    if n > 0 {
      BeganExactly(cfg, calls, id, k, n - 1);
      BeganNext(cfg, calls, id, k, n - 1);
      BeforeMore(k, n - 1);
    } else if k > 0 {
      var e := |Objects(calls[k - 1])|;
      BeganExactly(cfg, calls, id, k - 1, e);
      SightedBounds(cfg, calls, "Car", id);
      assert forall a :: Sighted(cfg, calls, "Car", id, a) ==> (Before(a, Moment(k, 0)) <==> Before(a, Moment(k - 1, e)));
    }
  }

  /** In their order, exactly the sightings inside a region before object n of call k, from b on. */
  ghost predicate IsStay(cfg: Config, calls: seq<Call>, id: int, k: nat, n: nat, stay: seq<Moment>, b: Option<Moment>)
    requires cfg.classEqual.Some?
  {
    InOrder(stay) && forall a :: a in stay <==> Stays(cfg, calls, id, a) && Before(a, Moment(k, n)) && b.Some? && !Before(a, b.value)
  }

  predicate Stays(cfg: Config, calls: seq<Call>, id: int, a: Moment)
    requires cfg.classEqual.Some?
  {
    Sighted(cfg, calls, "Car", id, a) && InsideSome(cfg.rois, ObjectAt(calls, a).mid)
  }

  lemma StaysMore(cfg: Config, calls: seq<Call>, id: int, k: nat, n: nat, stay: seq<Moment>, b: Option<Moment>)
    requires cfg.classEqual.Some? && IsStay(cfg, calls, id, k, n, stay, b) && (b.Some? ==> Before(b.value, Moment(k, n)))
    ensures !Stays(cfg, calls, id, Moment(k, n)) ==> IsStay(cfg, calls, id, k, n + 1, stay, b)
    ensures Stays(cfg, calls, id, Moment(k, n)) && b.Some? ==> IsStay(cfg, calls, id, k, n + 1, stay + [Moment(k, n)], b)
  {
    hide Stays, InOrder;
    var m := Moment(k, n);
    BeforeMore(k, n);
    InOrderMore(stay, m);
  }

  lemma SingleInOrder(m: Moment)
    ensures InOrder([m]) && InOrder([])
  {
  }

  lemma StaysAnew(cfg: Config, calls: seq<Call>, id: int, k: nat, n: nat)
    requires cfg.classEqual.Some?
    ensures var m := Moment(k, n);
            IsStay(cfg, calls, id, k, n + 1, if Stays(cfg, calls, id, m) then [m] else [], Some(m))
  {
    hide Stays;
    var m := Moment(k, n);
    BeforeMore(k, n);
    SingleInOrder(m);
  }

  lemma StaysEnter(cfg: Config, calls: seq<Call>, id: int, k: nat, stay: seq<Moment>, b: Option<Moment>)
    requires cfg.classEqual.Some? && 0 < k < |calls| && IsStay(cfg, calls, id, k - 1, |Objects(calls[k - 1])|, stay, b)
    ensures IsStay(cfg, calls, id, k, 0, stay, b)
  {
    hide Sighted, InsideSome;
    SightedBounds(cfg, calls, "Car", id);
    assert forall a :: Stays(cfg, calls, id, a) ==> (Before(a, Moment(k, 0)) <==> Before(a, Moment(k - 1, |Objects(calls[k - 1])|)));
  }

  /** The stay holds, in their order, exactly the sightings inside a region since the history began. */
  lemma {:induction false} StayExactly(cfg: Config, calls: seq<Call>, id: int, k: nat, n: nat)
    requires cfg.classEqual.Some? && k < |calls| && n <= |Objects(calls[k])|
    ensures IsStay(cfg, calls, id, k, n, Stay(cfg, calls, id, k, n), Began(cfg, calls, id, k, n))
    decreases k, n
  {
    hide IsStay, Sighted, InsideSome, Stay, Began;
    StayFirst(cfg, calls, id, k);
    if n > 0 {
      var m, p, stay := Moment(k, n - 1), Began(cfg, calls, id, k, n - 1), Stay(cfg, calls, id, k, n - 1);
      StayExactly(cfg, calls, id, k, n - 1);
      StayNext(cfg, calls, id, k, n - 1);
      BeganNext(cfg, calls, id, k, n - 1);
      assert stay + [] == stay && [] + [m] == [m];
      if Sighted(cfg, calls, "Car", id, m) && (p.None? || calls[k].now - calls[p.value.call].now > 120 * 1000) {
        StaysAnew(cfg, calls, id, k, n - 1);
      } else {
        StaysMore(cfg, calls, id, k, n - 1, stay, p);
      }
    } else if k == 0 {
      NoStay(cfg, calls, id);
    } else {
      var e := |Objects(calls[k - 1])|;
      StayExactly(cfg, calls, id, k - 1, e);
      StaysEnter(cfg, calls, id, k, Stay(cfg, calls, id, k - 1, e), Began(cfg, calls, id, k - 1, e));
    }
  }

  lemma StayFirst(cfg: Config, calls: seq<Call>, id: int, k: nat)
    requires cfg.classEqual.Some? && k < |calls|
    ensures k == 0 ==> Stay(cfg, calls, id, k, 0) == [] && Began(cfg, calls, id, k, 0) == None
    ensures k > 0 ==>
              var e := |Objects(calls[k - 1])|;
              Stay(cfg, calls, id, k, 0) == Stay(cfg, calls, id, k - 1, e) && Began(cfg, calls, id, k, 0) == Began(cfg, calls, id, k - 1, e)
  {
  }

  lemma NoStay(cfg: Config, calls: seq<Call>, id: int)
    requires cfg.classEqual.Some?
    ensures IsStay(cfg, calls, id, 0, 0, [], None)
  {
  }

  // ----- the list kept of a car

  /** A list that grows to 601 shrinks to its first entry: of all entries the first is kept, and of
      the others those that are left over from groups of 600. */
  function Kept600<T>(s: seq<T>): seq<T> { if s == [] then [] else [s[0]] + Last(s, (|s| - 1) % 600) }

  lemma Kept600More<T>(s: seq<T>, x: T)
    ensures var p := Kept600(s); Kept600(s + [x]) == if |p| + 1 > 600 then [p[0]] else p + [x]
  {
    if s != [] {
      var d := (|s| - 1) % 600;
      assert |s + [x]| - 1 == |s| && |s| % 600 == if d == 599 then 0 else d + 1;
      if d < 599 { assert Last(s + [x], d + 1) == Last(s, d) + [x]; }
    }
  }

  function Reads(calls: seq<Call>, stay: seq<Moment>): seq<Sighting>
    requires Moments(calls, stay)
  {
    seq(|stay|, i requires 0 <= i < |stay| => Sighting(ObjectAt(calls, stay[i]), calls[stay[i].call].later))
  }

  lemma ReadsMore(calls: seq<Call>, stay: seq<Moment>, m: Moment)
    requires Moments(calls, stay) && IsMoment(calls, m)
    ensures Moments(calls, stay + [m]) && Reads(calls, stay + [m]) == Reads(calls, stay) + [Sighting(ObjectAt(calls, m), calls[m.call].later)]
  {
  }

  /** The sightings stored for a car, with their times. */
  ghost function KeptSightings(cfg: Config, calls: seq<Call>, id: int, k: nat, n: nat): seq<Sighting>
    requires cfg.classEqual.Some? && k < |calls|
  {
    Kept600(Reads(calls, Stay(cfg, calls, id, k, n)))
  }

  ghost predicate ParkingKnown(cfg: Config, cars: History<seq<Sighting>>, calls: seq<Call>, id: int, k: nat, n: nat)
    requires cfg.classEqual.Some? && k < |calls|
  {
    var b := Began(cfg, calls, id, k, n);
    && (id in cars <==> b.Some?)
    && (id in cars ==> b.value.call < |calls| && cars[id].since == calls[b.value.call].now && cars[id].data == KeptSightings(cfg, calls, id, k, n))
  }

  lemma KeptSightingsMore(cfg: Config, calls: seq<Call>, id: int, k: nat, n: nat, old': seq<Sighting>)
    requires cfg.classEqual.Some? && k < |calls| && Sighted(cfg, calls, "Car", id, Moment(k, n))
    requires var p := Began(cfg, calls, id, k, n);
             old' == if p.None? || calls[k].now - calls[p.value.call].now > 120 * 1000 then [] else KeptSightings(cfg, calls, id, k, n)
    ensures IsMoment(calls, Moment(k, n))
    ensures var o := ObjectAt(calls, Moment(k, n));
            KeptSightings(cfg, calls, id, k, n + 1)
            == if InsideSome(cfg.rois, o.mid) then Compressed(old' + [Sighting(o, calls[k].later)]) else old'
  {
    hide InsideSome, Stay, Began, Kept600, Moments;
    var m := Moment(k, n);
    StayNext(cfg, calls, id, k, n);
    var p := Began(cfg, calls, id, k, n);
    var base := if p.None? || calls[k].now - calls[p.value.call].now > 120 * 1000 then [] else Stay(cfg, calls, id, k, n);
    NoReads(calls);
    assert base + [] == base;
    if InsideSome(cfg.rois, ObjectAt(calls, m).mid) {
      ReadsMore(calls, base, m);
      Kept600More(Reads(calls, base), Sighting(ObjectAt(calls, m), calls[k].later));
    }
  }

  lemma NoReads(calls: seq<Call>)
    ensures Moments(calls, []) && Reads(calls, []) == [] && Kept600<Sighting>([]) == []
  {
  }

  lemma ParkingObjectCars(cfg: Config, s: ParkingState, o: TrackedObject, id: int, now: int, later: int, enough: bool)
    requires cfg.classEqual.Some? && cfg.event == VehicleParking
    ensures var t := ParkingObject(cfg, s, o, now, later, enough);
            if o.trackId == id && cfg.Relevant(o, "Car") then
              var restart := id !in s.cars || now - s.cars[id].since > 120 * 1000;
              var old' := if restart then [] else s.cars[id].data;
              && id in t.cars && t.cars[id].since == (if restart then now else s.cars[id].since)
              && t.cars[id].data == if InsideSome(cfg.rois, o.mid) then Compressed(old' + [Sighting(o, later)]) else old'
            else (id in t.cars <==> id in s.cars) && (id in t.cars ==> t.cars[id] == s.cars[id])
  {
    hide InsideSome, Config.Relevant;
  }

  lemma ParkingKnownSeen(cfg: Config, cars: History<seq<Sighting>>, cars': History<seq<Sighting>>, calls: seq<Call>, id: int, k: nat, n: nat)
    requires cfg.classEqual.Some? && k < |calls| && ParkingKnown(cfg, cars, calls, id, k, n) && Sighted(cfg, calls, "Car", id, Moment(k, n))
    requires IsMoment(calls, Moment(k, n))
    requires var o := ObjectAt(calls, Moment(k, n));
             var restart := id !in cars || calls[k].now - cars[id].since > 120 * 1000;
             var old' := if restart then [] else cars[id].data;
             && id in cars' && cars'[id].since == (if restart then calls[k].now else cars[id].since)
             && cars'[id].data == if InsideSome(cfg.rois, o.mid) then Compressed(old' + [Sighting(o, calls[k].later)]) else old'
    ensures ParkingKnown(cfg, cars', calls, id, k, n + 1)
  {
    hide InsideSome, Stay, Began, KeptSightings, Compressed, Sighted;
    var restart := id !in cars || calls[k].now - cars[id].since > 120 * 1000;
    BeganNext(cfg, calls, id, k, n);
    KeptSightingsMore(cfg, calls, id, k, n, if restart then [] else cars[id].data);
  }

  lemma ParkingKnownUnseen(cfg: Config, cars: History<seq<Sighting>>, cars': History<seq<Sighting>>, calls: seq<Call>, id: int, k: nat, n: nat)
    requires cfg.classEqual.Some? && k < |calls| && ParkingKnown(cfg, cars, calls, id, k, n) && !Sighted(cfg, calls, "Car", id, Moment(k, n))
    requires (id in cars' <==> id in cars) && (id in cars' ==> cars'[id] == cars[id])
    ensures ParkingKnown(cfg, cars', calls, id, k, n + 1)
  {
    hide Stay, Began, Sighted;
    BeganNext(cfg, calls, id, k, n);
    StayNext(cfg, calls, id, k, n);
  }

  lemma ParkingKnownNext(cfg: Config, states: seq<State>, calls: seq<Call>, id: int, k: nat, n: nat)
    requires cfg.classEqual.Some? && cfg.event == VehicleParking && k < |calls| < |states| && n < |Objects(calls[k])|
    requires ParkingKnown(cfg, ParkingAt(cfg, states, calls, k, n).cars, calls, id, k, n)
    ensures ParkingKnown(cfg, ParkingAt(cfg, states, calls, k, n + 1).cars, calls, id, k, n + 1)
  {
    hide ParkingAt, ParkingObject, Config.Relevant, ParkingKnown, InsideSome, Compressed;
    var s, o, c, m := ParkingAt(cfg, states, calls, k, n), Objects(calls[k])[n], calls[k], Moment(k, n);
    var t := ParkingAt(cfg, states, calls, k, n + 1);
    ParkingNext(cfg, states, calls, k, n);
    ParkingObjectCars(cfg, s, o, id, c.now, c.later, Enough(cfg, states[k].lastActive, c.later));
    assert IsMoment(calls, m) && ObjectAt(calls, m) == o;
    if Sighted(cfg, calls, "Car", id, m) {
      ParkingKnownSeen(cfg, s.cars, t.cars, calls, id, k, n);
    } else {
      ParkingKnownUnseen(cfg, s.cars, t.cars, calls, id, k, n);
    }
  }

  lemma ParkingKnownEnters(cfg: Config, cars: History<seq<Sighting>>, calls: seq<Call>, id: int, k: nat)
    requires cfg.classEqual.Some? && 0 < k < |calls| && ParkingKnown(cfg, cars, calls, id, k - 1, |Objects(calls[k - 1])|)
    ensures ParkingKnown(cfg, cars, calls, id, k, 0)
  {
  }

  lemma ParkingKnownStarts(cfg: Config, calls: seq<Call>, id: int)
    requires cfg.classEqual.Some? && |calls| > 0
    ensures ParkingKnown(cfg, map[], calls, id, 0, 0)
  {
  }

  /** In every run the list stored for a car is what KeptSightings says of the calls alone. */
  lemma {:induction false} ParkingStay(cfg: Config, start: int, states: seq<State>, calls: seq<Call>, id: int, k: nat, n: nat)
    requires ParkingRun(cfg, start, states, calls) && k < |calls| && n <= |Objects(calls[k])|
    ensures ParkingKnown(cfg, ParkingAt(cfg, states, calls, k, n).cars, calls, id, k, n)
    decreases k, n
  {
    hide IsRun, ParkingAt, ParkingKnown;
    if n > 0 {
      ParkingStay(cfg, start, states, calls, id, k, n - 1);
      ParkingKnownNext(cfg, states, calls, id, k, n - 1);
    } else if k > 0 {
      ParkingStay(cfg, start, states, calls, id, k - 1, |Objects(calls[k - 1])|);
      ParkingCall(cfg, start, states, calls, k - 1);
      ParkingFirst(cfg, start, states, calls, k);
      ParkingKnownEnters(cfg, states[k].cars, calls, id, k);
    } else {
      ParkingFirst(cfg, start, states, calls, k);
      ParkingKnownStarts(cfg, calls, id);
    }
  }

  // ----- what the parking checker reports

  /** How long the n-th object of call k has stayed: from its first sighting inside a region since
      its history began. */
  ghost function Age(cfg: Config, calls: seq<Call>, k: nat, n: nat): int
    requires cfg.classEqual.Some? && k < |calls| && n < |Objects(calls[k])|
  {
    var stay := Stay(cfg, calls, Objects(calls[k])[n].trackId, k, n + 1);
    if stay == [] then 0 else calls[k].later - calls[stay[0].call].later
  }

  /** The n-th object of call k is to be reported: it is a car inside a region, the call is due, at
      least ten of its sightings are kept, and it has stayed longer than required and a second. */
  ghost predicate ParkingReported(cfg: Config, start: int, calls: seq<Call>, k: nat, n: nat)
    requires cfg.classEqual.Some? && k < |calls| && n < |Objects(calls[k])|
  {
    var o := Objects(calls[k])[n];
    && cfg.Relevant(o, "Car") && InsideSome(cfg.rois, o.mid) && Due(cfg, start, calls, k)
    && |KeptSightings(cfg, calls, o.trackId, k, n + 1)| >= 10
    && Age(cfg, calls, k, n) > cfg.loiteringSecs * 1000 && Age(cfg, calls, k, n) >= 1000
  }

  lemma FirstKept(cfg: Config, calls: seq<Call>, id: int, k: nat, n: nat)
    requires cfg.classEqual.Some? && k < |calls|
    ensures var list, stay := KeptSightings(cfg, calls, id, k, n), Stay(cfg, calls, id, k, n);
            (list == [] <==> stay == []) && (stay != [] ==> stay[0].call < |calls| && list[0].time == calls[stay[0].call].later)
  {
    hide Stay;
    var stay := Stay(cfg, calls, id, k, n);
    if stay != [] { assert IsMoment(calls, stay[0]); }
  }

  lemma ParkingObjectResult(cfg: Config, s: ParkingState, o: TrackedObject, now: int, later: int, enough: bool)
    requires cfg.classEqual.Some? && cfg.event == VehicleParking
    ensures var t := ParkingObject(cfg, s, o, now, later, enough);
            if cfg.Relevant(o, "Car") && InsideSome(cfg.rois, o.mid) then
              && o.trackId in t.cars
              && var list := t.cars[o.trackId].data;
                 && list != []
                 && var age := later - list[0].time;
                    t.results == if |list| >= 10 && age > cfg.loiteringSecs * 1000 && age >= 1000 && enough
                                 then s.results + [Report(o.trackId, age / 1000)] else s.results
            else t.results == s.results
  {
    hide InsideSome, Config.Relevant;
    assert s.results + [] == s.results;
  }

  lemma ParkingResultNext(cfg: Config, start: int, states: seq<State>, calls: seq<Call>, k: nat, n: nat)
    requires ParkingRun(cfg, start, states, calls) && k < |calls| && n < |Objects(calls[k])|
    ensures var r, r', o := ParkingAt(cfg, states, calls, k, n).results, ParkingAt(cfg, states, calls, k, n + 1).results, Objects(calls[k])[n];
            r' == if ParkingReported(cfg, start, calls, k, n) then r + [Report(o.trackId, Age(cfg, calls, k, n) / 1000)] else r
  {
    hide ParkingAt, ParkingObject, Config.Relevant, IsRun, Due, Stay, Began, Enough, InsideSome, KeptSightings;
    var c, o := calls[k], Objects(calls[k])[n];
    var enough := Enough(cfg, states[k].lastActive, c.later);
    ParkingNext(cfg, states, calls, k, n);
    DueExactly(cfg, start, states, calls, k);
    ParkingObjectResult(cfg, ParkingAt(cfg, states, calls, k, n), o, c.now, c.later, enough);
    ParkingStay(cfg, start, states, calls, o.trackId, k, n + 1);
    FirstKept(cfg, calls, o.trackId, k, n + 1);
  }

  /** The reports are about the objects at these positions, each with its whole seconds. */
  ghost predicate CarsListed(cfg: Config, calls: seq<Call>, k: nat, results: seq<Report>, at: seq<nat>)
    requires cfg.classEqual.Some? && k < |calls|
  {
    |results| == |at| && forall j :: 0 <= j < |at| ==>
      at[j] < |Objects(calls[k])| && results[j] == Report(Objects(calls[k])[at[j]].trackId, Age(cfg, calls, k, at[j]) / 1000)
  }

  lemma NoCars(cfg: Config, calls: seq<Call>, k: nat)
    requires cfg.classEqual.Some? && k < |calls|
    ensures CarsListed(cfg, calls, k, [], [])
  {
  }

  lemma MoreCars(cfg: Config, calls: seq<Call>, k: nat, r: seq<Report>, at: seq<nat>, n: nat)
    requires cfg.classEqual.Some? && k < |calls| && n < |Objects(calls[k])| && CarsListed(cfg, calls, k, r, at)
    ensures CarsListed(cfg, calls, k, r + [Report(Objects(calls[k])[n].trackId, Age(cfg, calls, k, n) / 1000)], at + [n])
  {
    hide Age;
  }

  lemma {:induction false} ParkingResults(cfg: Config, start: int, states: seq<State>, calls: seq<Call>, k: nat, n: nat) returns (at: seq<nat>)
    requires ParkingRun(cfg, start, states, calls) && k < |calls| && n <= |Objects(calls[k])|
    ensures Positions(at, n) && forall i: nat :: i in at <==> i < n && ParkingReported(cfg, start, calls, k, i)
    ensures CarsListed(cfg, calls, k, ParkingAt(cfg, states, calls, k, n).results, at)
  {
    hide IsRun, ParkingAt, ParkingReported, Positions, CarsListed, Age;
    if n == 0 {
      ParkingFirst(cfg, start, states, calls, k);
      at := [];
      NoPositions();
      NoCars(cfg, calls, k);
    } else {
      var p := ParkingResults(cfg, start, states, calls, k, n - 1);
      at := MorePositions(p, n - 1, ParkingReported(cfg, start, calls, k, n - 1));
      ParkingResultNext(cfg, start, states, calls, k, n - 1);
      MoreCars(cfg, calls, k, ParkingAt(cfg, states, calls, k, n - 1).results, p, n - 1);
    }
  }

  /** In every run a call reports, in order, exactly the cars inside a region with at least ten kept
      sightings that have stayed longer than required, as long as the call is due, each with its
      whole seconds. */
  lemma ParkingReport(cfg: Config, start: int, states: seq<State>, calls: seq<Call>, k: nat) returns (at: seq<nat>)
    requires ParkingRun(cfg, start, states, calls) && k < |calls|
    ensures Positions(at, |Objects(calls[k])|)
    ensures forall n: nat :: n in at <==> n < |Objects(calls[k])| && ParkingReported(cfg, start, calls, k, n)
    ensures CarsListed(cfg, calls, k, calls[k].results, at)
  {
    hide IsRun, ParkingAt, ParkingReported, Positions, CarsListed;
    ParkingCall(cfg, start, states, calls, k);
    at := ParkingResults(cfg, start, states, calls, k, |Objects(calls[k])|);
  }
}
