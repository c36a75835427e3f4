/**
 * Street traffic (app/page.jsx, addCars and updateCars): twelve cars on two
 * lanes, driving in opposite directions and wrapping at the ends of the track.
 */
module Traffic {

  /** Number of cars addCars creates. */
  const CarCount: nat := 12
  /** Lateral offset of the two lanes: even cars at -LaneOffset, odd cars at +LaneOffset. */
  const LaneOffset: real := 2.3
  /** A car that runs past +-TrackEnd in its direction of travel re-enters at the other end. */
  const TrackEnd: real := 35.0
  /** z of car 0; each following car starts Spacing further along. */
  const FirstZ: real := -30.0
  const Spacing: real := 5.0
  /** Speed magnitude is BaseSpeed + r * SpeedJitter for a random draw r in [0, 1). */
  const BaseSpeed: real := 0.12
  const SpeedJitter: real := 0.08

  /** One car group: its lane (x), longitudinal position (z) and signed per-frame speed. */
  datatype Car = Car(lane: real, z: real, speed: real)

  predicate OnTrack(c: Car)
  {
    -TrackEnd <= c.z <= TrackEnd
  }

  predicate AllOnTrack(cs: seq<Car>)
  {
    forall i :: 0 <= i < |cs| ==> OnTrack(cs[i])
  }

  /** A draw of Math.random(). */
  predicate IsDraw(r: real)
  {
    0.0 <= r < 1.0
  }

  /** The car addCars places at index i, given the random draw r that sets its speed. */
  function LayoutCar(i: nat, r: real): (c: Car)
    ensures c.lane == -LaneOffset <==> i % 2 == 0
    ensures IsDraw(r) ==> (c.speed > 0.0 <==> c.lane < 0.0)
  {
    var lane := if i % 2 == 0 then -LaneOffset else LaneOffset;
    var dir := if i % 2 == 0 then 1.0 else -1.0;
    Car(lane, FirstZ + (i as real) * Spacing, dir * (BaseSpeed + r * SpeedJitter))
  }

  /** The whole layout addCars produces from its twelve random draws. */
  function Layout(rand: seq<real>): (cs: seq<Car>)
    requires |rand| == CarCount
    ensures |cs| == CarCount
  {
    seq(CarCount, i requires 0 <= i < CarCount => LayoutCar(i, rand[i]))
  }

  /** Even cars drive up the left lane, odd cars down the right lane, at 0.12 to 0.20 per frame. */
  lemma LayoutCarShape(i: nat, r: real)
    requires IsDraw(r)
    ensures LayoutCar(i, r).z == -30.0 + 5.0 * (i as real)
    ensures i % 2 == 0 ==> LayoutCar(i, r).lane == -2.3 && 0.12 <= LayoutCar(i, r).speed < 0.2
    ensures i % 2 == 1 ==> LayoutCar(i, r).lane == 2.3 && -0.2 < LayoutCar(i, r).speed <= -0.12
  {
  }

  /** Every car of the layout starts on the track, between -30 and 25. */
  lemma LayoutOnTrack(rand: seq<real>)
    requires |rand| == CarCount
    ensures AllOnTrack(Layout(rand))
    ensures forall i :: 0 <= i < CarCount ==> -30.0 <= Layout(rand)[i].z <= 25.0
  {
  }

  /** What updateCars does to one car in one frame. */
  function Advance(c: Car): (d: Car)
    ensures d.lane == c.lane && d.speed == c.speed
  {
    if c.speed > 0.0 && c.z + c.speed > TrackEnd then c.(z := -TrackEnd)
    else if c.speed < 0.0 && c.z + c.speed < -TrackEnd then c.(z := TrackEnd)
    else c.(z := c.z + c.speed)
  }

  /**
   * A car moves by exactly its own speed, except that a car which would run
   * past the end it is heading for is put on the opposite end instead.
   */
  lemma AdvanceMoves(c: Car)
    ensures c.speed > 0.0 && c.z + c.speed > 35.0 ==> Advance(c).z == -35.0
    ensures c.speed < 0.0 && c.z + c.speed < -35.0 ==> Advance(c).z == 35.0
    ensures -35.0 <= c.z + c.speed <= 35.0 ==> Advance(c).z == c.z + c.speed
  {
  }

  /** One frame keeps a car on the track, whatever its speed. */
  lemma AdvanceOnTrack(c: Car)
    requires OnTrack(c)
    ensures OnTrack(Advance(c))
  {
  }

  /** One frame of updateCars over the whole car list. */
  function AdvanceAll(cs: seq<Car>): (ds: seq<Car>)
    ensures |ds| == |cs|
  {
    seq(|cs|, i requires 0 <= i < |cs| => Advance(cs[i]))
  }

  /** The car list after n frames. */
  function Frames(cs: seq<Car>, n: nat): (ds: seq<Car>)
    ensures |ds| == |cs|
  {
    if n == 0 then cs else AdvanceAll(Frames(cs, n - 1))
  }

  /** Any number of frames keeps every car on the track. */
  lemma {:induction false} FramesOnTrack(cs: seq<Car>, n: nat)
    requires AllOnTrack(cs)
    ensures AllOnTrack(Frames(cs, n))
  {
    if n > 0 {
      FramesOnTrack(cs, n - 1);
      var prev := Frames(cs, n - 1);
      forall i | 0 <= i < |prev|
        ensures OnTrack(AdvanceAll(prev)[i])
      {
        AdvanceOnTrack(prev[i]);
      }
    }
  }

  /** Frames never change a car's lane or speed: lane and direction stay paired. */
  lemma {:induction false} FramesKeepLanes(cs: seq<Car>, n: nat, i: nat)
    requires i < |cs|
    ensures Frames(cs, n)[i].lane == cs[i].lane
    ensures Frames(cs, n)[i].speed == cs[i].speed
  {
    if n > 0 {
      FramesKeepLanes(cs, n - 1, i);
    }
  }

  /** Starting from the addCars layout, every car stays within [-35, 35] forever. */
  lemma LayoutStaysOnTrack(rand: seq<real>, n: nat)
    requires |rand| == CarCount
    ensures AllOnTrack(Frames(Layout(rand), n))
  {
    LayoutOnTrack(rand);
    FramesOnTrack(Layout(rand), n);
  }

  /** The group of car objects addCars adds to the scene (carsRef.current). */
  class CarGroup {
    var cars: array<Car>

    ghost predicate Valid()
      reads this, cars
    {
      cars.Length == CarCount && AllOnTrack(cars[..])
    }

    /** addCars: lay the twelve cars out, car i from the random draw rand[i]. */
    constructor (rand: seq<real>)
      requires |rand| == CarCount
      ensures Valid() && fresh(cars)
      ensures cars[..] == Layout(rand)
    {
      var a := new Car[CarCount];
      for i := 0 to CarCount
        invariant forall k :: 0 <= k < i ==> a[k] == LayoutCar(k, rand[k])
      {
        var lane := if i % 2 == 0 then -LaneOffset else LaneOffset;
        var dir := if i % 2 == 0 then 1.0 else -1.0;
        a[i] := Car(lane, FirstZ + (i as real) * Spacing, dir * (BaseSpeed + rand[i] * SpeedJitter));
      }
      cars := a;
      LayoutOnTrack(rand);
    }

    /** updateCars: advance every car by its own speed, wrapping at the track ends. */
    method UpdateCars()
      requires Valid()
      modifies cars
      ensures Valid()
      ensures cars[..] == AdvanceAll(old(cars[..]))
    {
      var i := 0;
      while i < cars.Length
        invariant 0 <= i <= cars.Length
        invariant forall k :: 0 <= k < i ==> cars[k] == Advance(old(cars[k]))
        invariant forall k :: i <= k < cars.Length ==> cars[k] == old(cars[k])
      {
        var car := cars[i];
        var z := car.z + car.speed;
        if car.speed > 0.0 && z > TrackEnd { z := -TrackEnd; }
        if car.speed < 0.0 && z < -TrackEnd { z := TrackEnd; }
        cars[i] := car.(z := z);
        i := i + 1;
      }
      forall k | 0 <= k < cars.Length
        ensures OnTrack(cars[..][k])
      {
        AdvanceOnTrack(old(cars[k]));
      }
    }
  }
}
