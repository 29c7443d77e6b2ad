/**
 * The closed road: it owns the vehicles, stops those close to a red light,
 * moves every vehicle, and counts those near the light.
 */
module Roads {
  import opened Numeric
  import opened Proximity
  import opened Vehicles
  import opened Lights

  /** The speed every vehicle is reset to when it is not stopped. */
  const NominalSpeed: real := 20.0
  /** A red light stops vehicles strictly closer than this (no wraparound). */
  const StopDistance: real := 50.0

  /** Evenly spaced starting positions: vehicle `i` starts at `i * (length / n)`. */
  function InitialPositions(length: real, numVehicles: int): (r: seq<real>)
    ensures |r| == if numVehicles > 0 then numVehicles else 0
  {
    if numVehicles <= 0 then []
    else seq(numVehicles, i => i as real * (length / numVehicles as real))
  }

  /**
   * On a road of positive length the starting positions lie on the road and
   * strictly increase with the index.
   */
  lemma InitialPositionsSpread(length: real, numVehicles: int)
    requires length > 0.0 && numVehicles > 0
    ensures forall i :: 0 <= i < numVehicles ==> 0.0 <= InitialPositions(length, numVehicles)[i] < length
    ensures forall i, j :: 0 <= i < j < numVehicles ==>
              InitialPositions(length, numVehicles)[i] < InitialPositions(length, numVehicles)[j]
  {
    var r := InitialPositions(length, numVehicles);
    var gap := length / numVehicles as real;
    assert gap > 0.0;
    assert numVehicles as real * gap == length;
    forall i | 0 <= i < numVehicles
      ensures 0.0 <= r[i] < length
    {
      ProductSign(i as real, gap);
      assert length - r[i] == (numVehicles - i) as real * gap;
      ProductSign((numVehicles - i) as real, gap);
    }
    forall i, j | 0 <= i < j < numVehicles
      ensures r[i] < r[j]
    {
      assert r[j] - r[i] == (j - i) as real * gap;
      ProductSign((j - i) as real, gap);
    }
  }

  /** The speed `move_vehicles` gives a vehicle at `position`. */
  function RoadSpeed(state: LightState, lightPosition: real, position: real): (r: real)
    ensures r == 0.0 <==> state == Red && Abs(position - lightPosition) < StopDistance
    ensures r == 0.0 || r == NominalSpeed
  {
    if state == Red && Abs(position - lightPosition) < StopDistance then 0.0 else NominalSpeed
  }

  /** The speeds after one `move_vehicles`, from the positions before it. */
  function RoadSpeeds(positions: seq<real>, state: LightState, lightPosition: real): (r: seq<real>)
    ensures |r| == |positions|
  {
    seq(|positions|, i requires 0 <= i < |positions| => RoadSpeed(state, lightPosition, positions[i]))
  }

  /** The positions after one `move_vehicles`, from the positions before it. */
  function MovedPositions(positions: seq<real>, state: LightState, lightPosition: real, length: real): (r: seq<real>)
    requires |positions| > 0 ==> length != 0.0
    ensures |r| == |positions|
    ensures length > 0.0 ==> forall i :: 0 <= i < |r| ==> 0.0 <= r[i] < length
  {
    seq(|positions|, i requires 0 <= i < |positions| =>
      FloorMod(positions[i] + RoadSpeed(state, lightPosition, positions[i]), length))
  }

  /** A vehicle stopped by the red light keeps its (on-road) position. */
  lemma RedLightHolds(positions: seq<real>, lightPosition: real, length: real, i: int)
    requires 0 <= i < |positions|
    requires 0.0 <= positions[i] < length
    requires Abs(positions[i] - lightPosition) < StopDistance
    ensures MovedPositions(positions, Red, lightPosition, length)[i] == positions[i]
  {
    FloorModIdentity(positions[i], length);
  }

  /** Under a green light every vehicle advances by the nominal speed, modulo the length. */
  lemma GreenLightMovesAll(positions: seq<real>, lightPosition: real, length: real, i: int)
    requires length > 0.0
    requires 0 <= i < |positions|
    ensures IsWhole((positions[i] + NominalSpeed - MovedPositions(positions, Green, lightPosition, length)[i]) / length)
    ensures RoadSpeeds(positions, Green, lightPosition)[i] == NominalSpeed
  {
    FloorModShift(positions[i] + NominalSpeed, length);
  }

  class Road {
    const length: real
    var vehicles: seq<Vehicle>

    /** Every vehicle is a distinct object. */
    ghost predicate Valid()
      reads this
    {
      forall i, j :: 0 <= i < j < |vehicles| ==> vehicles[i] != vehicles[j]
    }

    function Positions(): (r: seq<real>)
      reads this, vehicles
      ensures |r| == |vehicles|
    {
      var vs := vehicles;
      seq(|vs|, i reads vs requires 0 <= i < |vs| => vs[i].position)
    }

    function Speeds(): (r: seq<real>)
      reads this, vehicles
      ensures |r| == |vehicles|
    {
      var vs := vehicles;
      seq(|vs|, i reads vs requires 0 <= i < |vs| => vs[i].speed)
    }

    /**
     * `numVehicles` fresh vehicles (none when it is not positive, since then
     * the range is empty and nothing is divided), vehicle `i` with id `i`, the
     * `i`-th evenly spaced position and the given speed.
     */
    constructor (length: real, numVehicles: int, vehicleSpeed: real)
      ensures this.length == length
      ensures Valid()
      ensures forall i :: 0 <= i < |vehicles| ==> fresh(vehicles[i])
      ensures Positions() == InitialPositions(length, numVehicles)
      ensures forall i :: 0 <= i < |vehicles| ==> vehicles[i].id == i && vehicles[i].speed == vehicleSpeed
    {
      var initial := InitialPositions(length, numVehicles);
      var vs: seq<Vehicle> := [];
      while |vs| < |initial|
        invariant |vs| <= |initial|
        invariant forall i :: 0 <= i < |vs| ==> fresh(vs[i])
        invariant forall i, j :: 0 <= i < j < |vs| ==> vs[i] != vs[j]
        invariant forall i :: 0 <= i < |vs| ==>
                    vs[i].id == i && vs[i].position == initial[i] && vs[i].speed == vehicleSpeed
      {
        var v := new Vehicle(|vs|, initial[|vs|], vehicleSpeed);
        vs := vs + [v];
      }
      this.length := length;
      vehicles := vs;
    }

    /**
     * Sets every vehicle's speed by the red-light rule and moves it, in list
     * order. A zero length raises ZeroDivisionError in `%` once there is a
     * vehicle to move. The vehicle list, the ids and the light are untouched.
     */
    method MoveVehicles(light: TrafficLight)
      requires Valid()
      requires |vehicles| > 0 ==> length != 0.0
      modifies vehicles
      ensures Positions() == MovedPositions(old(Positions()), light.state, light.position, length)
      ensures Speeds() == RoadSpeeds(old(Positions()), light.state, light.position)
      ensures vehicles == old(vehicles) && unchanged(light)
    {
      ghost var before := Positions();
      ghost var target := MovedPositions(before, light.state, light.position, length);
      ghost var speeds := RoadSpeeds(before, light.state, light.position);
      var i := 0;
      while i < |vehicles|
        invariant 0 <= i <= |vehicles|
        invariant forall k :: 0 <= k < i ==> vehicles[k].position == target[k] && vehicles[k].speed == speeds[k]
        invariant forall k :: i <= k < |vehicles| ==> vehicles[k].position == before[k]
      {
        assert forall k :: 0 <= k < |vehicles| && k != i ==> vehicles[k] != vehicles[i];
        assert speeds[i] == RoadSpeed(light.state, light.position, before[i]);
        assert target[i] == FloorMod(before[i] + speeds[i], length);
        DriveOne(vehicles[i], light);
        assert vehicles[i].position == target[i] && vehicles[i].speed == speeds[i];
        i := i + 1;
      }
    }

    /** One step of `move_vehicles`: set `v`'s speed by the red-light rule, then move it. */
    method DriveOne(v: Vehicle, light: TrafficLight)
      requires length != 0.0
      modifies v
      ensures v.speed == RoadSpeed(light.state, light.position, old(v.position))
      ensures v.position == FloorMod(old(v.position) + v.speed, length)
    {
      if light.state == Red && Abs(v.position - light.position) < StopDistance {
        v.speed := 0.0;
      } else {
        v.speed := NominalSpeed;
      }
      v.Move(length);
    }

    /** The number of vehicles strictly closer to the light than `radius`. */
    function CountNearTrafficLight(light: TrafficLight, radius: real := DefaultRadius): (n: int)
      reads this, vehicles
      ensures 0 <= n <= |vehicles|
      ensures n == 0 <==> forall i :: 0 <= i < |vehicles| ==> !IsNear(vehicles[i].position, light.position, radius)
    {
      var positions := Positions();
      assert forall i :: 0 <= i < |vehicles| ==> positions[i] == vehicles[i].position;
      CountNearZeroIff(positions, light.position, radius);
      CountNear(positions, light.position, radius)
    }
  }
}
