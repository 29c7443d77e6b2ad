/**
 * The earlier single-file variant of the simulation. Vehicle positions are a
 * fixed-size array updated in place; the light is a colour with a fixed
 * position and no timer; every tick logs a record, refits on all records
 * (already from the first one), predicts five ticks ahead and sets the
 * colour from the prediction against half the number of vehicles. The
 * random speed jitter of each vehicle is an input to the tick.
 */
module SingleFileSimulation {
  import opened Numeric
  import opened Proximity
  import opened Lights
  import opened Roads
  import opened Predictions

  /** The variant's global configuration. */
  const RoadLength: real := 500.0
  const NumVehicles: int := 10
  const VehicleSpeed: real := 20.0
  const LightPosition: real := 250.0
  /** How far ahead each tick predicts. */
  const Horizon: int := 5
  /** Ticks in one run. */
  const Ticks: int := 40

  /**
   * The speed a vehicle at `position` drives at: stopped when the light is
   * red and the vehicle is strictly within 50 m of it, the given speed otherwise.
   */
  function AdjustSpeed(position: real, speed: real, lightState: LightState): (r: real)
    ensures lightState == Red && Abs(position - LightPosition) < 50.0 ==> r == 0.0
    ensures !(lightState == Red && Abs(position - LightPosition) < 50.0) ==> r == speed
  {
    if lightState == Red && Abs(position - LightPosition) < 50.0 then 0.0 else speed
  }

  /** One logged record: the tick, the count near the light, and a copy of the positions. */
  datatype Record = Record(time: int, count: int, positions: seq<real>)

  /** The (time, count) pair the fit sees of a record; the positions are not used by it. */
  function Logged(r: Record): (o: Observation)
  {
    Observation(r.time, r.count)
  }

  /** No model without records; otherwise a line fitted to every record, even a single one. */
  function TrainDynamicModel(records: seq<Record>, fit: seq<Observation> -> Line): (m: Option<Line>)
    ensures m.None? <==> records == []
    ensures m.Some? ==> m.value == fit(LogOf(records, Logged))
  {
    if records == [] then None else Some(fit(LogOf(records, Logged)))
  }

  /** The actuation rule: green exactly when more than half the vehicles are predicted. */
  function Actuate(futureCount: int): (s: LightState)
    ensures s == Green <==> futureCount > NumVehicles / 2
  {
    if futureCount > NumVehicles / 2 then Green else Red
  }

  /** A speed scaled by the random factor `1 + jitter`; a stopped vehicle stays stopped. */
  function JitteredSpeed(speed: real, jitter: real): (r: real)
    ensures speed == 0.0 ==> r == 0.0
    ensures jitter == 0.0 ==> r == speed
  {
    speed * (1.0 + jitter)
  }

  /** Where a vehicle at `position` ends up after one tick with jitter sample `jitter`. */
  function JitteredPosition(position: real, lightState: LightState, jitter: real): (r: real)
    ensures 0.0 <= r < RoadLength
  {
    FloorMod(position + JitteredSpeed(AdjustSpeed(position, VehicleSpeed, lightState), jitter), RoadLength)
  }

  /** The positions after one tick, one jitter sample per vehicle. */
  function NextPositions(positions: seq<real>, lightState: LightState, jitter: seq<real>): (r: seq<real>)
    requires |jitter| == |positions|
    ensures |r| == |positions|
    ensures forall k :: 0 <= k < |r| ==> 0.0 <= r[k] < RoadLength
  {
    seq(|positions|, k requires 0 <= k < |positions| => JitteredPosition(positions[k], lightState, jitter[k]))
  }

  /** A vehicle stopped by the red light keeps its (on-road) position, whatever its jitter. */
  lemma RedLightHoldsJittered(position: real, jitter: real)
    requires 0.0 <= position < RoadLength
    requires Abs(position - LightPosition) < 50.0
    ensures JitteredPosition(position, Red, jitter) == position
  {
    FloorModIdentity(position, RoadLength);
  }

  /** The variant's global state: the positions array, the light's colour, the log and the model. */
  class Simulation {
    const positions: array<real>
    var lightState: LightState
    var data: seq<Record>
    var model: Option<Line>

    /** Evenly spaced positions, a green light, an empty log and no model. */
    constructor ()
      ensures fresh(positions)
      ensures positions[..] == InitialPositions(RoadLength, NumVehicles)
      ensures lightState == Green && data == [] && model == None
    {
      var initial := InitialPositions(RoadLength, NumVehicles);
      var a := new real[|initial|];
      forall k | 0 <= k < a.Length {
        a[k] := initial[k];
      }
      positions := a;
      lightState := Green;
      data := [];
      model := None;
    }

    /**
     * One tick at time `t`: move every vehicle under the current colour,
     * overwrite the positions in place, log a record, refit, predict and set
     * the colour. Returns the count near the light and the prediction.
     */
    method Step(t: int, jitter: seq<real>, fit: seq<Observation> -> Line) returns (count: int, futureCount: int)
      requires |jitter| == positions.Length
      modifies this, positions
      ensures positions[..] == NextPositions(old(positions[..]), old(lightState), jitter)
      ensures count == CountNear(positions[..], LightPosition, DefaultRadius)
      ensures data == old(data) + [Record(t, count, positions[..])]
      ensures model == Some(fit(LogOf(data, Logged)))
      ensures futureCount == PredictFrom(model, t + Horizon)
      ensures lightState == Actuate(futureCount)
    {
      var newPositions: seq<real> := [];
      var i := 0;
      while i < positions.Length
        invariant 0 <= i <= positions.Length
        invariant |newPositions| == i
        invariant forall k :: 0 <= k < i ==> newPositions[k] == JitteredPosition(positions[k], lightState, jitter[k])
      {
        var pos := positions[i];
        var speed := AdjustSpeed(pos, VehicleSpeed, lightState);
        pos := pos + JitteredSpeed(speed, jitter[i]);
        pos := FloorMod(pos, RoadLength);
        newPositions := newPositions + [pos];
        i := i + 1;
      }
      forall k | 0 <= k < positions.Length {
        positions[k] := newPositions[k];
      }
      count := CountNear(positions[..], LightPosition, DefaultRadius);
      data := data + [Record(t, count, positions[..])];
      model := TrainDynamicModel(data, fit);
      futureCount := PredictFrom(model, t + Horizon);
      if futureCount > NumVehicles / 2 {
        lightState := Green;
      } else {
        lightState := Red;
      }
    }
  }

  /** What the generator hands out per tick. */
  datatype TickOutput = TickOutput(time: int, positions: seq<real>, state: LightState, count: int)

  /** The (time, count) pair a tick's output reports. */
  function Reported(out: TickOutput): (o: Observation)
  {
    Observation(out.time, out.count)
  }

  /**
   * What a run guarantees of its first `|trace|` ticks: times count up from
   * 0, positions stay on the road, each count is taken from that tick's
   * positions, and each colour comes from a line fitted to every record so
   * far, the current one included.
   */
  predicate RunSoFar(trace: seq<TickOutput>, fit: seq<Observation> -> Line) {
    forall i :: 0 <= i < |trace| ==>
      && trace[i].time == i
      && |trace[i].positions| == NumVehicles
      && (forall k :: 0 <= k < NumVehicles ==> 0.0 <= trace[i].positions[k] < RoadLength)
      && trace[i].count == CountNear(trace[i].positions, LightPosition, DefaultRadius)
      && trace[i].state == Actuate(PredictFrom(Some(fit(LogOf(trace[..i + 1], Reported))), i + Horizon))
  }

  /** Appending tick `t`'s output keeps RunSoFar. */
  lemma ExtendRun(trace: seq<TickOutput>, out: TickOutput, t: int, fit: seq<Observation> -> Line)
    requires RunSoFar(trace, fit)
    requires t == |trace| && out.time == t && |out.positions| == NumVehicles
    requires forall k :: 0 <= k < NumVehicles ==> 0.0 <= out.positions[k] < RoadLength
    requires out.count == CountNear(out.positions, LightPosition, DefaultRadius)
    requires out.state == Actuate(PredictFrom(Some(fit(LogOf(trace + [out], Reported))), t + Horizon))
    ensures RunSoFar(trace + [out], fit)
  {
    var next := trace + [out];
    forall i | 0 <= i < |trace|
      ensures next[i] == trace[i] && next[..i + 1] == trace[..i + 1]
    {
    }
    assert next[..t + 1] == next;
  }

  /**
   * The positions and colour tick `i` starts from: the evenly spaced layout
   * under a green light before the first tick, and otherwise what tick `i - 1`
   * left behind.
   */
  function StartOf(trace: seq<TickOutput>, i: int): (r: (seq<real>, LightState))
    requires 0 <= i <= |trace|
    ensures i == 0 ==> r == (InitialPositions(RoadLength, NumVehicles), Green)
    ensures i > 0 ==> r == (trace[i - 1].positions, trace[i - 1].state)
  {
    if i == 0 then (InitialPositions(RoadLength, NumVehicles), Green) else (trace[i - 1].positions, trace[i - 1].state)
  }

  /** Tick `i` moved every vehicle on from StartOf(trace, i) with the jitter samples `jitters[i]`. */
  predicate MovedOn(trace: seq<TickOutput>, jitters: seq<seq<real>>, i: int)
    requires 0 <= i < |trace| && i < |jitters|
  {
    var (positions, state) := StartOf(trace, i);
    |jitters[i]| == |positions| && trace[i].positions == NextPositions(positions, state, jitters[i])
  }

  /** Every tick of the trace moved on from the one before, with its own jitter samples. */
  predicate Follows(trace: seq<TickOutput>, jitters: seq<seq<real>>) {
    |trace| <= |jitters| && forall i :: 0 <= i < |trace| ==> MovedOn(trace, jitters, i)
  }

  /** Appending tick `t`'s output, moved on from StartOf(trace, t) with `jitters[t]`, keeps Follows. */
  lemma ExtendFollows(trace: seq<TickOutput>, jitters: seq<seq<real>>, out: TickOutput, t: int)
    requires Follows(trace, jitters) && t == |trace| < |jitters|
    requires |jitters[t]| == |StartOf(trace, t).0|
    requires out.positions == NextPositions(StartOf(trace, t).0, StartOf(trace, t).1, jitters[t])
    ensures Follows(trace + [out], jitters)
  {
    var next := trace + [out];
    forall i | 0 <= i < |next|
      ensures MovedOn(next, jitters, i)
    {
      assert StartOf(next, i) == StartOf(trace, i);
      if i < t {
        assert MovedOn(trace, jitters, i);
      }
    }
  }

  /**
   * The generator's whole run of 40 ticks from the initial state, with
   * `jitters[t][k]` the jitter sample of vehicle `k` at tick `t`.
   */
  method Simulate(fit: seq<Observation> -> Line, jitters: seq<seq<real>>) returns (trace: seq<TickOutput>)
    requires |jitters| == Ticks
    requires forall t :: 0 <= t < Ticks ==> |jitters[t]| == NumVehicles
    ensures |trace| == Ticks
    ensures RunSoFar(trace, fit)
    ensures Follows(trace, jitters)
  {
    var sim := new Simulation();
    trace := [];
    for t := 0 to Ticks
      invariant |trace| == t && RunSoFar(trace, fit) && Follows(trace, jitters)
      invariant sim.positions.Length == NumVehicles
      invariant (sim.positions[..], sim.lightState) == StartOf(trace, t)
      invariant LogOf(sim.data, Logged) == LogOf(trace, Reported)
      modifies sim, sim.positions
    {
      var count, futureCount := sim.Step(t, jitters[t], fit);
      var out := TickOutput(t, sim.positions[..], sim.lightState, count);
      assert LogOf(sim.data, Logged) == LogOf(trace + [out], Reported);
      ExtendRun(trace, out, t, fit);
      ExtendFollows(trace, jitters, out, t);
      trace := trace + [out];
      assert StartOf(trace, t + 1) == (out.positions, out.state);
    }
  }
}
