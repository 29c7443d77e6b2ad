/**
 * The object-based simulation loop: one tick advances the light's timer,
 * moves the vehicles, counts those near the light, logs and retrains, predicts
 * five ticks ahead and then overrides the light's colour from the prediction.
 * The override always wins over the timer's own colour within the tick; the
 * timer's counter keeps advancing regardless.
 */
module SimulationApp {
  import opened Numeric
  import opened Proximity
  import opened Lights
  import opened Roads
  import opened Predictions

  /** How far ahead each tick predicts. */
  const Horizon: int := 5
  /** The light is forced green when more vehicles than this are predicted. */
  const GreenThreshold: int := 5
  /** Ticks in one run. */
  const Ticks: int := 30

  /** The configuration the run is built with. */
  const RoadLength: real := 500.0
  const NumVehicles: int := 10
  const VehicleSpeed: real := 20.0
  const LightPosition: real := 250.0

  /** What one tick hands to the presentation layer. */
  datatype TickOutput = TickOutput(time: int, positions: seq<real>, state: LightState, count: int, futureCount: int)

  /** The actuation rule: green exactly when the prediction exceeds the threshold. */
  function Actuate(futureCount: int): (s: LightState)
    ensures s == Green <==> futureCount > GreenThreshold
  {
    if futureCount > GreenThreshold then Green else Red
  }

  /** Where the ten vehicles stand after the first tick: the light is still green, so each has moved 20 m. */
  const FirstTickLayout: seq<real> := [20.0, 70.0, 120.0, 170.0, 220.0, 270.0, 320.0, 370.0, 420.0, 470.0]

  /** From the evenly spaced start under a green light, every vehicle advances 20 m without wrapping. */
  lemma FirstTickPositions()
    ensures MovedPositions(InitialPositions(RoadLength, NumVehicles), Green, LightPosition, RoadLength) == FirstTickLayout
  {
    var moved := MovedPositions(InitialPositions(RoadLength, NumVehicles), Green, LightPosition, RoadLength);
    forall i | 0 <= i < NumVehicles
      ensures moved[i] == i as real * 50.0 + 20.0
    {
      FloorModIdentity(i as real * 50.0 + 20.0, RoadLength);
    }
  }

  /** In that layout exactly the vehicles at 220 and 270 are within 50 m of the light. */
  lemma FirstTickCount()
    ensures CountNear(FirstTickLayout, LightPosition, DefaultRadius) == 2
  {
    var ps := FirstTickLayout;
    assert ps == ps[..4] + (ps[4..6] + ps[6..]);
    CountNearZeroIff(ps[..4], LightPosition, DefaultRadius);
    CountNearZeroIff(ps[6..], LightPosition, DefaultRadius);
    assert ps[4..6][1..][1..] == [];
    CountNearAppend(ps[4..6], ps[6..], LightPosition, DefaultRadius);
    CountNearAppend(ps[..4], ps[4..6] + ps[6..], LightPosition, DefaultRadius);
  }

  /** The observation a tick contributes to the model's log. */
  function Observed(out: TickOutput): (o: Observation)
  {
    Observation(out.time, out.count)
  }

  /** The light's cycle, the constructor's default. */
  const CycleDuration: int := 10

  /**
   * The colour the vehicles move under at tick `i`, given the colour the
   * previous tick actuated: `update` toggles it on the last tick of each
   * cycle and keeps it otherwise.
   */
  function MoveColour(previous: LightState, i: int): LightState {
    if i % CycleDuration == CycleDuration - 1 then Toggle(previous) else previous
  }

  /**
   * Before tick `t` the counter stands at `t % CycleDuration`, whatever colour
   * was actuated: `update` then yields MoveColour and the next counter.
   */
  lemma TimerStep(s: LightState, t: int)
    requires t >= 0
    ensures NextTimer(Timer(s, t % CycleDuration), CycleDuration) == Timer(MoveColour(s, t), (t + 1) % CycleDuration)
  {
    if t % CycleDuration == CycleDuration - 1 {
      assert (t + 1) % CycleDuration == 0;
    } else {
      assert (t + 1) % CycleDuration == t % CycleDuration + 1;
    }
  }

  /**
   * The first half of a tick: advance the light's timer, move the vehicles
   * under the colour it now shows, and count those near the light.
   */
  method Sense(road: Road, light: TrafficLight) returns (count: int)
    requires road.Valid()
    requires |road.vehicles| > 0 ==> road.length != 0.0
    modifies road.vehicles, light
    ensures light.Clock() == NextTimer(old(light.Clock()), light.cycleDuration)
    ensures road.Positions() == MovedPositions(old(road.Positions()), light.state, light.position, road.length)
    ensures road.Speeds() == RoadSpeeds(old(road.Positions()), light.state, light.position)
    ensures count == CountNear(road.Positions(), light.position, DefaultRadius)
  {
    light.Update();
    road.MoveVehicles(light);
    count := road.CountNearTrafficLight(light);
  }

  /**
   * The second half of a tick: log the count at time `t`, retrain, predict
   * `Horizon` ticks ahead and force the light's colour from the prediction.
   */
  method LearnAndActuate(t: int, count: int, light: TrafficLight, predictor: TrafficPredictionModel,
                         fit: seq<Observation> -> Line) returns (futureCount: int)
    modifies light`state, predictor
    ensures predictor.data == old(predictor.data) + [Observation(t, count)]
    ensures |predictor.data| >= MinTrainingPoints ==> predictor.model == Some(fit(predictor.data))
    ensures |predictor.data| < MinTrainingPoints ==> predictor.model == old(predictor.model)
    ensures futureCount == PredictFrom(predictor.model, t + Horizon)
    ensures light.state == Actuate(futureCount)
  {
    predictor.UpdateData(t, count);
    var _ := predictor.Train(fit);
    futureCount := predictor.Predict(t + Horizon);
    if futureCount > GreenThreshold {
      light.state := Green;
    } else {
      light.state := Red;
    }
  }

  /**
   * One tick at time `t`, in the source's fixed order. The vehicles move under
   * the colour that `update` produced from the previous tick's actuated colour;
   * the light ends in the colour the prediction dictates, while its counter
   * keeps the value `update` gave it.
   */
  method Tick(t: int, road: Road, light: TrafficLight, predictor: TrafficPredictionModel,
              fit: seq<Observation> -> Line) returns (out: TickOutput)
    requires road.Valid()
    requires |road.vehicles| > 0 ==> road.length != 0.0
    modifies road.vehicles, light, predictor
    ensures light.timeInState == NextTimer(old(light.Clock()), light.cycleDuration).timeInState
    ensures road.Positions()
         == MovedPositions(old(road.Positions()), NextTimer(old(light.Clock()), light.cycleDuration).state,
                           light.position, road.length)
    ensures road.Speeds()
         == RoadSpeeds(old(road.Positions()), NextTimer(old(light.Clock()), light.cycleDuration).state, light.position)
    ensures out.time == t && out.positions == road.Positions()
    ensures road.length > 0.0 ==> forall k :: 0 <= k < |out.positions| ==> 0.0 <= out.positions[k] < road.length
    ensures out.count == CountNear(road.Positions(), light.position, DefaultRadius)
    ensures predictor.data == old(predictor.data) + [Observation(t, out.count)]
    ensures |predictor.data| >= MinTrainingPoints ==> predictor.model == Some(fit(predictor.data))
    ensures |predictor.data| < MinTrainingPoints ==> predictor.model == old(predictor.model)
    ensures out.futureCount == PredictFrom(predictor.model, t + Horizon)
    ensures out.state == light.state == Actuate(out.futureCount)
  {
    var count := Sense(road, light);
    var futureCount := LearnAndActuate(t, count, light, predictor, fit);
    out := TickOutput(t, road.Positions(), light.state, count, futureCount);
  }

  /** Every position lies on the road. */
  predicate OnRoad(positions: seq<real>) {
    forall k :: 0 <= k < |positions| ==> 0.0 <= positions[k] < RoadLength
  }

  /** What the run guarantees of the output of tick `i`, taken alone. */
  predicate TickShape(out: TickOutput, i: int) {
    && out.time == i
    && |out.positions| == NumVehicles
    && OnRoad(out.positions)
    && out.count == CountNear(out.positions, LightPosition, DefaultRadius)
    && out.state == Actuate(out.futureCount)
  }

  /** From the second tick on, the prediction comes from a line fitted to the whole log so far. */
  predicate PredictsFromHistory(trace: seq<TickOutput>, fit: seq<Observation> -> Line) {
    forall i :: 1 <= i < |trace| ==>
      trace[i].futureCount == PredictFrom(Some(fit(LogOf(trace[..i + 1], Observed))), i + Horizon)
  }

  /**
   * At tick `i` the vehicles moved on from where tick `i - 1` left them, under
   * the colour that tick actuated, toggled on a cycle's last tick.
   */
  predicate MovedOn(trace: seq<TickOutput>, i: int)
    requires 1 <= i < |trace|
  {
    trace[i].positions
    == MovedPositions(trace[i - 1].positions, MoveColour(trace[i - 1].state, i), LightPosition, RoadLength)
  }

  /** Every tick from the second on moved on from the one before. */
  predicate Moves(trace: seq<TickOutput>) {
    forall i :: 1 <= i < |trace| ==> MovedOn(trace, i)
  }

  /** What a run guarantees of its first `|trace|` ticks. */
  predicate RunSoFar(trace: seq<TickOutput>, fit: seq<Observation> -> Line) {
    && (forall i :: 0 <= i < |trace| ==> TickShape(trace[i], i))
    && (|trace| > 0 ==> trace[0].futureCount == 0)
    && Moves(trace)
    && PredictsFromHistory(trace, fit)
  }

  /** Appending tick `t`'s output, moved on from tick `t - 1`, keeps Moves. */
  lemma ExtendMoves(trace: seq<TickOutput>, out: TickOutput, t: int)
    requires Moves(trace) && t == |trace|
    requires t >= 1 ==> out.positions
                        == MovedPositions(trace[t - 1].positions, MoveColour(trace[t - 1].state, t), LightPosition, RoadLength)
    ensures Moves(trace + [out])
  {
    var next := trace + [out];
    forall i | 1 <= i < |next|
      ensures MovedOn(next, i)
    {
      if i < t {
        assert MovedOn(trace, i);
      }
    }
  }

  /** Appending tick `t`'s output, predicted from the full log, keeps PredictsFromHistory. */
  lemma ExtendPredicts(trace: seq<TickOutput>, out: TickOutput, t: int, fit: seq<Observation> -> Line)
    requires PredictsFromHistory(trace, fit) && t == |trace|
    requires t >= 1 ==> out.futureCount == PredictFrom(Some(fit(LogOf(trace + [out], Observed))), t + Horizon)
    ensures PredictsFromHistory(trace + [out], fit)
  {
    var next := trace + [out];
    forall i | 1 <= i < |next|
      ensures next[i].futureCount == PredictFrom(Some(fit(LogOf(next[..i + 1], Observed))), i + Horizon)
    {
      if i < |trace| {
        assert next[..i + 1] == trace[..i + 1];
      } else {
        assert next[..i + 1] == next;
      }
    }
  }

  /** Appending tick `t`'s output that satisfies all of the above keeps RunSoFar. */
  lemma ExtendRun(trace: seq<TickOutput>, out: TickOutput, t: int, fit: seq<Observation> -> Line)
    requires RunSoFar(trace, fit)
    requires t == |trace| && TickShape(out, t)
    requires t == 0 ==> out.futureCount == 0
    requires t >= 1 ==> out.futureCount == PredictFrom(Some(fit(LogOf(trace + [out], Observed))), t + Horizon)
    requires t >= 1 ==> out.positions
                        == MovedPositions(trace[t - 1].positions, MoveColour(trace[t - 1].state, t), LightPosition, RoadLength)
    ensures RunSoFar(trace + [out], fit)
  {
    ExtendMoves(trace, out, t);
    ExtendPredicts(trace, out, t, fit);
  }

  /** A first tick that predicted 0 starts a run. */
  lemma FirstRun(first: TickOutput, fit: seq<Observation> -> Line)
    requires TickShape(first, 0) && first.futureCount == 0
    ensures RunSoFar([first], fit)
  {
  }

  /**
   * The first tick from the source's initial configuration: the light is
   * still green, every vehicle advances 20 m and two are near the light, but
   * the model cannot train on one observation, so it predicts 0 and the light
   * turns red.
   */
  method FirstTick(road: Road, light: TrafficLight, predictor: TrafficPredictionModel, fit: seq<Observation> -> Line)
    returns (first: TickOutput)
    requires road.Valid() && road.length == RoadLength && |road.vehicles| == NumVehicles
    requires road.Positions() == InitialPositions(RoadLength, NumVehicles)
    requires light.position == LightPosition && light.cycleDuration == CycleDuration
    requires light.Clock() == Timer(Green, 0)
    requires predictor.data == [] && predictor.model == None
    modifies road.vehicles, light, predictor
    ensures road.Positions() == first.positions && light.Clock() == Timer(first.state, 1)
    ensures RunSoFar([first], fit) && first.futureCount == 0 && first.state == Red
    ensures first.positions == FirstTickLayout && first.count == 2
    ensures predictor.data == LogOf([first], Observed) && predictor.model == None
  {
    ghost var before := road.Positions();
    first := Tick(0, road, light, predictor, fit);
    FirstTickPositions();
    assert first.positions == MovedPositions(before, Green, LightPosition, RoadLength);
    FirstTickCount();
    FirstRun(first, fit);
  }

  /**
   * Builds the source's configuration (a 500 m road with 10 vehicles at speed
   * 20, a light at 250 with a 10-tick cycle, an untrained model) and plays the
   * first tick (see FirstTick).
   */
  method Start(fit: seq<Observation> -> Line)
    returns (road: Road, light: TrafficLight, predictor: TrafficPredictionModel, first: TickOutput)
    ensures fresh(road) && fresh(light) && fresh(predictor)
    ensures forall i :: 0 <= i < |road.vehicles| ==> fresh(road.vehicles[i])
    ensures road.Valid() && road.length == RoadLength && |road.vehicles| == NumVehicles
    ensures light.position == LightPosition && light.cycleDuration == CycleDuration
    ensures road.Positions() == first.positions && light.Clock() == Timer(first.state, 1)
    ensures RunSoFar([first], fit) && first.futureCount == 0 && first.state == Red
    ensures first.positions == FirstTickLayout && first.count == 2
    ensures predictor.data == LogOf([first], Observed) && predictor.model == None
  {
    road := new Road(RoadLength, NumVehicles, VehicleSpeed);
    light := new TrafficLight(LightPosition);
    predictor := new TrafficPredictionModel();
    ghost var vehicles := road.vehicles;
    assert |vehicles| == NumVehicles && road.Valid();
    first := FirstTick(road, light, predictor, fit);
    assert road.vehicles == vehicles;
  }

  /**
   * The road, the light and the model stand where the last tick of `trace`
   * left them: the configuration is the source's, the vehicles are at that
   * tick's positions, the light shows the colour it actuated with the counter
   * at `|trace| % CycleDuration`, and the log holds one observation per tick.
   */
  ghost predicate Tracks(trace: seq<TickOutput>, road: Road, light: TrafficLight, predictor: TrafficPredictionModel)
    reads road, road.vehicles, light, predictor
  {
    && |trace| >= 1
    && road.Valid() && road.length == RoadLength && |road.vehicles| == NumVehicles
    && light.position == LightPosition && light.cycleDuration == CycleDuration
    && road.Positions() == trace[|trace| - 1].positions
    && light.Clock() == Timer(trace[|trace| - 1].state, |trace| % CycleDuration)
    && predictor.data == LogOf(trace, Observed)
  }

  /**
   * Plays tick `t` after the ticks in `trace`: the output has the shape of
   * tick `t`, moved on from tick `t - 1` under MoveColour and predicted from a
   * line fitted to the whole log, and the objects then track `trace + [out]`.
   */
  method PlayTick(t: int, trace: seq<TickOutput>, road: Road, light: TrafficLight,
                  predictor: TrafficPredictionModel, fit: seq<Observation> -> Line) returns (out: TickOutput)
    requires t == |trace| && Tracks(trace, road, light, predictor)
    modifies road.vehicles, light, predictor
    ensures TickShape(out, t)
    ensures out.positions
            == MovedPositions(trace[t - 1].positions, MoveColour(trace[t - 1].state, t), LightPosition, RoadLength)
    ensures out.futureCount == PredictFrom(Some(fit(LogOf(trace + [out], Observed))), t + Horizon)
    ensures Tracks(trace + [out], road, light, predictor)
    ensures predictor.model == Some(fit(predictor.data))
  {
    ghost var log := predictor.data;
    ghost var vehicles := road.vehicles;
    TimerStep(trace[t - 1].state, t);
    out := Tick(t, road, light, predictor, fit);
    assert road.vehicles == vehicles;
    LogOfAppend(trace, out, Observed);
    assert predictor.data == log + [Observation(t, out.count)];
    assert light.Clock() == Timer(out.state, (t + 1) % CycleDuration);
  }

  /**
   * Plays tick `t` after the ticks in `trace` and appends its output, keeping
   * RunSoFar, the road, the light's timer and the model's log in step with
   * the trace; the model ends fitted to the whole log.
   */
  method Advance(t: int, trace: seq<TickOutput>, road: Road, light: TrafficLight,
                 predictor: TrafficPredictionModel, fit: seq<Observation> -> Line) returns (next: seq<TickOutput>)
    requires t == |trace| && RunSoFar(trace, fit) && Tracks(trace, road, light, predictor)
    modifies road.vehicles, light, predictor
    ensures |next| == t + 1 && next[..t] == trace && RunSoFar(next, fit)
    ensures Tracks(next, road, light, predictor)
    ensures predictor.model == Some(fit(predictor.data))
  {
    var out := PlayTick(t, trace, road, light, predictor, fit);
    ExtendRun(trace, out, t, fit);
    next := trace + [out];
    assert next[..t] == trace;
  }

  /**
   * Plays ticks `|trace|` up to `Ticks - 1` after the ticks already in
   * `trace`, keeping RunSoFar and Tracks.
   */
  method RunFrom(trace: seq<TickOutput>, road: Road, light: TrafficLight,
                 predictor: TrafficPredictionModel, fit: seq<Observation> -> Line) returns (full: seq<TickOutput>)
    requires |trace| <= Ticks && RunSoFar(trace, fit) && Tracks(trace, road, light, predictor)
    modifies road.vehicles, light, predictor
    ensures |full| == Ticks && full[..|trace|] == trace && RunSoFar(full, fit)
    ensures Tracks(full, road, light, predictor)
  {
    full := trace;
    for t := |trace| to Ticks
      invariant |full| == t && full[..|trace|] == trace && RunSoFar(full, fit)
      invariant Tracks(full, road, light, predictor)
    {
      ghost var before := full;
      full := Advance(t, full, road, light, predictor, fit);
      assert full[..|trace|] == before[..|trace|];
    }
  }

  /**
   * A whole run of `Ticks` ticks from Start. Every tick's positions are on the
   * road; the first tick is the one Start describes; from the second tick on,
   * the vehicles move on from the previous tick's positions under the colour
   * MoveColour gives, and every tick predicts from a line fitted to the whole
   * log so far.
   */
  method Run(fit: seq<Observation> -> Line) returns (trace: seq<TickOutput>)
    ensures |trace| == Ticks && RunSoFar(trace, fit)
    ensures trace[0].positions == FirstTickLayout && trace[0].count == 2 && trace[0].state == Red
  {
    var road, light, predictor, first := Start(fit);
    trace := RunFrom([first], road, light, predictor, fit);
    assert trace[0] == trace[..1][0];
  }
}
