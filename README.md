# Traffic flow digital twin — a Dafny model

This project models the core of a small closed-loop traffic simulation. A
closed road carries a row of vehicles. A traffic light sits at a fixed
position on the road. Each tick the simulation does the following:

1. It moves every vehicle. A vehicle that is close to a red light stops, and
   every position wraps around the road length.
2. It counts the vehicles near the light.
3. It appends the pair (tick, count) to an observation log.
4. It fits a straight line to the log and predicts the count five ticks
   ahead.
5. It sets the light's colour from that prediction.

The source has two variants, and both are modelled:

- **The object-based application** (`traffic_simulation_app.py` with
  `vehicle.py`, `traffic_light.py`, `road.py` and `model.py`).
  - `Vehicle`, `TrafficLight`, `Road` and `TrafficPredictionModel` are Dafny
    classes whose methods update their fields in place.
  - The light's own cyclic timer runs first in each tick. The prediction then
    overrides the colour, while the timer's counter keeps advancing.
  - The tick loop is a method over those objects.
- **The older single-file variant** (`traffic_simulation.py`).
  - The positions are an `array<real>` overwritten in place.
  - The light is a colour with no timer.
  - The model is refitted from the very first record.
  - Each vehicle's random speed jitter is an input to the tick.

The modules are:

| module | file | models |
|---|---|---|
| `Numeric` | numeric.dfy | Python's float `abs`, float `%` (floor modulo, `FloorMod`) and `int()` (truncation toward zero, `Trunc`), over exact reals |
| `Proximity` | proximity.dfy | the count of positions strictly within a radius of the light (plain distance, no wraparound), shared by both variants |
| `Vehicles` | vehicle.dfy | `Vehicle` and its wraparound `move` |
| `Lights` | traffic_light.dfy | the colour, the timer step `NextTimer`, and the `TrafficLight` class |
| `Roads` | road.dfy | the even spacing, the red-light stop rule, `move_vehicles` and `count_near_traffic_light` |
| `Predictions` | model.dfy | the observation log, the two-point training guard, the clamped prediction, and an exact least-squares line for scenarios |
| `SimulationApp` | app.dfy | one tick of the application loop, and the whole 30-tick run from the source's configuration |
| `SingleFileSimulation` | single_file.dfy | the single-file variant's helpers, its tick and its 40-tick run |

Positions, speeds and lengths are `real`, so the division in the even spacing
and the floating-point `%` are exact here. The least-squares fit of the
regression library is a function parameter `fit` from the observation log to a
`Line(slope, intercept)`. Every statement about training and prediction
therefore holds whatever line the library returns.

Where the code and the design description disagree, the model follows the
code:

- A zero or negative number of vehicles is not rejected. It gives an empty
  road, because the range is empty and nothing is divided.
- A zero road length with at least one vehicle raises `ZeroDivisionError` in
  `%` on the first move. The model states this as a precondition of `move`
  and `move_vehicles`.
- The prediction truncates toward zero (`int(v)`) rather than flooring. After
  the clamp to 0 the two agree: `PredictFromLine` shows that every negative
  line value predicts 0.
- The design's end-to-end scenario expects 0 vehicles near the light at tick
  0. The code moves the vehicles before it counts them, under the still-green
  light, so they stand at 20, 70, …, 470 when counted, and the ones at 220 and
  270 are near the light. The model therefore proves a count of 2
  (`FirstTickCount`, `FirstTick`). The design's count of 0 does not even hold
  for the unmoved layout, because the vehicle at 250 sits on the light.

## Model

| member | source | states |
|---|---|---|
| Numeric.FloorMod | vehicle.py:14 | Python's float `%`: for a positive divisor the result lies in `[0, m)`, for a negative one in `(m, 0]`; a zero divisor is the ZeroDivisionError case and is excluded |
| Numeric.FloorModShift | vehicle.py:14 | the value and its wrapped value differ by a whole number of road lengths |
| Numeric.FloorModIdentity | vehicle.py:14 | a value already inside the divisor's range is left unchanged by `%` |
| Numeric.Trunc | model.py:37 | `int()` of a float: for a non-negative value the greatest whole number not above it, for a negative one the least whole number not below it |
| Numeric.Abs | road.py:18 | `abs` is non-negative and equals the value or its negation |
| Vehicles.Vehicle.constructor | vehicle.py:2-8 | stores id, position and speed exactly as given |
| Vehicles.Vehicle.Move | vehicle.py:10-14 | position becomes `(position + speed) % road_length`. On a positive length it lands in `[0, length)` and differs from the unwrapped value by whole laps. A stopped vehicle already on the road stays put. Only the position changes |
| Lights.Toggle | traffic_light.py:17 | toggling always gives the other colour |
| Lights.NextTimer | traffic_light.py:15-18 | one update toggles the colour exactly when the incremented counter reaches the cycle duration. Otherwise the colour stays and the counter grows by one. A toggle resets the counter to 0. The bound `0 <= counter < cycle` is preserved when the cycle is at least 1 |
| Lights.UpdateTimesAdd | traffic_light.py:11-18 | `a` updates followed by `b` updates equal `a + b` updates |
| Lights.UpdatesWithinCycle | traffic_light.py:15-18 | from counter `j`, the first `cycle - j` updates keep the colour and count up, and the last of them toggles and resets |
| Lights.OneCycleTogglesOnce | traffic_light.py:15-18 | from counter 0, every update before the `cycle`-th keeps the colour, and the `cycle`-th toggles it, exactly once |
| Lights.TwoCyclesRestore | traffic_light.py:15-18 | from any in-range counter, `2 * cycle` updates restore the original colour and counter |
| Lights.TrafficLight.constructor | traffic_light.py:2-9 | a new light is green with counter 0 and stores its position and cycle duration (default 10) |
| Lights.TrafficLight.Update | traffic_light.py:11-18 | the light's timer takes exactly the step `NextTimer`; position and cycle duration never change |
| Roads.InitialPositionsSpread | road.py:9 | on a positive length the evenly spaced starting positions lie in `[0, length)` and strictly increase with the index |
| Roads.Road.constructor | road.py:3-11 | exactly `num_vehicles` distinct fresh vehicles (none when it is not positive); vehicle `i` has id `i`, position `i * (length / num_vehicles)` and the given speed |
| Roads.RoadSpeed | road.py:18-21 | a vehicle gets speed 0 exactly when the light is red and it is strictly within 50 m of it, and otherwise speed 20, not the road's configured speed |
| Roads.MovedPositions | road.py:17-22 | the positions after `move_vehicles` keep the number of vehicles and, on a positive length, all lie in `[0, length)` |
| Roads.RedLightHolds | road.py:18-22 | a vehicle stopped by a red light keeps its on-road position |
| Roads.GreenLightMovesAll | road.py:18-22 | under a green light every vehicle gets speed 20 and advances by 20 modulo the road length |
| Roads.Road.DriveOne | road.py:18-22 | one iteration of the loop: the speed set by the red-light rule from the old position, then the wrapped move |
| Roads.Road.MoveVehicles | road.py:13-22 | the new positions and speeds are exactly those of MovedPositions and RoadSpeeds applied to the old positions. The vehicle list (number, order, ids) and the light are unchanged |
| Roads.Road.CountNearTrafficLight | road.py:24-28 | the count lies between 0 and the number of vehicles, and it is 0 exactly when no vehicle is strictly within the radius; a query that changes nothing |
| Proximity.CountNear | traffic_simulation.py:32-33 | the count of positions strictly within the radius lies between 0 and the number of positions |
| Proximity.CountNearMonotone | road.py:28 | a larger radius never gives a smaller count |
| Proximity.CountNearZeroIff | traffic_simulation.py:33 | the count is 0 exactly when no position is near the light |
| Proximity.CountNearAllIff | traffic_simulation.py:33 | the count equals the number of positions exactly when every position is near the light |
| Proximity.CountNearAppend | traffic_simulation.py:33 | counting two stretches of positions separately and adding agrees with counting them together |
| Predictions.TrafficPredictionModel.constructor | model.py:5-10 | a fresh model has no fitted line and an empty log |
| Predictions.TrafficPredictionModel.UpdateData | model.py:12-16 | appends exactly one observation `(time, count)` at the end; earlier records are unchanged |
| Predictions.TrafficPredictionModel.Train | model.py:18-28 | reports success exactly when the log holds at least 2 observations. On success the line is the fit of the whole log; otherwise the previous line stays. The log is never changed |
| Predictions.TrafficPredictionModel.Predict | model.py:30-37 | the prediction is non-negative, 0 with no fitted line, and equal to PredictFrom of the stored line; a query, so repeated calls agree |
| Predictions.NonNegative | model.py:37 | `max(0, n)` is non-negative, at least `n`, and one of `n` and 0 |
| Predictions.PredictFrom | traffic_simulation.py:49-53 | `predict_traffic`: 0 for no model, and a non-negative whole number otherwise |
| Predictions.PredictFromLine | model.py:36-37 | with a line whose value at the time is `v`: for `v >= 0` the prediction is `int(v)`, the whole part of `v`; for `v < 0` it is 0 |
| Predictions.LogOf | model.py:12-16 | the log of a run holds one observation per tick, in tick order, each that tick's (time, count) |
| Predictions.LogOfAppend | model.py:16 | one more tick appends exactly its own observation at the end of the log and leaves the earlier entries as they were |
| Predictions.LeastSquaresTwoPoints | model.py:24-27 | the exact least-squares line through (0, 2) and (1, 3) is `count = time + 2`, which predicts 7 at time 5 |
| SimulationApp.Actuate | traffic_simulation_app.py:58-61 | the light is green exactly when the prediction exceeds 5, and red otherwise |
| SimulationApp.Sense | traffic_simulation_app.py:43-48 | the timer takes one step. The vehicles' new positions and speeds are MovedPositions and RoadSpeeds of their old positions under the colour that step produced. The count is taken on the new positions |
| SimulationApp.LearnAndActuate | traffic_simulation_app.py:50-61 | appends `(t, count)` and retrains (a new fitted line once there are 2 observations, the old one before). It predicts `t + 5` from the stored line and sets the colour by the threshold |
| SimulationApp.Tick | traffic_simulation_app.py:43-61 | one whole tick in the source's order. The vehicles' new positions and speeds are MovedPositions and RoadSpeeds of their old positions under the colour `update` produced from the previous tick's actuated colour, and they end on the road. The count, the log entry with time `t`, the retraining, and the prediction from the line fitted to the whole log all follow. The actuated colour overrides the timer's, and the timer's counter keeps its new value |
| SimulationApp.FirstTickPositions | traffic_simulation_app.py:9-11 | from the evenly spaced start on the 500 m road under the initial green light, the first tick moves every vehicle 20 m, to 20, 70, …, 470 |
| SimulationApp.FirstTickCount | traffic_simulation_app.py:48 | in that layout exactly 2 vehicles are within 50 m of the light at 250 |
| SimulationApp.TimerStep | traffic_light.py:11-18 | before tick `t` the light's counter is `t mod 10`, whatever colour was actuated. `update` then gives MoveColour: the actuated colour toggled when `t mod 10 == 9` and kept otherwise. The counter becomes `(t + 1) mod 10` |
| SimulationApp.ExtendMoves | traffic_simulation_app.py:43-47 | appending a tick whose vehicles moved on from the previous tick's positions, under MoveColour of its actuated colour, keeps that link for every tick of the run |
| SimulationApp.ExtendPredicts | traffic_simulation_app.py:50-55 | appending a tick whose prediction comes from the line fitted to the whole log keeps that property for every tick of the run |
| SimulationApp.ExtendRun | traffic_simulation_app.py:40-61 | appending a tick whose output keeps the per-tick guarantees, the motion link and the prediction link keeps all of them for the whole run |
| SimulationApp.FirstTick | traffic_simulation_app.py:43-61 | tick 0 from the source's configuration. The vehicles advance to 20, 70, …, 470, and 2 are near the light. Training fails on the single observation, so the prediction is 0 and the light turns red. The road holds those positions, the light shows red with counter 1, and the log holds the one observation |
| SimulationApp.Start | traffic_simulation_app.py:9-11 | builds the source's configuration (fresh objects, 10 distinct vehicles, light at 250 with cycle 10) and plays tick 0 with the outcome FirstTick states |
| SimulationApp.PlayTick | traffic_simulation_app.py:43-61 | tick `t` after the ticks of a trace that the objects track. Its positions are MovedPositions of tick `t - 1`'s positions under MoveColour. Its prediction comes from the line fitted to the log including this tick. Afterwards the road, the light's colour and counter, and the log track the extended trace |
| SimulationApp.Advance | traffic_simulation_app.py:43-61 | one more tick extends the trace and keeps the run's guarantees. The road's positions, the light's colour and counter `(t + 1) mod 10`, and the log stay in step with the trace. The model is the fit of the whole log |
| SimulationApp.RunFrom | traffic_simulation_app.py:40 | the remaining ticks, up to 30, keep the earlier ticks unchanged and every guarantee of the run. The objects keep tracking the trace |
| SimulationApp.Run | traffic_simulation_app.py:40-61 | thirty ticks. Each tick's time is its index, its positions lie on the road, its count is taken from its positions, and its colour follows the threshold. Tick 0 moves to 20, 70, …, 470, counts 2, predicts 0 and ends red. Each later tick moves the vehicles on from the previous tick's positions under the previous colour, toggled on the last tick of each 10-tick cycle, and predicts from the line fitted to every observation so far |
| SingleFileSimulation.AdjustSpeed | traffic_simulation.py:26-29 | the speed is 0 exactly when the light is red and the vehicle is strictly within 50 m of position 250; otherwise it is the given speed unchanged |
| SingleFileSimulation.TrainDynamicModel | traffic_simulation.py:36-46 | no model exactly when no record exists; otherwise the fit of every record, even a single one |
| SingleFileSimulation.Actuate | traffic_simulation.py:76-79 | the light is green exactly when the prediction exceeds `num_vehicles // 2` |
| SingleFileSimulation.JitteredSpeed | traffic_simulation.py:63 | a stopped vehicle stays stopped whatever the jitter; with no jitter the speed is unchanged |
| SingleFileSimulation.JitteredPosition | traffic_simulation.py:62-64 | the wrapped new position lies in `[0, 500)` |
| SingleFileSimulation.NextPositions | traffic_simulation.py:60-65 | one new position per vehicle, each in `[0, 500)` |
| SingleFileSimulation.RedLightHoldsJittered | traffic_simulation.py:62-64 | a vehicle stopped by the red light keeps its on-road position, whatever its jitter |
| SingleFileSimulation.Simulation.constructor | traffic_simulation.py:14-23 | the positions array holds the evenly spaced start; the light is green, the log empty and the model absent |
| SingleFileSimulation.Simulation.Step | traffic_simulation.py:60-79 | the array is overwritten in place with NextPositions of the old positions. One record is appended with time `t`, the count of the new positions and a copy of them. The model is refitted on all records, the prediction is for `t + 5`, and the colour is set by the threshold |
| SingleFileSimulation.ExtendRun | traffic_simulation.py:58-81 | appending a tick that keeps the per-tick guarantees keeps those of the whole run |
| SingleFileSimulation.ExtendFollows | traffic_simulation.py:58-65 | appending a tick whose positions are NextPositions of where the previous tick left them (the even spacing under green before tick 0), with that tick's jitter, keeps that link for every tick |
| SingleFileSimulation.Simulate | traffic_simulation.py:56-81 | forty ticks. Each tick's time is its index, its positions lie on the road, its count is taken from its positions, and its colour comes from the line fitted to every record up to and including that tick. Tick `t`'s positions are NextPositions of tick `t - 1`'s positions under tick `t - 1`'s colour with the jitter samples `jitters[t]`; tick 0 starts from the even spacing under green |

## Left out

- The Streamlit and Plotly user interface is not modelled: figures, placeholders, buttons and number inputs. It is presentation only.
- `time.sleep` is not modelled; it only paces the wall clock.
- `st.session_state` persistence is not modelled. The single-file variant's log and model slot are plain fields of `Simulation`. Each modelled run starts from an empty log, whereas the real log survives a second press of the start button.
- The least-squares fit and the pandas conversion are not modelled. They are foreign floating-point numerics, so `fit` is an uninterpreted function parameter. `LeastSquares` is an exact-arithmetic stand-in used only for a concrete scenario, not a claim about the library's rounding.
- Floating-point rounding is not modelled. Positions, speeds and the fitted line's value are exact reals.
- `np.random.uniform` is not modelled. The jitter of each vehicle and tick is an input, and the model holds for any jitter value, not only those in `[-0.1, 0.1)`.
- `np.linspace` is modelled as the exact even spacing `i * (500 / 10)`.
- The generator plumbing of `simulate_traffic` is not modelled. The run returns the whole list of tick outputs, and each output holds a copy of the positions. The generator hands out the live array, which later ticks overwrite.
- A zero road length with vehicles is a precondition of Vehicles.Vehicle.Move and Roads.Road.MoveVehicles. The source raises an uncaught ZeroDivisionError there, and the model does not model that exception.
- The light's colour is an enumeration `Green | Red` instead of the strings "GREEN" and "RED". The source only ever assigns those two strings.
- The competing writers to the light's colour are kept as in the source: the timer toggles, then the prediction overrides the colour within the same tick.
- The application loop is split in two: `Start` plays its first iteration and `RunFrom` the rest. These are the same ticks in the same order as the source's `for t in range(30)`.
