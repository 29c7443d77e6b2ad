/**
 * The online prediction model: an append-only log of (time, count)
 * observations, a fitted line that is replaced by each successful training,
 * and a prediction that is a non-negative whole number of vehicles.
 *
 * The least-squares fit itself belongs to a foreign library; here it is a
 * parameter `fit` from the observation log to a line, so every statement
 * holds whatever line the library returns.
 */
module Predictions {
  import opened Numeric

  datatype Option<T> = None | Some(value: T)

  /** One row of the log: the tick and the vehicle count observed at it. */
  datatype Observation = Observation(time: int, count: int)

  /** A fitted line `count = slope * time + intercept`. */
  datatype Line = Line(slope: real, intercept: real)

  /** The line's value at `time`. */
  function ValueAt(line: Line, time: int): real {
    line.slope * time as real + line.intercept
  }

  /** Python's `max(0, n)`. */
  function NonNegative(n: int): (r: int)
    ensures r >= 0 && r >= n
    ensures r == n || r == 0
  {
    if n < 0 then 0 else n
  }

  /**
   * The prediction from an optional fitted line: 0 without a line; otherwise
   * Python's `max(0, int(v))` of the line's value `v` (see PredictFromLine).
   */
  function PredictFrom(model: Option<Line>, futureTime: int): (r: int)
    ensures r >= 0
    ensures model.None? ==> r == 0
  {
    match model
    case None => 0
    case Some(line) => NonNegative(Trunc(ValueAt(line, futureTime)))
  }

  /**
   * With a fitted line the prediction is the whole-number part of the line's
   * value when that value is non-negative, and 0 when it is negative.
   */
  lemma PredictFromLine(line: Line, futureTime: int)
    ensures var v := ValueAt(line, futureTime);
            var r := PredictFrom(Some(line), futureTime);
            (v >= 0.0 ==> r as real <= v < r as real + 1.0) && (v < 0.0 ==> r == 0)
  {
  }

  /** The log a run writes: one observation per tick (or record), in order. */
  function LogOf<T>(ticks: seq<T>, observe: T -> Observation): (r: seq<Observation>)
    ensures |r| == |ticks|
    ensures forall i :: 0 <= i < |ticks| ==> r[i] == observe(ticks[i])
  {
    seq(|ticks|, i requires 0 <= i < |ticks| => observe(ticks[i]))
  }

  /** One more tick adds exactly its own observation at the end of the log. */
  lemma LogOfAppend<T>(ticks: seq<T>, tick: T, observe: T -> Observation)
    ensures LogOf(ticks + [tick], observe) == LogOf(ticks, observe) + [observe(tick)]
  {
    assert forall i :: 0 <= i < |ticks| ==> (ticks + [tick])[i] == ticks[i];
  }

  /** The fewest observations `train` fits a line to. */
  const MinTrainingPoints: int := 2

  class TrafficPredictionModel {
    var model: Option<Line>
    var data: seq<Observation>

    /** No fitted line and an empty log. */
    constructor ()
      ensures model == None && data == []
    {
      model := None;
      data := [];
    }

    /** Appends one observation at the end of the log. */
    method UpdateData(time: int, vehicleCount: int)
      modifies this`data
      ensures data == old(data) + [Observation(time, vehicleCount)]
      ensures data[..|old(data)|] == old(data)
    {
      data := data + [Observation(time, vehicleCount)];
    }

    /**
     * Refits on the whole log when it holds at least two observations and
     * reports whether it did; otherwise leaves the previous line in place.
     * The log is never changed.
     */
    method Train(fit: seq<Observation> -> Line) returns (trained: bool)
      modifies this`model
      ensures trained <==> |data| >= MinTrainingPoints
      ensures trained ==> model == Some(fit(data))
      ensures !trained ==> model == old(model)
      ensures data == old(data)
    {
      if |data| < MinTrainingPoints {
        return false;
      }
      model := Some(fit(data));
      return true;
    }

    /**
     * The predicted count at `futureTime`. A query: it reads the model and
     * changes nothing, so repeated calls with the same argument agree.
     */
    function Predict(futureTime: int): (r: int)
      reads this
      ensures r >= 0
      ensures model.None? ==> r == 0
      ensures r == PredictFrom(model, futureTime)
    {
      PredictFrom(model, futureTime)
    }
  }

  /**
   * An exact-arithmetic ordinary least-squares line (the fit the library
   * computes, without its rounding): it gives a concrete `fit` for scenarios.
   * With no spread in the times the slope is 0 and the line is the mean count.
   */
  function LeastSquares(data: seq<Observation>): Line {
    if data == [] then Line(0.0, 0.0)
    else
      var n := |data| as real;
      var st := SumTime(data);
      var sc := SumCount(data);
      var spread := n * SumTimeSquared(data) - st * st;
      var slope := if spread == 0.0 then 0.0 else (n * SumTimeCount(data) - st * sc) / spread;
      Line(slope, (sc - slope * st) / n)
  }

  function SumTime(data: seq<Observation>): real {
    if data == [] then 0.0 else data[0].time as real + SumTime(data[1..])
  }

  function SumCount(data: seq<Observation>): real {
    if data == [] then 0.0 else data[0].count as real + SumCount(data[1..])
  }

  function SumTimeSquared(data: seq<Observation>): real {
    if data == [] then 0.0 else (data[0].time * data[0].time) as real + SumTimeSquared(data[1..])
  }

  function SumTimeCount(data: seq<Observation>): real {
    if data == [] then 0.0 else (data[0].time * data[0].count) as real + SumTimeCount(data[1..])
  }

  /** Observations (0, 2) and (1, 3) give the line `count = time + 2`, and 7 at time 5. */
  lemma LeastSquaresTwoPoints()
    ensures LeastSquares([Observation(0, 2), Observation(1, 3)]) == Line(1.0, 2.0)
    ensures PredictFrom(Some(LeastSquares([Observation(0, 2), Observation(1, 3)])), 5) == 7
  {
    var data := [Observation(0, 2), Observation(1, 3)];
    assert data[1..] == [Observation(1, 3)];
    assert data[1..][1..] == [];
    PredictFromLine(Line(1.0, 2.0), 5);
  }
}
