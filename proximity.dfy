/**
 * Counting the vehicles near the traffic light. Both variants of the
 * simulation count the positions whose plain absolute distance from the
 * light is strictly below a radius; the distance does not wrap around the
 * closed road.
 */
module Proximity {
  import opened Numeric

  /** The radius both variants count with by default. */
  const DefaultRadius: real := 50.0

  /** A position strictly closer to the light than `radius` (no wraparound). */
  predicate IsNear(position: real, lightPosition: real, radius: real) {
    Abs(position - lightPosition) < radius
  }

  /** The number of `positions` near the light. */
  function CountNear(positions: seq<real>, lightPosition: real, radius: real): (n: int)
    ensures 0 <= n <= |positions|
  {
    if positions == [] then 0
    else
      (if IsNear(positions[0], lightPosition, radius) then 1 else 0)
      + CountNear(positions[1..], lightPosition, radius)
  }

  /** A larger radius never gives a smaller count. */
  lemma {:induction false} CountNearMonotone(positions: seq<real>, lightPosition: real, small: real, large: real)
    requires small <= large
    ensures CountNear(positions, lightPosition, small) <= CountNear(positions, lightPosition, large)
  {
    if positions != [] {
      CountNearMonotone(positions[1..], lightPosition, small, large);
    }
  }

  /** The count is zero exactly when no position is near the light. */
  lemma {:induction false} CountNearZeroIff(positions: seq<real>, lightPosition: real, radius: real)
    ensures CountNear(positions, lightPosition, radius) == 0
        <==> forall i :: 0 <= i < |positions| ==> !IsNear(positions[i], lightPosition, radius)
  {
    if positions != [] {
      CountNearZeroIff(positions[1..], lightPosition, radius);
      assert forall i :: 1 <= i < |positions| ==> positions[i] == positions[1..][i - 1];
    }
  }

  /** The count is the number of positions exactly when every position is near the light. */
  lemma {:induction false} CountNearAllIff(positions: seq<real>, lightPosition: real, radius: real)
    ensures CountNear(positions, lightPosition, radius) == |positions|
        <==> forall i :: 0 <= i < |positions| ==> IsNear(positions[i], lightPosition, radius)
  {
    if positions != [] {
      CountNearAllIff(positions[1..], lightPosition, radius);
      assert forall i :: 1 <= i < |positions| ==> positions[i] == positions[1..][i - 1];
    }
  }

  /** Counting two stretches of positions separately and adding agrees with counting them together. */
  lemma {:induction false} CountNearAppend(front: seq<real>, back: seq<real>, lightPosition: real, radius: real)
    ensures CountNear(front + back, lightPosition, radius)
         == CountNear(front, lightPosition, radius) + CountNear(back, lightPosition, radius)
  {
    if front == [] {
      assert front + back == back;
    } else {
      CountNearAppend(front[1..], back, lightPosition, radius);
      assert (front + back)[1..] == front[1..] + back;
    }
  }
}
