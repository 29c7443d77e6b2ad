/** A vehicle on the closed road: an identifier, a position and a speed. */
module Vehicles {
  import opened Numeric

  class Vehicle {
    /** Never reassigned after construction. */
    const id: int
    /** Metres along the road. */
    var position: real
    /** Metres per tick. */
    var speed: real

    constructor (id: int, position: real, speed: real)
      ensures this.id == id && this.position == position && this.speed == speed
    {
      this.id := id;
      this.position := position;
      this.speed := speed;
    }

    /**
     * Advances the vehicle by its speed and wraps around the road with
     * Python's `%`; a zero road length would raise ZeroDivisionError.
     */
    method Move(roadLength: real)
      requires roadLength != 0.0
      modifies this`position
      ensures position == FloorMod(old(position) + speed, roadLength)
      ensures roadLength > 0.0 ==> 0.0 <= position < roadLength
      ensures IsWhole((old(position) + speed - position) / roadLength)
      ensures speed == 0.0 && 0.0 <= old(position) < roadLength ==> position == old(position)
      ensures speed == old(speed)
    {
      if speed == 0.0 && 0.0 <= position < roadLength {
        FloorModIdentity(position, roadLength);
      }
      FloorModShift(position + speed, roadLength);
      position := FloorMod(position + speed, roadLength);
    }
  }
}
