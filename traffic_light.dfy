/**
 * The traffic light: a two-state cyclic timer. Each update advances the
 * counter; when it reaches the cycle duration the colour toggles and the
 * counter restarts from zero.
 */
module Lights {

  /** The colours the light is ever set to. */
  datatype LightState = Green | Red

  function Toggle(s: LightState): (r: LightState)
    ensures r != s
  {
    if s == Green then Red else Green
  }

  /** The part of the light that `update` changes. */
  datatype Timer = Timer(state: LightState, timeInState: int)

  /** The effect of one `update` on the timer. */
  function NextTimer(t: Timer, cycleDuration: int): (r: Timer)
    ensures r.state != t.state <==> t.timeInState + 1 >= cycleDuration
    ensures r.state == t.state ==> r.timeInState == t.timeInState + 1
    ensures r.state != t.state ==> r.timeInState == 0
    ensures 1 <= cycleDuration && 0 <= t.timeInState < cycleDuration ==> 0 <= r.timeInState < cycleDuration
  {
    var elapsed := t.timeInState + 1;
    if elapsed >= cycleDuration then Timer(Toggle(t.state), 0) else Timer(t.state, elapsed)
  }

  /** `n` consecutive updates with no external override in between. */
  function UpdateTimes(t: Timer, cycleDuration: int, n: nat): Timer {
    if n == 0 then t else NextTimer(UpdateTimes(t, cycleDuration, n - 1), cycleDuration)
  }

  /** Updates compose: `a` updates followed by `b` updates are `a + b` updates. */
  lemma {:induction false} UpdateTimesAdd(t: Timer, cycleDuration: int, a: nat, b: nat)
    ensures UpdateTimes(t, cycleDuration, a + b) == UpdateTimes(UpdateTimes(t, cycleDuration, a), cycleDuration, b)
  {
    if b > 0 {
      UpdateTimesAdd(t, cycleDuration, a, b - 1);
    }
  }

  /**
   * From `timeInState == j` the counter climbs one per update with the colour
   * unchanged, and the colour toggles exactly when it reaches the cycle
   * duration, after `cycleDuration - j` updates.
   */
  lemma {:induction false} UpdatesWithinCycle(s: LightState, j: int, cycleDuration: int, k: nat)
    requires 0 <= j < cycleDuration
    requires k <= cycleDuration - j
    ensures UpdateTimes(Timer(s, j), cycleDuration, k)
         == if j + k < cycleDuration then Timer(s, j + k) else Timer(Toggle(s), 0)
  {
    if k > 0 {
      UpdatesWithinCycle(s, j, cycleDuration, k - 1);
    }
  }

  /**
   * From a fresh counter, exactly `cycleDuration` updates toggle the colour
   * once: every earlier update keeps it.
   */
  lemma OneCycleTogglesOnce(s: LightState, cycleDuration: int)
    requires cycleDuration >= 1
    ensures forall k: nat :: k < cycleDuration ==> UpdateTimes(Timer(s, 0), cycleDuration, k).state == s
    ensures UpdateTimes(Timer(s, 0), cycleDuration, cycleDuration) == Timer(Toggle(s), 0)
  {
    forall k: nat | k < cycleDuration
      ensures UpdateTimes(Timer(s, 0), cycleDuration, k).state == s
    {
      UpdatesWithinCycle(s, 0, cycleDuration, k);
    }
    UpdatesWithinCycle(s, 0, cycleDuration, cycleDuration);
  }

  /**
   * The timer is periodic: from any in-range counter, `2 * cycleDuration`
   * updates bring back the same colour and the same counter.
   */
  lemma TwoCyclesRestore(t: Timer, cycleDuration: int)
    requires 0 <= t.timeInState < cycleDuration
    ensures UpdateTimes(t, cycleDuration, 2 * cycleDuration) == t
  {
    var j := t.timeInState;
    var rest := cycleDuration - j;
    UpdatesWithinCycle(t.state, j, cycleDuration, rest);
    UpdateTimesAdd(t, cycleDuration, rest, cycleDuration);
    var toggled := Timer(Toggle(t.state), 0);
    UpdatesWithinCycle(toggled.state, 0, cycleDuration, cycleDuration);
    UpdateTimesAdd(t, cycleDuration, rest + cycleDuration, j);
    UpdatesWithinCycle(t.state, 0, cycleDuration, j);
    assert Toggle(Toggle(t.state)) == t.state;
    assert Timer(t.state, 0 + j) == t;
  }

  class TrafficLight {
    const position: real
    const cycleDuration: int
    var state: LightState
    var timeInState: int

    /** The timer part of the light's state. */
    function Clock(): Timer
      reads this
    {
      Timer(state, timeInState)
    }

    constructor (position: real, cycleDuration: int := 10)
      ensures this.position == position && this.cycleDuration == cycleDuration
      ensures state == Green && timeInState == 0
    {
      this.position := position;
      this.cycleDuration := cycleDuration;
      state := Green;
      timeInState := 0;
    }

    /** One tick of the timer; the position and cycle duration stay as they are. */
    method Update()
      modifies this`state, this`timeInState
      ensures Clock() == NextTimer(old(Clock()), cycleDuration)
      ensures old(timeInState) + 1 < cycleDuration ==> state == old(state) && timeInState == old(timeInState) + 1
      ensures old(timeInState) + 1 >= cycleDuration ==> state == Toggle(old(state)) && timeInState == 0
      ensures 1 <= cycleDuration && 0 <= old(timeInState) < cycleDuration ==> 0 <= timeInState < cycleDuration
    {
      timeInState := timeInState + 1;
      if timeInState >= cycleDuration {
        state := if state == Green then Red else Green;
        timeInState := 0;
      }
    }
  }
}
