/** One tick of one car, physics then logic, and runs of many ticks. */
module Simulation {
  import opened JsMath
  import opened Elevators
  import opened Physics
  import opened Logic

  /** What one car reads from the outside world during one tick: the three
      clock-derived steps (speed change, altitude integration, door ramp) and
      the two random numbers (dwell roll, target draw). */
  datatype CarInput = CarInput(accelDt: real, moveDt: real, doorDt: real, roll: real, pick: real)

  /** The ranges the clock and the random source guarantee. */
  predicate Admissible(i: CarInput)
  {
    0.0 <= i.accelDt && 0.0 <= i.moveDt && 0.0 <= i.doorDt
    && 0.0 <= i.roll < 1.0 && 0.0 <= i.pick < 1.0
  }

  /** One car through `simulateElevators` and then `elevatorLogic`. */
  function CarTick(e: Elevator, i: CarInput): (r: Elevator)
    ensures r.speed == ClampSpeed(Accelerate(e, i.accelDt))
    ensures r.targetFloor != e.targetFloor ==> e.state == Closing && r.targetFloor == NewTarget(i.pick)
  {
    Update(Simulate(e, i.accelDt, i.moveDt), i.doorDt, i.roll, i.pick)
  }

  /** One car through a sequence of ticks. */
  function Run(e: Elevator, inputs: seq<CarInput>): (r: Elevator)
    decreases |inputs|
  {
    if inputs == [] then e else Run(CarTick(e, inputs[0]), inputs[1..])
  }

  /** A tick keeps the record invariant. */
  lemma CarTickKeepsSound(e: Elevator, i: CarInput)
    requires Sound(e) && Admissible(i)
    ensures Sound(CarTick(e, i))
  {
  }

  /** Over any number of ticks with admissible inputs the door stays within
      [0, 1], the speed within its limit, a moving car keeps its door shut and
      the target stays in range. */
  lemma {:induction false} RunKeepsSound(e: Elevator, inputs: seq<CarInput>)
    requires Sound(e)
    requires forall k :: 0 <= k < |inputs| ==> Admissible(inputs[k])
    ensures Sound(Run(e, inputs))
    decreases |inputs|
  {
    if inputs != [] {
      CarTickKeepsSound(e, inputs[0]);
      RunKeepsSound(CarTick(e, inputs[0]), inputs[1..]);
    }
  }

  /** Running two stretches of ticks is running their concatenation. */
  lemma {:induction false} RunAppend(e: Elevator, a: seq<CarInput>, b: seq<CarInput>)
    ensures Run(e, a + b) == Run(Run(e, a), b)
    decreases |a|
  {
    if a == [] {
      assert a + b == b;
    } else {
      assert (a + b)[0] == a[0] && (a + b)[1..] == a[1..] + b;
      RunAppend(CarTick(e, a[0]), a[1..], b);
    }
  }

  /** One tick of an opening car whose door does not reach 1: it stays
      `opening` and its door advances by exactly one ramp step. */
  lemma OpeningTick(e: Elevator, i: CarInput)
    requires e.state == Opening && e.doorPosition + DoorSpeed * i.doorDt < 1.0
    ensures CarTick(e, i).state == Opening
    ensures CarTick(e, i).doorPosition == e.doorPosition + DoorSpeed * i.doorDt
  {
  }

  /** The distance covered by `n` equal ramp steps. */
  function Ramps(step: real, n: nat): (d: real)
    ensures 0.0 <= step ==> 0.0 <= d
  {
    if n == 0 then 0.0 else step + Ramps(step, n - 1)
  }

  /** The ramp steps add up to `n` times one step. */
  lemma {:induction false} RampsIsProduct(step: real, n: nat)
    ensures Ramps(step, n) == step * n as real
  {
    if n > 0 {
      RampsIsProduct(step, n - 1);
      assert step * n as real == step + step * (n - 1) as real;
    }
  }

  /** An opening car whose door ramps by `DoorSpeed * dt` per tick stays
      `opening` while the door has not reached 1, and its door has then moved
      by exactly the sum of the ramp steps. */
  lemma {:induction false} OpeningRunSum(e: Elevator, inputs: seq<CarInput>, dt: real)
    requires e.state == Opening && 0.0 <= dt
    requires forall k :: 0 <= k < |inputs| ==> inputs[k].doorDt == dt
    requires e.doorPosition + Ramps(DoorSpeed * dt, |inputs|) < 1.0
    ensures Run(e, inputs).state == Opening
    ensures Run(e, inputs).doorPosition == e.doorPosition + Ramps(DoorSpeed * dt, |inputs|)
    decreases |inputs|
  {
    if inputs != [] {
      OpeningTick(e, inputs[0]);
      OpeningRunSum(CarTick(e, inputs[0]), inputs[1..], dt);
    }
  }

  /** After n ticks of step dt an opening car whose door is still short of 1 is
      still `opening`, and its door has advanced by exactly n * 1.5 * dt. */
  lemma OpeningRun(e: Elevator, inputs: seq<CarInput>, dt: real)
    requires e.state == Opening && 0.0 <= dt
    requires forall k :: 0 <= k < |inputs| ==> inputs[k].doorDt == dt
    requires e.doorPosition + DoorSpeed * dt * |inputs| as real < 1.0
    ensures Run(e, inputs).state == Opening
    ensures Run(e, inputs).doorPosition == e.doorPosition + DoorSpeed * dt * |inputs| as real
  {
    RampsIsProduct(DoorSpeed * dt, |inputs|);
    OpeningRunSum(e, inputs, dt);
  }

  /** The door cycle at a step of 0.1 s: from a shut door an opening car is
      still opening after six ticks, and after the seventh its door is exactly
      open and it is `arrived`, unless that same tick's dwell roll already sent
      it on to `closing`. */
  lemma DoorCycle(e: Elevator, inputs: seq<CarInput>)
    requires e.state == Opening && e.doorPosition == 0.0
    requires |inputs| == 7
    requires forall k :: 0 <= k < 7 ==> inputs[k].doorDt == 0.1
    ensures Run(e, inputs[..6]).state == Opening && Run(e, inputs[..6]).doorPosition < 1.0
    ensures Run(e, inputs).doorPosition == 1.0
    ensures Run(e, inputs).state == (if inputs[6].roll < DwellExitChance then Closing else Arrived)
  {
    assert DoorSpeed * 0.1 * 6.0 == 0.9;
    OpeningRun(e, inputs[..6], 0.1);
    RunAppend(e, inputs[..6], inputs[6..]);
    assert inputs[..6] + inputs[6..] == inputs;
    var six := Run(e, inputs[..6]);
    assert Run(six, inputs[6..]) == Run(CarTick(six, inputs[6]), []);
  }

  /** What holds of every record the program can produce: beyond `Sound`, a
      moving car is not yet at its target (the arrival rule, which runs last in
      each tick, would have caught it), an opening door is short of fully open,
      an arrived car's door is fully open and a closing door is not yet shut. */
  predicate Reach(e: Elevator)
  {
    && Sound(e)
    && (e.state == Moving ==> !AtTarget(e))
    && (e.state == Opening ==> e.doorPosition < 1.0)
    && (e.state == Arrived ==> e.doorPosition == 1.0)
    && (e.state == Closing ==> 0.0 < e.doorPosition)
  }

  /** Every tick with admissible inputs keeps a reachable record reachable. */
  lemma CarTickKeepsReach(e: Elevator, i: CarInput)
    requires Reach(e) && Admissible(i)
    ensures Reach(CarTick(e, i))
  {
  }

  /** From any reachable record a tick whose clock readings are all zero changes
      nothing except, through the dwell roll, an arrived car into a closing one. */
  lemma ZeroStepFromReach(e: Elevator, roll: real, pick: real)
    requires Reach(e)
    ensures var r := CarTick(e, CarInput(0.0, 0.0, 0.0, roll, pick));
      && r.altitude == e.altitude && r.speed == e.speed
      && r.doorPosition == e.doorPosition && r.targetFloor == e.targetFloor
      && (r.state == e.state || (e.state == Arrived && r.state == Closing && roll < DwellExitChance))
  {
  }

  /** A step whose clock readings are all zero leaves speed and door alone, and
      moves the car only by the arrival snap onto its target floor. */
  lemma ZeroStep(e: Elevator, roll: real, pick: real)
    requires Sound(e)
    ensures var r := CarTick(e, CarInput(0.0, 0.0, 0.0, roll, pick));
      && r.speed == e.speed && r.doorPosition == e.doorPosition
      && (r.altitude == e.altitude
          || (r.state == Opening && r.altitude == r.targetFloor as real
              && Abs(e.altitude - r.altitude) < AltitudeTolerance))
  {
  }

  /** On a record no tick produces (a moving car already at its target) a
      zero-length step does snap the car onto its target. */
  lemma ZeroStepCanSnap()
    ensures var e := Elevator(4.995, 0.0, 5, Moving, 0.0);
      var r := CarTick(e, CarInput(0.0, 0.0, 0.0, 0.5, 0.5));
      !Reach(e) && r.altitude == 5.0 && r.altitude != e.altitude && r.state == Opening
  {
  }

  /** The physics runs in every state, so a car that arrives with some residual
      speed keeps drifting while its door opens. */
  lemma DriftsWhileOpening()
    ensures var e := Elevator(5.0, 0.05, 5, Opening, 0.0);
      var r := CarTick(e, CarInput(0.1, 0.1, 0.1, 0.5, 0.5));
      r.state == Opening && r.altitude != 5.0
  {
  }
}
