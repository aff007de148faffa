/** The simulation state of the page: the `elevators` array, the clock
    reference `lastTick` and the `paused` flag, with the two per-tick loops
    and the non-rendering part of `tick`. */
module Game {
  import opened JsMath
  import opened Clock
  import opened Elevators
  import opened Physics
  import opened Logic
  import opened Simulation

  /** What one car's code reads from `Date.now()` and `Math.random()` during one
      tick, call site by call site: the clock when the speed is changed, when the
      altitude is integrated and when the door ramps (milliseconds), then the
      dwell roll and the target draw. */
  datatype Reading = Reading(accelNow: int, moveNow: int, doorNow: int, roll: real, pick: real)

  /** `Math.random()` returns a number in [0, 1). */
  predicate Drawn(r: Reading)
  {
    0.0 <= r.roll < 1.0 && 0.0 <= r.pick < 1.0
  }

  /** The steps a car's readings yield against the tick's clock reference. */
  function Inputs(r: Reading, lastTick: int): (i: CarInput)
    ensures Drawn(r) ==> Admissible(i)
    ensures i.accelDt <= MaxStep && i.moveDt <= MaxStep && i.doorDt <= MaxStep
  {
    CarInput(TimeDelta(r.accelNow, lastTick), TimeDelta(r.moveNow, lastTick),
             TimeDelta(r.doorNow, lastTick), r.roll, r.pick)
  }

  /** The whole bank after one unpaused tick. */
  function Step(cars: seq<Elevator>, readings: seq<Reading>, lastTick: int): (r: seq<Elevator>)
    requires |readings| == |cars|
    ensures |r| == |cars|
    ensures (forall k :: 0 <= k < |cars| ==> Reach(cars[k]))
            && (forall k :: 0 <= k < |readings| ==> Drawn(readings[k]))
            ==> forall k :: 0 <= k < |r| ==> Reach(r[k])
  {
    var r := seq(|cars|, k requires 0 <= k < |cars| => CarTick(cars[k], Inputs(readings[k], lastTick)));
    assert forall k :: 0 <= k < |cars| && Reach(cars[k]) && Drawn(readings[k]) ==> Reach(r[k]) by {
      forall k | 0 <= k < |cars| && Reach(cars[k]) && Drawn(readings[k]) {
        CarTickKeepsReach(cars[k], Inputs(readings[k], lastTick));
      }
    }
    r
  }

  /** The three cars the page starts with, all moving with their doors shut. */
  function Seeds(): (cars: seq<Elevator>)
    ensures |cars| == 3
    ensures forall k :: 0 <= k < |cars| ==> Reach(cars[k]) && cars[k].state == Moving
  {
    [ Elevator(2.0, -0.5, 5, Moving, 0.0),
      Elevator(7.0, 1.0, 1, Moving, 0.0),
      Elevator(7.2, -0.1, 7, Moving, 0.0) ]
  }

  class Bank {
    var elevators: array<Elevator>
    var lastTick: int
    var paused: bool

    /** Every car satisfies the record invariant. */
    ghost predicate Valid()
      reads this, elevators
    {
      forall k :: 0 <= k < elevators.Length ==> Sound(elevators[k])
    }

    /** Page start: the seed cars, the clock reference at `now`, not paused. */
    constructor (now: int)
      ensures Valid() && fresh(elevators)
      ensures elevators[..] == Seeds() && lastTick == now && !paused
    {
      elevators := new Elevator[] [
        Elevator(2.0, -0.5, 5, Moving, 0.0),
        Elevator(7.0, 1.0, 1, Moving, 0.0),
        Elevator(7.2, -0.1, 7, Moving, 0.0) ];
      lastTick := now;
      paused := false;
    }

    /** `simulateElevators`: each car in turn gets the control law, the speed
        clamp and the altitude step, reading the clock at each use. */
    method SimulateElevators(readings: seq<Reading>)
      requires Valid() && |readings| == elevators.Length
      modifies elevators
      ensures Valid()
      ensures forall k :: 0 <= k < elevators.Length ==>
        elevators[k] == Simulate(old(elevators[k]),
          TimeDelta(readings[k].accelNow, lastTick), TimeDelta(readings[k].moveNow, lastTick))
    {
      for i := 0 to elevators.Length
        invariant forall k :: 0 <= k < i ==>
          elevators[k] == Simulate(old(elevators[k]),
            TimeDelta(readings[k].accelNow, lastTick), TimeDelta(readings[k].moveNow, lastTick))
        invariant forall k :: i <= k < elevators.Length ==> elevators[k] == old(elevators[k])
        invariant Valid()
      {
        var elevator := elevators[i];
        // the clock is read afresh at each use, so the two steps may differ
        var accelDt := TimeDelta(readings[i].accelNow, lastTick);
        var moveDt := TimeDelta(readings[i].moveNow, lastTick);
        var stoppingPosition := StoppingPosition(elevator);
        var speed := elevator.speed;
        if elevator.targetFloor as real > stoppingPosition {
          speed := speed + Acceleration * accelDt;
        } else if elevator.targetFloor as real < stoppingPosition {
          speed := speed - Acceleration * accelDt;
        }
        if Abs(speed) > MaxSpeed {
          speed := Sign(speed) * MaxSpeed;
        }
        var altitude := elevator.altitude + speed * moveDt;
        SimulateUnfold(elevator, accelDt, moveDt, speed);
        SimulateKeepsSound(elevator, accelDt, moveDt);
        elevators[i] := elevator.(speed := speed, altitude := altitude);
      }
    }

    /** `elevatorLogic`: each car in turn goes through the opening, closing,
        dwell and arrival rules, in that order. */
    method ElevatorLogic(readings: seq<Reading>)
      requires Valid() && |readings| == elevators.Length
      requires forall k :: 0 <= k < |readings| ==> Drawn(readings[k])
      modifies elevators
      ensures Valid()
      ensures forall k :: 0 <= k < elevators.Length ==>
        elevators[k] == Update(old(elevators[k]),
          TimeDelta(readings[k].doorNow, lastTick), readings[k].roll, readings[k].pick)
    {
      for i := 0 to elevators.Length
        invariant forall k :: 0 <= k < i ==>
          elevators[k] == Update(old(elevators[k]),
            TimeDelta(readings[k].doorNow, lastTick), readings[k].roll, readings[k].pick)
        invariant forall k :: i <= k < elevators.Length ==> elevators[k] == old(elevators[k])
        invariant Valid()
      {
        var elevator := elevators[i];
        var r := readings[i];
        if elevator.state == Opening {
          elevator := elevator.(doorPosition := Min(1.0, elevator.doorPosition + DoorSpeed * TimeDelta(r.doorNow, lastTick)));
          if elevator.doorPosition == 1.0 {
            elevator := elevator.(state := Arrived);
          }
        }
        if elevator.state == Closing {
          elevator := elevator.(doorPosition := Max(0.0, elevator.doorPosition - DoorSpeed * TimeDelta(r.doorNow, lastTick)));
          if elevator.doorPosition == 0.0 {
            elevator := elevator.(state := Moving, targetFloor := Round(r.pick * NumFloors as real));
          }
        }
        if elevator.state == Arrived && r.roll < DwellExitChance {
          elevator := elevator.(state := Closing);
        }
        if elevator.state == Moving
          && Abs(elevator.altitude - elevator.targetFloor as real) < AltitudeTolerance
          && Abs(elevator.speed) < SpeedTolerance
        {
          elevator := elevator.(altitude := elevator.targetFloor as real, state := Opening);
        }
        elevators[i] := elevator;
        UpdateKeepsSound(old(elevators[i]), TimeDelta(r.doorNow, lastTick), r.roll, r.pick);
      }
    }

    /** The non-rendering part of `tick`: nothing at all while paused; otherwise
        the physics loop, the logic loop, and the clock reference moved to `endNow`. */
    method Tick(readings: seq<Reading>, endNow: int)
      requires Valid() && |readings| == elevators.Length
      requires forall k :: 0 <= k < |readings| ==> Drawn(readings[k])
      modifies this, elevators
      ensures Valid() && elevators == old(elevators) && paused == old(paused)
      ensures old(paused) ==> elevators[..] == old(elevators[..]) && lastTick == old(lastTick)
      ensures !old(paused) ==>
        elevators[..] == Step(old(elevators[..]), readings, old(lastTick)) && lastTick == endNow
    {
      if paused {
        return;
      }
      ghost var before := elevators[..];
      SimulateElevators(readings);
      ElevatorLogic(readings);
      assert forall k :: 0 <= k < elevators.Length ==>
        elevators[k] == CarTick(before[k], Inputs(readings[k], lastTick));
      lastTick := endNow;
    }

    /** A click on the page: flips `paused` and moves the clock reference to
        `now`, so that the first tick after resuming does not see the pause. */
    method TogglePause(now: int)
      requires Valid()
      modifies this
      ensures Valid() && elevators == old(elevators) && elevators[..] == old(elevators[..])
      ensures paused == !old(paused) && lastTick == now
    {
      paused := !paused;
      lastTick := now;
    }
  }
}
