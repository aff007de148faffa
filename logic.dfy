/** One car's part of `elevatorLogic`: four rules applied in a fixed order
    within one tick, each seeing what the rules before it did. */
module Logic {
  import opened JsMath
  import opened Elevators

  /** The opening ramp: the door advances by `DoorSpeed * dt` and stops at fully open. */
  function OpenDoor(door: real, dt: real): (d: real)
    ensures 0.0 <= door <= 1.0 && 0.0 <= dt ==> door <= d <= 1.0
    ensures d == 1.0 <==> 1.0 <= door + DoorSpeed * dt
    ensures d < 1.0 ==> d == door + DoorSpeed * dt
  {
    Min(1.0, door + DoorSpeed * dt)
  }

  /** The closing ramp: the door retreats by `DoorSpeed * dt` and stops at fully shut. */
  function CloseDoor(door: real, dt: real): (d: real)
    ensures 0.0 <= door <= 1.0 && 0.0 <= dt ==> 0.0 <= d <= door
    ensures d == 0.0 <==> door - DoorSpeed * dt <= 0.0
    ensures 0.0 < d ==> d == door - DoorSpeed * dt
  {
    Max(0.0, door - DoorSpeed * dt)
  }

  /** The new target floor drawn from a random number `pick`: the nearest
      integer to `pick * NumFloors`, which for `pick` in [0, 1) is a floor
      from 0 to NumFloors inclusive. */
  function NewTarget(pick: real): (floor: int)
    ensures 0.0 <= pick < 1.0 ==> 0 <= floor <= NumFloors
    ensures pick * NumFloors as real - 0.5 < floor as real <= pick * NumFloors as real + 0.5
  {
    Round(pick * NumFloors as real)
  }

  /** The target draw can produce NumFloors itself, one above the highest floor
      line drawn (lines 0 to NumFloors - 1). */
  lemma NewTargetCanExceedTopFloor()
    ensures NewTarget(0.96) == NumFloors
    ensures exists pick :: 0.0 <= pick < 1.0 && NewTarget(pick) > NumFloors - 1
  {
  }

  /** The arrival test: within `AltitudeTolerance` of the target floor and
      slower than `SpeedTolerance`. */
  predicate AtTarget(e: Elevator)
  {
    Abs(e.altitude - e.targetFloor as real) < AltitudeTolerance && Abs(e.speed) < SpeedTolerance
  }

  /** Rule 1, an opening car: the door ramps open; on reaching exactly 1 the
      car is `arrived`. Nothing else changes; other states are left alone. */
  function OpeningRule(e: Elevator, dt: real): (r: Elevator)
    ensures e.state != Opening ==> r == e
    ensures e.state == Opening ==>
      && r.doorPosition == OpenDoor(e.doorPosition, dt)
      && (r.state == Arrived <==> r.doorPosition == 1.0)
      && (r.state == Arrived || r.state == Opening)
    ensures r == e.(doorPosition := r.doorPosition, state := r.state)
  {
    if e.state == Opening then
      var door := OpenDoor(e.doorPosition, dt);
      e.(doorPosition := door, state := if door == 1.0 then Arrived else Opening)
    else e
  }

  /** Rule 2, a closing car: the door ramps shut; on reaching exactly 0 the car
      is `moving` again towards a newly drawn target. */
  function ClosingRule(e: Elevator, dt: real, pick: real): (r: Elevator)
    ensures e.state != Closing ==> r == e
    ensures e.state == Closing ==>
      && r.doorPosition == CloseDoor(e.doorPosition, dt)
      && (r.state == Moving <==> r.doorPosition == 0.0)
      && (r.state == Moving || r.state == Closing)
      && r.targetFloor == (if r.state == Moving then NewTarget(pick) else e.targetFloor)
    ensures r == e.(doorPosition := r.doorPosition, state := r.state, targetFloor := r.targetFloor)
  {
    if e.state == Closing then
      var door := CloseDoor(e.doorPosition, dt);
      if door == 0.0 then e.(doorPosition := door, state := Moving, targetFloor := NewTarget(pick))
      else e.(doorPosition := door)
    else e
  }

  /** Rule 3, an arrived car: the dwell ends, and the door starts closing, when
      the random `roll` falls below `DwellExitChance`. */
  function DwellRule(e: Elevator, roll: real): (r: Elevator)
    ensures e.state != Arrived ==> r == e
    ensures e.state == Arrived ==> (r.state == Closing <==> roll < DwellExitChance)
    ensures r == e || r == e.(state := Closing)
  {
    if e.state == Arrived && roll < DwellExitChance then e.(state := Closing) else e
  }

  /** Rule 4, a moving car: on passing the arrival test the car snaps to its
      target floor exactly and starts opening its door. */
  function ArrivalRule(e: Elevator): (r: Elevator)
    ensures e.state == Moving ==> (r.state == Opening <==> AtTarget(e))
    ensures r != e ==> e.state == Moving && r == e.(altitude := e.targetFloor as real, state := Opening)
    ensures e.state == Moving && AtTarget(e) ==> r.altitude == r.targetFloor as real
  {
    if e.state == Moving && AtTarget(e) then e.(altitude := e.targetFloor as real, state := Opening)
    else e
  }

  /** One car's part of `elevatorLogic`, the four rules in source order.
      `doorDt` is the step read by whichever door ramp runs, `roll` the dwell
      roll and `pick` the target draw. */
  function Update(e: Elevator, doorDt: real, roll: real, pick: real): (r: Elevator)
    ensures r.speed == e.speed
    ensures r.state == e.state || r.state == Next(e.state) || r.state == Next(Next(e.state))
    ensures e.state == Moving || e.state == Arrived ==> r.doorPosition == e.doorPosition
  {
    ArrivalRule(DwellRule(ClosingRule(OpeningRule(e, doorDt), doorDt, pick), roll))
  }

  /** The record invariant survives the rules, for any non-negative step and
      any target draw in [0, 1). */
  lemma UpdateKeepsSound(e: Elevator, doorDt: real, roll: real, pick: real)
    requires Sound(e) && 0.0 <= doorDt && 0.0 <= pick < 1.0
    ensures Sound(Update(e, doorDt, roll, pick))
  {
  }

  /** Each rule moves a car at most one edge along the state cycle; in one tick
      an `opening` or `closing` car may take two edges (opening, arrived,
      closing; closing, moving, opening), a `moving` or `arrived` car one. */
  lemma UpdateTransitions(e: Elevator, doorDt: real, roll: real, pick: real)
    ensures var r := Update(e, doorDt, roll, pick);
      && (r.state == e.state || r.state == Next(e.state)
          || ((e.state == Opening || e.state == Closing) && r.state == Next(Next(e.state))))
      && (e.state == Opening ==> (r.state != Opening <==> 1.0 <= e.doorPosition + DoorSpeed * doorDt))
      && (e.state == Opening ==>
            (r.state == Closing <==> OpenDoor(e.doorPosition, doorDt) == 1.0 && roll < DwellExitChance))
      && (e.state == Closing ==> (r.state != Closing <==> e.doorPosition - DoorSpeed * doorDt <= 0.0))
      && (e.state == Closing ==>
            (r.state == Opening <==>
               CloseDoor(e.doorPosition, doorDt) == 0.0 && AtTarget(e.(targetFloor := NewTarget(pick)))))
      && (e.state == Arrived ==> (r.state == Closing <==> roll < DwellExitChance))
      && (e.state == Moving ==> (r.state == Opening <==> AtTarget(e)))
  {
  }

  /** The door moves only in the `opening` and `closing` states, by the ramps. */
  lemma UpdateDoor(e: Elevator, doorDt: real, roll: real, pick: real)
    ensures var r := Update(e, doorDt, roll, pick);
      && (e.state == Opening ==> r.doorPosition == OpenDoor(e.doorPosition, doorDt))
      && (e.state == Closing ==> r.doorPosition == CloseDoor(e.doorPosition, doorDt))
      && (e.state == Moving || e.state == Arrived ==> r.doorPosition == e.doorPosition)
  {
  }

  /** The target changes only on the closing-to-moving edge, to the drawn floor;
      speed never changes, and altitude changes only by the arrival snap, which
      sets it to the (possibly just drawn) target. */
  lemma UpdateTargetAndAltitude(e: Elevator, doorDt: real, roll: real, pick: real)
    ensures var r := Update(e, doorDt, roll, pick);
      && (r.targetFloor != e.targetFloor ==>
            e.state == Closing && CloseDoor(e.doorPosition, doorDt) == 0.0 && r.targetFloor == NewTarget(pick))
      && (e.state == Closing && CloseDoor(e.doorPosition, doorDt) == 0.0 ==> r.targetFloor == NewTarget(pick))
      && (e.state != Closing ==> r.targetFloor == e.targetFloor)
      && r.speed == e.speed
      && (r.altitude != e.altitude ==>
            r.state == Opening && r.altitude == r.targetFloor as real
            && Abs(e.altitude - r.targetFloor as real) < AltitudeTolerance)
  {
  }
}
