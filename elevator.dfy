/** One elevator record, the constants of the simulation, and the invariant
    every record keeps between ticks. */
module Elevators {
  import opened JsMath

  /** Floors drawn on screen (lines 0 .. NumFloors - 1); also the scale of a new target draw. */
  const NumFloors: int := 10
  /** Acceleration and deceleration magnitude, floors per second squared. */
  const Acceleration: real := 0.2
  /** Largest speed magnitude, floors per second. */
  const MaxSpeed: real := 1.5
  /** Door opening and closing rate, door widths per second. */
  const DoorSpeed: real := 1.5
  /** Arrival tolerances: distance from the target floor, and speed. */
  const AltitudeTolerance: real := 0.01
  const SpeedTolerance: real := 0.1
  /** Chance per tick that a car waiting with open doors starts closing them. */
  const DwellExitChance: real := 0.1

  /** The `state` string of a record: 'moving', 'opening', 'arrived' or 'closing'. */
  datatype CarState = Moving | Opening | Arrived | Closing

  /** An entry of the `elevators` array. Altitude in floors, speed in floors per
      second (positive is up), door position from 0 (closed) to 1 (open). */
  datatype Elevator = Elevator(
    altitude: real,
    speed: real,
    targetFloor: int,
    state: CarState,
    doorPosition: real)

  /** The one state each state may move on to: the cycle
      moving, opening, arrived, closing, moving. */
  function Next(s: CarState): (t: CarState)
    ensures t != s
  {
    match s
    case Moving => Opening
    case Opening => Arrived
    case Arrived => Closing
    case Closing => Moving
  }

  /** What holds of every record between ticks: the door is within its travel,
      the speed within its limit, a moving car has its door shut, and the target
      is a floor the target draw can produce. */
  predicate Sound(e: Elevator)
  {
    && 0.0 <= e.doorPosition <= 1.0
    && Abs(e.speed) <= MaxSpeed
    && (e.state == Moving ==> e.doorPosition == 0.0)
    && 0 <= e.targetFloor <= NumFloors
  }
}
