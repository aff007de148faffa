/** The motion of one car during one tick: a bang-bang control law on the
    speed, a speed clamp, and a forward-Euler step of the altitude. */
module Physics {
  import opened JsMath
  import opened Elevators

  /** Where the car would come to rest if it began decelerating at
      `Acceleration` now: the stopping distance v^2 / (2 A), taken in the
      direction of travel. */
  function StoppingPosition(e: Elevator): (stop: real)
    ensures (stop - e.altitude) * (2.0 * Acceleration) == e.speed * Abs(e.speed)
  {
    e.altitude + (Abs(e.speed) / Acceleration) * (e.speed / 2.0)
  }

  /** The speed after the control law, before the clamp: one `Acceleration * dt`
      step up when the target lies beyond the stopping position, down when it
      lies short of it, none when the two coincide. */
  function Accelerate(e: Elevator, dt: real): (v: real)
    ensures e.targetFloor as real > StoppingPosition(e) ==> v - e.speed == Acceleration * dt
    ensures e.targetFloor as real < StoppingPosition(e) ==> e.speed - v == Acceleration * dt
    ensures e.targetFloor as real == StoppingPosition(e) ==> v == e.speed
  {
    var stop := StoppingPosition(e);
    if e.targetFloor as real > stop then e.speed + Acceleration * dt
    else if e.targetFloor as real < stop then e.speed - Acceleration * dt
    else e.speed
  }

  /** The speed clamp: magnitude at most `MaxSpeed`, sign kept, and a speed
      already within the limit left alone. */
  function ClampSpeed(v: real): (r: real)
    ensures Abs(r) <= MaxSpeed
    ensures Sign(r) == Sign(v)
    ensures Abs(v) <= MaxSpeed ==> r == v
    ensures MaxSpeed < Abs(v) ==> Abs(r) == MaxSpeed
  {
    if Abs(v) > MaxSpeed then Sign(v) * MaxSpeed else v
  }

  /** One car's part of `simulateElevators`: `accelDt` is the step read when the
      speed is changed, `moveDt` the step read when the altitude is integrated. */
  function Simulate(e: Elevator, accelDt: real, moveDt: real): (r: Elevator)
    ensures r.speed == ClampSpeed(Accelerate(e, accelDt))
    ensures Abs(r.speed) <= MaxSpeed
    ensures Sign(r.speed) == Sign(Accelerate(e, accelDt))
    ensures r.altitude - e.altitude == r.speed * moveDt
    ensures r == e.(altitude := r.altitude, speed := r.speed)
  {
    var v := ClampSpeed(Accelerate(e, accelDt));
    e.(speed := v, altitude := e.altitude + v * moveDt)
  }

  lemma MulPositive(x: real, y: real)
    requires 0.0 < x && 0.0 < y
    ensures 0.0 < x * y
  {
  }

  lemma SquareMonotone(a: real, b: real)
    requires 0.0 <= a < b
    ensures a * a < b * b
  {
    MulPositive(b - a, b + a);
    assert (b - a) * (b + a) == b * b - a * a;
  }

  /** `Simulate` written out for a given clamped speed `v`. */
  lemma SimulateUnfold(e: Elevator, accelDt: real, moveDt: real, v: real)
    requires v == ClampSpeed(Accelerate(e, accelDt))
    ensures Simulate(e, accelDt, moveDt) == e.(speed := v, altitude := e.altitude + v * moveDt)
  {
  }

  /** v |v| grows strictly with v, so a faster upward speed always means a
      higher stopping position. */
  lemma {:induction false} SignedSquareMonotone(a: real, b: real)
    requires a < b
    ensures a * Abs(a) < b * Abs(b)
  {
    if 0.0 <= a {
      SquareMonotone(a, b);
    } else if b <= 0.0 {
      SquareMonotone(-b, -a);
      assert a * Abs(a) == -((-a) * (-a));
      assert b * Abs(b) == -((-b) * (-b));
    } else {
      MulPositive(-a, -a);
      assert a * Abs(a) == -((-a) * (-a));
      MulPositive(b, b);
    }
  }

  /** The control law steers the stopping position towards the target: for a
      positive step, the new speed puts the stopping point nearer the target
      side, and a car whose stopping point is on target keeps its speed. */
  lemma StopMovesTowardTarget(e: Elevator, dt: real)
    requires 0.0 < dt
    ensures var after := StoppingPosition(e.(speed := Accelerate(e, dt)));
      && (e.targetFloor as real > StoppingPosition(e) ==> after > StoppingPosition(e))
      && (e.targetFloor as real < StoppingPosition(e) ==> after < StoppingPosition(e))
      && (e.targetFloor as real == StoppingPosition(e) ==> after == StoppingPosition(e))
  {
    var v := Accelerate(e, dt);
    var after := StoppingPosition(e.(speed := v));
    var before := StoppingPosition(e);
    assert (after - before) * (2.0 * Acceleration) == v * Abs(v) - e.speed * Abs(e.speed);
    if e.speed < v {
      SignedSquareMonotone(e.speed, v);
    } else if v < e.speed {
      SignedSquareMonotone(v, e.speed);
    }
  }

  /** After the clamp the speed still moves (weakly) towards the target side,
      for a car that started within the speed limit. */
  lemma SimulateSteers(e: Elevator, accelDt: real, moveDt: real)
    requires Abs(e.speed) <= MaxSpeed && 0.0 <= accelDt
    ensures var r := Simulate(e, accelDt, moveDt);
      && (e.targetFloor as real > StoppingPosition(e) ==> e.speed <= r.speed)
      && (e.targetFloor as real < StoppingPosition(e) ==> r.speed <= e.speed)
      && (e.targetFloor as real == StoppingPosition(e) ==> r.speed == e.speed)
  {
  }

  /** A zero-length step leaves a car within the speed limit exactly where it is. */
  lemma SimulateZeroStep(e: Elevator)
    requires Abs(e.speed) <= MaxSpeed
    ensures Simulate(e, 0.0, 0.0) == e
  {
  }

  /** Motion keeps the record invariant: it touches only altitude and speed,
      and leaves the speed within its limit. */
  lemma SimulateKeepsSound(e: Elevator, accelDt: real, moveDt: real)
    requires Sound(e)
    ensures Sound(Simulate(e, accelDt, moveDt))
  {
  }
}
