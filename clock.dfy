/** The step length the simulation advances by: elapsed wall-clock time since
    the last completed tick, in seconds, never negative and capped. */
module Clock {
  import opened JsMath

  /** Longest step, in seconds, a single clock reading may produce. */
  const MaxStep: real := 100.0

  /** `timeDelta()` for a clock reading `now` (milliseconds, as `Date.now()`
      returns them) against the stored `lastTick`. */
  function TimeDelta(now: int, lastTick: int): (dt: real)
    ensures 0.0 <= dt <= MaxStep
    ensures now <= lastTick ==> dt == 0.0
    ensures lastTick <= now <= lastTick + 100000 ==> dt * 1000.0 == (now - lastTick) as real
    ensures lastTick + 100000 <= now ==> dt == MaxStep
  {
    if now < lastTick then 0.0 else Min((now - lastTick) as real / 1000.0, MaxStep)
  }

  /** A later reading never yields a shorter step. */
  lemma TimeDeltaMonotone(a: int, b: int, lastTick: int)
    requires a <= b
    ensures TimeDelta(a, lastTick) <= TimeDelta(b, lastTick)
  {
  }
}
