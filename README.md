# Elevator game: simulation core in Dafny

This project models the simulation part of the elevator animation in `main.js`.
A bank of elevators (three cars at start) moves between floors. Each car
accelerates towards a randomly drawn target floor under a bang-bang control law,
settles on the floor, opens its door, waits, closes its door and draws a new
target. The model covers:

- the clock step `timeDelta`;
- the per-car physics loop `simulateElevators`;
- the four-state door machine `elevatorLogic` (moving, opening, arrived, closing);
- the non-rendering part of `tick`;
- the click that toggles pause.

Modules, one per component of the core:

- `JsMath`: `Math.abs`, `Math.sign`, `Math.min`, `Math.max` and `Math.round` over exact reals.
- `Clock`: `TimeDelta`. It turns a clock reading and the stored `lastTick` into a step in [0, 100] seconds.
- `Elevators`: the record, the constants and the invariant `Sound`. `Sound` says: door in [0, 1],
  |speed| <= 1.5, a moving car has its door shut, and the target is in [0, 10].
- `Physics`: one car's part of `simulateElevators`. It has the stopping position, the control law,
  the speed clamp and the forward-Euler altitude step.
- `Logic`: one car's part of `elevatorLogic`. It has the four rules in source order and their composition `Update`.
- `Simulation`: one car through one tick (`CarTick`) and through many ticks (`Run`).
  It also holds the lemmas that relate several ticks.
- `Game`: the class `Bank`. It holds the `elevators` array, `lastTick` and `paused`.
  Its methods are the two loops, `Tick` and `TogglePause`.

Each loop method is proved against the per-car specification functions. After
`SimulateElevators`, every slot holds `Simulate` of its old value. After
`ElevatorLogic`, every slot holds `Update` of its old value. After an unpaused
`Tick`, the array equals `Step` of the old array. All three keep `Valid()`, so
every car stays `Sound`.

Modelling choices:

- `Date.now()` and `Math.random()` are inputs. A `Reading` gives, for one car
  in one tick, what each call site sees. That is three clock readings (speed
  change, altitude step, door ramp) and two random numbers (dwell roll, target
  draw). The source calls `timeDelta()` afresh at each use, so the model takes
  one clock reading per call site, not one step per tick. Each reading becomes a
  step through `TimeDelta` against the tick's `lastTick`. Only one door ramp can
  run per car per tick. A car that finishes opening is `arrived` when the
  closing rule tests its state (main.js:139), so the closing ramp cannot run in
  the same tick. So one door reading per car is enough.
- Numbers are exact `real`s. Timestamps are integer milliseconds.
- The records are datatype values stored in an array, and each loop replaces
  slot `i` with the updated record. The source's records are distinct objects
  with no aliasing between them, so this loses nothing.

Behaviour of the code that the proofs bring out:

- Every record a run can produce satisfies `Simulation.Reach`. A moving car
  is never already at its target, because the arrival rule runs last in every
  tick (main.js:155-159) and the seed cars are not at theirs. From such a
  record, a zero-length tick changes nothing except that the dwell roll may
  send an arrived car to closing (`Simulation.ZeroStepFromReach`). The arrival
  snap with a zero step happens only from a record no tick produces
  (`Simulation.ZeroStepCanSnap`).
- At 0.1 s per tick the door opens fully in the seventh tick. The dwell roll
  (main.js:149) is made in that same tick, so the car may already be `closing`
  at its end (`Simulation.DoorCycle`).
- The physics loop (main.js:109-122) runs in every state. A car that arrives
  with a small residual speed keeps drifting while its door opens
  (`Simulation.DriftsWhileOpening`).
- The target draw `Math.round(Math.random() * numFloors)` (main.js:145) can
  give 10. That is one above the highest floor line drawn, 9 (main.js:96;
  `Logic.NewTargetCanExceedTopFloor`). The model keeps this behaviour.
- A closing car can go closing, moving, opening within a single tick. This
  happens when its door reaches 0 and the newly drawn target is within 0.01 of
  its altitude while its speed is below 0.1 (`Logic.UpdateTransitions`).

## Model

| member | source | states |
|---|---|---|
| `Clock.TimeDelta` | main.js:9-15 | the step is never negative and never above 100 s; a clock that went backwards gives 0; otherwise the step is the elapsed milliseconds over 1000, and 100 once that much has elapsed |
| `Clock.TimeDeltaMonotone` | main.js:9-15 | a later clock reading never yields a shorter step |
| `Physics.StoppingPosition` | main.js:111 | the stopping position lies v\|v\|/(2 * 0.2) beyond the altitude, the braking distance in the direction of travel |
| `Physics.Accelerate` | main.js:112-115 | before the clamp, speed grows by 0.2 dt when the target is above the stopping position, shrinks by 0.2 dt when below, and is unchanged when equal |
| `Physics.StopMovesTowardTarget` | main.js:111-115 | for a positive step the control law moves the stopping position towards the target side, and leaves it in place when it is on target |
| `Physics.ClampSpeed` | main.js:118-119 | the clamped speed has magnitude at most 1.5 and the sign of the unclamped speed; a speed within the limit is unchanged, and one beyond it becomes exactly 1.5 in magnitude |
| `Physics.Simulate` | main.js:109-122 | after a car's physics step the speed is the clamped control-law speed, so \|speed\| <= 1.5 with the sign of the control law's speed; altitude changes by exactly new speed times step; nothing but altitude and speed changes |
| `Physics.SimulateSteers` | main.js:111-119 | for a car within the speed limit, the clamped new speed is at least the old one when the target is above the stopping position, at most when below, and equal when on it |
| `Physics.SimulateZeroStep` | main.js:111-121 | with zero steps and \|speed\| <= 1.5, a car's physics step changes nothing |
| `Physics.SimulateKeepsSound` | main.js:109-122 | the physics step keeps the record invariant |
| `Logic.OpenDoor` | main.js:132-133 | the opening ramp stays in [0, 1] and never closes the door; it reads exactly 1 exactly when door + 1.5 dt >= 1, and below that it is door + 1.5 dt |
| `Logic.CloseDoor` | main.js:141-142 | the closing ramp stays in [0, door] and never opens the door; it reads exactly 0 exactly when door - 1.5 dt <= 0, and above that it is door - 1.5 dt |
| `JsMath.Round` | main.js:145 | `Math.round` gives the integer in (x - 0.5, x + 0.5], so halves round up |
| `Logic.NewTarget` | main.js:145 | the drawn target is the integer in (pick * 10 - 0.5, pick * 10 + 0.5], halves rounding up, and lies in [0, 10] for pick in [0, 1) |
| `Logic.NewTargetCanExceedTopFloor` | main.js:145 | a draw of 0.96 gives target 10, above floor line 9, the highest drawn at main.js:96 |
| `Logic.OpeningRule` | main.js:130-137 | only an opening car is touched; its door follows the opening ramp; it becomes arrived exactly when the door reads 1, and otherwise stays opening; nothing but door and state changes |
| `Logic.ClosingRule` | main.js:139-147 | only a closing car is touched; its door follows the closing ramp; it becomes moving exactly when the door reads 0, and then takes the drawn target; otherwise it keeps its target |
| `Logic.DwellRule` | main.js:149-152 | only an arrived car is touched; it becomes closing exactly when the roll is below 0.1, with nothing else changed |
| `Logic.ArrivalRule` | main.js:155-159 | a moving car becomes opening exactly when within 0.01 of its target and slower than 0.1, and then sits exactly on the target; no other car changes |
| `Logic.UpdateKeepsSound` | main.js:128-161 | for a non-negative step and a draw in [0, 1), the rules keep door in [0, 1], moving implies door shut, speed bound and target in [0, 10] |
| `Logic.UpdateTransitions` | main.js:130-159 | in one tick a car stays put or follows the cycle moving, opening, arrived, closing; moving and arrived cars take at most one edge, opening and closing cars at most two; each edge fires exactly under its source condition, including the second edge of a tick: opening reaches closing exactly when the door reads 1 and the roll is below 0.1, and closing reaches opening exactly when the door reads 0 and the car is at the newly drawn target |
| `Logic.UpdateDoor` | main.js:130-147 | the door moves only in the opening and closing states, by the ramps |
| `Logic.UpdateTargetAndAltitude` | main.js:139-159 | the target changes only when a closing car's door reaches 0, to the drawn floor; speed never changes; altitude changes only by the arrival snap onto the target |
| `Logic.Update` | main.js:130-159 | one car's pass through the four rules never changes its speed, moves its state at most two edges along the cycle, and leaves the door alone in the moving and arrived states |
| `Simulation.CarTick` | main.js:177-178 | one car's tick leaves the speed the physics step set (the clamped control-law speed), and changes the target only for a closing car, to the drawn floor |
| `Simulation.CarTickKeepsSound` | main.js:177-178 | physics then logic keep the record invariant for steps >= 0 and draws in [0, 1) |
| `Simulation.RunKeepsSound` | main.js:168-185 | over any number of ticks the door stays in [0, 1], speed within 1.5, moving implies door shut, target in [0, 10] |
| `Simulation.OpeningTick` | main.js:130-137 | an opening car whose door does not reach 1 stays opening, and its door advances by exactly 1.5 dt |
| `Simulation.OpeningRun` | main.js:130-137 | after n ticks of step dt an opening car whose door plus n * 1.5 * dt is short of 1 is still opening, and its door has advanced by exactly n * 1.5 * dt |
| `Simulation.DoorCycle` | main.js:130-152 | from a shut door at 0.1 s per tick, the door is still short of 1 after six ticks; after the seventh it reads exactly 1, and the car is arrived, or closing if that tick's roll was below 0.1 |
| `Simulation.CarTickKeepsReach` | main.js:128-159 | every tick with admissible inputs keeps a record reachable: a moving car is not at its target, an opening door is short of 1, an arrived door is at 1, a closing door is above 0 |
| `Simulation.ZeroStepFromReach` | main.js:107-162 | from a reachable record a tick with zero steps keeps altitude, speed, door and target, and changes the state only from arrived to closing, on a roll below 0.1 |
| `Simulation.ZeroStep` | main.js:107-162 | from any sound record a tick with zero steps keeps speed and door; altitude changes only by the arrival snap, by less than 0.01, onto the target |
| `Simulation.ZeroStepCanSnap` | main.js:155-158 | a moving car at rest 0.005 below its target, a record no tick produces, moves onto it in a zero-length tick |
| `Simulation.DriftsWhileOpening` | main.js:109-137 | a car that arrived with speed 0.05 moves while its door is opening |
| `Game.Seeds` | main.js:24-46 | the page starts with three cars, all moving and all reachable records |
| `Game.Step` | main.js:177-178 | an unpaused tick keeps the number of cars, and keeps every car reachable when the random draws are in [0, 1) |
| `Game.Inputs` | main.js:9-15 | a car's readings give steps in [0, 100] and, for draws in [0, 1), admissible inputs |
| `Game.Bank.constructor` | main.js:7-46 | the bank starts with the three seed cars, all moving with their doors shut, the clock reference at the start time, not paused, and satisfying the invariant |
| `Game.Bank.SimulateElevators` | main.js:107-123 | each slot becomes the physics step of its old value, with the steps read at its two call sites; the invariant is kept |
| `Game.Bank.ElevatorLogic` | main.js:126-162 | each slot becomes the four rules applied to its old value, with its door step, roll and draw; the invariant is kept |
| `Game.Bank.Tick` | main.js:168-185 | when paused nothing changes; otherwise the array becomes physics then logic per slot, against the old clock reference, which then moves to the end-of-tick reading; the array object and its length never change |
| `Game.Bank.TogglePause` | main.js:194 | a click flips the pause flag and moves the clock reference to the click time, leaving the cars alone |

## Left out

- Drawing (`drawLine`, `drawElevators`, `drawBackground`) and the layout lines of `tick`: rendering only, no simulation state.
- `setInterval`, the resize handler and the wiring of the click listener: browser plumbing. The click's effect is `Game.Bank.TogglePause`.
- `Date.now()` and `Math.random()`: foreign calls. They are inputs with the ranges the browser guarantees.
- Floating point: numbers are exact reals. IEEE rounding, NaN and negative zero are not modelled. The source's exact tests `doorPosition == 1` and `== 0` follow a `min`/`max` clamp, so they mean the same over reals.
- Convergence onto a target within a bounded number of ticks: not stated. Over reals it depends on step sizes, and the source does not promise it.
- Multi-tick runs are stated per car (`Simulation.Run`). Cars do not interact, and `Game.Bank.Tick` keeps the invariant for the whole bank tick by tick.
