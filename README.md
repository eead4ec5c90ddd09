# Stepper motor controller: position and motion-planning model

This project models the `StepperMotor` class of a Raspberry Pi stepper-motor
driver (`stepper_motor.py`) in Dafny, with pin writes and sleeps removed, and
proves properties of that model.

The motor keeps a position counter `steps_from_home`. It is unset (`None`)
until the caller marks the current position as home. After that it always
lies in `[0, N)`, where `N` is `steps_per_revolution`. Every emitted pulse
moves the counter one step clockwise or counter-clockwise, wrapping at the
0/N boundary. A relative move (`step`) emits a number of pulses after checking
the requested speed against an optional maximum. `rotate` and
`do_one_rotation` are whole revolutions. An absolute move (`go_to_position`)
validates the target, given as a step index or as an angle. It does nothing
when the motor is already there. Otherwise it steps the directed distance in
the direction the caller chose, whether or not that is the shorter way round.

Layout:

- `types.dfy` (`MotorTypes`): `Option`, `Result`, the closed set of errors a motion command can end with (most raised by the controller's own checks; `ZeroRpm` and `NegativeDelay` come from the runtime: the division 60 / rpm at line 82 and the sleep refusing a negative delay at line 63) and the `Status` of a command.
- `modular.dfy` (`Modular`): uniqueness of Euclidean division and the residue facts the counter needs.
- `position.dfy` (`Position`): the counter as a modular function (`Advance`), its iteration (`AdvanceMany`) and the closed-form, full-turn and round-trip lemmas.
- `planner.dfy` (`Planner`): target resolution (`ResolveTarget`), the plan of an absolute move (`Plan`) and the lemmas that the plan reaches the target by the first possible count.
- `timing.dfy` (`Timing`): the half-pulse delay in exact reals. Only its sign matters to the controller: a zero speed or a negative delay makes `step` fail.
- `stepper_motor.dfy` (`StepperMotorModel`): the class `StepperMotor`. It has constant fields `stepsPerRevolution`, `maxRpm` and `holdPosition`, and mutable fields `stepsFromHome`, `enabled` (the enable line) and `pulses` (pulses emitted on the pulse line). Its methods follow the source method by method. `Step` is a `for` loop that calls `UpdatePosition` once per pulse. Each method's postcondition ties the new state to the specification functions above.

In these details the model follows the code, which a reader might not expect:

- A zero rpm fails with a division by zero in the delay computation (line 82). This happens after the driver has been enabled (line 56).
- A negative rpm fails only when at least one pulse is due. `time.sleep` refuses the negative delay at line 63, before the position is updated.
- So "never fails without a maximum rpm" holds only for a positive rpm. `UnboundedSpeedNeverRefused` states exactly that.
- `go_to_position` compares the resolved target with the current position (line 137) before it checks the index range (line 140).
- An angle of 360 passes both angle checks, resolves to index N and is then rejected by the range check. `FullCircleDegreeRejected` proves this.

## Model

| member | source | states |
|---|---|---|
| `Position.Advance` | stepper_motor.py:97-104 | one pulse keeps a known position in [0, N) |
| `Position.AdvanceIsNeighbour` | stepper_motor.py:97-104 | the modular step (p+1) mod N / (p-1+N) mod N equals the code's branches: +1 with N-1 wrapping to 0, -1 with 0 wrapping to N-1 |
| `Position.AdvanceMany` | stepper_motor.py:60-67 | any number of pulses keeps the position in [0, N) |
| `Position.Moved` | stepper_motor.py:94-95 | an unset home stays unset under pulses; a known position stays in [0, N) |
| `Position.AdvanceManyClosedForm` | stepper_motor.py:60-67 | k pulses move p to (p+k) mod N clockwise and (p-k) mod N counter-clockwise |
| `Position.FullTurns` | stepper_motor.py:73-77 | a whole number of revolutions in either direction returns to the starting position |
| `Position.RoundTrip` | stepper_motor.py:44-67 | k pulses clockwise then k counter-clockwise restore the position, for every k |
| `Position.AdvanceManyAdditive` | stepper_motor.py:60-67 | k pulses then j pulses in one direction equal k+j pulses |
| `Planner.DegreesToSteps` | stepper_motor.py:128-133 | dividing a step index's angle by the step angle 360/N gives back exactly that index |
| `Planner.NoWholeStepCount` | stepper_motor.py:128-130 | an angle whose quotient by the step angle is fractional is the angle of no step index |
| `Planner.ResolveTarget` | stepper_motor.py:118-135 | NoTarget iff neither form is given, BothTargets iff both are; a step index passes unchanged; DegreeOutOfRange iff the angle is outside [0, 360]; a resolved angle gives an index in [0, N] whose angle is exactly the given one; for an angle in [0, 360], DegreeNotStepMultiple iff no index has that angle; no other error is possible |
| `Planner.Plan` | stepper_motor.py:114-154 | HomeNotSet iff home is unset; then the target errors; then StepIndexOutOfRange exactly when the target differs from the current position and lies outside [0, N); a resolved target that is the current position or lies in [0, N) is accepted with a count below N |
| `Planner.PlanReachesTarget` | stepper_motor.py:137-154 | a planned count, stepped in the chosen direction, ends on the target; it is 0 iff the target is the current position; no smaller positive count reaches the target |
| `Planner.DirectedDistance` | stepper_motor.py:145-154 | for a different target, the directed distance is in [1, N-1], reaches the target and is the first count that does |
| `Planner.DistanceByCases` | stepper_motor.py:145-154 | the modular distances equal the code's four cases (target-current, N-current+target, current+(N-target), current-target), and the two directions sum to N |
| `Planner.FullCircleDegreeRejected` | stepper_motor.py:124-141 | 360 degrees resolves to index N and the move fails with StepIndexOutOfRange from any position |
| `Planner.ExampleClockwise` | stepper_motor.py:145-147 | N=200, from 0 clockwise to index 50: 50 pulses |
| `Planner.ExampleCounterClockwiseWrap` | stepper_motor.py:150-152 | N=200, from 10 counter-clockwise to index 150: 10 + (200-150) = 60 pulses |
| `Planner.ExampleDegrees` | stepper_motor.py:124-133 | N=200: 90 degrees resolves to index 50, 91 degrees is not a step multiple |
| `Timing.HalfStepDelay` | stepper_motor.py:79-86 | N pulses of two half-delays at rpm take 60/rpm seconds; the delay is positive iff rpm is, negative iff rpm is |
| `Timing.DelayDecreasesWithRpm` | stepper_motor.py:79-86 | a higher rpm gives a strictly shorter delay |
| `Timing.DelayDecreasesWithSteps` | stepper_motor.py:79-86 | more steps per revolution give a strictly shorter delay |
| `StepperMotorModel.StepStatus` | stepper_motor.py:46-65 | RpmAboveMax iff a maximum is set and exceeded; success iff not refused and rpm is positive, or rpm is negative with no pulse due |
| `StepperMotorModel.UnboundedSpeedNeverRefused` | stepper_motor.py:46-48 | without max_rpm no speed is refused, and a positive speed always succeeds |
| `StepperMotorModel.StepperMotor.constructor` | stepper_motor.py:11-37 | home unset, no pulses yet, driver enabled iff it holds position |
| `StepperMotorModel.StepperMotor.SetCurrentPositionAsHome` | stepper_motor.py:88-89 | the position becomes 0 whatever it was, so a second call changes nothing; nothing else changes |
| `StepperMotorModel.StepperMotor.UpdatePosition` | stepper_motor.py:91-104 | no-op while home is unset; otherwise the position becomes Advance of the old one, within [0, N) |
| `StepperMotorModel.StepperMotor.Step` | stepper_motor.py:44-71 | outcome is StepStatus; on success exactly max(steps, 0) pulses are emitted (range(steps) runs no iteration for a negative count), the position moves by that many steps and the driver stays enabled iff it holds position; on failure the position and pulse count are unchanged |
| `StepperMotorModel.StepperMotor.Rotate` | stepper_motor.py:76-77 | outcome is StepStatus of rotations*N steps; the position is unchanged in every case; on success max(rotations*N, 0) pulses and the driver stays enabled iff it holds position; on failure no pulse, and the enable line as for Step |
| `StepperMotorModel.StepperMotor.DoOneRotation` | stepper_motor.py:73-74 | outcome is StepStatus of N steps; the position is unchanged in every case; on success N pulses and the driver stays enabled iff it holds position; on failure no pulse, and the enable line as for Step |
| `StepperMotorModel.StepperMotor.GoToPosition` | stepper_motor.py:106-154 | a failed plan returns its error and changes nothing; "already there" succeeds with zero pulses whatever the speed; otherwise the outcome is StepStatus of the planned count, the enable line behaves as in Step, and on success the motor is at the requested target |

## Left out

- Pin numbering mode, pin setup and the direction-pin writes are not modelled. The enable line is the `enabled` flag. The pulse line is the `pulses` counter of completed pulses. The pin numbers are not kept.
- Sleeps are not modelled as time. Only the failure of a negative sleep is kept.
- When a negative rpm makes the first sleep fail, the source has already driven the pulse line high. The model counts completed pulses only, so this half pulse is not represented.
- Floating point: speeds, the delay and angles are exact reals. The float test `degree / step_angle != int(degree / step_angle)` is idealised as an exact-multiple test with index `floor(degree * N / 360)`. Angles that float rounding misjudges are not captured.
- `StepperMotorModel.StepperMotor.Step`, `Rotate`: step and rotation counts are integers. A fractional count, which makes `range` raise a TypeError in the source, is not modelled.
- `Planner.ResolveTarget`: a step index is an integer. A fractional index is not modelled.
- `StepperMotorModel.StepperMotor.constructor` requires a positive steps-per-revolution. The source does not check it, but a zero value breaks the delay computation and the counter.
- The `example.py` script only constructs a motor and calls `step`; it is not modelled.
- Concurrency is not modelled: the controller is single-threaded by design.
