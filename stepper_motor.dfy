/**
 * The StepperMotor controller: a position counter that every pulse moves by
 * one step, relative moves that emit a number of pulses, and absolute moves
 * planned from the counter. Pin writes and sleeps are abstracted into the
 * `enabled` flag (the enable line) and the `pulses` counter (the pulse line).
 */
module StepperMotorModel {
  import opened MotorTypes
  import opened Position
  import opened Planner
  import opened Timing

  /** The number of iterations of a loop over range(steps): none for a negative count. */
  function PulseCount(steps: int): nat
  {
    if steps > 0 then steps else 0
  }

  /**
   * How a relative move ends: refused when a maximum speed is set and
   * exceeded; then a zero speed fails the delay computation; then a negative
   * speed makes the first sleep fail, if there is a pulse to emit at all.
   */
  function StepStatus(maxRpm: Option<real>, rpm: real, steps: int): (r: Status)
    ensures r == Failed(RpmAboveMax) <==> maxRpm.Some? && rpm > maxRpm.value
    ensures r == Done <==>
              !(maxRpm.Some? && rpm > maxRpm.value) && (rpm > 0.0 || (rpm < 0.0 && steps <= 0))
  {
    if maxRpm.Some? && rpm > maxRpm.value then Failed(RpmAboveMax)
    else if rpm == 0.0 then Failed(ZeroRpm)
    else if rpm < 0.0 && steps > 0 then Failed(NegativeDelay)
    else Done
  }

  /** Without a maximum speed, no request is refused for its speed, and a positive speed always succeeds. */
  lemma UnboundedSpeedNeverRefused(rpm: real, steps: int)
    ensures StepStatus(None, rpm, steps) != Failed(RpmAboveMax)
    ensures rpm > 0.0 ==> StepStatus(None, rpm, steps) == Done
  {
  }

  class StepperMotor {
    const stepsPerRevolution: nat
    const maxRpm: Option<real>
    const holdPosition: bool
    /** Steps from home, counted clockwise; None until home is set. */
    var stepsFromHome: Option<nat>
    /** Whether the driver is energised (the enable line is driven low). */
    var enabled: bool
    /** Pulses emitted on the pulse line since construction. */
    var pulses: nat

    ghost predicate Valid()
      reads this
    {
      stepsPerRevolution > 0 &&
      (stepsFromHome.Some? ==> stepsFromHome.value < stepsPerRevolution)
    }

    /** A new motor has no home; it holds position (is enabled) exactly when asked to. */
    constructor (stepsPerRevolution: nat, maxRpm: Option<real>, holdPosition: bool)
      requires stepsPerRevolution > 0
      ensures Valid()
      ensures this.stepsPerRevolution == stepsPerRevolution && this.maxRpm == maxRpm
      ensures this.holdPosition == holdPosition
      ensures stepsFromHome == None && enabled == holdPosition && pulses == 0
    {
      this.stepsPerRevolution := stepsPerRevolution;
      this.maxRpm := maxRpm;
      this.holdPosition := holdPosition;
      enabled := holdPosition;
      stepsFromHome := None;
      pulses := 0;
    }

    /** Marks the current position as home, whatever was known before; doing it twice is doing it once. */
    method SetCurrentPositionAsHome()
      requires Valid()
      modifies this`stepsFromHome
      ensures Valid() && stepsFromHome == Some(0)
    {
      stepsFromHome := Some(0);
    }

    /** Accounts for one pulse: a no-op while home is unset, else one modular step. */
    method UpdatePosition(clockwise: bool)
      requires Valid()
      modifies this`stepsFromHome
      ensures Valid()
      ensures old(stepsFromHome).None? ==> stepsFromHome == None
      ensures old(stepsFromHome).Some? ==>
                stepsFromHome == Some(Advance(stepsPerRevolution, old(stepsFromHome).value, clockwise))
    {
      if stepsFromHome.None? {
        return;
      }
      AdvanceIsNeighbour(stepsPerRevolution, stepsFromHome.value, clockwise);
      if clockwise {
        stepsFromHome := Some(stepsFromHome.value + 1);
        if stepsFromHome.value == stepsPerRevolution {
          stepsFromHome := Some(0);
        }
      } else {
        if stepsFromHome.value == 0 {
          stepsFromHome := Some(stepsPerRevolution);
        }
        stepsFromHome := Some(stepsFromHome.value - 1);
      }
    }

    /**
     * Emits `steps` pulses in one direction, updating the position after each.
     * On success the position has moved by that many steps and the driver is
     * left enabled only if it holds position. A refused speed changes nothing;
     * the two later failures leave the driver enabled with no pulse counted.
     */
    method Step(steps: int, clockwise: bool, rpm: real) returns (r: Status)
      requires Valid()
      modifies this
      ensures Valid()
      ensures r == StepStatus(maxRpm, rpm, steps)
      ensures r.Done? ==>
                && stepsFromHome == Moved(stepsPerRevolution, old(stepsFromHome), PulseCount(steps), clockwise)
                && pulses == old(pulses) + PulseCount(steps)
                && enabled == holdPosition
      ensures r.Failed? ==> stepsFromHome == old(stepsFromHome) && pulses == old(pulses)
      ensures r == Failed(RpmAboveMax) ==> enabled == old(enabled)
      ensures r.Failed? && r.error != RpmAboveMax ==> enabled
    {
      if maxRpm.Some? && rpm > maxRpm.value {
        return Failed(RpmAboveMax);
      }
      enabled := true;
      if rpm == 0.0 {
        return Failed(ZeroRpm);
      }
      var delay := HalfStepDelay(rpm, stepsPerRevolution);
      var count := PulseCount(steps);
      for i := 0 to count
        invariant Valid() && enabled
        invariant stepsFromHome == Moved(stepsPerRevolution, old(stepsFromHome), i, clockwise)
        invariant pulses == old(pulses) + i
        invariant delay < 0.0 ==> i == 0
      {
        if delay < 0.0 {
          return Failed(NegativeDelay);
        }
        pulses := pulses + 1;
        UpdatePosition(clockwise);
      }
      if !holdPosition {
        enabled := false;
      }
      return Done;
    }

    /** `rotations` whole revolutions: the position, when known, ends where it started. */
    method Rotate(rotations: int, clockwise: bool, rpm: real) returns (r: Status)
      requires Valid()
      modifies this
      ensures Valid()
      ensures r == StepStatus(maxRpm, rpm, rotations * stepsPerRevolution)
      ensures stepsFromHome == old(stepsFromHome)
      ensures r.Done? ==> pulses == old(pulses) + PulseCount(rotations * stepsPerRevolution)
      ensures r.Done? ==> enabled == holdPosition
      ensures r.Failed? ==> pulses == old(pulses)
      ensures r == Failed(RpmAboveMax) ==> enabled == old(enabled)
      ensures r.Failed? && r.error != RpmAboveMax ==> enabled
    {
      r := Step(rotations * stepsPerRevolution, clockwise, rpm);
      if r.Done? && old(stepsFromHome).Some? && rotations > 0 {
        FullTurns(stepsPerRevolution, old(stepsFromHome).value, rotations, clockwise);
      }
    }

    /** One whole revolution: the position, when known, ends where it started. */
    method DoOneRotation(clockwise: bool, rpm: real) returns (r: Status)
      requires Valid()
      modifies this
      ensures Valid()
      ensures r == StepStatus(maxRpm, rpm, stepsPerRevolution)
      ensures stepsFromHome == old(stepsFromHome)
      ensures r.Done? ==> pulses == old(pulses) + stepsPerRevolution
      ensures r.Done? ==> enabled == holdPosition
      ensures r.Failed? ==> pulses == old(pulses)
      ensures r == Failed(RpmAboveMax) ==> enabled == old(enabled)
      ensures r.Failed? && r.error != RpmAboveMax ==> enabled
    {
      r := Step(stepsPerRevolution, clockwise, rpm);
      if r.Done? && old(stepsFromHome).Some? {
        FullTurns(stepsPerRevolution, old(stepsFromHome).value, 1, clockwise);
      }
    }

    /**
     * Moves to an absolute position in the caller's direction. Every failure
     * of the plan leaves the motor untouched; an "already there" request
     * succeeds without pulses, whatever the speed; otherwise the planned count
     * is stepped, and on success the motor is at the requested target.
     */
    method GoToPosition(clockwise: bool, rpm: real, stepIndex: Option<int>, degree: Option<real>)
      returns (r: Status)
      requires Valid()
      modifies this
      ensures Valid()
      ensures var plan := Plan(stepsPerRevolution, old(stepsFromHome), clockwise, stepIndex, degree);
              && (plan.Err? ==> r == Failed(plan.error))
              && (plan == Ok(0) ==> r == Done)
              && (plan.Ok? && plan.value > 0 ==> r == StepStatus(maxRpm, rpm, plan.value))
              && (plan.Ok? && r.Done? ==> pulses == old(pulses) + plan.value)
              && (plan.Ok? && plan.value > 0 && r.Done? ==> enabled == holdPosition)
              && (plan.Ok? && plan.value > 0 && r.Failed? && r.error != RpmAboveMax ==> enabled)
              && ((plan.Err? || plan == Ok(0) || r == Failed(RpmAboveMax)) ==>
                    enabled == old(enabled))
      ensures r.Done? ==> stepsFromHome.Some? && ResolveTarget(stepsPerRevolution, stepIndex, degree) == Ok(stepsFromHome.value)
      ensures r.Failed? ==> stepsFromHome == old(stepsFromHome) && pulses == old(pulses)
    {
      if stepsFromHome.None? {
        return Failed(HomeNotSet);
      }
      var current := stepsFromHome.value;
      var resolved := ResolveTarget(stepsPerRevolution, stepIndex, degree);
      if resolved.Err? {
        return Failed(resolved.error);
      }
      var target := resolved.value;
      if target == current {
        return Done;
      }
      if target < 0 || target > stepsPerRevolution - 1 {
        return Failed(StepIndexOutOfRange);
      }
      DistanceByCases(stepsPerRevolution, current, target);
      PlanReachesTarget(stepsPerRevolution, current, clockwise, stepIndex, degree);
      var count: nat;
      if clockwise {
        if target > current {
          count := target - current;
        } else {
          count := stepsPerRevolution - current + target;
        }
      } else {
        if target > current {
          count := current + (stepsPerRevolution - target);
        } else {
          count := current - target;
        }
      }
      r := Step(count, clockwise, rpm);
    }
  }
}
