/**
 * The absolute-position planner: resolving a target given as a step index or
 * as an angle, and the pulse count that reaches it in the caller's direction.
 */
module Planner {
  import opened MotorTypes
  import opened Modular
  import opened Position

  /** The angle, in degrees, of a step index on a motor with n steps per revolution. */
  function StepsToDegrees(n: nat, k: int): real
    requires n > 0
  {
    (k as real) * 360.0 / (n as real)
  }

  /** An angle whose step count d / (360 / n) has a fractional part is no step index's angle. */
  lemma NoWholeStepCount(n: nat, d: real)
    requires n > 0
    requires d / (360.0 / (n as real)) != (d / (360.0 / (n as real))).Floor as real
    ensures forall k: int :: StepsToDegrees(n, k) != d
  {
    forall k: int
      ensures StepsToDegrees(n, k) != d
    {
      DegreesToSteps(n, k);
    }
  }

  /** Dividing a step index's angle by the step angle gives the index back. */
  lemma DegreesToSteps(n: nat, k: int)
    requires n > 0
    ensures StepsToDegrees(n, k) / (360.0 / (n as real)) == k as real
    ensures (k as real).Floor == k
  {
  }

  /**
   * Turns the caller's target into a step index: exactly one of the two forms
   * must be given, an angle must lie in [0, 360] and be a whole number of step
   * angles (360 / n degrees). A step index is passed on unchecked; its range
   * is checked later, after the comparison with the current position.
   */
  function ResolveTarget(n: nat, stepIndex: Option<int>, degree: Option<real>): (r: Result<int>)
    requires n > 0
    ensures r == Err(NoTarget) <==> stepIndex.None? && degree.None?
    ensures r == Err(BothTargets) <==> stepIndex.Some? && degree.Some?
    ensures stepIndex.Some? && degree.None? ==> r == Ok(stepIndex.value)
    ensures r == Err(DegreeOutOfRange) <==>
              stepIndex.None? && degree.Some? && (degree.value < 0.0 || degree.value > 360.0)
    ensures r.Ok? && degree.Some? ==> 0 <= r.value <= n && StepsToDegrees(n, r.value) == degree.value
    ensures r == Err(DegreeNotStepMultiple) ==>
              degree.Some? && forall k: int :: StepsToDegrees(n, k) != degree.value
    ensures stepIndex.None? && degree.Some? && 0.0 <= degree.value <= 360.0 ==>
              (r == Err(DegreeNotStepMultiple) <==> forall k: int :: StepsToDegrees(n, k) != degree.value)
    ensures r.Err? ==> r.error in {NoTarget, BothTargets, DegreeOutOfRange, DegreeNotStepMultiple}
  {
    if stepIndex.None? && degree.None? then Err(NoTarget)
    else if stepIndex.Some? && degree.Some? then Err(BothTargets)
    else if degree.Some? then
      var d := degree.value;
      if d < 0.0 || d > 360.0 then Err(DegreeOutOfRange)
      else
        var stepAngle := 360.0 / (n as real);
        var q := d / stepAngle;
        if q != q.Floor as real then
          NoWholeStepCount(n, d);
          Err(DegreeNotStepMultiple)
        else Ok(q.Floor)
    else Ok(stepIndex.value)
  }

  /**
   * The number of pulses an absolute move emits, or the error it raises, in
   * the order the checks are made: home set, one target form, angle checks,
   * then "already there" (no pulses), then the index range. The count goes
   * the caller's way round: (target - current) mod n clockwise and
   * (current - target) mod n counter-clockwise.
   */
  function Plan(n: nat, pos: Option<nat>, clockwise: bool, stepIndex: Option<int>, degree: Option<real>): (r: Result<nat>)
    requires n > 0 && (pos.Some? ==> pos.value < n)
    ensures r == Err(HomeNotSet) <==> pos.None?
    ensures pos.Some? && ResolveTarget(n, stepIndex, degree).Err? ==>
              r == Err(ResolveTarget(n, stepIndex, degree).error)
    ensures r == Err(StepIndexOutOfRange) <==>
              pos.Some? && ResolveTarget(n, stepIndex, degree).Ok? &&
              var t := ResolveTarget(n, stepIndex, degree).value; t != pos.value && !(0 <= t < n)
    ensures r.Ok? ==> r.value < n
    ensures pos.Some? && ResolveTarget(n, stepIndex, degree).Ok? ==>
              var t := ResolveTarget(n, stepIndex, degree).value;
              (t == pos.value || 0 <= t < n) ==> r.Ok?
  {
    match pos
    case None => Err(HomeNotSet)
    case Some(current) =>
      match ResolveTarget(n, stepIndex, degree)
      case Err(e) => Err(e)
      case Ok(target) =>
        if target == current then Ok(0)
        else if target < 0 || target > n - 1 then Err(StepIndexOutOfRange)
        else Ok(if clockwise then (target - current) % n else (current - target) % n)
  }

  /**
   * The planned count, emitted in the chosen direction, ends exactly on the
   * target; it is zero only when the motor is already there, and no smaller
   * positive count in that direction passes over the target.
   */
  lemma PlanReachesTarget(n: nat, current: nat, clockwise: bool, stepIndex: Option<int>, degree: Option<real>)
    requires n > 0 && current < n
    requires Plan(n, Some(current), clockwise, stepIndex, degree).Ok?
    ensures ResolveTarget(n, stepIndex, degree).Ok?
    ensures var target := ResolveTarget(n, stepIndex, degree).value;
            var count := Plan(n, Some(current), clockwise, stepIndex, degree).value;
            && 0 <= target < n
            && AdvanceMany(n, current, count, clockwise) == target
            && (count == 0 <==> target == current)
            && forall j: nat :: 0 < j < count ==> AdvanceMany(n, current, j, clockwise) != target
  {
    var target := ResolveTarget(n, stepIndex, degree).value;
    var count := Plan(n, Some(current), clockwise, stepIndex, degree).value;
    if target != current {
      DirectedDistance(n, current, target, clockwise);
      assert count == if clockwise then (target - current) % n else (current - target) % n;
    } else {
      assert count == 0;
    }
  }

  /**
   * For a target other than the current position, the directed distance
   * (target - current) mod n clockwise, (current - target) mod n otherwise, is
   * in [1, n - 1], reaches the target, and is the first count that does.
   */
  lemma DirectedDistance(n: nat, current: nat, target: nat, clockwise: bool)
    requires current < n && target < n && current != target
    ensures var count := if clockwise then (target - current) % n else (current - target) % n;
            && 1 <= count < n
            && AdvanceMany(n, current, count, clockwise) == target
            && forall j: nat :: 0 < j < count ==> AdvanceMany(n, current, j, clockwise) != target
  {
    var count := if clockwise then (target - current) % n else (current - target) % n;
    DistanceByCases(n, current, target);
    AdvanceManyClosedForm(n, current, count, clockwise);
    ModUnique(target, 0, target, n);
    if clockwise {
      assert current + count == target + n * (if target > current then 0 else 1);
      ModShift(target, if target > current then 0 else 1, n);
    } else {
      assert current - count == target + n * (if target > current then -1 else 0);
      ModShift(target, if target > current then -1 else 0, n);
    }
    forall j: nat | 0 < j < count
      ensures AdvanceMany(n, current, j, clockwise) != target
    {
      AdvanceManyClosedForm(n, current, j, clockwise);
      if clockwise {
        ModUnique(current + j, if current + j < n then 0 else 1, current + j - (if current + j < n then 0 else n), n);
      } else {
        ModUnique(current - j, if current - j >= 0 then 0 else -1, current - j + (if current - j >= 0 then 0 else n), n);
      }
    }
  }

  /**
   * The modular distances agree with the case split the controller makes:
   * clockwise it is target - current, or n - current + target when it wraps
   * through home; counter-clockwise it is current - target, or
   * current + (n - target) when it wraps. The two directions add up to one
   * revolution.
   */
  lemma DistanceByCases(n: nat, current: nat, target: nat)
    requires current < n && target < n && current != target
    ensures (target - current) % n == if target > current then target - current else n - current + target
    ensures (current - target) % n == if target > current then current + (n - target) else current - target
    ensures (target - current) % n + (current - target) % n == n
  {
  }

  /**
   * 360 degrees passes both angle checks but resolves to index n, which is
   * never the current position and fails the index range check.
   */
  lemma FullCircleDegreeRejected(n: nat, current: nat, clockwise: bool)
    requires n > 0 && current < n
    ensures ResolveTarget(n, None, Some(360.0)) == Ok(n)
    ensures Plan(n, Some(current), clockwise, None, Some(360.0)) == Err(StepIndexOutOfRange)
  {
    DegreesToSteps(n, n);
    assert StepsToDegrees(n, n) == 360.0;
  }

  /** With N = 200 at position 0, a clockwise move to index 50 takes 50 pulses. */
  lemma ExampleClockwise()
    ensures Plan(200, Some(0), true, Some(50), None) == Ok(50)
  {
  }

  /** With N = 200 at position 10, a counter-clockwise move to index 150 wraps: 10 + 50 pulses. */
  lemma ExampleCounterClockwiseWrap()
    ensures Plan(200, Some(10), false, Some(150), None) == Ok(60)
  {
  }

  /** With N = 200 the step angle is 1.8 degrees: 90 degrees is index 50, 91 degrees is rejected. */
  lemma ExampleDegrees()
    ensures ResolveTarget(200, None, Some(90.0)) == Ok(50)
    ensures ResolveTarget(200, None, Some(91.0)) == Err(DegreeNotStepMultiple)
  {
    DegreesToSteps(200, 50);
    assert StepsToDegrees(200, 50) == 90.0;
  }
}
