/**
 * Values shared by the stepper-motor model: optional values (the Python
 * `None` markers for "home not set" and "no max rpm"), the closed set of
 * errors the controller raises, and the outcome of a motion command.
 */
module MotorTypes {

  datatype Option<T> = None | Some(value: T)

  datatype Result<T> = Ok(value: T) | Err(error: Error)

  /**
   * One variant per error a motion command can end with. Most are raised by
   * the controller's own checks; ZeroRpm and NegativeDelay come from the
   * runtime (the division 60 / rpm, and the sleep refusing a negative delay).
   */
  datatype Error =
    | RpmAboveMax            // ValueError: desired rpm is higher than max_rpm
    | ZeroRpm                // ZeroDivisionError in the delay computation (60 / rpm)
    | NegativeDelay          // ValueError from the first sleep when rpm < 0
    | HomeNotSet             // AttributeError: home position has not been set
    | NoTarget               // ValueError: neither a step index nor a degree
    | BothTargets            // ValueError: a step index and a degree together
    | DegreeOutOfRange       // IndexError: degree outside [0, 360]
    | DegreeNotStepMultiple  // ValueError: degree not a multiple of the step angle
    | StepIndexOutOfRange    // IndexError: step index outside [0, N - 1]

  /** What a motion command reports: it returned normally, or it raised. */
  datatype Status = Done | Failed(error: Error)
}
