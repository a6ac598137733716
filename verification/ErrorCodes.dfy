/** The stable error codes of the environment, and results that may carry one. */
module ErrorCodes {
  datatype ErrorCode =
    | BadSchema | UnsupportedTool | AddressNotDisclosed | IllegalCommand | QueueFull | UnavailableCapability
    | BudgetExceeded | InternalSimulatorError

  datatype Result<+T> = Ok(value: T) | Err(code: ErrorCode)

  /** The codes that end the episode; every other one refuses a single call. */
  predicate IsTerminal(code: ErrorCode) { code == BudgetExceeded || code == InternalSimulatorError }
}
