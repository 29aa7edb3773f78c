/** Failures the kernel reports instead of raising. */
module Errors {

  /** `EmptySeries`: `step_mean` reads `array[0]`, which raises `IndexError`
      on a series with no rows. */
  datatype Error = EmptySeries

  datatype Result<T> = Ok(value: T) | Err(error: Error)
}
