/** Value types shared by the Rust engine (src/lib.rs): the `State` enum that drives
    both the calculator buffer and the arithmetic unit, the two error kinds, and the
    Option/Result wrappers the engine returns. */
module Base {

  /** src/lib.rs `State`. */
  datatype State =
    | None
    | Value(value: real)
    | Plus
    | Minus
    | Multiply
    | Divide
    | Power
    | Comma
    | Remove
    | Equal
    | ClearAll

  /** src/lib.rs `CalculationError`: the only two ways an evaluation fails. */
  datatype CalculationError = InvalidExpression | DivideByZero

  datatype Option<T> = None | Some(value: T)

  datatype Result<T> = Ok(value: T) | Err(error: CalculationError)

  /** The text of a single character. */
  function Str(c: char): string { [c] }
}
