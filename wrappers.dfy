/** Option and Result, used wherever the compiler returns null or throws. */
module Wrappers {

  datatype Option<T> = None | Some(value: T)
  {
    predicate IsSome() { Some? }

    function GetOr(default: T): T
    {
      match this
      case Some(v) => v
      case None => default
    }
  }

  /** The exceptions the modelled code can raise, by their JVM or Python class. */
  datatype Failure =
    | ArithmeticException        // Kotlin integer division by zero
    | IllegalArgumentException   // a failed `require`
    | IllegalStateException      // an explicit `throw` in a `when`
    | NoSuchElementException     // first()/last() on an empty list
    | NotImplementedError        // Kotlin TODO() or Python NotImplementedError
    | ValueError                 // Python ValueError
    | StackOverflowError         // a recursion that never reaches its base case
    | UnsupportedOperationException // reduce() on an empty list
    | ClassCastException         // a failed `as` cast
    | ZeroDivisionError          // Python division by zero
    | TypeError                  // Python operator applied to unsupported operands
    | AssertionError             // a failed Python `assert`

  datatype Result<T> = Ok(value: T) | Err(error: Failure)
  {
    predicate IsFailure() { Err? }

    function PropagateFailure<U>(): Result<U>
      requires Err?
    {
      Err(error)
    }

    function Extract(): T
      requires Ok?
    {
      value
    }
  }
}
