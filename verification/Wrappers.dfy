/** Outcome types shared by the other modules. */
module Wrappers {
  datatype Option<+T> = None | Some(value: T) {
    predicate IsFailure() {
      None?
    }

    function PropagateFailure<U>(): Option<U>
      requires None?
    {
      None
    }

    function Extract(): T
      requires Some?
    {
      value
    }
  }

  /** Some(()) when the condition holds; for use with `:-`. */
  function Need(condition: bool): Option<()>
  {
    if condition then Some(()) else None
  }

  datatype Result<+T, +E> = Ok(value: T) | Err(error: E)
}
