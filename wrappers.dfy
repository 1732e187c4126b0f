/** Option, usable with `:-`, for the places where the program either has a value or raises. */
module Wrappers {

  datatype Option<+T> = None | Some(value: T) {

    predicate IsFailure() {
      None?
    }

    function PropagateFailure<U>(): (r: Option<U>)
      requires None?
    {
      None
    }

    function Extract(): (r: T)
      requires Some?
    {
      value
    }
  }
}
