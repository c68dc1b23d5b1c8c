/** Optional values. `None` also stands for the error returns and panics of the modelled programs:
    a step that yields `None` is one the program does not survive. */
module Options {
  datatype Option<+T> = None | Some(value: T) {
    predicate IsFailure() { None? }

    function PropagateFailure<U>(): Option<U>
      requires None?
    {
      None
    }

    function Extract(): T
      requires Some?
    {
      value
    }
  }
}
