/** Result types shared by the model. */
module Outcomes {

  /** A value or its absence: Go's nil. */
  datatype Option<+T> = None | Some(value: T)

  /** A Go `(value, error)` pair; the text of an error is not modelled. */
  datatype Result<+T> = Ok(value: T) | Err

  /** How a call ends, or does not, when it can also index a slice out of range or go round in a loop forever. */
  datatype Outcome<+T> = Returned(result: Result<T>) | Panicked | Hangs {
    predicate Succeeds() {
      Returned? && result.Ok?
    }

    /** The same for a caller that passes a failure on. */
    function Propagate<U>(): (o: Outcome<U>)
      requires !Succeeds()
      ensures !o.Succeeds()
    {
      match this
      case Returned(_) => Returned(Err)
      case Panicked => Panicked
      case Hangs => Hangs
    }
  }
}
