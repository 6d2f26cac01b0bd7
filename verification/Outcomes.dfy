/** What a call of the generated decoding code can come to, and optional values. */
module Outcomes {
  datatype Option<+T> = None | Some(value: T)

  /** `Reject` is a returned error, `Panic` a slice or index out of range, and
      `Stuck` a group loop that advances by nothing and so never ends. */
  datatype Outcome<+T> = Ok(value: T) | Reject | Panic | Stuck {
    predicate IsFailure() {
      !Ok?
    }

    function PropagateFailure<U>(): (r: Outcome<U>)
      requires IsFailure()
      ensures r.IsFailure()
    {
      match this
      case Reject => Reject
      case Panic => Panic
      case Stuck => Stuck
    }

    function Extract(): T
      requires !IsFailure()
    {
      value
    }
  }
}
