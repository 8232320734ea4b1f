/** The two shapes every operation below answers with: a value that may be absent,
    and a result that is either a value or the refusal the service raises. */
module Outcomes {

  datatype Option<+T> = None | Some(value: T)

  datatype Result<+T, +E> = Ok(value: T) | Refused(error: E)
}
