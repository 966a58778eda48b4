/** The two result shapes the modelled programs use: a value that may be absent, and a
    value or the text of the error that was raised instead. */
module Outcomes {

  datatype Option<+T> = None | Some(value: T)

  datatype Result<+T> = Ok(value: T) | Err(error: string)
}
