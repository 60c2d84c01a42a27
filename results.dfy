/** Option and Result values used where the Go code returns a value together
    with an `error`: `Err` carries the text of the error message. */
module Results {

  datatype Option<+T> = None | Some(value: T)

  datatype Result<+T> = Ok(value: T) | Err(msg: string)
}
