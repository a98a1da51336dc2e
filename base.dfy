/** Result and error values shared by the whole model.
    A Python exception that escapes a handler is modelled as an `Err`
    carrying the kind of exception that was raised. */
module Base {

  datatype Option<+T> = None | Some(value: T)

  /** The Python exceptions the modelled code can raise. */
  datatype Fault =
    | KeyError(key: string)   // a missing dictionary key or request header
    | TypeError               // indexing a non-object, or compare_digest on non-ASCII text
    | JsonDecodeError         // the request body is not JSON

  datatype Result<+T> = Ok(value: T) | Err(fault: Fault)

  /** One byte of a digest. */
  newtype byte = x: int | 0 <= x < 256
}
