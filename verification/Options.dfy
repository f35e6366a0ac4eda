/** Results of lookups and of calls that can fail, shared by every module. */
module Options {

  /** A value that may be absent: a missing object or an unset field. */
  datatype Option<+T> = None | Some(value: T)

  /** The outcome of a call that returns a value or an error. */
  datatype Result<+T> = Ok(value: T) | Err
}
