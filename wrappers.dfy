/** Option and Result values shared by every module of the model. */
module Wrappers {
  datatype Option<T> = None | Some(value: T)

  /**
   * The outcome of an operation of the source that can raise: `Err` stands
   * for an exception or a failed `assert`; `msg` names the cause.
   */
  datatype Result<T> = Ok(value: T) | Err(msg: string)
}
