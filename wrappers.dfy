/** Small failure-carrying datatypes shared by every module of the model. */
module Wrappers {

  /** A nullable reference of the source (`null` or a value). */
  datatype Option<+T> = None | Some(value: T)

  /** The outcome of an asynchronous platform call the model does not see into:
      it completed, or it threw an error carrying `message`. */
  datatype Status = Done | Failed(message: string)

  /** The value of a call that either returns `value` or throws `error`. */
  datatype Result<+T, +E> = Ok(value: T) | Err(error: E)
}
