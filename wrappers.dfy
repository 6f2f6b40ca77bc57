/** Optional values and success/failure outcomes shared by the ledger modules. */
module Wrappers {

  datatype Option<+T> = None | Some(value: T)

  /** The outcome of a ledger operation: a value, or the reason it was refused. */
  datatype Result<+T, +E> = Ok(value: T) | Err(error: E)
}
