/** Small failure-carrying datatypes shared by the authentication modules. */
module Wrappers {

  /** A value that may be absent; stands for a Java reference that may be null. */
  datatype Option<+T> = None | Some(value: T)

  /** The completion of an asynchronous client call: it failed, or it succeeded with a result. */
  datatype Outcome<+T> = Failed | Succeeded(result: T)
}
