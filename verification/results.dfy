/** Optional references and the exceptions the builder raises. */
module Results {

  /** A Java reference that may be null. */
  datatype Option<+T> = None | Some(value: T)

  /** The exceptions the page-state builder can throw at its caller. */
  datatype Fault =
    | IllegalArgument   // init with a null or unresolvable host
    | IllegalState      // set*View before init
    | NullPointer       // init on a screen whose root has no first child
    | IndexOutOfBounds  // the host parent rejects the recorded insertion index

  /** The outcome of a builder call: the updated value or the exception it threw. */
  datatype Result<+T> = Ok(value: T) | Err(fault: Fault)
}
