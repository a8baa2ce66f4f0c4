/** Failure-carrying values shared by the ledger modules. */
module Results {

  /** A value that may be absent: the model of a Java reference that may be null. */
  datatype Option<+T> = None | Some(value: T)
}
