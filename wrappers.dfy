/** Java's null references and thrown exceptions, as values. */
module Wrappers {

  /** A reference that may be null. */
  datatype Nullable<+T> = Null | Value(value: T)

  /** The exceptions the modelled code can throw. */
  datatype Exception =
    | IllegalArgument          // java.lang.IllegalArgumentException
    | NullPointer              // java.lang.NullPointerException
    | ConcurrentModification   // java.util.ConcurrentModificationException
    | UnknownArchiveFormat     // the bare java.lang.Error of an unsupported archive extension

  /** A call that either returns normally or throws. */
  datatype Result<+T> = Ok(value: T) | Err(error: Exception)
}
