/** Stand-ins for Java's nullable references and thrown exceptions. */
module Wrappers {

  /** A value that Java may leave `null`. */
  datatype Option<+T> = None | Some(value: T)

  /** A result that Java delivers either normally or by throwing. */
  datatype Result<+T, +E> = Ok(value: T) | Err(error: E)

  /** The unchecked exception the source throws when it dereferences a null list or room. */
  datatype JavaException = NullPointerException
}
