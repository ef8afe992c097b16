/** Java's nullable references and thrown exceptions, as values. */
module Wrappers {

  /** A nullable reference: `None` stands for Java's `null`. */
  datatype Option<+T> = None | Some(value: T)

  /** The outcome of a call that may throw: `Failure` carries what was thrown. */
  datatype Result<+T, +E> = Success(value: T) | Failure(error: E)

  /** The argument of a Java `equals(Object o)`: null, an object of the same class, or one of another class. */
  datatype Other<T> = NullRef | SameClass(obj: T) | OtherClass
}
