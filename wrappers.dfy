/** Shapes for the two ways a .NET call can come back without a plain value. */
module Wrappers {

  /** A C# reference of a nullable type: `null`, or a value. */
  datatype Nullable<+T> = Null | NonNull(value: T)

  /** A call that either returns a value or throws an exception. */
  datatype Outcome<+T, +E> = Returns(value: T) | Throws(exception: E)
}
