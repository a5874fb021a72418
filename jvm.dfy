/** Runtime notions of the Kotlin/JVM code being modelled: nullable values,
    the exceptions the handlers can raise, and the range of a 64-bit `Long`. */
module Jvm {

  /** A nullable value (`T?`). */
  datatype Option<T> = None | Some(value: T)

  /** The exceptions that the modelled code can let escape. */
  datatype Exception =
    | NullPointer        // `.asText()` on a JSON field that is absent
    | NumberFormat       // `String.toLong()` on text that is not a Long
    | IllegalArgument    // `SerializationUtils.deserialize` on bytes that are not a Java object stream

  /** How a call that returns `Unit` ended. */
  datatype Outcome = Returned | Threw(exception: Exception)

  /** How a call that returns a value ended. */
  datatype Result<T> = Ok(value: T) | Err(exception: Exception)

  const MinLong: int := -0x8000_0000_0000_0000
  const MaxLong: int := 0x7FFF_FFFF_FFFF_FFFF

  /** The values a Kotlin `Long` can hold. */
  predicate InLong(x: int) {
    MinLong <= x <= MaxLong
  }
}
