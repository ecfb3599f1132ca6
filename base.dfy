/** Shared vocabulary of the layout model: the exceptions the Java code can
    raise, modelled as values, result wrappers, points and Java chars and ints. */
module Base {

  /** The exceptions LayoutProcessor raises or lets through, as values. */
  datatype Error =
    | AlreadyEnabled                       // UnsupportedOperationException("... already enabled")
    | NotFound(locator: string)            // IOException "not found as file or resource"
    | OpenFailed(locator: string)          // an IOException while opening a file or URL stream
    | FontCreationFailed(locator: string, cause: Error)  // RuntimeException wrapping the cause
    | FontFormat                           // the font library could not build a font from the bytes
    | NullPointer                          // NullPointerException (missing cache entry, null array)
    | IndexOutOfBounds                     // ArrayIndexOutOfBounds / IndexOutOfBounds
    | NegativeArraySize                    // NegativeArraySizeException

  /** A value or the exception that replaced it. */
  datatype Result<T> = Success(value: T) | Failure(error: Error)

  /** Normal completion of a void method, or the exception it threw. */
  datatype Outcome = Pass | Fail(error: Error)

  datatype Option<T> = None | Some(value: T)

  /** java.awt.geom.Point2D, with doubles read as exact reals. */
  datatype Point = Point(x: real, y: real)

  /** A Java char: one UTF-16 code unit (surrogates included). */
  newtype JChar = c: int | 0 <= c < 0x1_0000

  predicate IsHighSurrogate(c: JChar) { 0xD800 <= c <= 0xDBFF }
  predicate IsLowSurrogate(c: JChar) { 0xDC00 <= c <= 0xDFFF }

  /** A Java int flag word; bit operations are those of 32-bit two's complement. */
  type Int32Bits = bv32

  const INT_MIN: int := -0x8000_0000
  const INT_MAX: int := 0x7FFF_FFFF

  /** Sum of a sequence of integers, first element first. */
  function Sum(s: seq<int>): int
  {
    if s == [] then 0 else Sum(s[..|s| - 1]) + s[|s| - 1]
  }

  lemma {:induction false} SumNonNegative(s: seq<int>)
    requires forall i :: 0 <= i < |s| ==> s[i] >= 0
    ensures Sum(s) >= 0
  {
    if s != [] {
      SumNonNegative(s[..|s| - 1]);
    }
  }
}
