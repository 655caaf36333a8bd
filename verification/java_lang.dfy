/**
 * The few pieces of Java semantics the update checker depends on:
 * 32-bit `int`, exceptions whose message may be null, and string
 * concatenation with a null operand.
 */
module JavaLang {
  import opened Wrappers

  /** Java's `int`: version codes are compared as 32-bit signed integers. */
  newtype int32 = x: int | -0x8000_0000 <= x < 0x8000_0000

  /** A caught exception, reduced to what the code reads of it: `e.getMessage()`, which may be null. */
  datatype Fault = Fault(message: Option<string>)

  /** How Java renders a possibly-null string operand of `+`: a null reference becomes "null". */
  function JavaString(s: Option<string>): (r: string)
    ensures s.Some? ==> r == s.value
    ensures s.None? ==> r == "null"
  {
    match s
    case None => "null"
    case Some(t) => t
  }
}
