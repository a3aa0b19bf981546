/** Small value types shared by every module of the model. */
module Common {

  /** A value that may be absent (`undefined` or `null` in the source). */
  datatype Option<T> = None | Some(value: T)

  /** The outcome of a call that may throw: its value, or the message of the error it raised. */
  datatype Outcome<T> = Ok(value: T) | Err(message: string)

  /** JavaScript `s || d` on a string: the empty string is falsy. */
  function OrText(s: string, d: string): string
  {
    if s != "" then s else d
  }

  /** JavaScript `o || d` on an optional string: `undefined` and `''` both give `d`. */
  function OptOr(o: Option<string>, d: string): string
  {
    if o.Some? && o.value != "" then o.value else d
  }

  /** An optional string is truthy when it is present and not empty. */
  predicate IsTruthyText(o: Option<string>)
  {
    o.Some? && o.value != ""
  }

  /** An optional number is truthy when it is present and not zero (negative numbers are truthy). */
  predicate IsTruthyNumber(o: Option<real>)
  {
    o.Some? && o.value != 0.0
  }
}
