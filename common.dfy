/** Small value wrappers shared by the validator and the router model. */
module Common {

  /** An absent-or-present value: `undefined`/`null` versus a value. */
  datatype Option<+T> = None | Some(value: T)

  /** The outcome of a procedure: a value, or the error it throws. */
  datatype Result<+T, +E> = Ok(value: T) | Err(error: E)

  /** `\d` in a JavaScript regular expression without the `u` flag: ASCII 0-9. */
  predicate IsDigit(c: char)
  {
    '0' <= c <= '9'
  }

  predicate AllDigits(s: string)
  {
    forall i :: 0 <= i < |s| ==> IsDigit(s[i])
  }
}
