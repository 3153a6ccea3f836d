/** Optional values, and the exceptions of the metrics tools as result values. */
module Results {

  datatype Option<+T> = None | Some(value: T)

  /** One constructor for each reason a reader throws. */
  datatype Error =
    | ExpectedString
    | UnterminatedEscape
    | IncompleteUnicode
    | InvalidUnicode
    | InvalidEscape
    | UnterminatedString
    | ExpectedContainer
    | MismatchedDelimiter
    | UnterminatedContainer
    | ExpectedObject
    | MissingValue
    | ExpectedColon
    | ExpectedComma
    | TrailingContent
    | MissingField
    | ExpectedBoolean
    | ExpectedNumber
    | NotUnsigned
    | NullScope
    | UnsupportedSchema

  datatype Result<+T> = Ok(value: T) | Fail(error: Error) {
    predicate IsFailure() {
      Fail?
    }

    function PropagateFailure<U>(): Result<U>
      requires Fail?
    {
      Fail(error)
    }

    function Extract(): T
      requires Ok?
    {
      value
    }
  }
}
