/** Failure-carrying results shared by every module.

    JavaScript code in the engine reports errors by throwing; the model returns
    an `Err` that names the kind of exception instead. */
module Wrappers {

  /** Optional value; `None` stands for a missing value, `null` or a
      non-finite (NaN / Infinity) number, as each use documents. */
  datatype Option<+T> = None | Some(value: T)

  /** The JavaScript exception kinds the engine can raise. */
  datatype JsError =
    | TypeError(message: string)
    | ReferenceError(message: string)
    | RangeError(message: string)
    | Thrown(message: string)

  /** Either a value or the exception the source would throw. */
  datatype Result<+T> = Ok(value: T) | Err(error: JsError) {
    predicate IsFailure() { Err? }

    function PropagateFailure<U>(): Result<U>
      requires Err?
    {
      Err(error)
    }

    function Extract(): T
      requires Ok?
    {
      value
    }
  }
}
