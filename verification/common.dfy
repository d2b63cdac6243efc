/** Option and Result values shared by every module of the model. */
module Common {

  datatype Option<+T> = None | Some(value: T)

  /** The outcome of an operation that may throw: a value, or the message of the error. */
  datatype Result<+T> = Ok(value: T) | Err(error: string)

  /** A JavaScript value as it reaches the code in this model (no floats, no objects). */
  datatype JsValue = JsString(s: string) | JsInt(n: int) | JsBool(b: bool) | JsNull
}
