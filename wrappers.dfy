/** Option and Result, and the kinds of runtime failure the Java client can raise. */
module Wrappers {

  datatype Option<+T> = None | Some(value: T) {
    function GetOr(default: T): T {
      match this
      case Some(v) => v
      case None => default
    }
  }

  /** The ways an operation of the client ends abnormally. Each names the Java
      exception (or swallowed exception) it stands for. */
  datatype Error =
    | TransportFailure   // RestTemplate.exchange threw (connection failure, 4xx/5xx status)
    | NullDereference    // a NullPointerException: a null page, list or array was dereferenced
    | ClassCast          // a ClassCastException: a JSON node or a decoded object of the wrong kind
    | IndexOutOfBounds   // a StringIndexOutOfBoundsException from String.substring
    | DecodeFailure      // the payload does not have the shape Jackson needs
    | OutOfFuel          // the model's bound on the number of pages was reached (no Java counterpart)

  datatype Result<+T> = Ok(value: T) | Err(error: Error) {
    predicate IsFailure() { Err? }
    function PropagateFailure<U>(): Result<U>
      requires Err?
    {
      Err(error)
    }
    function Extract(): T
      requires Ok?
    {
      value
    }
  }
}
