/**
 * Value wrappers shared by the login helper and the search facade: an
 * optional value (a JavaScript `null`/`undefined` or a present value), the
 * outcome of an operation that can throw, and what a JavaScript `throw`
 * carries.
 */
module Wrappers {

  datatype Option<+T> = None | Some(value: T)

  datatype Result<+R, +E> = Success(value: R) | Failure(error: E)

  /** A thrown JavaScript value: an `Error` instance with its message, or any other value. */
  datatype Thrown = ErrorObject(message: string) | OtherValue

  /** JavaScript truthiness of an optional string: absent and "" are both falsy. */
  predicate Truthy(v: Option<string>) {
    v.Some? && v.value != ""
  }
}
