/** What a `catch` block can receive: an `Error` object, a thrown string, or any other value. */
module Errors {
  datatype Thrown = ErrorObject(message: string) | ThrownText(text: string) | OtherValue
}
