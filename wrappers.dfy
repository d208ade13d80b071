/**
 * Small value types shared by every module: optional values, used for lookups
 * that may find nothing and for oracles that may fail; the status and message of
 * a handler's JSON reply; and a request body after parsing and validation.
 */
module Wrappers {

  datatype Option<+T> = None | Some(value: T)

  /** The HTTP status and the `message` field of a handler's JSON reply. */
  datatype Reply = Reply(status: int, message: string)

  /**
   * A request body as `BodyParser` and `ValidateStruct` leave it: accepted, or
   * rejected with the message the handler returns under 400.
   */
  datatype Checked<+T> = Parsed(value: T) | Invalid(message: string)
}
