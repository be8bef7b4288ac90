/**
 * What a call in this core can throw, and the outcome of a call that either
 * returns or throws.
 */
module Exceptions {
  import opened Wrappers
  import opened JsonValues

  /** The protocol error codes this core raises (JSON-RPC 2.0 error codes, section 5.1). */
  datatype ErrorCode = InvalidRequest | InvalidParams | InternalError

  /**
   * A protocol-level error: code, message and optional structured detail.
   * `message` is the message as the code writes it; the SDK class, which the
   * error mapper constructs, shows it behind an "MCP error <code>: " prefix.
   */
  datatype McpError = McpError(code: ErrorCode, message: string, data: Option<Json>)

  /**
   * The validator's own error. Its `message` is the bare reason: the
   * constructor's parameter property overwrites the text given to `super`.
   */
  datatype ValidationError = ValidationError(field: string, message: string, value: Json)

  datatype Exception =
    | Validation(validationError: ValidationError)
    | Protocol(mcpError: McpError)
    /**
     * Any other object thrown (a plain `Error`, a network failure, ...), seen
     * through its `message` when that is a string, or as having none. A thrown
     * null or undefined and a non-string `message` are not expressible.
     */
    | Failure(message: Option<string>)

  /** The `message` property of a thrown value, absent when it has none. */
  function MessageOf(e: Exception): Option<string> {
    match e
    case Validation(v) => Some(v.message)
    case Protocol(m) => Some(m.message)
    case Failure(m) => m
  }

  /** A call either returns a value or throws. */
  datatype Outcome<+T> = Returned(value: T) | Threw(exception: Exception)
}
