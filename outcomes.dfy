/** Shared value types: an optional value, the success-or-error outcome of an
    operation that may raise, and raw file contents. */
module Outcomes {

  datatype Option<+T> = None | Some(value: T) {
    /** The value held, or `default` when there is none. */
    function GetOr(default: T): T {
      match this
      case Some(v) => v
      case None => default
    }
  }

  /** What an operation that may raise produced: a value, or an error
      identified by its message. */
  datatype Outcome<+T> = Ok(value: T) | Err(message: string)

  /** The `options` object of an enhance request, a map from option name
      to value that nobody examines. */
  type Options = map<string, string>

  /** Raw file contents, as saved to and read from disk. */
  type Bytes = seq<bv8>
}
