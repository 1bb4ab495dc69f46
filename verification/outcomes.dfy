/** Python's optional values, exceptions and return conventions, as values. */
module Outcomes {

  /** A value that may be absent (Python's None). */
  datatype Option<T> = None | Some(value: T) {
    function GetOr(default: T): T {
      match this
      case Some(v) => v
      case None => default
    }
  }

  /** The exceptions the modelled code can raise. */
  datatype Error =
    | IndexError                      // a list or string index past the end
    | ValueError                      // str.index found no match
    | KeyError                        // a dict lookup of a missing key
    | TypeError                       // iterating over or joining None
    | AttributeError                  // reading an attribute the object never defines
    | AssertionError(message: string) // a failed `assert ..., message`
    | NoSignals                       // Exception('No signals given')

  /** A call that either returns a value or raises. */
  datatype Result<T> = Ok(value: T) | Err(error: Error)
}
