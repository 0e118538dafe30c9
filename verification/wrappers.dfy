/** Optional values, and results that either carry a value or name the exception
    the source would have raised. */
module Wrappers {

  datatype Option<+T> = None | Some(value: T)

  /** The exceptions the modelled code raises, each named after its source. */
  datatype Fault =
    | ValueError            // URL parsing, URL validation, missing installation, missing browser
    | TypeError             // a call with the wrong number of arguments, a read through `undefined`
    | AttributeError        // a call to a method the class does not define
    | IndexError            // `[0]` on an empty query result
    | KeyError              // a dictionary read of a missing key
    | RuntimeError          // the form container is missing after the wait
    | NavigationTimeout     // `page.goto` or `waitForSelector` ran out of time
    | HttpError             // `requests.get` failed or `raise_for_status` raised
    | InferenceError        // the inference service failed or answered off-schema
    | ValidationError       // a pydantic model rejected its input
    | IntegrityError        // a UNIQUE or NOT NULL constraint refused a write
    | MultipleResultsFound  // `one_or_none` met more than one row
    | LaunchError           // the browser process could not be started
    | ClipboardError        // the clipboard refused a non-text value
    | EndOfInput            // `input()` met the end of standard input
    | SyntaxError           // `querySelector` was given a selector it cannot parse

  datatype Result<+T> = Ok(value: T) | Err(error: Fault) {
    predicate IsFailure() { Err? }
    function PropagateFailure<U>(): Result<U>
      requires Err?
    {
      Err(error)
    }
    function Extract(): T
      requires Ok?
    {
      value
    }
  }
}
