/** Values shared by every module of the model: optional values, and the
    exceptions the Python code raises, turned into an explicit error result. */
module Common {

  datatype Option<+T> = None | Some(value: T)

  /** The Python exceptions that the modelled code lets escape to its caller. */
  datatype Error =
    | AssertionFailed   // an `assert` statement of the source failed
    | KeyMissing        // `d[key]` on a dict without that key
    | NotADict          // indexing a value that is not a dict with a string key
    | NotAList          // `.append` on a value that is not a list
    | NoCapture         // `self.cap` used after it was released (AttributeError)
    | Undecodable       // a probe's JSON output could not be decoded or lacks the field
    | NotAnInteger      // `int(s)` on a string that is not a decimal integer
    | Unpicklable       // `pickle.load` failed or returned a record of the wrong shape
    | RecursionLimit    // Python's recursion limit was reached
    | Interrupted       // an exception raised by the decode backend (or an interrupt)
    | Runtime           // `RuntimeError` raised by `Video.get_data`
    | BadValue          // `ValueError` raised by the source itself
    | DivisionByZero    // `ZeroDivisionError`

  datatype Result<+T> = Ok(value: T) | Err(error: Error)

  /** The outcome of a procedure that returns nothing but may raise. */
  datatype Outcome = Done | Failed(error: Error)
}
