/** The two failure-carrying results used by every other module. */
module Wrappers {

  datatype Option<+T> = None | Some(value: T)

  /** The source's (value, error) pairs; errors are redacted constants there, so only their kind is kept. */
  datatype Result<+T> = Ok(value: T) | Err(error: Error)

  datatype Error =
    | Invalid      // malformed or incomplete model input
    | Conflict     // stale fence or concurrent publisher
    | Unavailable  // a read that did not give a complete answer
    | Uncertain    // a write whose result is not known
}
