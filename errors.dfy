/** Error values and failure-carrying results shared by every module: the
    two sentinel errors of the programmatic entry points and the two errors
    of reading and validating an outline. What a collaborator whose code is
    not part of this model returns (an encoder, a writer, the filesystem)
    is whatever its `Outcome` function gives. */
module Errors {

  datatype Error =
    | NilNode                      // ErrNilNode
    | NotRoot                      // ErrNotRoot
    | InvalidNodeName(name: string)
    | MalformedHierarchy(line: nat)

  datatype Option<+T> = None | Some(value: T)

  /** The error return of a Go function whose only result is an `error`. */
  datatype Outcome = Pass | Fail(error: Error)

  datatype Result<+T> = Ok(value: T) | Err(error: Error)
}
