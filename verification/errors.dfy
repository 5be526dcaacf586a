/**
 * Error taxonomy and failure-compatible wrappers shared by the IPC list
 * decoder, the parquet reader front door and the lazy parquet scan.
 */
module Errors {

  /** The error kinds the modelled code raises or passes through. */
  datatype PolarsError =
    | OutOfSpec(msg: string)       // corrupted file or stream
    | ComputeError(msg: string)    // an array whose parts do not fit together
    | SchemaMismatch(msg: string)
    | ColumnNotFound(msg: string)
    | IoError(msg: string)
  {
    /** Rewrites the message and keeps the kind (`PolarsError::wrap_msg`). */
    function WrapMsg(f: string -> string): (e: PolarsError)
      ensures e.OutOfSpec? == OutOfSpec? && e.ComputeError? == ComputeError?
      ensures e.SchemaMismatch? == SchemaMismatch? && e.ColumnNotFound? == ColumnNotFound?
      ensures e.msg == f(msg)
    {
      match this
      case OutOfSpec(m) => OutOfSpec(f(m))
      case ComputeError(m) => ComputeError(f(m))
      case SchemaMismatch(m) => SchemaMismatch(f(m))
      case ColumnNotFound(m) => ColumnNotFound(f(m))
      case IoError(m) => IoError(f(m))
    }
  }

  datatype Option<+T> = None | Some(value: T) {
    function UnwrapOr(default: T): T {
      match this
      case Some(v) => v
      case None => default
    }
  }

  /** `PolarsResult<T>`: a value, or an error and nothing else. */
  datatype Result<+T> = Ok(value: T) | Err(error: PolarsError) {
    predicate IsFailure() {
      Err?
    }

    function PropagateFailure<U>(): Result<U>
      requires Err?
    {
      Err(error)
    }

    function Extract(): T
      requires Ok?
    {
      value
    }
  }
}
