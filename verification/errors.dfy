/** The error side of `LedgerResult`: the single "hash computation failure" kind that a
    `Hashable` encoding may report and that the tree-hashing operations propagate with `?`. */
module LedgerErrors {

  /** A failure reported while feeding a value to a digest context. The error kinds of the
      ledger crate are not part of this model; only the fact of failure and its message are. */
  datatype LedgerError = LedgerError(message: string)

  /** `LedgerResult<T>`: a value, or the error that stopped the computation. It is
      failure-compatible, so `:-` plays the part of Rust's `?`. */
  datatype Result<+T> = Ok(value: T) | Err(error: LedgerError) {

    predicate IsFailure() {
      Err?
    }

    function PropagateFailure<U>(): (r: Result<U>)
      requires Err?
      ensures r.Err? && r.error == error
    {
      Err(error)
    }

    function Extract(): T
      requires Ok?
    {
      value
    }
  }
}
