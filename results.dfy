/** Failure-compatible wrappers used across the model. A `Result` failure
    stands for a Go runtime panic, which ends the scoring of a receipt. */
module Results {

  datatype Option<+T> = None | Some(value: T)

  /** The two kinds of runtime panic the scoring rules can raise. */
  datatype Panic =
    | IndexOutOfRange   // indexing element 0 of a nil slice
    | SliceOutOfRange   // slicing a string outside its bounds

  datatype Result<+T> = Ok(value: T) | Fail(panic: Panic) {

    predicate IsFailure() {
      Fail?
    }

    function PropagateFailure<U>(): Result<U>
      requires Fail?
    {
      Fail(panic)
    }

    function Extract(): T
      requires Ok?
    {
      value
    }
  }
}
