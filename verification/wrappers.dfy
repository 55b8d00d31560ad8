// The outcome types of the model. `Option` and `Result` stand for their Rust
// namesakes. `Run` is the outcome of executing Rust code that may panic: it
// either returns a value or panics, as an `unwrap` on `None` or `Err` does.
// Each type supports the `:-` operator, which stops at the first failure.
module Wrappers {

  datatype Option<+T> = None | Some(value: T) {
    predicate IsFailure() { None? }

    function PropagateFailure<U>(): Option<U>
      requires None?
    {
      None
    }

    function Extract(): T
      requires Some?
    {
      value
    }
  }

  datatype Result<+T, +E> = Ok(value: T) | Err(error: E) {
    predicate IsFailure() { Err? }

    function PropagateFailure<U>(): Result<U, E>
      requires Err?
    {
      Err(error)
    }

    function Extract(): T
      requires Ok?
    {
      value
    }
  }

  /** The outcome of running code that may panic. A panic carries no value:
      the process (here, the build script or the caller) is aborted. */
  datatype Run<+T> = Returns(value: T) | Panics {
    predicate IsFailure() { Panics? }

    function PropagateFailure<U>(): Run<U>
      requires Panics?
    {
      Panics
    }

    function Extract(): T
      requires Returns?
    {
      value
    }
  }

  /** `Option::unwrap`: the value, or a panic on `None`. */
  function Unwrap<T>(o: Option<T>): (r: Run<T>)
    ensures r.Panics? <==> o.None?
    ensures r.Returns? ==> o == Some(r.value)
  {
    match o
    case None => Panics
    case Some(v) => Returns(v)
  }

  /** Rust's `i32`. */
  newtype int32 = x: int | -0x8000_0000 <= x < 0x8000_0000
}
