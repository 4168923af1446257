/** Value types shared by every part of the model: bytes, identifiers, and the
    result types that stand for FluentResults' Result and for exceptions thrown
    by collaborators. */
module Common {

  newtype byte = x: int | 0 <= x < 256

  /** A byte[] (never null in the model). */
  type Bytes = seq<byte>

  /** System.Guid: a 128-bit identifier that the core only compares for equality. */
  newtype Guid = x: int | 0 <= x < 0x1_0000_0000_0000_0000_0000_0000_0000_0000

  /** A nullable reference: None is null. */
  datatype Option<+T> = None | Some(value: T)

  /** The outcome of a call into a collaborator that may throw: the core only
      distinguishes "it threw" from "it returned this value". */
  datatype Attempt<+T> = Thrown | Returned(value: T) {
    predicate IsFailure() {
      Thrown?
    }

    function PropagateFailure<U>(): Attempt<U>
      requires Thrown?
    {
      Thrown
    }

    function Extract(): T
      requires Returned?
    {
      value
    }
  }

  /** FluentResults' Result<T>: a value or one error. */
  datatype Result<+T, +E> = Success(value: T) | Failure(error: E) {
    predicate IsFailure() {
      Failure?
    }

    function PropagateFailure<U>(): Result<U, E>
      requires Failure?
    {
      Failure(error)
    }

    function Extract(): T
      requires Success?
    {
      value
    }
  }

  /** FluentResults' value-less Result: Ok or one error. */
  datatype Outcome<+E> = Pass | Fail(error: E)

  /** No value occurs twice in `s`. */
  ghost predicate Distinct<T>(s: seq<T>) {
    forall i, j :: 0 <= i < j < |s| ==> s[i] != s[j]
  }

  /** `x` occurs at two different positions of `s`. */
  ghost predicate Repeated<T>(s: seq<T>, x: T) {
    exists i, j :: 0 <= i < j < |s| && s[i] == x && s[j] == x
  }
}
