/** Option and Result types used to carry Python's `None` and raised exceptions
    through the model. Both are failure-compatible, so `:-` propagates the first
    error exactly like an uncaught `raise` unwinds a service call. */
module Wrappers {

  datatype Option<+T> = None | Some(value: T) {

    function GetOr(default: T): (r: T)
      ensures Some? ==> r == value
      ensures None? ==> r == default
    {
      match this
      case Some(v) => v
      case None => default
    }
  }

  datatype Result<+T, +E> = Success(value: T) | Failure(error: E) {

    predicate IsFailure() {
      Failure?
    }

    function PropagateFailure<U>(): Result<U, E>
      requires Failure?
    {
      Failure(error)
    }

    function Extract(): T
      requires Success?
    {
      value
    }
  }

  /** A failure-compatible check that carries no value: `:- Need(cond, err)`. */
  datatype Check<+E> = Pass | Fail(error: E) {

    predicate IsFailure() {
      Fail?
    }

    function PropagateFailure<U>(): Result<U, E>
      requires Fail?
    {
      Failure(error)
    }
  }

  /** Looks `key` up in `m`, failing with `error` when it is absent (the
      `query(...).first()` followed by `if not x: raise`). */
  function Get<K, V, E>(m: map<K, V>, key: K, error: E): (r: Result<V, E>)
    ensures r.Success? <==> key in m
    ensures r.Success? ==> r.value == m[key]
    ensures r.Failure? ==> r.error == error
  {
    if key in m then Success(m[key]) else Failure(error)
  }

  function Need<E>(condition: bool, error: E): (r: Check<E>)
    ensures r.Pass? <==> condition
    ensures r.Fail? ==> r.error == error
  {
    if condition then Pass else Fail(error)
  }
}
