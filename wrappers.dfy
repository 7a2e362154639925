/** Option and Result, shaped after Rust's own, with the combinators the
    configuration loader chains together (`map`, `and_then`, `unwrap_or`, `?`). */
module Wrappers {

  datatype Option<T> = None | Some(value: T) {

    predicate IsFailure() {
      None?
    }

    function PropagateFailure<U>(): Option<U>
      requires None?
    {
      None
    }

    function Extract(): T
      requires Some?
    {
      value
    }

    /** Rust's `Option::map`. */
    function Map<U>(f: T -> U): (r: Option<U>)
      ensures r.Some? <==> Some?
      ensures Some? ==> r.value == f(value)
    {
      match this
      case Some(v) => Some(f(v))
      case None => None
    }

    /** Rust's `Option::and_then`. */
    function AndThen<U>(f: T -> Option<U>): (r: Option<U>)
      ensures None? ==> r.None?
      ensures Some? ==> r == f(value)
    {
      match this
      case Some(v) => f(v)
      case None => None
    }

    /** Rust's `Option::unwrap_or`. */
    function UnwrapOr(default: T): (r: T)
      ensures Some? ==> r == value
      ensures None? ==> r == default
    {
      match this
      case Some(v) => v
      case None => default
    }

    /** Rust's `Option::ok_or`. */
    function OkOr<E>(error: E): (r: Result<T, E>)
      ensures r.Success? <==> Some?
      ensures Some? ==> r.value == value
      ensures None? ==> r.error == error
    {
      match this
      case Some(v) => Success(v)
      case None => Failure(error)
    }
  }

  datatype Result<T, E> = Success(value: T) | Failure(error: E) {

    predicate IsFailure() {
      Failure?
    }

    function PropagateFailure<U>(): Result<U, E>
      requires Failure?
    {
      Failure(error)
    }

    function Extract(): T
      requires Success?
    {
      value
    }

    /** Rust's `Result::map_err`, the conversion `?` applies to an error. */
    function MapErr<F>(f: E -> F): (r: Result<T, F>)
      ensures r.Success? <==> Success?
      ensures Success? ==> r.value == value
      ensures Failure? ==> r.error == f(error)
    {
      match this
      case Success(v) => Success(v)
      case Failure(e) => Failure(f(e))
    }
  }

  /** Rust's `HashMap::get`. */
  function Get<K, V>(m: map<K, V>, k: K): (r: Option<V>)
    ensures r.Some? <==> k in m
    ensures r.Some? ==> r.value == m[k]
  {
    if k in m then Some(m[k]) else None
  }
}
