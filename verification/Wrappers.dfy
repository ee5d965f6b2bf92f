/** Failure-compatible results and options shared by every module. */
module Wrappers {
  datatype Option<+T> = None | Some(value: T)

  datatype Result<+T, +E> = Ok(value: T) | Err(error: E) {
    predicate IsFailure() { Err? }
    function PropagateFailure<U>(): (r: Result<U, E>) requires Err? { Err(error) }
    function Extract(): (r: T) requires Ok? { value }
  }

  function AsList<T>(x: Option<T>): seq<T> { if x.Some? then [x.value] else [] }

  function Min(a: nat, b: nat): nat { if a < b then a else b }
}
