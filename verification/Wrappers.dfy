/** Optional values and results. */
module Wrappers {
  datatype Option<+T> = None | Some(value: T) {
    function UnwrapOr(fallback: T): T {
      if Some? then value else fallback
    }
  }

  datatype Result<+T, +E> = Ok(value: T) | Err(error: E)

  /** The error belongs to the first of the listed faults that is there. */
  predicate IsFirstFault<E(==)>(faults: seq<(bool, E)>, error: Option<E>) {
    match error
    case None => forall i :: 0 <= i < |faults| ==> !faults[i].0
    case Some(e) => exists i :: 0 <= i < |faults| && faults[i] == (true, e) && forall j :: 0 <= j < i ==> !faults[j].0
  }
}
