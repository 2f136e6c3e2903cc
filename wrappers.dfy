/** Option and Result values used for the source's `null`s and thrown errors. */
module Wrappers {

  datatype Option<+T> = None | Some(value: T)

  datatype Result<+T, +E> = Ok(value: T) | Err(error: E)

  /**
    What a `for` loop that awaits one call per item hands on when the call
    for item `rejectsAt` rejects and the rejection leaves the loop: the items
    up to and including that one. With no rejection, every item.
   */
  function Reached<T>(xs: seq<T>, rejectsAt: Option<nat>): seq<T>
  {
    if rejectsAt.Some? && rejectsAt.value < |xs| then xs[..rejectsAt.value + 1] else xs
  }
}
