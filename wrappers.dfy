/** Optional values and the outcome of one contract read, as the client's hooks report them. */
module Wrappers {

  /** A value that may be absent (`undefined` or `null` on the client). */
  datatype Option<+T> = None | Some(value: T)

  /** One entry of a batched read: a success with its result, or a failure. */
  datatype ReadResult<+T> = Success(result: T) | Failure

  /** Element `i` of a sequence the client indexes without a bounds check (`xs[i]`). */
  function At<T>(xs: seq<T>, i: nat): (r: Option<T>)
    ensures r.Some? <==> i < |xs|
    ensures r.Some? ==> r.value == xs[i]
  {
    if i < |xs| then Some(xs[i]) else None
  }
}
