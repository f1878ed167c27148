/** Reading JavaScript arrays: element access that may land outside the array. */
module JsArrays {
  import opened Wrappers

  /** `xs[i]`: the element at `i`, or `undefined` for any index outside `[0, |xs|)`, negative ones included. */
  function At<T>(xs: seq<T>, i: int): (r: Option<T>)
    ensures r.Some? <==> 0 <= i < |xs|
    ensures r.Some? ==> r.value == xs[i]
  {
    if 0 <= i < |xs| then Some(xs[i]) else None
  }

  /** The top of a stack kept as an array: `xs[xs.length - 1]`. */
  function Last<T>(xs: seq<T>): T
    requires xs != []
  {
    xs[|xs| - 1]
  }
}
