/** Shared vocabulary: an optional value (JavaScript's `null`/`undefined`
    next to a present value) and the membership scan of `Array.prototype.includes`. */
module Common {

  datatype Option<T> = None | Some(value: T)

  /** `xs.includes(x)`: scans `xs` from the front for an element equal to `x`. */
  function Includes<T(==)>(xs: seq<T>, x: T): (r: bool)
    ensures r <==> x in xs
  {
    if xs == [] then false else xs[0] == x || Includes(xs[1..], x)
  }
}
