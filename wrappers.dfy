/** Option, used for JavaScript's `null` and for partial decoders. */
module Wrappers {

  datatype Option<+T> = None | Some(value: T)

  /** Prepends `x` to an optional sequence; a failure stays a failure. */
  function Cons<T>(x: T, r: Option<seq<T>>): (c: Option<seq<T>>)
    ensures c.Some? <==> r.Some?
    ensures c.Some? ==> c.value == [x] + r.value
  {
    match r
    case None => None
    case Some(t) => Some([x] + t)
  }

  /** `s` without its element at position `k`: a pending callback that has run. */
  function RemoveAt<T>(s: seq<T>, k: nat): (r: seq<T>)
    requires k < |s|
    ensures |r| == |s| - 1
    ensures multiset(r) + multiset{s[k]} == multiset(s)
  {
    assert s == s[..k] + [s[k]] + s[k + 1..];
    s[..k] + s[k + 1..]
  }
}
