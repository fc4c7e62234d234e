/** First-match search, the semantics of an ordered `match` and of `Iterator::position`. */
module Search {
  function First<T>(xs: seq<T>, p: T -> bool): (k: nat)
    ensures k <= |xs|
    ensures forall i :: 0 <= i < k ==> !p(xs[i])
    ensures k < |xs| ==> p(xs[k])
  {
    if xs == [] || p(xs[0]) then 0 else 1 + First(xs[1..], p)
  }
}
