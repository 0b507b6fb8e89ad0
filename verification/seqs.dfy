/** The two array searches the routes and the guard use: `Array.prototype.some`
    and `Array.prototype.findIndex` (of which `find` is the element at the index). */
module Seqs {
  import opened Wrappers

  /** `xs.some(p)`: true iff some element satisfies `p`. */
  function Any<T>(xs: seq<T>, p: T -> bool): (b: bool)
    ensures b <==> exists i :: 0 <= i < |xs| && p(xs[i])
  {
    if |xs| == 0 then false
    else if p(xs[0]) then true
    else
      var rest := Any(xs[1..], p);
      assert forall i :: 1 <= i < |xs| ==> xs[i] == xs[1..][i - 1];
      rest
  }

  /** `xs.findIndex(p)`, with `-1` written as `None`: the FIRST index whose
      element satisfies `p`. */
  function FirstIndex<T>(xs: seq<T>, p: T -> bool): (r: Option<nat>)
    ensures r.Some? ==> r.value < |xs| && p(xs[r.value])
    ensures r.Some? ==> forall j :: 0 <= j < r.value ==> !p(xs[j])
    ensures r.None? <==> forall j :: 0 <= j < |xs| ==> !p(xs[j])
  {
    if |xs| == 0 then None
    else if p(xs[0]) then Some(0)
    else
      match FirstIndex(xs[1..], p)
      case None =>
        assert forall j :: 1 <= j < |xs| ==> xs[j] == xs[1..][j - 1];
        None
      case Some(i) =>
        assert xs[i + 1] == xs[1..][i];
        assert forall j :: 1 <= j < i + 1 ==> xs[j] == xs[1..][j - 1];
        Some(i + 1)
  }
}
