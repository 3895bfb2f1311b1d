/**
 * Small helpers shared by the page model: an Option type and the
 * "first element that satisfies a test" search that both
 * `Array.prototype.find` (the reference-image lookup) and
 * `document.getElementById` (the first element in document order with a
 * given id) perform.
 */
module Seqs {

  datatype Option<T> = None | Some(value: T)

  /** The index of the first element of `s` satisfying `p`, or None when no element does. */
  function First<T>(s: seq<T>, p: T -> bool): (r: Option<nat>)
    ensures r.Some? ==> r.value < |s| && p(s[r.value])
    ensures r.Some? ==> forall j :: 0 <= j < r.value ==> !p(s[j])
    ensures r.None? <==> forall j :: 0 <= j < |s| ==> !p(s[j])
  {
    if |s| == 0 then None
    else if p(s[0]) then Some(0)
    else match First(s[1..], p)
      case None => None
      case Some(k) => Some(k + 1)
  }

  /** Two sequences on which `p` and `q` agree position by position have the same first hit. */
  lemma FirstAgrees<T, U>(s: seq<T>, p: T -> bool, t: seq<U>, q: U -> bool)
    requires |s| == |t|
    requires forall j :: 0 <= j < |s| ==> p(s[j]) == q(t[j])
    ensures First(s, p) == First(t, q)
  {
  }
}
