/** Option values and first-hit search over ordered sequences.

    JavaScript's `Array.prototype.find` and `Object.keys(o).find(...)` scan in
    order and stop at the first element the predicate accepts; `FindIndex`
    is that search, returning the position of the hit so that callers can
    reason about the elements before it.
 */
module Optional {

  datatype Option<+T> = None | Some(value: T)

  /** Position of the first element of `s` that `p` accepts, if any. */
  function FindIndex<T>(s: seq<T>, p: T -> bool): (r: Option<nat>)
    ensures r.Some? ==> r.value < |s| && p(s[r.value])
    ensures r.Some? ==> forall j :: 0 <= j < r.value ==> !p(s[j])
    ensures r.None? <==> forall j :: 0 <= j < |s| ==> !p(s[j])
    decreases |s|
  {
    if s == [] then None
    else if p(s[0]) then Some(0)
    else match FindIndex(s[1..], p)
      case None => None
      case Some(i) => Some(i + 1)
  }
}
