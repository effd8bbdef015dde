/** Sequence operations with the semantics of the JavaScript array methods
    the three components rely on: `findIndex`, `splice(i, 1)` and
    `slice(start)`. */
module Seqs {
  import opened Results

  /** The index of the first element satisfying `p`, as `Array.prototype.findIndex`
      (`None` where JavaScript answers -1). */
  function FirstIndex<T>(s: seq<T>, p: T -> bool): (r: Option<nat>)
    ensures r.None? <==> forall i :: 0 <= i < |s| ==> !p(s[i])
    ensures r.Some? ==> r.value < |s| && p(s[r.value])
    ensures r.Some? ==> forall j :: 0 <= j < r.value ==> !p(s[j])
  {
    if |s| == 0 then None
    else if p(s[0]) then Some(0)
    else
      match FirstIndex(s[1..], p)
      case None => None
      case Some(k) => Some(k + 1)
  }

  /** The index of the last element satisfying `p`. */
  function LastIndex<T>(s: seq<T>, p: T -> bool): (r: Option<nat>)
    ensures r.None? <==> forall i :: 0 <= i < |s| ==> !p(s[i])
    ensures r.Some? ==> r.value < |s| && p(s[r.value])
    ensures r.Some? ==> forall j :: r.value < j < |s| ==> !p(s[j])
  {
    if |s| == 0 then None
    else if p(s[|s| - 1]) then Some(|s| - 1)
    else LastIndex(s[..|s| - 1], p)
  }

  /** `s.splice(i, 1)`: the sequence without its element at index `i`, the
      others kept in order. */
  function RemoveAt<T>(s: seq<T>, i: nat): (r: seq<T>)
    requires i < |s|
    ensures |r| == |s| - 1
    ensures forall j :: 0 <= j < i ==> r[j] == s[j]
    ensures forall j :: i <= j < |r| ==> r[j] == s[j + 1]
  {
    s[..i] + s[i + 1..]
  }

  function Min(a: int, b: int): int {
    if a <= b then a else b
  }

  /** `s.slice(start)`: a negative start counts back from the end and is
      clamped at 0; a start past the end yields the empty sequence. */
  function SliceFrom<T>(s: seq<T>, start: int): seq<T> {
    if start < 0 then
      s[(if |s| + start < 0 then 0 else |s| + start)..]
    else
      s[Min(start, |s|)..]
  }

  /** No element occurs twice. */
  predicate NoDuplicates<T(==)>(s: seq<T>) {
    forall i, j :: 0 <= i < j < |s| ==> s[i] != s[j]
  }
}
