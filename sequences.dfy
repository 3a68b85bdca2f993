/** Order-preserving de-duplication, as pandas' `Series.unique()` does it. */
module Sequences {

  /** No value occurs twice in `s`. */
  predicate Distinct<T(==)>(s: seq<T>) {
    forall i, j :: 0 <= i < j < |s| ==> s[i] != s[j]
  }

  /** The distinct values of `s`, each once, in order of first appearance:
      every occurrence in `s` of a later value is preceded by an occurrence
      of each earlier value. */
  function Unique<T(==)>(s: seq<T>): (u: seq<T>)
    ensures Distinct(u)
    ensures forall i :: 0 <= i < |u| ==> u[i] in s
    ensures forall k :: 0 <= k < |s| ==> s[k] in u
    ensures forall i, j, k :: 0 <= i < j < |u| && 0 <= k < |s| && s[k] == u[j] ==> u[i] in s[..k]
    decreases |s|
  {
    if s == [] then []
    else
      var init, last := s[..|s| - 1], s[|s| - 1];
      assert forall k :: 0 <= k < |s| - 1 ==> s[..k] == init[..k];
      if last in init then Unique(init) else Unique(init) + [last]
  }
}
