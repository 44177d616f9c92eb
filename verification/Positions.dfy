/** Strictly increasing positions, by which a list is said to be picked from another in order. */
module Positions {

  ghost predicate Increasing(s: seq<nat>) {
    forall i, j :: 0 <= i < j < |s| ==> s[i] < s[j]
  }

  /** Positions below n, and perhaps n itself. */
  lemma OnePositionMore(before: seq<nat>, n: nat, counts: bool) returns (from: seq<nat>)
    requires Increasing(before) && forall i :: i in before ==> i < n
    ensures from == if counts then before + [n] else before
    ensures Increasing(from)
    ensures forall i :: i in from <==> i in before || (counts && i == n)
  {
    from := if counts then before + [n] else before;
    assert forall i :: 0 <= i < |before| ==> before[i] in before;
  }
}
