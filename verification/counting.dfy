/** Positions of a sequence that satisfy a condition, and how many there are. */
module Counting {
  function Positions<T>(s: seq<T>, p: T -> bool): set<nat> {
    set i: nat | i < |s| && p(s[i])
  }

  lemma NoPositions<T>(p: T -> bool)
    ensures Positions([], p) == {}
  {
  }

  lemma PositionsSnoc<T>(s: seq<T>, p: T -> bool)
    requires s != []
    ensures |Positions(s, p)| == |Positions(s[..|s| - 1], p)| + (if p(s[|s| - 1]) then 1 else 0)
  {
    var n := |s| - 1;
    var before := Positions(s[..n], p);
    assert n !in before;
    assert Positions(s, p) == before + (if p(s[n]) then {n} else {});
  }

  lemma OneMore(before: set<nat>, after: set<nat>, i: nat, more: bool)
    requires i !in before && after == before + (if more then {i} else {})
    ensures |after| == |before| + (if more then 1 else 0)
  {
  }
}
