/** Two pure helpers of the siphon strategy: the side filter over a list of
    locations, and the choice of the side to reinforce from the locations
    the opponent scored on last turn. Side 0 is neutral, side 1 our right
    (x > 13) and side 2 our left (x < 13). */
module Siphon {
  import opened GameMap
  import opened Requests

  predicate OnRight(c: Cell) {
    c.x > 13
  }

  predicate OnLeft(c: Cell) {
    c.x < 13
  }

  predicate OnCentre(c: Cell) {
    c.x == 13
  }

  /** The cells of `locs` satisfying `keep`, in order. */
  function Filter(locs: seq<Cell>, keep: Cell -> bool): (r: seq<Cell>)
    ensures |r| <= |locs|
    ensures forall c {:trigger c in r} :: c in r <==> c in locs && keep(c)
    ensures IsSubsequence(r, locs)
    ensures forall c {:trigger multiset(r)[c]} :: multiset(r)[c] == if keep(c) then multiset(locs)[c] else 0
    decreases |locs|
  {
    if locs == [] then []
    else
      var rest := Filter(locs[1..], keep);
      assert forall c {:trigger c in locs} :: c in locs <==> c == locs[0] || c in locs[1..];
      assert locs == [locs[0]] + locs[1..];
      if keep(locs[0]) then
        assert ([locs[0]] + rest)[1..] == rest;
        [locs[0]] + rest
      else rest
  }

  /** `siphon_extract_side_locations`: the whole list for side 0, its right
      part for side 1, its left part for side 2, and nothing (Python's None)
      for any other side. */
  function ExtractSideLocations(locs: seq<Cell>, side: int): (r: Option<seq<Cell>>)
    ensures r.Some? <==> side in {0, 1, 2}
    ensures side == 0 ==> r == Some(locs)
    ensures side == 1 ==> r.Some? && forall c {:trigger c in r.value} :: c in r.value <==> c in locs && c.x > 13
    ensures side == 2 ==> r.Some? && forall c {:trigger c in r.value} :: c in r.value <==> c in locs && c.x < 13
    ensures r.Some? ==> IsSubsequence(r.value, locs)
    ensures side == 1 ==> forall c {:trigger multiset(r.value)[c]} :: multiset(r.value)[c] == if c.x > 13 then multiset(locs)[c] else 0
    ensures side == 2 ==> forall c {:trigger multiset(r.value)[c]} :: multiset(r.value)[c] == if c.x < 13 then multiset(locs)[c] else 0
  {
    if side == 0 then
      SubsequenceRefl(locs);
      Some(locs)
    else if side == 1 then Some(Filter(locs, OnRight))
    else if side == 2 then Some(Filter(locs, OnLeft))
    else None
  }

  /** Filtering distributes over concatenation. */
  lemma {:induction false} FilterConcat(a: seq<Cell>, b: seq<Cell>, keep: Cell -> bool)
    ensures Filter(a + b, keep) == Filter(a, keep) + Filter(b, keep)
    decreases |a|
  {
    if a == [] {
      assert a + b == b;
    } else {
      assert (a + b)[1..] == a[1..] + b;
      FilterConcat(a[1..], b, keep);
    }
  }

  /** Filtering twice by the same test filters once. */
  lemma {:induction false} FilterIdempotent(locs: seq<Cell>, keep: Cell -> bool)
    ensures Filter(Filter(locs, keep), keep) == Filter(locs, keep)
    decreases |locs|
  {
    if locs != [] {
      FilterIdempotent(locs[1..], keep);
      if keep(locs[0]) {
        assert ([locs[0]] + Filter(locs[1..], keep))[1..] == Filter(locs[1..], keep);
      }
    }
  }

  /** Filtering a concatenation filters each part. */
  lemma ExtractSideConcat(a: seq<Cell>, b: seq<Cell>, side: int)
    requires side in {0, 1, 2}
    ensures ExtractSideLocations(a + b, side).value == ExtractSideLocations(a, side).value + ExtractSideLocations(b, side).value
  {
    if side == 1 {
      FilterConcat(a, b, OnRight);
    } else if side == 2 {
      FilterConcat(a, b, OnLeft);
    }
  }

  /** Filtering an extracted side again changes nothing. */
  lemma ExtractSideIdempotent(locs: seq<Cell>, side: int)
    requires side in {0, 1, 2}
    ensures ExtractSideLocations(ExtractSideLocations(locs, side).value, side) == ExtractSideLocations(locs, side)
  {
    if side == 1 {
      FilterIdempotent(locs, OnRight);
    } else if side == 2 {
      FilterIdempotent(locs, OnLeft);
    }
  }

  /** Column 13 belongs to neither side: the right and left parts together
      with the cells of column 13 account for every entry of the list. */
  lemma {:induction false} SidesPartition(locs: seq<Cell>)
    ensures |Filter(locs, OnRight)| + |Filter(locs, OnLeft)| + |Filter(locs, OnCentre)| == |locs|
    decreases |locs|
  {
    if locs != [] {
      SidesPartition(locs[1..]);
    }
  }

  /** The number of losses on our right: those with x > 13. */
  function RightLosses(losses: seq<Cell>): (n: nat)
    ensures n <= |losses|
  {
    |Filter(losses, OnRight)|
  }

  /** The side choice of `siphon_build_reactive_defense`: no losses gives the
      neutral side 0; otherwise side 1 when strictly more losses lie on our
      right than elsewhere, side 2 when not (ties, and losses in column 13,
      count for the left). */
  method ReactiveSide(losses: seq<Cell>) returns (side: int)
    ensures side in {0, 1, 2}
    ensures side == 0 <==> losses == []
    ensures side == 1 <==> losses != [] && RightLosses(losses) > |losses| - RightLosses(losses)
  {
    if |losses| == 0 {
      return 0;
    }
    var rightCount := 0;
    var leftCount := 0;
    var i := 0;
    while i < |losses|
      invariant 0 <= i <= |losses|
      invariant rightCount == RightLosses(losses[..i])
      invariant leftCount == i - rightCount
    {
      FilterConcat(losses[..i], [losses[i]], OnRight);
      assert losses[..i + 1] == losses[..i] + [losses[i]];
      if losses[i].x > 13 {
        rightCount := rightCount + 1;
      } else {
        leftCount := leftCount + 1;
      }
      i := i + 1;
    }
    assert losses[..i] == losses;
    if rightCount > leftCount {
      side := 1;
    } else {
      side := 2;
    }
  }
}
