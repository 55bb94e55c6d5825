/**
 * `round_to_nearest` from the p-fitting script: the element of a list closest
 * to a number, the earliest one on ties.
 */
module FitP {
  import opened Wrappers
  import opened ArgMin

  function Abs(x: real): (a: real)
    ensures a >= 0.0 && (a == x || a == -x)
  {
    if x < 0.0 then -x else x
  }

  /** The distance of each list element from `num`. */
  function Distances(num: real, numList: seq<real>): (d: seq<real>)
    ensures |d| == |numList|
    ensures forall i :: 0 <= i < |d| ==> d[i] == Abs(num - numList[i])
  {
    seq(|numList|, i requires 0 <= i < |numList| => Abs(num - numList[i]))
  }

  /**
   * The scan keeps a running minimum distance, starting from infinity (`None`
   * here), and replaces the candidate only on a strictly smaller distance.
   */
  method RoundToNearest(num: real, numList: seq<real>) returns (nearest: Option<real>)
    ensures nearest.None? <==> numList == []
    ensures nearest.Some? ==> nearest.value == numList[FirstMinIndex(Distances(num, numList))]
  {
    var minDiff: Option<real> := None;
    nearest := None;
    ghost var d := Distances(num, numList);
    for k := 0 to |numList|
      invariant k == 0 ==> minDiff.None? && nearest.None?
      invariant k > 0 ==> minDiff == Some(d[FirstMinIndex(d[..k])])
      invariant k > 0 ==> nearest == Some(numList[FirstMinIndex(d[..k])])
    {
      var diff := Abs(num - numList[k]);
      assert diff == d[k] == d[..k + 1][k];
      assert d[..k + 1][..k] == d[..k];
      if minDiff.None? || diff < minDiff.value {
        minDiff := Some(diff);
        nearest := Some(numList[k]);
      }
    }
    assert d[..|numList|] == d;
  }

  /** The result is an element of the list at least as close to `num` as every element. */
  lemma NearestIsClosest(num: real, numList: seq<real>)
    requires numList != []
    ensures var i := FirstMinIndex(Distances(num, numList));
      numList[i] in numList &&
      forall n :: n in numList ==> Abs(num - numList[i]) <= Abs(num - n)
  {
    var d := Distances(num, numList);
    forall n | n in numList
      ensures Abs(num - numList[FirstMinIndex(d)]) <= Abs(num - n)
    {
      var j :| 0 <= j < |numList| && numList[j] == n;
      assert d[j] == Abs(num - n);
    }
  }

  /** On ties the earliest element wins: every element before the result is strictly farther. */
  lemma NearestIsEarliest(num: real, numList: seq<real>, j: nat)
    requires numList != []
    requires j < FirstMinIndex(Distances(num, numList))
    ensures Abs(num - numList[j]) > Abs(num - numList[FirstMinIndex(Distances(num, numList))])
  {
  }

  /** A number that occurs in the list rounds to itself. */
  lemma {:induction false} ExactHitIsKept(num: real, numList: seq<real>)
    requires num in numList
    ensures numList[FirstMinIndex(Distances(num, numList))] == num
  {
    var d := Distances(num, numList);
    var j :| 0 <= j < |numList| && numList[j] == num;
    var i := FirstMinIndex(d);
    assert d[j] == 0.0;
    assert d[i] <= d[j];
  }
}
