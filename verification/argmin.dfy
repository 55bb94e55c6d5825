/**
 * The first position of a smallest element, as Python's `lst.index(min(lst))`
 * finds it: `min` keeps the earliest of equal minima and `index` returns the
 * first position holding that value.
 */
module ArgMin {

  function FirstMinIndex(e: seq<real>): (i: nat)
    requires |e| > 0
    ensures i < |e|
    ensures forall j :: 0 <= j < |e| ==> e[i] <= e[j]
    ensures forall j :: 0 <= j < i ==> e[i] < e[j]
  {
    if |e| == 1 then 0
    else
      var i := FirstMinIndex(e[..|e| - 1]);
      if e[|e| - 1] < e[i] then |e| - 1 else i
  }

  /** `f` preserves strict order. */
  ghost predicate StrictlyIncreasing(f: real -> real) {
    forall x: real, y: real :: x < y ==> f(x) < f(y)
  }

  /** `f` applied to every element. */
  function Apply(f: real -> real, e: seq<real>): (m: seq<real>)
    ensures |m| == |e|
    ensures forall i :: 0 <= i < |e| ==> m[i] == f(e[i])
  {
    seq(|e|, i requires 0 <= i < |e| => f(e[i]))
  }

  /**
   * A strictly increasing transform of the values (such as the root mean of a
   * sum of squared errors over a fixed sample size) has its first minimum at
   * the same position.
   */
  lemma {:induction false} IncreasingKeepsFirstMin(f: real -> real, e: seq<real>)
    requires |e| > 0 && StrictlyIncreasing(f)
    ensures FirstMinIndex(Apply(f, e)) == FirstMinIndex(e)
  {
    if |e| > 1 {
      var init := e[..|e| - 1];
      var m := Apply(f, e);
      assert m[..|m| - 1] == Apply(f, init);
      IncreasingKeepsFirstMin(f, init);
      var i := FirstMinIndex(init);
      var last := e[|e| - 1];
      if last < e[i] {
        assert f(last) < f(e[i]);
      } else {
        assert e[i] < last || e[i] == last;
      }
    }
  }
}
