/** Sizes of finite sets of numbers. */
module Sets {

  lemma SubsetSize<T>(a: set<T>, b: set<T>)
    requires a <= b
    ensures |a| <= |b|
    ensures |a| == |b| ==> a == b
  {
    var c := b - a;
    assert b == a + c && |b| == |a| + |c|;
    if c != {} {
      var x :| x in c;
      assert |c| == |c - {x}| + 1;
    }
  }

  /** The numbers from a up to but not including b. */
  function {:induction false} Range(a: nat, b: nat): (r: set<nat>)
    ensures |r| == (if a <= b then b - a else 0) && forall x: nat :: x in r <==> a <= x < b
    decreases b
  {
    if a >= b then {} else Range(a, b - 1) + {b - 1}
  }
}
