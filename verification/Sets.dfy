/** Small facts about finite sets. */
module Sets {

  lemma SubsetSize<T>(a: set<T>, b: set<T>)
    requires a <= b
    ensures |a| <= |b|
  {
    assert b == a + (b - a);
  }

  lemma ReplaceSize<T>(s: set<T>, x: T, keep: bool)
    ensures |(s - {x}) + if keep then {x} else {}| == |s| - (if x in s then 1 else 0) + if keep then 1 else 0
  {
    assert |s - {x}| == |s| - if x in s then 1 else 0;
  }

  /** There is a number above any finite set of numbers. */
  lemma {:induction false} BeyondAll(xs: set<nat>) returns (n: nat)
    ensures forall x | x in xs :: x < n
    decreases |xs|
  {
    n := 0;
    if xs != {} {
      var x :| x in xs;
      var m := BeyondAll(xs - {x});
      n := if x < m then m else x + 1;
      assert forall y | y in xs :: y == x || y in xs - {x};
    }
  }
}
