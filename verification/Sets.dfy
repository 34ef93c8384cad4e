/** Facts about finite sets. */
module Sets {
  /** A set without elements is empty; so a loop over a set that is not empty can pick an element. */
  lemma EmptyWithoutElements<T>(s: set<T>)
    ensures (forall x :: x !in s) ==> s == {}
  {
    if forall x :: x !in s {
      assert s == {};
    }
  }

  lemma ElementOfInts(s: set<int>)
    ensures s != {} ==> exists k :: k in s
  {
    if forall k: int :: k !in s {
      assert s == {};
    }
  }

  lemma {:induction false} SubsetSize<T>(a: set<T>, b: set<T>)
    requires a <= b
    ensures |a| <= |b|
  {
    EmptyWithoutElements(a);
    if a != {} {
      var x :| x in a;
      SubsetSize(a - {x}, b - {x});
    }
  }
}
