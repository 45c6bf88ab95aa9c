/** Sizes of sets, and smallest elements. */
module Counting {

  lemma {:induction false} SubsetCount<T>(a: set<T>, b: set<T>)
    requires a <= b
    ensures |a| <= |b|
  {
    if a != {} {
      var x :| x in a;
      SubsetCount(a - {x}, b - {x});
    }
  }

  /** A part that is as large as the whole is the whole. */
  lemma FullPart<T>(a: set<T>, b: set<T>)
    requires a <= b && |a| == |b|
    ensures a == b
  {
    if x :| x in b && x !in a {
      SubsetCount(a, b - {x});
    }
  }

  lemma DifferenceCount<T>(a: set<T>, b: set<T>)
    requires b <= a
    ensures |a - b| == |a| - |b|
  {
    assert a == (a - b) + b;
  }

  lemma {:induction false} SmallestExists<T(!new)>(age: map<T, nat>, keys: set<T>)
    requires keys != {} && keys <= age.Keys
    ensures exists k :: k in keys && forall j | j in keys :: age[k] <= age[j]
  {
    var x :| x in keys;
    if keys != {x} {
      SmallestExists(age, keys - {x});
      var y :| y in keys - {x} && forall j | j in keys - {x} :: age[y] <= age[j];
      var z := if age[x] <= age[y] then x else y;
      assert forall j | j in keys :: j == x || j in keys - {x};
      assert z in keys;
    }
  }
}
