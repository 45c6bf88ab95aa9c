/** Iterating a step and folding a sequence, for any type of state. */
module Folds {

  function Iterate<R>(f: R -> R, x: R, n: nat): R {
    if n == 0 then x else f(Iterate(f, x, n - 1))
  }

  function Fold<R, B>(f: (R, B) -> R, start: R, data: seq<B>): R {
    if data == [] then start else f(Fold(f, start, data[..|data| - 1]), data[|data| - 1])
  }

  lemma {:induction false} IterateDistributes<R(!new)>(f: R -> R, op: (R, R) -> R, x: R, y: R, n: nat)
    requires forall a, b :: f(op(a, b)) == op(f(a), f(b))
    ensures Iterate(f, op(x, y), n) == op(Iterate(f, x, n), Iterate(f, y, n))
  {
    if n > 0 {
      IterateDistributes(f, op, x, y, n - 1);
    }
  }

  lemma {:induction false} IterateIsInjective<R(!new)>(f: R -> R, x: R, y: R, n: nat)
    requires forall a, b :: f(a) == f(b) ==> a == b
    requires Iterate(f, x, n) == Iterate(f, y, n)
    ensures x == y
  {
    if n > 0 {
      IterateIsInjective(f, x, y, n - 1);
    }
  }

  lemma IterateEight<R>(f: R -> R, x: R)
    ensures Iterate(f, x, 8) == f(f(f(f(f(f(f(f(x))))))))
  {
    assert Iterate(f, x, 2) == f(f(x));
    assert Iterate(f, x, 4) == f(f(f(f(x))));
    assert Iterate(f, x, 6) == f(f(f(f(f(f(x))))));
  }

  lemma {:induction false} FoldJoins<R, B>(f: (R, B) -> R, start: R, a: seq<B>, b: seq<B>)
    ensures Fold(f, start, a + b) == Fold(f, Fold(f, start, a), b)
  {
    if b == [] {
      assert a + b == a;
    } else {
      assert (a + b)[..|a + b| - 1] == a + b[..|b| - 1];
      FoldJoins(f, start, a, b[..|b| - 1]);
    }
  }

  lemma FoldOne<R, B>(f: (R, B) -> R, start: R, x: B)
    ensures Fold(f, start, [x]) == f(start, x)
  {
    assert [x][..0] == [];
    assert Fold(f, start, []) == start;
  }

  lemma {:induction false} SameSteps<R(!new), B(!new)>(f: (R, B) -> R, g: (R, B) -> R, start: R, data: seq<B>)
    requires forall r, b :: f(r, b) == g(r, b)
    ensures Fold(f, start, data) == Fold(g, start, data)
  {
    if data != [] {
      SameSteps(f, g, start, data[..|data| - 1]);
    }
  }

  lemma {:induction false} FoldIsInjective<R(!new), B(!new)>(f: (R, B) -> R, x: R, y: R, data: seq<B>)
    requires forall r, s, b :: f(r, b) == f(s, b) ==> r == s
    requires Fold(f, x, data) == Fold(f, y, data)
    ensures x == y
  {
    if data != [] {
      FoldIsInjective(f, x, y, data[..|data| - 1]);
    }
  }

  /** When no step loses the state or the element, a fold shows every change of one
      element. */
  lemma ChangeShows<R(!new), B(!new)>(f: (R, B) -> R, start: R, before: seq<B>, x: B, y: B, after: seq<B>)
    requires forall r, s, b :: f(r, b) == f(s, b) ==> r == s
    requires forall r, b, c :: f(r, b) == f(r, c) ==> b == c
    requires Fold(f, start, before + [x] + after) == Fold(f, start, before + [y] + after)
    ensures x == y
  {
    FoldJoins(f, start, before + [x], after);
    FoldJoins(f, start, before + [y], after);
    FoldIsInjective(f, Fold(f, start, before + [x]), Fold(f, start, before + [y]), after);
    FoldJoins(f, start, before, [x]);
    FoldJoins(f, start, before, [y]);
    FoldOne(f, Fold(f, start, before), x);
    FoldOne(f, Fold(f, start, before), y);
  }
}
