/** Small vocabulary shared by every component of the model.

    Machines and loops are folds of a partial step function; the lemmas split
    a fold where two lists meet, at its first element, at its last and at any
    prefix. */
module Prelude {

  /** A value that may be absent: a nil pointer, a nil slice, a missing map entry. */
  datatype Option<+T> = None | Some(value: T)

  function Flatten<T>(xss: seq<seq<T>>): (xs: seq<T>)
  {
    if xss == [] then [] else Flatten(xss[..|xss| - 1]) + xss[|xss| - 1]
  }

  lemma Associative<T>(xs: seq<T>, ys: seq<T>, zs: seq<T>)
    ensures (xs + ys) + zs == xs + (ys + zs)
  {
  }

  lemma ReplaceLast<T>(xs: seq<T>, x: T, y: T)
    ensures (xs + [x])[|xs| := y] == xs + [y]
  {
  }

  lemma {:induction false} FlattenAppend<T>(xss: seq<seq<T>>, yss: seq<seq<T>>)
    ensures Flatten(xss + yss) == Flatten(xss) + Flatten(yss)
  {
    if yss == [] {
      assert xss + yss == xss;
    } else {
      var n := |yss| - 1;
      assert (xss + yss)[..|xss| + n] == xss + yss[..n];
      FlattenAppend(xss, yss[..n]);
    }
  }

  lemma FlattenSingle<T>(xs: seq<T>)
    ensures Flatten([xs]) == xs
  {
    assert [xs][..0] == [];
  }

  /** Run a partial step function over a list; None once a step is impossible. */
  function Fold<S, A>(step: (S, A) -> Option<S>, s: S, xs: seq<A>): Option<S> {
    if xs == [] then Some(s) else
    var t := Fold(step, s, xs[..|xs| - 1]);
    if t.None? then None else step(t.value, xs[|xs| - 1])
  }

  lemma {:induction false} FoldCompose<S, A>(step: (S, A) -> Option<S>, s: S, xs: seq<A>, ys: seq<A>)
    requires Fold(step, s, xs).Some?
    ensures Fold(step, s, xs + ys) == Fold(step, Fold(step, s, xs).value, ys)
  {
    if ys == [] {
      assert xs + ys == xs;
    } else {
      var n := |ys| - 1;
      assert (xs + ys)[..|xs| + n] == xs + ys[..n];
      FoldCompose(step, s, xs, ys[..n]);
    }
  }

  lemma FoldSnoc<S, A>(step: (S, A) -> Option<S>, s: S, xs: seq<A>, x: A)
    requires Fold(step, s, xs).Some?
    ensures Fold(step, s, xs + [x]) == step(Fold(step, s, xs).value, x)
  {
    assert (xs + [x])[..|xs|] == xs;
  }

  lemma FoldFirst<S, A>(step: (S, A) -> Option<S>, s: S, x: A, t: S, xs: seq<A>)
    requires step(s, x) == Some(t)
    ensures Fold(step, s, [x] + xs) == Fold(step, t, xs)
  {
    assert Fold(step, s, []) == Some(s);
    FoldSnoc(step, s, [], x);
    assert [] + [x] == [x];
    FoldCompose(step, s, [x], xs);
  }

  lemma {:induction false} FoldPrefix<S, A>(step: (S, A) -> Option<S>, s: S, xs: seq<A>, n: nat)
    requires n <= |xs| && Fold(step, s, xs).Some?
    ensures Fold(step, s, xs[..n]).Some?
  {
    if n < |xs| {
      FoldPrefix(step, s, xs[..|xs| - 1], n);
      assert xs[..|xs| - 1][..n] == xs[..n];
    } else {
      assert xs[..n] == xs;
    }
  }
}
