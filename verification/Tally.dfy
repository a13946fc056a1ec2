/** Sums over the entries of a list, and what replacing one entry does to them.

    The goroutine protocols count with them: `Total` adds a number for each
    worker, `Held` gathers what each worker still holds into one multiset, so
    that what a worker hands over is seen to leave one side for the other. */
module Tally {

  function Total<W>(f: W -> nat, ws: seq<W>): nat {
    if ws == [] then 0 else Total(f, ws[..|ws| - 1]) + f(ws[|ws| - 1])
  }

  lemma {:induction false} TotalUpdate<W>(f: W -> nat, ws: seq<W>, i: nat, w: W)
    requires i < |ws|
    ensures Total(f, ws[i := w]) + f(ws[i]) == Total(f, ws) + f(w)
  {
    var k := |ws| - 1;
    if i < k {
      TotalUpdate(f, ws[..k], i, w);
      assert ws[i := w][..k] == ws[..k][i := w];
    } else {
      assert ws[i := w][..k] == ws[..k];
    }
  }

  lemma {:induction false} TotalAtLeast<W>(f: W -> nat, ws: seq<W>, i: nat)
    requires i < |ws|
    ensures Total(f, ws) >= f(ws[i])
  {
    if i < |ws| - 1 { TotalAtLeast(f, ws[..|ws| - 1], i); }
  }

  lemma {:induction false} TotalOfConstant<W>(f: W -> nat, ws: seq<W>, c: nat)
    requires forall i :: 0 <= i < |ws| ==> f(ws[i]) == c
    ensures Total(f, ws) == |ws| * c
  {
    if ws != [] { TotalOfConstant(f, ws[..|ws| - 1], c); }
  }

  /** The values the entries hold. */
  function Held<W, E>(f: W -> seq<E>, ws: seq<W>): multiset<E> {
    if ws == [] then multiset{} else Held(f, ws[..|ws| - 1]) + multiset(f(ws[|ws| - 1]))
  }

  lemma AddAlike<E>(a: multiset<E>, b: multiset<E>, c: multiset<E>, d: multiset<E>, x: multiset<E>)
    requires a + b == c + d
    ensures (a + x) + b == (c + x) + d
  {
    forall e: E ensures ((a + x) + b)[e] == ((c + x) + d)[e] {
      assert (a + b)[e] == (c + d)[e];
    }
  }

  lemma {:induction false} HeldUpdate<W, E>(f: W -> seq<E>, ws: seq<W>, i: nat, w: W)
    requires i < |ws|
    ensures Held(f, ws[i := w]) + multiset(f(ws[i])) == Held(f, ws) + multiset(f(w))
  {
    var k := |ws| - 1;
    if i < k {
      HeldUpdate(f, ws[..k], i, w);
      assert ws[i := w][..k] == ws[..k][i := w];
      AddAlike(Held(f, ws[..k][i := w]), multiset(f(ws[i])), Held(f, ws[..k]), multiset(f(w)), multiset(f(ws[k])));
    } else {
      assert ws[i := w][..k] == ws[..k];
    }
  }

  lemma {:induction false} HeldNothing<W, E>(f: W -> seq<E>, ws: seq<W>)
    requires forall i :: 0 <= i < |ws| ==> f(ws[i]) == []
    ensures Held(f, ws) == multiset{}
  {
    if ws != [] { HeldNothing(f, ws[..|ws| - 1]); }
  }

  lemma Cancel<E>(a: multiset<E>, b: multiset<E>, x: multiset<E>)
    requires a + x == b + x
    ensures a == b
  {
    forall e: E ensures a[e] == b[e] {
      assert (a + x)[e] == (b + x)[e];
    }
  }

  /** One value goes from an entry's keeping to the end of a list. */
  lemma HandOver<W, E>(f: W -> seq<E>, ws: seq<W>, i: nat, w: W, got: seq<E>, x: E, all: multiset<E>)
    requires i < |ws| && f(ws[i]) == [x] && f(w) == [] && multiset(got) + Held(f, ws) == all
    ensures multiset(got + [x]) + Held(f, ws[i := w]) == all
  {
    HeldUpdate(f, ws, i, w);
    assert multiset(got + [x]) == multiset(got) + multiset{x};
    var less, more := Held(f, ws[i := w]), Held(f, ws);
    assert less + multiset{x} == more by {
      assert multiset(f(ws[i])) == multiset{x} && multiset(f(w)) == multiset{};
    }
    forall e: E ensures (multiset(got + [x]) + less)[e] == all[e] {
      assert (less + multiset{x})[e] == more[e];
    }
  }

  /** An entry changes without changing what it holds. */
  lemma KeepsHold<W, E>(f: W -> seq<E>, ws: seq<W>, i: nat, w: W)
    requires i < |ws| && f(ws[i]) == f(w)
    ensures Held(f, ws[i := w]) == Held(f, ws)
  {
    HeldUpdate(f, ws, i, w);
    Cancel(Held(f, ws[i := w]), Held(f, ws), multiset(f(w)));
  }
}
