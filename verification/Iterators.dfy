/** Lazy iterators: a cursor that Next moves, wrapped in filters and maps, and
    what draining one gives. One element type stands for every type along a
    chain of maps. */
module Iterators {
  import opened Prelude

  // ----- eager operations -----

  function Filter<T>(xs: seq<T>, p: T -> bool): seq<T> {
    if xs == [] then [] else (if p(xs[0]) then [xs[0]] else []) + Filter(xs[1..], p)
  }

  function Map<T>(xs: seq<T>, f: T -> T): seq<T> {
    if xs == [] then [] else [f(xs[0])] + Map(xs[1..], f)
  }

  function FoldLeft<S, T>(fn: (S, T) -> S, s: S, xs: seq<T>): S {
    if xs == [] then s else FoldLeft(fn, fn(s, xs[0]), xs[1..])
  }

  /** The last element with a key wins. */
  function ByKey<T>(xs: seq<T>, key: T -> string): map<string, T> {
    if xs == [] then map[] else
    var last := xs[|xs| - 1];
    ByKey(xs[..|xs| - 1], key)[key(last) := last]
  }

  function FirstMatch<T>(xs: seq<T>, p: T -> bool): Option<T> {
    if xs == [] then None else if p(xs[0]) then Some(xs[0]) else FirstMatch(xs[1..], p)
  }

  // ----- iterators -----

  /** The state of FromSlice's closures. */
  class SliceCell<T> {
    const slice: seq<T>
    var i: int

    constructor (slice: seq<T>)
      ensures this.slice == slice && i == -1
    {
      this.slice, i := slice, -1;
    }
  }

  /** The state of FromFn's closures: `answers(k)` is what call number k of the
      function returns, and call number `last` is the first to say no. */
  class FnCell<T> {
    const answers: nat -> (T, bool)
    ghost const last: nat
    var calls: nat
    var val: T

    constructor (answers: nat -> (T, bool), ghost last: nat, zero: T)
      ensures this.answers == answers && this.last == last && calls == 0 && val == zero
    {
      this.answers, this.last, calls, val := answers, last, 0, zero;
    }
  }

  datatype Iter<!T> =
    | OverSlice(s: SliceCell<T>)
    | OverFn(g: FnCell<T>)
    | Filtered(inner: Iter<T>, p: T -> bool)
    | Mapped(inner: Iter<T>, f: T -> T)
  {
    function Cell(): object {
      match this
      case OverSlice(s) => s
      case OverFn(g) => g
      case Filtered(inner, _) => inner.Cell()
      case Mapped(inner, _) => inner.Cell()
    }

    ghost predicate Valid()
      reads Cell()
    {
      match this
      case OverSlice(s) => s.i >= -1
      case OverFn(g) => g.calls <= g.last && !g.answers(g.last).1 && forall k: nat :: k < g.last ==> g.answers(k).1
      case Filtered(inner, _) => inner.Valid()
      case Mapped(inner, _) => inner.Valid()
    }

    /** Next has just said yes. */
    ghost predicate Ready()
      reads Cell()
    {
      match this
      case OverSlice(s) => 0 <= s.i < |s.slice|
      case OverFn(_) => true
      case Filtered(inner, _) => inner.Ready()
      case Mapped(inner, _) => inner.Ready()
    }

    /** The elements still to come. */
    ghost function Rest(): seq<T>
      requires Valid()
      reads Cell()
    {
      match this
      case OverSlice(s) => if s.i < |s.slice| then s.slice[s.i + 1..] else []
      case OverFn(g) => Answers(g.answers, g.calls, g.last)
      case Filtered(inner, p) => Filter(inner.Rest(), p)
      case Mapped(inner, f) => Map(inner.Rest(), f)
    }

    function Value(): T
      requires Ready()
      reads Cell()
    {
      match this
      case OverSlice(s) => s.slice[s.i]
      case OverFn(g) => g.val
      case Filtered(inner, _) => inner.Value()
      case Mapped(inner, f) => f(inner.Value())
    }

    /** Next takes the first of the elements to come, and says whether there was one. */
    method Next() returns (ok: bool)
      requires Valid()
      modifies Cell()
      ensures ok <==> old(Rest()) != []
      ensures ok ==> Valid() && Ready() && old(Rest()) == [Value()] + Rest()
      decreases this, 1
    {
      match this
      case OverSlice(s) =>
        s.i := s.i + 1;
        ok := s.i < |s.slice|;
      case OverFn(g) =>
        var (val, more) := g.answers(g.calls);
        g.calls := g.calls + 1;
        g.val := val;
        ok := more;
      case Filtered(inner, p) =>
        ok := SkipTo(inner, p);
      case Mapped(inner, f) =>
        ghost var before := inner.Rest();
        ok := inner.Next();
        if ok { assert before[1..] == inner.Rest(); }
    }

    /** Filter's Next: on to the first element that passes. */
    static method SkipTo(inner: Iter<T>, p: T -> bool) returns (ok: bool)
      requires inner.Valid()
      modifies inner.Cell()
      ensures ok <==> Filter(old(inner.Rest()), p) != []
      ensures ok ==>
                && inner.Valid() && inner.Ready()
                && Filter(old(inner.Rest()), p) == [inner.Value()] + Filter(inner.Rest(), p)
      decreases inner, 2
    {
      ghost var all := inner.Rest();
      var more := inner.Next();
      while more
        invariant more ==> inner.Valid() && inner.Ready() && Filter(all, p) == Filter([inner.Value()] + inner.Rest(), p)
        invariant !more ==> Filter(all, p) == []
        decreases if more then |inner.Rest()| + 1 else 0
      {
        ghost var rest := inner.Rest();
        assert ([inner.Value()] + rest)[1..] == rest;
        if p(inner.Value()) { return true; }
        more := inner.Next();
      }
      return false;
    }

    // ----- draining -----

    /** `fn` is called on every element in order; `s` is what its closure keeps. */
    method ForEach<S>(s0: S, fn: (S, T) -> S) returns (s: S)
      requires Valid()
      modifies Cell()
      ensures s == FoldLeft(fn, s0, old(Rest()))
    {
      s := s0;
      ghost var all := Rest();
      var more := Next();
      while more
        invariant more ==> Valid() && Ready() && FoldLeft(fn, s0, all) == FoldLeft(fn, s, [Value()] + Rest())
        invariant !more ==> s == FoldLeft(fn, s0, all)
        decreases if more then |Rest()| + 1 else 0
      {
        ghost var rest := Rest();
        assert ([Value()] + rest)[1..] == rest;
        s := fn(s, Value());
        more := Next();
      }
    }

    method ToArray() returns (arr: seq<T>)
      requires Valid()
      modifies Cell()
      ensures arr == old(Rest())
    {
      AppendEach([], Rest());
      assert [] + Rest() == Rest();
      arr := ForEach([], Append);
    }

    method ToMap(key: T -> string) returns (result: map<string, T>)
      requires Valid()
      modifies Cell()
      ensures result == ByKey(old(Rest()), key)
    {
      result := map[];
      ghost var all, k := Rest(), 0;
      assert all[0..] == all;
      var more := Next();
      while more
        invariant k <= |all| && result == ByKey(all[..k], key)
        invariant more ==> Valid() && Ready() && all[k..] == [Value()] + Rest()
        invariant !more ==> k == |all|
        decreases |all| - k
      {
        ByKeyNext(all, k, Value(), Rest(), key);
        result := result[key(Value()) := Value()];
        k := k + 1;
        more := Next();
      }
      assert all[..|all|] == all;
    }
  }

  /** What the function returns from call `from` up to call `last`. */
  function Answers<T>(answers: nat -> (T, bool), from: nat, last: nat): seq<T>
    requires from <= last
    decreases last - from
  {
    if from == last then [] else [answers(from).0] + Answers(answers, from + 1, last)
  }

  function Append<T>(arr: seq<T>, a: T): seq<T> {
    arr + [a]
  }

  lemma {:induction false} AppendEach<T>(arr: seq<T>, xs: seq<T>)
    ensures FoldLeft(Append, arr, xs) == arr + xs
    decreases |xs|
  {
    if xs != [] {
      AppendEach(arr + [xs[0]], xs[1..]);
      assert arr + [xs[0]] + xs[1..] == arr + xs;
    }
  }

  // ----- iterables -----

  /** A chain of wrappers over a slice; its Iterator() starts afresh each time. */
  datatype Iterable<!T> =
    | FromSlice(slice: seq<T>)
    | Filtering(source: Iterable<T>, p: T -> bool)
    | Mapping(source: Iterable<T>, f: T -> T)
  {
    /** The same chain of operations done eagerly. */
    function Eager(): seq<T> {
      match this
      case FromSlice(slice) => slice
      case Filtering(source, p) => Filter(source.Eager(), p)
      case Mapping(source, f) => Map(source.Eager(), f)
    }

    method Iterator() returns (it: Iter<T>)
      ensures allocated(it.Cell()) && fresh(it.Cell()) && it.Valid() && it.Rest() == Eager()
    {
      match this
      case FromSlice(slice) =>
        var cell := new SliceCell(slice);
        it := OverSlice(cell);
      case Filtering(source, p) =>
        var inner := source.Iterator();
        it := Filtered(inner, p);
      case Mapping(source, f) =>
        var inner := source.Iterator();
        it := Mapped(inner, f);
    }

    method ToArray() returns (arr: seq<T>)
      ensures arr == Eager()
    {
      var it := Iterator();
      arr := it.ToArray();
    }

    method ToMap(key: T -> string) returns (result: map<string, T>)
      ensures result == ByKey(Eager(), key)
    {
      var it := Iterator();
      result := it.ToMap(key);
    }

    method IsEmpty() returns (empty: bool)
      ensures empty <==> Eager() == []
    {
      var it := Iterator();
      var more := it.Next();
      empty := !more;
    }

    /** The first element that passes; later ones are not looked at. */
    method Find(fn: T -> bool) returns (found: Option<T>)
      ensures found == FirstMatch(Eager(), fn)
    {
      var it := Iterator();
      var more := it.Next();
      while more
        invariant fresh(it.Cell())
        invariant more ==>
                  it.Valid() && it.Ready() && FirstMatch(Eager(), fn) == FirstMatch([it.Value()] + it.Rest(), fn)
        invariant !more ==> FirstMatch(Eager(), fn) == None
        decreases if more then |it.Rest()| + 1 else 0
      {
        ghost var rest := it.Rest();
        assert ([it.Value()] + rest)[1..] == rest;
        if fn(it.Value()) { return Some(it.Value()); }
        more := it.Next();
      }
      return None;
    }
  }

  function MapTo<A, B>(xs: seq<A>, f: A -> B): seq<B> {
    if xs == [] then [] else [f(xs[0])] + MapTo(xs[1..], f)
  }

  /** A map to another type is one within a type that holds both: `into` and `out`
      carry the source's elements there and back, `result` the mapped ones. */
  lemma {:induction false} OneTypeIsEnough<A(!new), B, T(!new)>(
      xs: seq<A>, f: A -> B, into: A -> T, out: T -> A, result: B -> T, g: T -> T)
    requires forall a :: out(into(a)) == a
    requires forall t :: g(t) == result(f(out(t)))
    ensures Map(MapTo(xs, into), g) == MapTo(MapTo(xs, f), result)
  {
    if xs != [] { OneTypeIsEnough(xs[1..], f, into, out, result, g); }
  }

  // ----- what the eager operations give -----

  lemma {:induction false} MapAt<T>(xs: seq<T>, f: T -> T)
    ensures |Map(xs, f)| == |xs| && forall i :: 0 <= i < |xs| ==> Map(xs, f)[i] == f(xs[i])
  {
    if xs != [] { MapAt(xs[1..], f); }
  }

  /** A mapped chain gives as many elements as its source, each under `f`. */
  lemma EagerMapping<T>(source: Iterable<T>, f: T -> T)
    ensures |Mapping(source, f).Eager()| == |source.Eager()|
    ensures forall i :: 0 <= i < |source.Eager()| ==> Mapping(source, f).Eager()[i] == f(source.Eager()[i])
  {
    MapAt(source.Eager(), f);
  }

  /** `at` are the positions of the elements of `xs` that pass, in order. */
  ghost predicate PassingAt<T>(xs: seq<T>, p: T -> bool, at: seq<nat>, ys: seq<T>) {
    && |at| == |ys|
    && (forall k :: 0 <= k < |at| ==> at[k] < |xs| && p(xs[at[k]]) && ys[k] == xs[at[k]])
    && (forall k, m :: 0 <= k < m < |at| ==> at[k] < at[m])
    && (forall i :: 0 <= i < |xs| && p(xs[i]) ==> exists k :: 0 <= k < |at| && at[k] == i)
  }

  lemma {:induction false} FilterAppend<T>(xs: seq<T>, x: T, p: T -> bool)
    ensures Filter(xs + [x], p) == Filter(xs, p) + if p(x) then [x] else []
  {
    if xs == [] {
      assert [x][1..] == [] && xs + [x] == [x];
    } else {
      FilterAppend(xs[1..], x, p);
      assert (xs + [x])[1..] == xs[1..] + [x];
    }
  }

  lemma OnePasses<T>(xs: seq<T>, x: T, p: T -> bool, at: seq<nat>, ys: seq<T>)
    requires PassingAt(xs, p, at, ys)
    ensures p(x) ==> PassingAt(xs + [x], p, at + [|xs|], ys + [x])
    ensures !p(x) ==> PassingAt(xs + [x], p, at, ys)
  {
    if p(x) {
      var more := at + [|xs|];
      forall i | 0 <= i <= |xs| && p((xs + [x])[i])
        ensures exists k :: 0 <= k < |more| && more[k] == i
      {
        if i < |xs| {
          var k :| 0 <= k < |at| && at[k] == i;
          assert more[k] == i;
        } else {
          assert more[|at|] == i;
        }
      }
    }
  }

  /** Filtering gives exactly the elements that pass, in their order. */
  lemma {:induction false} FilterKeepsOrder<T>(xs: seq<T>, p: T -> bool) returns (at: seq<nat>)
    ensures PassingAt(xs, p, at, Filter(xs, p))
  {
    if xs == [] {
      at := [];
    } else {
      var n := |xs| - 1;
      at := FilterKeepsOrder(xs[..n], p);
      assert xs == xs[..n] + [xs[n]];
      FilterAppend(xs[..n], xs[n], p);
      OnePasses(xs[..n], xs[n], p, at, Filter(xs[..n], p));
      if p(xs[n]) { at := at + [n]; } else { assert Filter(xs[..n], p) + [] == Filter(xs[..n], p); }
    }
  }

  /** A filtered chain gives exactly its source's elements that pass, in order. */
  lemma EagerFiltering<T>(source: Iterable<T>, p: T -> bool) returns (at: seq<nat>)
    ensures PassingAt(source.Eager(), p, at, Filtering(source, p).Eager())
  {
    at := FilterKeepsOrder(source.Eager(), p);
  }

  /** A fold takes the elements from first to last. */
  lemma {:induction false} FoldLeftAppend<S, T>(fn: (S, T) -> S, s: S, xs: seq<T>, x: T)
    ensures FoldLeft(fn, s, []) == s
    ensures FoldLeft(fn, s, xs + [x]) == fn(FoldLeft(fn, s, xs), x)
    decreases |xs|
  {
    if xs == [] {
      assert xs + [x] == [x] && [x][1..] == [];
    } else {
      FoldLeftAppend(fn, fn(s, xs[0]), xs[1..], x);
      assert (xs + [x])[1..] == xs[1..] + [x];
    }
  }

  /** Of the elements with one key the last one is kept. */
  lemma {:induction false} LastKeyWins<T>(xs: seq<T>, key: T -> string)
    ensures forall k :: k in ByKey(xs, key) <==> exists i :: 0 <= i < |xs| && key(xs[i]) == k
    ensures forall i :: 0 <= i < |xs| && (forall j :: i < j < |xs| ==> key(xs[j]) != key(xs[i])) ==>
              key(xs[i]) in ByKey(xs, key) && ByKey(xs, key)[key(xs[i])] == xs[i]
  {
    if xs != [] {
      var n := |xs| - 1;
      LastKeyWins(xs[..n], key);
      forall k
        ensures k in ByKey(xs, key) <==> exists i :: 0 <= i < |xs| && key(xs[i]) == k
      {
        if exists i :: 0 <= i < |xs| && key(xs[i]) == k {
          var i :| 0 <= i < |xs| && key(xs[i]) == k;
          if i < n { assert key(xs[..n][i]) == k; }
        }
      }
      forall i | 0 <= i < |xs| && (forall j :: i < j < |xs| ==> key(xs[j]) != key(xs[i]))
        ensures key(xs[i]) in ByKey(xs, key) && ByKey(xs, key)[key(xs[i])] == xs[i]
      {
        if i < n { assert xs[..n][i] == xs[i]; }
      }
    }
  }

  lemma {:induction false} NothingPasses<T>(xs: seq<T>, p: T -> bool)
    ensures Filter(xs, p) == [] <==> forall i :: 0 <= i < |xs| ==> !p(xs[i])
  {
    if xs != [] {
      NothingPasses(xs[1..], p);
      assert forall i :: 0 < i < |xs| ==> xs[i] == xs[1..][i - 1];
    }
  }

  /** Find gives what filtering first would give. */
  lemma {:induction false} FindIsFirstOfFilter<T>(xs: seq<T>, p: T -> bool)
    ensures FirstMatch(xs, p) == if Filter(xs, p) == [] then None else Some(Filter(xs, p)[0])
  {
    if xs != [] { FindIsFirstOfFilter(xs[1..], p); }
  }

  /** When no two elements share a key the map holds every element under its own. */
  lemma {:induction false} ByKeyFinds<T>(xs: seq<T>, key: T -> string)
    requires forall i, j :: 0 <= i < j < |xs| ==> key(xs[i]) != key(xs[j])
    ensures forall i :: 0 <= i < |xs| ==> key(xs[i]) in ByKey(xs, key) && ByKey(xs, key)[key(xs[i])] == xs[i]
    ensures forall k :: k in ByKey(xs, key) ==> key(ByKey(xs, key)[k]) == k && ByKey(xs, key)[k] in xs
  {
    if xs != [] {
      var n := |xs| - 1;
      ByKeyFinds(xs[..n], key);
      assert xs == xs[..n] + [xs[n]];
    }
  }

  /** `xs` in a buffer of `n` slots: cut off at the end, or padded with zeros. */
  function Fit<T>(xs: seq<T>, n: nat, zero: T): (fit: seq<T>)
    ensures |fit| == n
  {
    if |xs| >= n then xs[..n] else xs + seq(n - |xs|, _ => zero)
  }

  lemma FitAt<T>(xs: seq<T>, n: nat, zero: T, k: nat)
    requires k < n
    ensures Fit(xs, n, zero)[k] == if k < |xs| then xs[k] else zero
  {
  }

  /** `buffer` holds the start of `xs`, and `i` slots of it are taken. */
  predicate Holds<T(==)>(buffer: seq<T>, i: nat, xs: seq<T>, zero: T) {
    buffer == Fit(xs, |buffer|, zero) && i == if |xs| <= |buffer| then |xs| else |buffer|
  }

  /** copy(result[i:], s) */
  method CopyInto<T>(result: array<T>, i: nat, s: seq<T>, ghost xs: seq<T>, ghost zero: T) returns (copied: nat)
    requires Holds(result[..], i, xs, zero)
    modifies result
    ensures Holds(result[..], i + copied, xs + s, zero)
  {
    copied := if |s| <= result.Length - i then |s| else result.Length - i;
    forall j | 0 <= j < copied { result[i + j] := s[j]; }
    assert forall k :: 0 <= k < result.Length ==> result[..][k] == Fit(xs + s, result.Length, zero)[k];
  }

  /** The second loop's body: the slice that Next has just taken is copied. */
  method CopyValue<T>(again: Iter<seq<T>>, result: array<T>, i: nat, ghost done: seq<seq<T>>, ghost zero: T)
    returns (next: nat)
    requires allocated(again.Cell()) && again.Valid() && again.Ready() && again.Cell() != result
    requires Holds(result[..], i, Flatten(done), zero)
    modifies result
    ensures again.Valid() && again.Rest() == old(again.Rest())
    ensures Holds(result[..], next, Flatten(done + [old(again.Value())]), zero)
  {
    var copied := CopyInto(result, i, again.Value(), Flatten(done), zero);
    next := i + copied;
  }

  /** The second loop: what comes is copied one after another. */
  method Fill<T>(again: Iter<seq<T>>, result: array<T>, ghost zero: T)
    requires allocated(again.Cell()) && again.Valid() && again.Cell() != result
             && result[..] == Fit([], result.Length, zero)
    modifies again.Cell(), result
    ensures result[..] == Fit(Flatten(old(again.Rest())), result.Length, zero)
  {
    ghost var all, k := again.Rest(), 0;
    var i := 0;
    assert all[..0] == [] && all[0..] == all;
    var more := again.Next();
    while more
      invariant k <= |all| && Holds(result[..], i, Flatten(all[..k]), zero)
      invariant more ==> again.Valid() && again.Ready() && all[k..] == [again.Value()] + again.Rest()
      invariant !more ==> k == |all|
      decreases |all| - k
    {
      OneMore(all, k, again.Value(), again.Rest());
      i := CopyValue(again, result, i, all[..k], zero);
      k := k + 1;
      more := again.Next();
    }
    assert all[..|all|] == all;
  }

  lemma ByKeyNext<T>(all: seq<T>, k: nat, x: T, rest: seq<T>, key: T -> string)
    requires k <= |all| && all[k..] == [x] + rest
    ensures k < |all| && all[k + 1..] == rest && ByKey(all[..k + 1], key) == ByKey(all[..k], key)[key(x) := x]
  {
    OneMore(all, k, x, rest);
    assert all[..k + 1][..k] == all[..k];
  }

  lemma OneMore<T>(all: seq<T>, k: nat, x: T, rest: seq<T>)
    requires k <= |all| && all[k..] == [x] + rest
    ensures k < |all| && all[..k + 1] == all[..k] + [x] && all[k + 1..] == rest
  {
    assert all[k..][1..] == rest && all[k..][0] == x;
  }

  /** FlattenSlices, given the iterators of its two calls of Iterator(): the
      first sizes the result, the second fills it. */
  method FillFlattened<T>(first: Iter<seq<T>>, again: Iter<seq<T>>, zero: T) returns (result: array<T>)
    requires first.Valid() && again.Valid() && first.Cell() != again.Cell() && allocated(again.Cell())
    modifies first.Cell(), again.Cell()
    ensures fresh(result)
    ensures result[..] == Fit(Flatten(old(again.Rest())), |Flatten(old(first.Rest()))|, zero)
  {
    LengthsAdd(0, first.Rest());
    var totalLen := first.ForEach(0, AddLength);
    result := new T[totalLen](_ => zero);
    assert result[..] == Fit([], totalLen, zero);
    Fill(again, result, zero);
  }

  function AddLength<T>(n: nat, t: seq<T>): nat {
    n + |t|
  }

  lemma {:induction false} LengthsAdd<T>(n: nat, xss: seq<seq<T>>)
    ensures FoldLeft(AddLength, n, xss) == n + |Flatten(xss)|
    decreases |xss|
  {
    if xss != [] {
      LengthsAdd(n + |xss[0]|, xss[1..]);
      FlattenAppend([xss[0]], xss[1..]);
      FlattenSingle(xss[0]);
      assert [xss[0]] + xss[1..] == xss;
    }
  }

  /** Since Iterator() restarts, the result is exactly the concatenation. */
  method FlattenSlices<T>(source: Iterable<seq<T>>, zero: T) returns (result: array<T>)
    ensures fresh(result) && result[..] == Flatten(source.Eager())
  {
    var first := source.Iterator();
    var again := source.Iterator();
    result := FillFlattened(first, again, zero);
  }
}
