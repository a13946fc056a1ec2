/** Slice helpers that fill or filter a result in a loop. */
module Slices {
  import opened Prelude

  predicate Distinct<T(==)>(xs: seq<T>) {
    forall i, j :: 0 <= i < j < |xs| ==> xs[i] != xs[j]
  }

  /** The first occurrence of every item, in order. */
  function FirstOccurrences<T(==)>(xs: seq<T>): seq<T> {
    if xs == [] then [] else
    var before, last := FirstOccurrences(xs[..|xs| - 1]), xs[|xs| - 1];
    if last in before then before else before + [last]
  }

  lemma {:induction false} SameItems<T>(xs: seq<T>, x: T)
    ensures x in FirstOccurrences(xs) <==> x in xs
  {
    if xs != [] {
      var n := |xs| - 1;
      SameItems(xs[..n], x);
      SameItems(xs[..n], xs[n]);
      assert xs == xs[..n] + [xs[n]];
    }
  }

  lemma {:induction false} NoDuplicates<T>(xs: seq<T>)
    ensures Distinct(FirstOccurrences(xs))
  {
    if xs != [] { NoDuplicates(xs[..|xs| - 1]); }
  }

  /** `at` are the positions at which an item of `xs` stands for the first time. */
  ghost predicate FirstAt<T>(xs: seq<T>, at: seq<nat>, ys: seq<T>) {
    && |at| == |ys|
    && (forall k :: 0 <= k < |at| ==> at[k] < |xs| && ys[k] == xs[at[k]] && xs[at[k]] !in xs[..at[k]])
    && (forall k, m :: 0 <= k < m < |at| ==> at[k] < at[m])
  }

  lemma StillFirst<T>(xs: seq<T>, x: T, at: seq<nat>, ys: seq<T>)
    requires FirstAt(xs, at, ys)
    ensures FirstAt(xs + [x], at, ys)
    ensures x !in xs ==> FirstAt(xs + [x], at + [|xs|], ys + [x])
  {
    forall k | 0 <= k < |at|
      ensures (xs + [x])[..at[k]] == xs[..at[k]]
    {
    }
    assert (xs + [x])[..|xs|] == xs;
  }

  /** Every item is kept where it stands first, and the order is that of the list. */
  lemma {:induction false} KeptWhereFirst<T>(xs: seq<T>) returns (at: seq<nat>)
    ensures FirstAt(xs, at, FirstOccurrences(xs))
  {
    if xs == [] {
      at := [];
    } else {
      var n := |xs| - 1;
      at := KeptWhereFirst(xs[..n]);
      SameItems(xs[..n], xs[n]);
      StillFirst(xs[..n], xs[n], at, FirstOccurrences(xs[..n]));
      assert xs == xs[..n] + [xs[n]];
      if xs[n] !in xs[..n] { at := at + [n]; }
    }
  }

  /** A list without duplicates is left as it is. */
  lemma {:induction false} DistinctStays<T>(xs: seq<T>)
    requires Distinct(xs)
    ensures FirstOccurrences(xs) == xs
  {
    if xs != [] {
      var n := |xs| - 1;
      DistinctStays(xs[..n]);
      assert xs[n] !in xs[..n];
      assert xs == xs[..n] + [xs[n]];
    }
  }

  function Items<T(==)>(xs: seq<T>): set<T> {
    set x | x in xs
  }

  lemma ItemsAppend<T>(xs: seq<T>, x: T)
    ensures Items(xs + [x]) == Items(xs) + {x}
  {
  }

  /** maps.Keys: every key once, in some order. */
  method Keys<V>(m: map<string, V>) returns (keys: seq<string>)
    ensures Distinct(keys) && Items(keys) == m.Keys
  {
    keys := [];
    var left := m.Keys;
    while left != {}
      invariant left <= m.Keys && Distinct(keys) && Items(keys) == m.Keys - left
      decreases left
    {
      var k :| k in left;
      ItemsAppend(keys, k);
      assert k !in Items(keys);
      left := left - {k};
      keys := keys + [k];
    }
  }

  method RemoveDupes<T(==)>(sliceList: seq<T>) returns (list: seq<T>)
    ensures list == FirstOccurrences(sliceList)
  {
    var allKeys: map<T, bool> := map[];
    list := [];
    for i := 0 to |sliceList|
      invariant list == FirstOccurrences(sliceList[..i])
      invariant allKeys.Keys == Items(list)
    {
      var item := sliceList[i];
      assert sliceList[..i + 1][..i] == sliceList[..i];
      ItemsAppend(list, item);
      if item !in allKeys {
        allKeys := allKeys[item := true];
        list := list + [item];
      }
    }
    assert sliceList[..|sliceList|] == sliceList;
  }

  function TotalLength<T>(slices: seq<seq<T>>): (n: nat)
    ensures n == |Flatten(slices)|
  {
    if slices == [] then 0 else TotalLength(slices[..|slices| - 1]) + |slices[|slices| - 1]|
  }

  lemma {:induction false} TotalLengthGrows<T>(slices: seq<seq<T>>, k: nat)
    requires k <= |slices|
    ensures TotalLength(slices[..k]) <= TotalLength(slices)
  {
    if k < |slices| {
      TotalLengthGrows(slices[..|slices| - 1], k);
      assert slices[..|slices| - 1][..k] == slices[..k];
    } else {
      assert slices[..k] == slices;
    }
  }

  /** copy(result[i:], s) into a result whose length was computed beforehand:
      every slot is written once, and the result is the concatenation. */
  method ConcatMultipleSlices<T(0)>(slices: seq<seq<T>>) returns (result: array<T>)
    ensures fresh(result) && result[..] == Flatten(slices)
  {
    var totalLen := 0;
    for k := 0 to |slices|
      invariant totalLen == TotalLength(slices[..k])
    {
      assert slices[..k + 1][..k] == slices[..k];
      totalLen := totalLen + |slices[k]|;
    }
    assert slices[..|slices|] == slices;
    result := new T[totalLen];
    var i := 0;
    for k := 0 to |slices|
      invariant i == TotalLength(slices[..k]) <= result.Length
      invariant result[..i] == Flatten(slices[..k])
    {
      var s := slices[k];
      assert slices[..k + 1][..k] == slices[..k];
      TotalLengthGrows(slices, k + 1);
      ghost var filled := result[..i];
      forall j | 0 <= j < |s| { result[i + j] := s[j]; }
      assert result[..i + |s|] == filled + s;
      i := i + |s|;
    }
  }
}
