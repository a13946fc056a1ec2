/** What the parser makes of a byte string, as functions from the unread bytes
    to a value and the bytes left. */
module Decoding {
  import opened Prelude
  import opened BigEndian
  import opened Protocol

  /** A Go panic (indexing an empty slice, a negative length) is the result
      `Panic`; a short read of an integer is none, it empties the buffer and
      yields zero. */
  datatype Parsed<+T> = Panic | Done(value: T, rest: seq<byte>) {
    predicate IsFailure() { Panic? }

    function PropagateFailure<U>(): Parsed<U>
      requires Panic?
    { Panic }

    function Extract(): (T, seq<byte>)
      requires Done?
    { (value, rest) }
  }

  /** bytes.Buffer.Next: at most `n` bytes. */
  function Take(s: seq<byte>, n: nat): seq<byte> {
    if n <= |s| then s[..n] else s
  }

  function Drop(s: seq<byte>, n: nat): seq<byte> {
    if n <= |s| then s[n..] else []
  }

  function IntAt(s: seq<byte>, n: nat): int {
    if n <= |s| then Signed(s[..n]) else 0
  }

  function TakeByte(s: seq<byte>): Parsed<byte> {
    if s == [] then Panic else Done(s[0], s[1..])
  }

  /** Consume one byte only if it is `c`. */
  function TakeIf(s: seq<byte>, c: byte): Parsed<bool> {
    if s == [] then Panic else if s[0] == c then Done(true, s[1..]) else Done(false, s)
  }

  function IndexOf(s: seq<byte>, c: byte): (i: nat)
    ensures i <= |s|
  {
    if s == [] || s[0] == c then 0 else 1 + IndexOf(s[1..], c)
  }

  lemma {:induction false} IndexOfIsFirst(s: seq<byte>, c: byte, i: nat)
    requires i <= |s|
    ensures IndexOf(s, c) == i <==> (i < |s| ==> s[i] == c) && forall j :: 0 <= j < i ==> s[j] != c
  {
    if s != [] && s[0] != c && i > 0 {
      IndexOfIsFirst(s[1..], c, i - 1);
      assert forall j :: 0 < j < i ==> s[j] == s[1..][j - 1];
      assert forall j :: 0 <= j < i - 1 ==> s[1..][j] == s[j + 1];
    }
  }

  /** The bytes before the first NUL; everything when there is none. */
  function StringAt(s: seq<byte>): Name {
    s[..IndexOf(s, 0)]
  }

  function AfterString(s: seq<byte>): seq<byte> {
    Drop(s, IndexOf(s, 0) + 1)
  }

  function TakeCell(s: seq<byte>): Parsed<TupleData> {
    var (tag, s1) :- TakeByte(s);
    if tag != TEXT_DATA then Done(None, s1) else
    var size := IntAt(s1, 4);
    var s2 := Drop(s1, 4);
    if size < 0 then Panic else Done(Some(Take(s2, size)), Drop(s2, size))
  }

  /** `n` items, one after the other. */
  function TakeMany<T>(item: seq<byte> -> Parsed<T>, n: nat, s: seq<byte>): Parsed<seq<T>> {
    if n == 0 then Done([], s) else
    var (items, s1) :- TakeMany(item, n - 1, s);
    var (last, s2) :- item(s1);
    Done(items + [last], s2)
  }

  function TakeTuple(s: seq<byte>): Parsed<seq<TupleData>> {
    var size := IntAt(s, 2);
    if size < 0 then Panic else TakeMany(TakeCell, size, Drop(s, 2))
  }

  function TakeColumn(s: seq<byte>): Parsed<RelationColumn> {
    var (key, s1) :- TakeByte(s);
    var s2 := AfterString(s1);
    Done(RelationColumn(key != 0, StringAt(s1), IntAt(s2, 4), IntAt(Drop(s2, 4), 4)), Drop(Drop(s2, 4), 4))
  }

  function TakeRelationColumns(s: seq<byte>): Parsed<seq<RelationColumn>> {
    var size := IntAt(s, 2);
    if size < 0 then Panic else TakeMany(TakeColumn, size, Drop(s, 2))
  }

  function DecodeBegin(s: seq<byte>): (r: Parsed<Message>)
    ensures r.Done? ==> r.value.Begin?
  {
    var s1 := Drop(s, 8);
    var s2 := Drop(s1, 8);
    Done(Begin(IntAt(s, 8), Nanos(IntAt(s1, 8)), IntAt(s2, 4)), Drop(s2, 4))
  }

  function DecodeCommit(s: seq<byte>): (r: Parsed<Message>)
    ensures r.Done? ==> r.value.Commit?
  {
    var s1 := Drop(s, 1);
    var s2 := Drop(s1, 8);
    var s3 := Drop(s2, 8);
    Done(Commit(IntAt(s, 1), IntAt(s1, 8), IntAt(s2, 8), Nanos(IntAt(s3, 8))), Drop(s3, 8))
  }

  function DecodeRelation(s: seq<byte>): (r: Parsed<Message>)
    ensures r.Done? ==> r.value.Relation?
  {
    var s1 := Drop(s, 4);
    var s2 := AfterString(s1);
    var s3 := AfterString(s2);
    var (columns, s4) :- TakeRelationColumns(Drop(s3, 1));
    Done(Relation(IntAt(s, 4), StringAt(s1), StringAt(s2), IntAt(s3, 1), columns), s4)
  }

  function DecodeInsert(s: seq<byte>): (r: Parsed<Message>)
    ensures r.Done? ==> r.value.Insert?
  {
    var (tag, s1) :- TakeByte(Drop(s, 4));
    var (row, s2) :- TakeTuple(s1);
    Done(Insert(IntAt(s, 4), tag == NEW_TUPLE, row), s2)
  }

  function DecodeUpdate(s: seq<byte>): (r: Parsed<Message>)
    ensures r.Done? ==> r.value.Update?
  {
    var (key, s1) :- TakeIf(Drop(s, 4), KEY_TUPLE);
    var (full, s2) :- TakeIf(s1, OLD_TUPLE);
    var (oldRow, s3) :- if key || full then TakeTuple(s2) else Done([], s2);
    var (new_, s4) :- TakeIf(s3, NEW_TUPLE);
    var (row, s5) :- TakeTuple(s4);
    Done(Update(IntAt(s, 4), key, new_, oldRow, row), s5)
  }

  function DecodeDelete(s: seq<byte>): (r: Parsed<Message>)
    ensures r.Done? ==> r.value.Delete?
  {
    var (key, s1) :- TakeIf(Drop(s, 4), KEY_TUPLE);
    var (full, s2) :- TakeIf(s1, OLD_TUPLE);
    var (row, s3) :- TakeTuple(s2);
    Done(Delete(IntAt(s, 4), key, full, row), s3)
  }

  /** The type byte chooses how the rest is read. */
  function DecodeBody(tag: byte, body: seq<byte>): Parsed<Message> {
    if tag == BEGIN_MSG then DecodeBegin(body)
    else if tag == COMMIT_MSG then DecodeCommit(body)
    else if tag == RELATION_MSG then DecodeRelation(body)
    else if tag == INSERT_MSG then DecodeInsert(body)
    else if tag == UPDATE_MSG then DecodeUpdate(body)
    else if tag == DELETE_MSG then DecodeDelete(body)
    else if tag == ORIGIN_MSG || tag == TYPE_MSG || tag == TRUNCATE_MSG then Done(Ignored, body)
    else Done(Unknown(tag), body)
  }

  function Decode(msg: seq<byte>): Parsed<Message>
    requires msg != []
  {
    DecodeBody(msg[0], msg[1..])
  }

  // ----- reading a list item by item -----

  /** If all of the items can be read, so can each of them in turn. */
  lemma {:induction false} ManySoFar<T>(item: seq<byte> -> Parsed<T>, i: nat, n: nat, s: seq<byte>)
    requires i < n && TakeMany(item, n, s).Done?
    ensures TakeMany(item, i, s).Done?
    ensures item(TakeMany(item, i, s).rest).Done?
    decreases n
  {
    if i + 1 < n { ManySoFar(item, i, n - 1, s); }
  }

  lemma {:induction false} ManyCount<T>(item: seq<byte> -> Parsed<T>, n: nat, s: seq<byte>)
    ensures TakeMany(item, n, s).Done? ==> |TakeMany(item, n, s).value| == n
  {
    if n > 0 { ManyCount(item, n - 1, s); }
  }

  /** Storing the item read next extends the part of `data` that is filled. */
  lemma ManyStored<T>(item: seq<byte> -> Parsed<T>, i: nat, s: seq<byte>, data: seq<T>, r: seq<byte>, x: T,
                      rest: seq<byte>)
    requires i < |data|
    requires TakeMany(item, i, s) == Done(data[..i], r) && item(r) == Done(x, rest)
    ensures TakeMany(item, i + 1, s) == Done(data[i := x][..i + 1], rest)
  {
    assert data[i := x][..i + 1] == data[..i] + [x];
  }

  /** A list whose every part reads back, reads back. */
  lemma {:induction false} ManyRoundTrip<T>(item: seq<byte> -> Parsed<T>, parts: seq<seq<byte>>, values: seq<T>,
                                                rest: seq<byte>)
    requires |parts| == |values|
    requires forall i, more :: 0 <= i < |parts| ==> item(parts[i] + more) == Done(values[i], more)
    ensures TakeMany(item, |parts|, Flatten(parts) + rest) == Done(values, rest)
  {
    if parts == [] {
      assert Flatten(parts) + rest == rest;
    } else {
      var n := |parts| - 1;
      assert Flatten(parts) + rest == Flatten(parts[..n]) + (parts[n] + rest);
      ManyRoundTrip(item, parts[..n], values[..n], parts[n] + rest);
      assert values == values[..n] + [values[n]];
    }
  }
}
