/** The bytes on the wire, written out: the letters of section 55.9 of the
    PostgreSQL 16 documentation, on the encoder's side and on the decoder's. */
module WireBytes {
  import opened Prelude
  import opened BigEndian
  import opened Protocol
  import opened Decoding
  import opened RoundTrip

  // ----- the letters -----

  /** The first byte of each message the server sends. */
  lemma TypeLetters(w: Wire)
    requires WireOk(w)
    ensures Encode(w)[0] == match w
                            case WBegin(_, _, _) => 'B' as int
                            case WCommit(_, _, _, _) => 'C' as int
                            case WOrigin(_, _) => 'O' as int
                            case WRelation(_, _, _, _, _) => 'R' as int
                            case WType(_, _, _) => 'Y' as int
                            case WTruncate(_, _) => 'T' as int
                            case WInsert(_, _) => 'I' as int
                            case WUpdate(_, _, _) => 'U' as int
                            case WDelete(_, _, _) => 'D' as int
  {
  }

  /** What the decoder makes of the first byte, whatever follows it. */
  lemma LettersChoose(data: seq<byte>)
    requires data != [] && Decode(data).Done?
    ensures var m, c := Decode(data).value, data[0];
            && (m.Begin? <==> c == 'B' as int) && (m.Commit? <==> c == 'C' as int)
            && (m.Relation? <==> c == 'R' as int) && (m.Insert? <==> c == 'I' as int)
            && (m.Update? <==> c == 'U' as int) && (m.Delete? <==> c == 'D' as int)
            && (m.Ignored? <==> c == 'O' as int || c == 'Y' as int || c == 'T' as int)
            && (m.Unknown? ==> m.tag == c)
  {
  }

  // ----- values -----

  lemma CellLetters(bytes: seq<byte>)
    requires Fits(|bytes|, 4)
    ensures PutCell(Null) == ['n' as int] && PutCell(Toast) == ['u' as int]
    ensures PutCell(Text(bytes)) == ['t' as int] + PutInt(|bytes|, 4) + bytes
  {
  }

  /** Only a 't' is followed by a length and a text; any other tag is a value of
      its own, and one byte long. */
  lemma CellIsRead(tag: byte, bytes: seq<byte>, rest: seq<byte>)
    requires Fits(|bytes|, 4)
    ensures TakeCell(['t' as int] + PutInt(|bytes|, 4) + bytes + rest) == Done(Some(bytes), rest)
    ensures tag != 't' as int ==> TakeCell([tag] + rest) == Done(None, rest)
  {
    TextRoundTrip(bytes, rest);
  }

  /** The most significant byte comes first, and its top bit is the sign. */
  lemma {:induction false} MostSignificantFirst(b: byte, s: seq<byte>)
    ensures Unsigned([b] + s) == b * Power(|s|) + Unsigned(s)
    ensures Signed([b] + s) == Unsigned([b] + s) - if b < 0x80 then 0 else Power(|s| + 1)
  {
    if s == [] {
      assert Unsigned([b]) == 0x100 * Unsigned([b][..0]) + b;
    } else {
      var n := |s| - 1;
      MostSignificantFirst(b, s[..n]);
      assert ([b] + s)[..|s|] == [b] + s[..n];
      OneByteMore(b, Power(n));
    }
    TopBit(b, Power(|s|), Unsigned(s));
  }

  lemma OneByteMore(b: byte, p: nat)
    ensures 0x100 * (b * p) == b * (0x100 * p)
  {
  }

  lemma TopBit(b: byte, p: nat, low: nat)
    requires low < p
    ensures b < 0x80 <==> 2 * (b * p + low) < 0x100 * p
  {
    if b < 0x80 {
      Scaled(b + 1, 0x80, p);
      assert (b + 1) * p == b * p + p;
    } else {
      Scaled(0x80, b, p);
    }
  }

  lemma Scaled(a: nat, b: nat, p: nat)
    requires a <= b
    ensures a * p <= b * p
  {
  }

  // ----- whole messages -----

  /** Any Begin message, by its bytes. */
  lemma BeginBytes(data: seq<byte>)
    requires |data| >= 21 && data[0] == 'B' as int
    ensures Decode(data) == Done(Begin(Signed(data[1..9]), Nanos(Signed(data[9..17])), Signed(data[17..21])),
                                 data[21..])
  {
    var s := data[1..];
    assert s[..8] == data[1..9] && s[8..][..8] == data[9..17] && s[8..][8..][..4] == data[17..21];
  }

  /** Any Commit message, by its bytes. */
  lemma CommitBytes(data: seq<byte>)
    requires |data| >= 26 && data[0] == 'C' as int
    ensures Decode(data) == Done(Commit(Signed(data[1..2]), Signed(data[2..10]), Signed(data[10..18]),
                                        Nanos(Signed(data[18..26]))), data[26..])
  {
    var s := data[1..];
    assert s[..1] == data[1..2] && s[1..][..8] == data[2..10];
    assert s[1..][8..][..8] == data[10..18] && s[1..][8..][8..][..8] == data[18..26];
  }

  /** The bytes of a Relation message: names end in a NUL, a key column has flag 1. */
  lemma RelationBytes(id: int, ns: Name, name: Name, replica: int, columns: seq<RelationColumn>)
    requires WireOk(WRelation(id, ns, name, replica, columns))
    ensures var raw := ['R' as int] + (PutInt(id, 4) + (ns + [0] + (name + [0] + (PutInt(replica, 1)
                         + (PutInt(|columns|, 2) + PutColumns(columns))))));
            Encode(WRelation(id, ns, name, replica, columns)) == raw
            && Decode(raw) == Done(Relation(id, ns, name, replica, columns), [])
    ensures forall i :: 0 <= i < |columns| ==>
              PutColumn(columns[i]) == [if columns[i].key then 1 else 0] + (columns[i].name + [0])
                                       + PutInt(columns[i].typeId, 4) + PutInt(columns[i].modifierType, 4)
  {
    DecodeInvertsEncode(WRelation(id, ns, name, replica, columns));
  }

  lemma InsertBytes(id: int, row: Row)
    requires WireOk(WInsert(id, row))
    ensures var raw := ['I' as int] + (PutInt(id, 4) + (['N' as int] + PutRow(row)));
            Encode(WInsert(id, row)) == raw && Decode(raw) == Done(Insert(id, true, SeenRow(row)), [])
  {
    DecodeInvertsEncode(WInsert(id, row));
  }

  /** 'K' before a key, 'O' before a whole row. */
  lemma DeleteBytes(id: int, byKey: bool, row: Row)
    requires WireOk(WDelete(id, byKey, row))
    ensures var raw := ['D' as int] + (PutInt(id, 4) + ([if byKey then 'K' as int else 'O' as int] + PutRow(row)));
            Encode(WDelete(id, byKey, row)) == raw
            && (Decode(raw) == Done(Delete(id, byKey, !byKey, SeenRow(row)), [])
                <==> !(byKey && 0x4F00 <= |row| < 0x5000))
  {
    DecodeInvertsEncode(WDelete(id, byKey, row));
  }

  lemma UpdateBytes(id: int, row: Row)
    requires WireOk(WUpdate(id, NoOld, row))
    ensures var raw := ['U' as int] + (PutInt(id, 4) + (['N' as int] + PutRow(row)));
            Encode(WUpdate(id, NoOld, row)) == raw && Decode(raw) == Done(Update(id, false, true, [], SeenRow(row)), [])
  {
    assert [] + ([NEW_TUPLE] + PutRow(row)) == [NEW_TUPLE] + PutRow(row);
    DecodeInvertsEncode(WUpdate(id, NoOld, row));
  }

  lemma KeyUpdateBytes(id: int, key: Row, row: Row)
    requires WireOk(WUpdate(id, Key(key), row))
    ensures var raw := ['U' as int] + (PutInt(id, 4) + (['K' as int] + PutRow(key) + (['N' as int] + PutRow(row))));
            Encode(WUpdate(id, Key(key), row)) == raw
            && (Decode(raw) == Done(Update(id, true, true, SeenRow(key), SeenRow(row)), [])
                <==> !(0x4F00 <= |key| < 0x5000))
  {
    DecodeInvertsEncode(WUpdate(id, Key(key), row));
  }

  lemma FullUpdateBytes(id: int, full: Row, row: Row)
    requires WireOk(WUpdate(id, Full(full), row))
    ensures var raw := ['U' as int] + (PutInt(id, 4) + (['O' as int] + PutRow(full) + (['N' as int] + PutRow(row))));
            Encode(WUpdate(id, Full(full), row)) == raw
            && Decode(raw) == Done(Update(id, false, true, SeenRow(full), SeenRow(row)), [])
  {
    DecodeInvertsEncode(WUpdate(id, Full(full), row));
  }

  lemma LongerRow(row: Row, c: Cell)
    requires RowOk(row) && CellOk(c) && |row| + 1 < 0x8000
    ensures RowOk([]) && RowOk(row + [c])
  {
    PowerValues();
    forall i | 0 <= i <= |row|
      ensures CellOk((row + [c])[i])
    {
      if i < |row| { assert CellOk(row[i]); }
    }
  }

  /** A row: how many values, in two bytes, then each value in turn. */
  lemma RowBytes(row: Row, c: Cell)
    requires RowOk(row) && CellOk(c) && |row| + 1 < 0x8000
    ensures RowOk([]) && PutRow([]) == [0, 0] && RowOk(row + [c])
    ensures PutRow(row + [c]) == [(|row| + 1) / 0x100, (|row| + 1) % 0x100] + (PutRow(row)[2..] + PutCell(c))
    ensures SeenRow(row + [c]) == SeenRow(row) + [if c.Text? then Some(c.bytes) else None]
  {
    LongerRow(row, c);
    CountBytes([]);
    CountBytes(row + [c]);
    var parts := seq(|row|, i requires 0 <= i < |row| => PutCell(row[i]));
    var more := seq(|row + [c]|, i requires 0 <= i < |row + [c]| => PutCell((row + [c])[i]));
    assert more == parts + [PutCell(c)] && more[..|row|] == parts;
    assert PutRow(row)[2..] == PutCells(row);
  }

  // ----- cut off and malformed messages -----

  /** What is missing from a Begin or a Commit reads as zero, and does not panic. */
  lemma ShortControl(data: seq<byte>)
    requires data != [] && (data[0] == 'B' as int || data[0] == 'C' as int)
    ensures Decode(data).Done?
    ensures data[0] == 'B' as int && |data| < 9 ==> Decode(data) == Done(Begin(0, 0, 0), [])
    ensures data[0] == 'C' as int && |data| == 1 ==> Decode(data) == Done(Commit(0, 0, 0, 0), [])
  {
  }

  /** A row message that ends before its tuple flag panics, and so does one with
      a negative number of values or a value of negative length. */
  lemma MalformedRowsPanic(data: seq<byte>, hi: byte, lo: byte, rest: seq<byte>)
    ensures data != [] && |data| <= 5 && data[0] in ['I' as int, 'U' as int, 'D' as int] ==> Decode(data).Panic?
    ensures hi >= 0x80 ==> TakeTuple([hi, lo] + rest).Panic?
    ensures 1 <= 0x100 * hi + lo < 0x8000 ==> TakeTuple([hi, lo]).Panic?
    ensures hi >= 0x80 && |rest| >= 3 ==> TakeCell(['t' as int, hi] + rest).Panic?
  {
    TwoByteCount(hi, lo, rest);
    TwoByteCount(hi, lo, []);
    assert [hi, lo] + [] == [hi, lo];
    if 1 <= 0x100 * hi + lo < 0x8000 { NothingToTake(0x100 * hi + lo); }
    if hi >= 0x80 && |rest| >= 3 {
      var s: seq<byte> := ['t' as int, hi] + rest;
      assert s[1..][..4] == [hi] + rest[..3];
      MostSignificantFirst(hi, rest[..3]);
    }
  }

  lemma {:induction false} NothingToTake(n: nat)
    requires n > 0
    ensures TakeMany(TakeCell, n, []).Panic?
  {
    if n > 1 { NothingToTake(n - 1); }
  }
}
