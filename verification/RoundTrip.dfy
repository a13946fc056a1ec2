/** The decoder inverts the encoder of section 55.9, and exactly when it does. */
module RoundTrip {
  import opened Prelude
  import opened BigEndian
  import opened Protocol
  import opened Decoding

  // ----- pieces -----

  lemma IntRoundTrip(v: int, n: nat, rest: seq<byte>)
    requires Fits(v, n)
    ensures IntAt(PutInt(v, n) + rest, n) == v && Drop(PutInt(v, n) + rest, n) == rest
  {
    SignedOfPutInt(v, n);
    assert (PutInt(v, n) + rest)[..n] == PutInt(v, n);
  }

  lemma StringRoundTrip(name: Name, rest: seq<byte>)
    requires NulFree(name)
    ensures StringAt(PutString(name) + rest) == name
    ensures AfterString(PutString(name) + rest) == rest
  {
    var s := PutString(name) + rest;
    assert s[|name|] == 0 && forall j :: 0 <= j < |name| ==> s[j] == name[j];
    IndexOfIsFirst(s, 0, |name|);
    assert IndexOf(s, 0) == |name|;
    assert s[..|name|] == name;
    assert s[|name| + 1..] == rest;
  }

  lemma CellRoundTrip(c: Cell, rest: seq<byte>)
    requires CellOk(c)
    ensures TakeCell(PutCell(c) + rest) == Done(Seen(c), rest)
  {
    match c
    case Null =>
    case Toast =>
    case Text(bytes) => TextRoundTrip(bytes, rest);
  }

  lemma TextRoundTrip(bytes: seq<byte>, rest: seq<byte>)
    requires Fits(|bytes|, 4)
    ensures TakeCell([TEXT_DATA] + PutInt(|bytes|, 4) + bytes + rest) == Done(Some(bytes), rest)
  {
    var n, s2 := PutInt(|bytes|, 4), bytes + rest;
    var s := [TEXT_DATA] + n + bytes + rest;
    IntRoundTrip(|bytes|, 4, s2);
    assert s[1..] == n + s2;
    assert Take(s2, |bytes|) == bytes && Drop(s2, |bytes|) == rest;
  }

  lemma CellsRoundTrip(row: Row, rest: seq<byte>)
    requires forall i :: 0 <= i < |row| ==> CellOk(row[i])
    ensures TakeMany(TakeCell, |row|, PutCells(row) + rest) == Done(SeenRow(row), rest)
  {
    var parts := seq(|row|, i requires 0 <= i < |row| => PutCell(row[i]));
    forall i, more | 0 <= i < |row|
      ensures TakeCell(parts[i] + more) == Done(SeenRow(row)[i], more)
    {
      CellRoundTrip(row[i], more);
    }
    ManyRoundTrip(TakeCell, parts, SeenRow(row), rest);
  }

  lemma RowRoundTrip(row: Row, rest: seq<byte>)
    requires RowOk(row)
    ensures TakeTuple(PutRow(row) + rest) == Done(SeenRow(row), rest)
  {
    assert PutRow(row) + rest == PutInt(|row|, 2) + (PutCells(row) + rest);
    IntRoundTrip(|row|, 2, PutCells(row) + rest);
    CellsRoundTrip(row, rest);
  }

  lemma ColumnRoundTrip(c: RelationColumn, rest: seq<byte>)
    requires ColumnOk(c)
    ensures TakeColumn(PutColumn(c) + rest) == Done(c, rest)
  {
    var flag: byte := if c.key then 1 else 0;
    var s3 := PutInt(c.modifierType, 4) + rest;
    var s2 := PutInt(c.typeId, 4) + s3;
    var s1 := PutString(c.name) + s2;
    assert PutColumn(c) + rest == [flag] + s1;
    StringRoundTrip(c.name, s2);
    IntRoundTrip(c.typeId, 4, s3);
    IntRoundTrip(c.modifierType, 4, rest);
  }

  lemma ColumnsRoundTrip(columns: seq<RelationColumn>, rest: seq<byte>)
    requires forall i :: 0 <= i < |columns| ==> ColumnOk(columns[i])
    ensures TakeMany(TakeColumn, |columns|, PutColumns(columns) + rest) == Done(columns, rest)
  {
    var parts := seq(|columns|, i requires 0 <= i < |columns| => PutColumn(columns[i]));
    forall i, more | 0 <= i < |columns|
      ensures TakeColumn(parts[i] + more) == Done(columns[i], more)
    {
      ColumnRoundTrip(columns[i], more);
    }
    ManyRoundTrip(TakeColumn, parts, columns, rest);
  }

  // ----- control messages -----

  lemma BeginRoundTrip(w: Wire)
    requires w.WBegin? && WireOk(w)
    ensures DecodeBegin(PutBody(w)) == Done(Meaning(w), [])
  {
    var s2 := PutInt(w.xid, 4);
    var s1 := PutInt(w.micros, 8) + s2;
    IntRoundTrip(w.lsn, 8, s1);
    IntRoundTrip(w.micros, 8, s2);
    IntRoundTrip(w.xid, 4, []);
    assert s2 == s2 + [];
  }

  lemma CommitRoundTrip(w: Wire)
    requires w.WCommit? && WireOk(w)
    ensures DecodeCommit(PutBody(w)) == Done(Meaning(w), [])
  {
    var s3 := PutInt(w.micros, 8);
    var s2 := PutInt(w.endLsn, 8) + s3;
    var s1 := PutInt(w.lsn, 8) + s2;
    IntRoundTrip(w.flags, 1, s1);
    IntRoundTrip(w.lsn, 8, s2);
    IntRoundTrip(w.endLsn, 8, s3);
    IntRoundTrip(w.micros, 8, []);
    assert s3 == s3 + [];
  }

  lemma RelationColumnsRoundTrip(columns: seq<RelationColumn>)
    requires Fits(|columns|, 2) && forall i :: 0 <= i < |columns| ==> ColumnOk(columns[i])
    ensures TakeRelationColumns(PutInt(|columns|, 2) + PutColumns(columns)) == Done(columns, [])
  {
    IntRoundTrip(|columns|, 2, PutColumns(columns));
    ColumnsRoundTrip(columns, []);
    assert PutColumns(columns) == PutColumns(columns) + [];
  }

  lemma RelationRoundTrip(w: Wire)
    requires w.WRelation? && WireOk(w)
    ensures DecodeRelation(PutBody(w)) == Done(Meaning(w), [])
  {
    var s4 := PutInt(|w.columns|, 2) + PutColumns(w.columns);
    var s3 := PutInt(w.replica, 1) + s4;
    var s2 := PutString(w.name) + s3;
    var s1 := PutString(w.namespace) + s2;
    IntRoundTrip(w.id, 4, s1);
    StringRoundTrip(w.namespace, s2);
    StringRoundTrip(w.name, s3);
    IntRoundTrip(w.replica, 1, s4);
    RelationColumnsRoundTrip(w.columns);
  }

  // ----- row messages -----

  /** After 'K' the parser still asks for an 'O'. It finds one when the high
      byte of the key's column count is 0x4F. */
  predicate Misread(key: Row) {
    0x4F00 <= |key| < 0x5000
  }

  /** The messages the decoder gets wrong. PostgreSQL allows 1600 columns, so
      its server sends none of them. */
  predicate Ambiguous(w: Wire) {
    match w
    case WUpdate(_, Key(key), _) => Misread(key)
    case WDelete(_, true, key) => Misread(key)
    case _ => false
  }

  lemma CountBytes(row: Row)
    requires RowOk(row)
    ensures PutInt(|row|, 2) == [|row| / 0x100, |row| % 0x100]
  {
    PowerValues();
    var u := |row|;
    assert Digits(u / 0x100, 1) == Digits(u / 0x100 / 0x100, 0) + [u / 0x100 % 0x100];
  }

  lemma InsertRoundTrip(w: Wire)
    requires w.WInsert? && WireOk(w)
    ensures DecodeBody(TypeByte(w), PutBody(w)) == Done(Meaning(w), [])
  {
    IntRoundTrip(w.id, 4, [NEW_TUPLE] + PutRow(w.row));
    assert PutRow(w.row) == PutRow(w.row) + [];
    RowRoundTrip(w.row, []);
  }

  lemma DeleteRoundTrip(w: Wire)
    requires w.WDelete? && WireOk(w)
    ensures DecodeBody(TypeByte(w), PutBody(w)) == Done(Meaning(w), []) <==> !Ambiguous(w)
  {
    var flag := if w.byKey then KEY_TUPLE else OLD_TUPLE;
    IntRoundTrip(w.id, 4, [flag] + PutRow(w.row));
    assert PutRow(w.row) == PutRow(w.row) + [];
    RowRoundTrip(w.row, []);
    CountBytes(w.row);
    assert TakeIf([flag] + PutRow(w.row), KEY_TUPLE).value == w.byKey;
  }

  lemma {:induction false} FlattenFirst(parts: seq<seq<byte>>)
    requires parts != [] && parts[0] != []
    ensures Flatten(parts) != [] && Flatten(parts)[0] == parts[0][0]
  {
    if |parts| > 1 { FlattenFirst(parts[..|parts| - 1]); }
  }

  lemma TwoByteCount(hi: byte, lo: byte, more: seq<byte>)
    ensures IntAt([hi, lo] + more, 2) == if hi < 0x80 then 0x100 * hi + lo else 0x100 * hi + lo - 0x1_0000
  {
    PowerValues();
    var two: seq<byte> := [hi, lo];
    assert ([hi, lo] + more)[..2] == two && two[..1] == [hi] && two[..1][..0] == [];
    assert Unsigned(two) == 0x100 * Unsigned(two[..1]) + lo;
    assert Unsigned(two[..1]) == 0x100 * Unsigned(two[..1][..0]) + hi;
  }

  lemma MisreadCount(lo: byte, tag: byte, more: seq<byte>)
    requires tag == NULL_DATA || tag == TOAST_DATA || tag == TEXT_DATA
    ensures var t := [lo, tag] + more;
            TakeTuple(t).Done? ==> |TakeTuple(t).value| != 0x4F00 + lo
  {
    TwoByteCount(lo, tag, more);
    ManyCount(TakeCell, if lo < 0x80 then 0x100 * lo + tag else 0, Drop([lo, tag] + more, 2));
  }

  lemma FirstByteOfCells(row: Row)
    requires RowOk(row) && row != []
    ensures PutCells(row) != []
    ensures PutCells(row)[0] == NULL_DATA || PutCells(row)[0] == TOAST_DATA || PutCells(row)[0] == TEXT_DATA
  {
    FlattenFirst(seq(|row|, i requires 0 <= i < |row| => PutCell(row[i])));
  }

  /** Once the count's high byte is taken for a flag, the row that is read has
      another number of columns. */
  lemma MisreadKey(key: Row, rest: seq<byte>)
    requires RowOk(key) && Misread(key)
    ensures var s := PutRow(key) + rest;
            s[0] == OLD_TUPLE && (TakeTuple(s[1..]).Done? ==> |TakeTuple(s[1..]).value| != |key|)
  {
    var lo: byte := |key| % 0x100;
    CountBytes(key);
    FirstByteOfCells(key);
    var cells := PutCells(key);
    var more := cells[1..] + rest;
    assert PutRow(key) + rest == [OLD_TUPLE] + ([lo, cells[0]] + more);
    MisreadCount(lo, cells[0], more);
  }

  lemma UpdateTail(row: Row)
    requires RowOk(row)
    ensures TakeIf([NEW_TUPLE] + PutRow(row), NEW_TUPLE) == Done(true, PutRow(row))
    ensures TakeTuple(PutRow(row)) == Done(SeenRow(row), [])
  {
    assert PutRow(row) == PutRow(row) + [];
    RowRoundTrip(row, []);
  }

  lemma PlainUpdateSteps(s: seq<byte>, id: int, row: Row)
    requires RowOk(row)
    requires IntAt(s, 4) == id && Drop(s, 4) == [NEW_TUPLE] + PutRow(row)
    ensures DecodeUpdate(s) == Done(Update(id, false, true, [], SeenRow(row)), [])
  {
    UpdateTail(row);
  }

  lemma FullUpdateSteps(s: seq<byte>, id: int, full: Row, row: Row)
    requires RowOk(full) && RowOk(row)
    requires IntAt(s, 4) == id && Drop(s, 4) == [OLD_TUPLE] + (PutRow(full) + ([NEW_TUPLE] + PutRow(row)))
    ensures DecodeUpdate(s) == Done(Update(id, false, true, SeenRow(full), SeenRow(row)), [])
  {
    UpdateTail(row);
    RowRoundTrip(full, [NEW_TUPLE] + PutRow(row));
  }

  lemma KeyedUpdateSteps(s: seq<byte>, id: int, key: Row, row: Row)
    requires RowOk(key) && RowOk(row)
    requires IntAt(s, 4) == id && Drop(s, 4) == [KEY_TUPLE] + (PutRow(key) + ([NEW_TUPLE] + PutRow(row)))
    ensures DecodeUpdate(s) == Done(Update(id, true, true, SeenRow(key), SeenRow(row)), []) <==> !Misread(key)
  {
    UpdateTail(row);
    var s3 := [NEW_TUPLE] + PutRow(row);
    RowRoundTrip(key, s3);
    CountBytes(key);
    var s1 := PutRow(key) + s3;
    assert Drop(s, 4)[1..] == s1;
    if Misread(key) {
      MisreadKey(key, s3);
    } else {
      assert s1[0] == |key| / 0x100;
    }
  }

  lemma UpdateRoundTrip(w: Wire)
    requires w.WUpdate? && WireOk(w)
    ensures DecodeBody(TypeByte(w), PutBody(w)) == Done(Meaning(w), []) <==> !Ambiguous(w)
  {
    var s3 := [NEW_TUPLE] + PutRow(w.row);
    IntRoundTrip(w.id, 4, PutOld(w.prior) + s3);
    match w.prior
    case NoOld =>
      assert PutOld(w.prior) + s3 == s3;
      PlainUpdateSteps(PutBody(w), w.id, w.row);
    case Full(full) =>
      Associative([OLD_TUPLE], PutRow(full), s3);
      FullUpdateSteps(PutBody(w), w.id, full, w.row);
    case Key(key) =>
      Associative([KEY_TUPLE], PutRow(key), s3);
      KeyedUpdateSteps(PutBody(w), w.id, key, w.row);
  }

  lemma ControlRoundTrip(w: Wire)
    requires WireOk(w) && (w.WBegin? || w.WCommit? || w.WRelation?)
    ensures DecodeBody(TypeByte(w), PutBody(w)) == Done(Meaning(w), [])
  {
    match w
    case WBegin(_, _, _) => BeginRoundTrip(w);
    case WCommit(_, _, _, _) => CommitRoundTrip(w);
    case WRelation(_, _, _, _, _) => RelationRoundTrip(w);
  }

  /** Main result: on everything the format can carry, the decoder gives the
      message back and consumes it exactly, unless (and only unless) a key row
      has between 0x4F00 and 0x4FFF columns. */
  lemma DecodeInvertsEncode(w: Wire)
    requires WireOk(w) && !Skipped(w)
    ensures Decode(Encode(w)) == Done(Meaning(w), []) <==> !Ambiguous(w)
  {
    assert Encode(w)[1..] == PutBody(w);
    if w.WBegin? || w.WCommit? || w.WRelation? {
      ControlRoundTrip(w);
    } else if w.WInsert? {
      InsertRoundTrip(w);
    } else if w.WUpdate? {
      UpdateRoundTrip(w);
    } else {
      DeleteRoundTrip(w);
    }
  }

  /** Two values decode to the same thing if and only if they are equal or neither
      is a text: null and unchanged TOAST are identified, an empty text is neither. */
  lemma NullToastAndEmptyText(c: Cell, d: Cell, more: seq<byte>, rest: seq<byte>)
    requires CellOk(c) && CellOk(d)
    ensures var x, y := TakeCell(PutCell(c) + more), TakeCell(PutCell(d) + rest);
            x.Done? && y.Done? && (x.value == y.value <==> c == d || (!c.Text? && !d.Text?))
  {
    CellRoundTrip(c, more);
    CellRoundTrip(d, rest);
  }

  /** Different messages have different encodings, as far as their meaning goes. */
  lemma MeaningIsDetermined(v: Wire, w: Wire)
    requires WireOk(v) && WireOk(w) && !Skipped(v) && !Skipped(w) && !Ambiguous(v) && !Ambiguous(w)
    requires Encode(v) == Encode(w)
    ensures Meaning(v) == Meaning(w)
  {
    DecodeInvertsEncode(v);
    DecodeInvertsEncode(w);
  }

  /** A timestamp is exact if and only if its distance from the epoch is at most
      9223372036854775 microseconds: beyond it the int64 product wraps. */
  lemma TimestampExact(micros: int)
    requires Fits(micros, 8)
    ensures Nanos(micros) == micros * 1000 <==> -9223372036854775 <= micros <= 9223372036854775
    ensures (Nanos(micros) - micros * 1000) % 0x1_0000_0000_0000_0000 == 0
    ensures -0x8000_0000_0000_0000 <= Nanos(micros) < 0x8000_0000_0000_0000
  {
  }
}
