/** Logical replication messages: what the server puts on the wire
    ("Logical Replication Message Formats", section 55.9 of the PostgreSQL 16
    documentation), and the structures the listener decodes them into. */
module Protocol {
  import opened Prelude
  import opened BigEndian

  const COMMIT_MSG: byte := 0x43    // 'C'
  const BEGIN_MSG: byte := 0x42     // 'B'
  const ORIGIN_MSG: byte := 0x4F    // 'O'
  const RELATION_MSG: byte := 0x52  // 'R'
  const TYPE_MSG: byte := 0x59      // 'Y'
  const INSERT_MSG: byte := 0x49    // 'I'
  const UPDATE_MSG: byte := 0x55    // 'U'
  const DELETE_MSG: byte := 0x44    // 'D'
  const TRUNCATE_MSG: byte := 0x54  // 'T'

  const NEW_TUPLE: byte := 0x4E     // 'N'
  const KEY_TUPLE: byte := 0x4B     // 'K'
  const OLD_TUPLE: byte := 0x4F     // 'O'

  const TEXT_DATA: byte := 0x74     // 't'
  const NULL_DATA: byte := 0x6E     // 'n'
  const TOAST_DATA: byte := 0x75    // 'u'

  type Name = seq<byte>

  // ----- what the server means -----

  datatype Cell = Null | Toast | Text(bytes: seq<byte>)

  type Row = seq<Cell>

  datatype OldPart = NoOld | Key(key: Row) | Full(full: Row)

  datatype RelationColumn = RelationColumn(key: bool, name: Name, typeId: int, modifierType: int)

  datatype Wire =
    | WBegin(lsn: int, micros: int, xid: int)
    | WCommit(flags: int, lsn: int, endLsn: int, micros: int)
    | WOrigin(lsn: int, name: Name)
    | WRelation(id: int, namespace: Name, name: Name, replica: int, columns: seq<RelationColumn>)
    | WType(id: int, namespace: Name, name: Name)
    | WTruncate(options: int, ids: seq<int>)
    | WInsert(id: int, row: Row)
    | WUpdate(id: int, prior: OldPart, row: Row)
    | WDelete(id: int, byKey: bool, row: Row)

  // ----- what the listener decodes -----

  /** TupleData.Value: nil for null, unchanged TOAST and any unknown tag. */
  type TupleData = Option<seq<byte>>

  datatype Message =
    | Begin(lsn: int, timestamp: int, xid: int)
    | Commit(flags: int, lsn: int, transactionLsn: int, timestamp: int)
    | Relation(id: int, namespace: Name, name: Name, replica: int, columns: seq<RelationColumn>)
    | Insert(relationId: int, newTuple: bool, newRow: seq<TupleData>)
    | Update(relationId: int, keyTuple: bool, oldTuple: bool, oldRow: seq<TupleData>, newRow: seq<TupleData>)
    | Delete(relationId: int, keyTuple: bool, oldTuple: bool, oldRow: seq<TupleData>)
    | Ignored
    | Unknown(tag: byte)

  // ----- the encoder of section 55.9 -----

  predicate NulFree(name: Name) {
    forall i :: 0 <= i < |name| ==> name[i] != 0
  }

  predicate CellOk(c: Cell) {
    c.Text? ==> Fits(|c.bytes|, 4)
  }

  predicate RowOk(row: Row) {
    Fits(|row|, 2) && forall i :: 0 <= i < |row| ==> CellOk(row[i])
  }

  predicate ColumnOk(c: RelationColumn) {
    NulFree(c.name) && Fits(c.typeId, 4) && Fits(c.modifierType, 4)
  }

  /** The field values the format can carry. */
  predicate WireOk(w: Wire) {
    match w
    case WBegin(lsn, micros, xid) => Fits(lsn, 8) && Fits(micros, 8) && Fits(xid, 4)
    case WCommit(flags, lsn, endLsn, micros) => Fits(flags, 1) && Fits(lsn, 8) && Fits(endLsn, 8) && Fits(micros, 8)
    case WOrigin(lsn, name) => Fits(lsn, 8) && NulFree(name)
    case WRelation(id, ns, name, replica, columns) =>
      && Fits(id, 4) && NulFree(ns) && NulFree(name) && Fits(replica, 1) && Fits(|columns|, 2)
      && forall i :: 0 <= i < |columns| ==> ColumnOk(columns[i])
    case WType(id, ns, name) => Fits(id, 4) && NulFree(ns) && NulFree(name)
    case WTruncate(options, ids) =>
      Fits(options, 1) && Fits(|ids|, 4) && forall i :: 0 <= i < |ids| ==> Fits(ids[i], 4)
    case WInsert(id, row) => Fits(id, 4) && RowOk(row)
    case WUpdate(id, prior, row) =>
      && Fits(id, 4) && RowOk(row)
      && (prior.Key? ==> RowOk(prior.key)) && (prior.Full? ==> RowOk(prior.full))
    case WDelete(id, _, row) => Fits(id, 4) && RowOk(row)
  }

  function PutString(name: Name): seq<byte> {
    name + [0]
  }

  function PutCell(c: Cell): seq<byte>
    requires CellOk(c)
  {
    match c
    case Null => [NULL_DATA]
    case Toast => [TOAST_DATA]
    case Text(bytes) => [TEXT_DATA] + PutInt(|bytes|, 4) + bytes
  }

  function PutCells(row: Row): seq<byte>
    requires forall i :: 0 <= i < |row| ==> CellOk(row[i])
  {
    Flatten(seq(|row|, i requires 0 <= i < |row| => PutCell(row[i])))
  }

  function PutRow(row: Row): seq<byte>
    requires RowOk(row)
  {
    PutInt(|row|, 2) + PutCells(row)
  }

  function PutColumn(c: RelationColumn): seq<byte>
    requires ColumnOk(c)
  {
    [if c.key then 1 else 0] + PutString(c.name) + PutInt(c.typeId, 4) + PutInt(c.modifierType, 4)
  }

  function PutColumns(columns: seq<RelationColumn>): seq<byte>
    requires forall i :: 0 <= i < |columns| ==> ColumnOk(columns[i])
  {
    Flatten(seq(|columns|, i requires 0 <= i < |columns| => PutColumn(columns[i])))
  }

  function PutIds(ids: seq<int>): seq<byte>
    requires forall i :: 0 <= i < |ids| ==> Fits(ids[i], 4)
  {
    if ids == [] then [] else PutInt(ids[0], 4) + PutIds(ids[1..])
  }

  function PutOld(prior: OldPart): seq<byte>
    requires prior.Key? ==> RowOk(prior.key)
    requires prior.Full? ==> RowOk(prior.full)
  {
    match prior
    case NoOld => []
    case Key(row) => [KEY_TUPLE] + PutRow(row)
    case Full(row) => [OLD_TUPLE] + PutRow(row)
  }

  /** The part of a message after its type byte. */
  function PutBody(w: Wire): seq<byte>
    requires WireOk(w)
  {
    match w
    case WBegin(lsn, micros, xid) => PutInt(lsn, 8) + (PutInt(micros, 8) + PutInt(xid, 4))
    case WCommit(flags, lsn, endLsn, micros) =>
      PutInt(flags, 1) + (PutInt(lsn, 8) + (PutInt(endLsn, 8) + PutInt(micros, 8)))
    case WOrigin(lsn, name) => PutInt(lsn, 8) + PutString(name)
    case WRelation(id, ns, name, replica, columns) =>
      PutInt(id, 4)
      + (PutString(ns) + (PutString(name) + (PutInt(replica, 1) + (PutInt(|columns|, 2) + PutColumns(columns)))))
    case WType(id, ns, name) => PutInt(id, 4) + PutString(ns) + PutString(name)
    case WTruncate(options, ids) => PutInt(|ids|, 4) + PutInt(options, 1) + PutIds(ids)
    case WInsert(id, row) => PutInt(id, 4) + ([NEW_TUPLE] + PutRow(row))
    case WUpdate(id, prior, row) => PutInt(id, 4) + (PutOld(prior) + ([NEW_TUPLE] + PutRow(row)))
    case WDelete(id, byKey, row) => PutInt(id, 4) + ([if byKey then KEY_TUPLE else OLD_TUPLE] + PutRow(row))
  }

  function TypeByte(w: Wire): byte {
    match w
    case WBegin(_, _, _) => BEGIN_MSG
    case WCommit(_, _, _, _) => COMMIT_MSG
    case WOrigin(_, _) => ORIGIN_MSG
    case WRelation(_, _, _, _, _) => RELATION_MSG
    case WType(_, _, _) => TYPE_MSG
    case WTruncate(_, _) => TRUNCATE_MSG
    case WInsert(_, _) => INSERT_MSG
    case WUpdate(_, _, _) => UPDATE_MSG
    case WDelete(_, _, _) => DELETE_MSG
  }

  function Encode(w: Wire): seq<byte>
    requires WireOk(w)
  {
    [TypeByte(w)] + PutBody(w)
  }

  // ----- what a decoded message ought to say -----

  function Seen(c: Cell): TupleData {
    match c
    case Text(bytes) => Some(bytes)
    case _ => None
  }

  function SeenRow(row: Row): (cells: seq<TupleData>)
    ensures |cells| == |row|
  {
    seq(|row|, i requires 0 <= i < |row| => Seen(row[i]))
  }

  /** Arithmetic of a Go int64: wrap around modulo 2^64. */
  function WrapInt64(v: int): (r: int)
    ensures -0x8000_0000_0000_0000 <= r < 0x8000_0000_0000_0000
    ensures (r - v) % 0x1_0000_0000_0000_0000 == 0
  {
    var m := v % 0x1_0000_0000_0000_0000;
    if m < 0x8000_0000_0000_0000 then m else m - 0x1_0000_0000_0000_0000
  }

  /** Nanoseconds since the PostgreSQL epoch, the product taken in int64. */
  function Nanos(micros: int): int {
    WrapInt64(micros * 1000)
  }

  /** The structure that stands for `w`. The listener keeps the 'N' flag of an
      update in its OldTuple field, so that field is always set. */
  function Meaning(w: Wire): Message {
    match w
    case WBegin(lsn, micros, xid) => Begin(lsn, Nanos(micros), xid)
    case WCommit(flags, lsn, endLsn, micros) => Commit(flags, lsn, endLsn, Nanos(micros))
    case WRelation(id, ns, name, replica, columns) => Relation(id, ns, name, replica, columns)
    case WInsert(id, row) => Insert(id, true, SeenRow(row))
    case WUpdate(id, NoOld, row) => Update(id, false, true, [], SeenRow(row))
    case WUpdate(id, Key(key), row) => Update(id, true, true, SeenRow(key), SeenRow(row))
    case WUpdate(id, Full(full), row) => Update(id, false, true, SeenRow(full), SeenRow(row))
    case WDelete(id, byKey, row) => Delete(id, byKey, !byKey, SeenRow(row))
    case _ => Ignored
  }

  /** Messages the listener accepts without looking at their body. */
  predicate Skipped(w: Wire) {
    w.WOrigin? || w.WType? || w.WTruncate?
  }
}
