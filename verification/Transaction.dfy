/** The transaction under construction: the relations announced so far, the
    actions not yet published, and whether their commit has been seen. */
module Transaction {
  import opened Prelude
  import opened BigEndian
  import opened Protocol

  datatype ActionKind = InsertAction | UpdateAction | DeleteAction

  /** A column value. `Asserted` stands for whatever the conversion of `text`
      under the type `oid` yields; nothing about the conversion is assumed
      beyond its being a function of the two. */
  datatype Value = Nil | Asserted(oid: int, text: seq<byte>)

  datatype Column = Column(name: Name, value: Value, valueType: int, isKey: bool)

  datatype RelationData = RelationData(schema: Name, table: Name, columns: seq<Column>)

  datatype ActionData = ActionData(schema: Name, table: Name, kind: ActionKind,
                                   oldColumns: seq<Column>, newColumns: seq<Column>)

  /** A published event, without its random ID. */
  datatype Event = Event(schema: Name, table: Name, action: ActionKind,
                         data: map<Name, Value>, dataOld: map<Name, Value>, eventTime: int)

  datatype WalError = EmptyWalMessage | MessageLost | RelationNotFound | UnknownMessageType

  datatype Tx = Tx(lsn: int, beginTime: Option<int>, commitTime: Option<int>,
                   relations: map<int, RelationData>, actions: seq<ActionData>)

  /** What one message does to the transaction. `Crash` is a Go panic. */
  datatype Outcome = Crash | Rejected(error: WalError) | Accepted(tx: Tx)

  // ----- values and columns -----

  const JSONB_OID := 3802

  /** The JSONB conversion looks at the first byte of the text. */
  predicate AssertPanics(oid: int, src: TupleData) {
    oid == JSONB_OID && src == Some([])
  }

  function AssertValue(oid: int, src: TupleData): Value {
    match src
    case None => Nil
    case Some(text) => Asserted(oid, text)
  }

  predicate Fillable(columns: seq<Column>, row: seq<TupleData>) {
    |row| <= |columns| && forall i :: 0 <= i < |row| ==> !AssertPanics(columns[i].valueType, row[i])
  }

  /** An empty text panics for a JSONB column, whose type oid is 3802, and for no
      other; so does a row that is longer than its relation. */
  lemma WhatPanics(columns: seq<Column>, row: seq<TupleData>)
    ensures Fillable(columns, row)
            <==> |row| <= |columns|
                 && forall i :: 0 <= i < |row| && row[i] == Some([]) ==> columns[i].valueType != 3802
  {
    if Fillable(columns, row) {
      assert forall i :: 0 <= i < |row| ==> !AssertPanics(columns[i].valueType, row[i]);
    }
  }

  /** The relation's columns, by position, with the row's values. */
  function Fill(columns: seq<Column>, row: seq<TupleData>): (filled: seq<Column>)
    requires |row| <= |columns|
    ensures |filled| == |row|
  {
    seq(|row|, i requires 0 <= i < |row| => columns[i].(value := AssertValue(columns[i].valueType, row[i])))
  }

  function Blank(column: RelationColumn): Column {
    Column(column.name, Nil, column.typeId, column.key)
  }

  function BlankAll(columns: seq<RelationColumn>): (r: seq<Column>)
    ensures |r| == |columns|
  {
    seq(|columns|, i requires 0 <= i < |columns| => Blank(columns[i]))
  }

  // ----- one message -----

  function Append(tx: Tx, id: int, oldRow: seq<TupleData>, newRow: seq<TupleData>, kind: ActionKind): Outcome {
    if id !in tx.relations then Rejected(RelationNotFound) else
    var rel := tx.relations[id];
    if !Fillable(rel.columns, oldRow) || !Fillable(rel.columns, newRow) then Crash else
    var action := ActionData(rel.schema, rel.table, kind, Fill(rel.columns, oldRow), Fill(rel.columns, newRow));
    Accepted(tx.(actions := tx.actions + [action]))
  }

  function Apply(tx: Tx, m: Message): Outcome {
    match m
    case Begin(lsn, time, _) => Accepted(tx.(lsn := lsn, beginTime := Some(time)))
    case Commit(_, lsn, _, time) =>
      if tx.lsn > 0 && tx.lsn != lsn then Rejected(MessageLost) else Accepted(tx.(commitTime := Some(time)))
    case Relation(id, schema, table, _, columns) =>
      if tx.lsn == 0 then Rejected(MessageLost) else
      Accepted(tx.(relations := tx.relations[id := RelationData(schema, table, BlankAll(columns))]))
    case Insert(id, _, row) => Append(tx, id, [], row, InsertAction)
    case Update(id, _, _, prior, row) => Append(tx, id, prior, row, UpdateAction)
    case Delete(id, _, _, prior) => Append(tx, id, prior, [], DeleteAction)
    case Ignored => Accepted(tx)
    case Unknown(_) => Rejected(UnknownMessageType)
  }

  function Clear(tx: Tx): Tx {
    tx.(commitTime := None, beginTime := None, actions := [])
  }

  // ----- events -----

  /** Column values by name; of columns with one name the last one counts. */
  function ToData(columns: seq<Column>): map<Name, Value> {
    if columns == [] then map[]
    else ToData(columns[..|columns| - 1])[columns[|columns| - 1].name := columns[|columns| - 1].value]
  }

  function EventOf(a: ActionData, time: int): Event {
    Event(a.schema, a.table, a.kind, ToData(a.newColumns), ToData(a.oldColumns), time)
  }

  /** One event for every action, in order: the table filter is switched off. */
  function EventsOf(actions: seq<ActionData>, time: int): (events: seq<Event>)
    ensures |events| == |actions|
  {
    seq(|actions|, i requires 0 <= i < |actions| => EventOf(actions[i], time))
  }

  lemma {:induction false} DataMeaning(columns: seq<Column>)
    ensures forall name :: name in ToData(columns) <==> exists i :: 0 <= i < |columns| && columns[i].name == name
    ensures forall i | 0 <= i < |columns| && (forall j :: i < j < |columns| ==> columns[j].name != columns[i].name) ::
              columns[i].name in ToData(columns) && ToData(columns)[columns[i].name] == columns[i].value
  {
    if columns != [] {
      var n := |columns| - 1;
      DataMeaning(columns[..n]);
      forall name
        ensures name in ToData(columns) <==> exists i :: 0 <= i < |columns| && columns[i].name == name
      {
        if exists i :: 0 <= i < |columns| && columns[i].name == name {
          var i :| 0 <= i < |columns| && columns[i].name == name;
          if i < n { assert columns[..n][i].name == name; }
        }
      }
      forall i | 0 <= i < |columns| && (forall j :: i < j < |columns| ==> columns[j].name != columns[i].name)
        ensures columns[i].name in ToData(columns) && ToData(columns)[columns[i].name] == columns[i].value
      {
        if i < n { assert columns[..n][i] == columns[i]; }
      }
    }
  }

  // ----- the object -----

  class WalTransaction {
    var LSN: int
    var BeginTime: Option<int>
    var CommitTime: Option<int>
    var RelationStore: map<int, RelationData>
    var Actions: seq<ActionData>

    ghost function Value(): Tx
      reads this
    {
      Tx(LSN, BeginTime, CommitTime, RelationStore, Actions)
    }

    constructor ()
      ensures Value() == Tx(0, None, None, map[], [])
    {
      LSN, BeginTime, CommitTime, RelationStore, Actions := 0, None, None, map[], [];
    }

    method Clear()
      modifies this
      ensures LSN == old(LSN) && RelationStore == old(RelationStore)
      ensures BeginTime == None && CommitTime == None && Actions == []
    {
      CommitTime := None;
      BeginTime := None;
      Actions := [];
    }

    static method FillColumns(columns: seq<Column>, row: seq<TupleData>) returns (filled: seq<Column>)
      requires Fillable(columns, row)
      ensures filled == Fill(columns, row)
    {
      filled := [];
      for num := 0 to |row|
        invariant filled == Fill(columns, row)[..num]
      {
        var column := Column(columns[num].name, Nil, columns[num].valueType, columns[num].isKey);
        column := column.(value := AssertValue(column.valueType, row[num]));
        filled := filled + [column];
      }
    }

    /** The action for a row message, or None when its relation was never announced. */
    method CreateActionData(relationID: int, oldRows: seq<TupleData>, newRows: seq<TupleData>, kind: ActionKind)
      returns (a: Option<ActionData>)
      requires !Append(Value(), relationID, oldRows, newRows, kind).Crash?
      ensures a.None? <==> relationID !in RelationStore
      ensures a.Some? ==> Append(Value(), relationID, oldRows, newRows, kind)
                          == Accepted(Value().(actions := Actions + [a.value]))
    {
      if relationID !in RelationStore {
        return None;
      }
      var rel := RelationStore[relationID];
      var oldColumns := FillColumns(rel.columns, oldRows);
      var newColumns := FillColumns(rel.columns, newRows);
      return Some(ActionData(rel.schema, rel.table, kind, oldColumns, newColumns));
    }

    static method CollectData(columns: seq<Column>) returns (data: map<Name, Value>)
      ensures data == ToData(columns)
    {
      data := map[];
      for i := 0 to |columns|
        invariant data == ToData(columns[..i])
      {
        assert columns[..i + 1][..i] == columns[..i];
        data := data[columns[i].name := columns[i].value];
      }
      assert columns[..|columns|] == columns;
    }

    method CreateEvents() returns (events: seq<Event>)
      requires Actions != [] ==> CommitTime.Some?
      ensures CommitTime.Some? ==> events == EventsOf(Actions, CommitTime.value)
      ensures |events| == |Actions|
    {
      events := [];
      for k := 0 to |Actions|
        invariant |events| == k
        invariant CommitTime.Some? ==> events == EventsOf(Actions, CommitTime.value)[..k]
      {
        var item := Actions[k];
        var dataOld := CollectData(item.oldColumns);
        var data := CollectData(item.newColumns);
        events := events + [Event(item.schema, item.table, item.kind, data, dataOld, CommitTime.value)];
      }
    }
  }
}
