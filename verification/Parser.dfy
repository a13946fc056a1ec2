/** The stateful parser: a read buffer whose position every call moves. */
module Parser {
  import opened Prelude
  import opened BigEndian
  import opened Protocol
  import opened Decoding
  import T = Transaction

  /** bytes.Buffer, as far as reading goes. */
  class Buffer {
    const data: seq<byte>
    var off: nat
    var canUnread: bool

    ghost predicate Valid()
      reads this
    {
      off <= |data| && (canUnread ==> 0 < off)
    }

    /** The unread bytes. */
    ghost function Rest(): seq<byte>
      requires Valid()
      reads this
    {
      data[off..]
    }

    constructor (data: seq<byte>)
      ensures Valid() && Rest() == data && !canUnread
    {
      this.data := data;
      off, canUnread := 0, false;
    }

    method Next(n: nat) returns (b: seq<byte>)
      requires Valid()
      modifies this
      ensures Valid() && b == Take(old(Rest()), n) && Rest() == Drop(old(Rest()), n)
      ensures canUnread == (b != []) && off == old(off) + |b|
    {
      var m := if n > |data| - off then |data| - off else n;
      b := data[off..off + m];
      off := off + m;
      canUnread := m > 0;
    }

    method UnreadByte() returns (ok: bool)
      requires Valid()
      modifies this
      ensures Valid() && ok == old(canUnread) && !canUnread
      ensures off == if ok then old(off) - 1 else old(off)
    {
      ok := canUnread;
      if ok { off := off - 1; }
      canUnread := false;
    }

    /** Through the first `delim`, or through the end when there is none. */
    method ReadBytes(delim: byte) returns (b: seq<byte>)
      requires Valid()
      modifies this
      ensures Valid()
      ensures b == Take(old(Rest()), IndexOf(old(Rest()), delim) + 1)
      ensures Rest() == Drop(old(Rest()), IndexOf(old(Rest()), delim) + 1)
    {
      ghost var s := Rest();
      var i := 0;
      while off + i < |data| && data[off + i] != delim
        invariant i <= |s|
        invariant forall j :: 0 <= j < i ==> s[j] != delim
      {
        i := i + 1;
      }
      IndexOfIsFirst(s, delim, i);
      b := Next(i + 1);
    }
  }

  /** bytes.Trim with the cutset "\x00". */
  method TrimNul(b: seq<byte>) returns (r: seq<byte>, lo: nat, hi: nat)
    ensures lo <= hi <= |b| && r == b[lo..hi]
    ensures forall i :: 0 <= i < lo || hi <= i < |b| ==> b[i] == 0
    ensures lo < hi ==> b[lo] != 0 && b[hi - 1] != 0
  {
    lo, hi := 0, |b|;
    while lo < hi && b[lo] == 0
      invariant 0 <= lo <= hi
      invariant forall i :: 0 <= i < lo ==> b[i] == 0
    {
      lo := lo + 1;
    }
    while lo < hi && b[hi - 1] == 0
      invariant lo <= hi <= |b|
      invariant forall i :: hi <= i < |b| ==> b[i] == 0
      invariant lo < hi ==> b[lo] != 0
    {
      hi := hi - 1;
    }
    r := b[lo..hi];
  }

  class BinaryParser {
    var msgType: byte
    var buffer: Buffer

    constructor ()
    {
      msgType := 0;
      buffer := new Buffer([]);
    }

    // ----- fields -----

    method ReadInt(n: nat) returns (val: int)
      requires buffer.Valid() && n > 0
      modifies buffer
      ensures buffer.Valid()
      ensures val == IntAt(old(buffer.Rest()), n) && buffer.Rest() == Drop(old(buffer.Rest()), n)
    {
      var b := buffer.Next(n);
      // io.ReadFull fails on a short read and leaves the zero value
      val := if |b| < n then 0 else Signed(b);
    }

    /** time.Duration(us) * time.Microsecond, added to the epoch. */
    method ReadTimestamp() returns (nanos: int)
      requires buffer.Valid()
      modifies buffer
      ensures buffer.Valid()
      ensures nanos == Nanos(IntAt(old(buffer.Rest()), 8)) && buffer.Rest() == Drop(old(buffer.Rest()), 8)
    {
      var us := ReadInt(8);
      nanos := WrapInt64(us * 1000);
    }

    method ReadString() returns (str: Name)
      requires buffer.Valid()
      modifies buffer
      ensures buffer.Valid()
      ensures str == StringAt(old(buffer.Rest())) && buffer.Rest() == AfterString(old(buffer.Rest()))
    {
      ghost var s := buffer.Rest();
      var stringBytes := buffer.ReadBytes(0);
      ghost var i := IndexOf(s, 0);
      IndexOfIsFirst(s, 0, i);
      assert stringBytes == if i < |s| then s[..i] + [0] else s[..i];
      var lo, hi;
      str, lo, hi := TrimNul(stringBytes);
      OneNul(s[..i], stringBytes, lo, hi);
    }

    method ReadBool() returns (b: bool)
      requires buffer.Valid() && buffer.Rest() != []
      modifies buffer
      ensures buffer.Valid()
      ensures b == (old(buffer.Rest())[0] != 0) && buffer.Rest() == old(buffer.Rest())[1..]
    {
      var x := buffer.Next(1);
      b := x[0] != 0;
    }

    method CharIsExists(c: byte) returns (found: bool)
      requires buffer.Valid() && buffer.Rest() != []
      modifies buffer
      ensures buffer.Valid()
      ensures Done(found, buffer.Rest()) == TakeIf(old(buffer.Rest()), c)
    {
      ghost var s := buffer.Rest();
      var x := buffer.Next(1);
      if x[0] == c {
        return true;
      }
      var ok := buffer.UnreadByte();
      return false;
    }

    method ReadColumns() returns (data: seq<RelationColumn>)
      requires buffer.Valid() && TakeRelationColumns(buffer.Rest()).Done?
      modifies buffer
      ensures buffer.Valid()
      ensures Done(data, buffer.Rest()) == TakeRelationColumns(old(buffer.Rest()))
    {
      ghost var s := Drop(buffer.Rest(), 2);
      var size := ReadInt(2);
      data := seq(size, _ => RelationColumn(false, [], 0, 0));
      for i := 0 to size
        invariant buffer.Valid() && |data| == size
        invariant TakeMany(TakeColumn, i, s) == Done(data[..i], buffer.Rest())
      {
        ManySoFar(TakeColumn, i, size, s);
        ghost var r := buffer.Rest();
        var column := ReadColumn();
        ManyStored(TakeColumn, i, s, data, r, column, buffer.Rest());
        data := data[i := column];
      }
      assert data == data[..size];
    }

    method ReadColumn() returns (column: RelationColumn)
      requires buffer.Valid() && TakeColumn(buffer.Rest()).Done?
      modifies buffer
      ensures buffer.Valid()
      ensures Done(column, buffer.Rest()) == TakeColumn(old(buffer.Rest()))
    {
      var key := ReadBool();
      var name := ReadString();
      var typeID := ReadInt(4);
      var modifierType := ReadInt(4);
      column := RelationColumn(key, name, typeID, modifierType);
    }

    method ReadTupleData() returns (data: seq<TupleData>)
      requires buffer.Valid() && TakeTuple(buffer.Rest()).Done?
      modifies buffer
      ensures buffer.Valid()
      ensures Done(data, buffer.Rest()) == TakeTuple(old(buffer.Rest()))
    {
      ghost var s := Drop(buffer.Rest(), 2);
      var size := ReadInt(2);
      data := seq(size, _ => None);
      for i := 0 to size
        invariant buffer.Valid() && |data| == size
        invariant forall j :: i <= j < size ==> data[j] == None
        invariant TakeMany(TakeCell, i, s) == Done(data[..i], buffer.Rest())
      {
        ManySoFar(TakeCell, i, size, s);
        ghost var r := buffer.Rest();
        var cell := ReadCell(data[i]);
        ManyStored(TakeCell, i, s, data, r, cell, buffer.Rest());
        data := data[i := cell];
      }
      assert data == data[..size];
    }

    /** One slot of a tuple: it keeps its zero value unless the tag is 't'. */
    method ReadCell(slot: TupleData) returns (cell: TupleData)
      requires slot == None
      requires buffer.Valid() && TakeCell(buffer.Rest()).Done?
      modifies buffer
      ensures buffer.Valid()
      ensures Done(cell, buffer.Rest()) == TakeCell(old(buffer.Rest()))
    {
      cell := slot;
      var sl := buffer.Next(1);
      if sl[0] == TEXT_DATA {
        var vSize := ReadInt(4);
        var value := buffer.Next(vSize);
        cell := Some(value);
      }
    }

    // ----- messages -----

    method GetBeginMsg() returns (m: Message)
      requires buffer.Valid()
      modifies buffer
      ensures buffer.Valid() && Done(m, buffer.Rest()) == DecodeBegin(old(buffer.Rest()))
    {
      var lsn := ReadInt(8);
      var timestamp := ReadTimestamp();
      var xid := ReadInt(4);
      m := Begin(lsn, timestamp, xid);
    }

    method GetCommitMsg() returns (m: Message)
      requires buffer.Valid()
      modifies buffer
      ensures buffer.Valid() && Done(m, buffer.Rest()) == DecodeCommit(old(buffer.Rest()))
    {
      var flags := ReadInt(1);
      var lsn := ReadInt(8);
      var transactionLsn := ReadInt(8);
      var timestamp := ReadTimestamp();
      m := Commit(flags, lsn, transactionLsn, timestamp);
    }

    method GetRelationMsg() returns (m: Message)
      requires buffer.Valid() && DecodeRelation(buffer.Rest()).Done?
      modifies buffer
      ensures buffer.Valid() && Done(m, buffer.Rest()) == DecodeRelation(old(buffer.Rest()))
    {
      var id := ReadInt(4);
      var namespace := ReadString();
      var name := ReadString();
      var replica := ReadInt(1);
      var columns := ReadColumns();
      m := Relation(id, namespace, name, replica, columns);
    }

    method GetInsertMsg() returns (m: Message)
      requires buffer.Valid() && DecodeInsert(buffer.Rest()).Done?
      modifies buffer
      ensures buffer.Valid() && Done(m, buffer.Rest()) == DecodeInsert(old(buffer.Rest()))
    {
      var id := ReadInt(4);
      var tag := buffer.Next(1);
      var row := ReadTupleData();
      m := Insert(id, tag[0] == NEW_TUPLE, row);
    }

    method GetDeleteMsg() returns (m: Message)
      requires buffer.Valid() && DecodeDelete(buffer.Rest()).Done?
      modifies buffer
      ensures buffer.Valid() && Done(m, buffer.Rest()) == DecodeDelete(old(buffer.Rest()))
    {
      var id := ReadInt(4);
      var keyTuple := CharIsExists(KEY_TUPLE);
      var oldTuple := CharIsExists(OLD_TUPLE);
      var row := ReadTupleData();
      m := Delete(id, keyTuple, oldTuple, row);
    }

    method GetUpdateMsg() returns (m: Message)
      requires buffer.Valid() && DecodeUpdate(buffer.Rest()).Done?
      modifies buffer
      ensures buffer.Valid() && Done(m, buffer.Rest()) == DecodeUpdate(old(buffer.Rest()))
    {
      var id := ReadInt(4);
      var keyTuple := CharIsExists(KEY_TUPLE);
      var oldTuple := CharIsExists(OLD_TUPLE);
      var oldRow := [];
      if keyTuple || oldTuple {
        oldRow := ReadTupleData();
      }
      oldTuple := CharIsExists(NEW_TUPLE);
      var newRow := ReadTupleData();
      m := Update(id, keyTuple, oldTuple, oldRow, newRow);
    }

    /** Parse one message into the transaction. The precondition says only that
        the call does not panic. */
    method ParseWalMessage(msg: seq<byte>, tx: T.WalTransaction) returns (err: Option<T.WalError>)
      requires !Parse(msg, tx.Value()).Crash?
      modifies this, tx
      ensures Effect(Parse(msg, old(tx.Value())), old(tx.Value()), tx.Value(), err)
    {
      if |msg| == 0 {
        return Some(T.EmptyWalMessage);
      }
      msgType := msg[0];
      buffer := new Buffer(msg[1..]);
      if msgType == BEGIN_MSG || msgType == COMMIT_MSG || msgType == RELATION_MSG {
        err := ParseControl(tx);
      } else if msgType == ORIGIN_MSG || msgType == TYPE_MSG || msgType == TRUNCATE_MSG {
        err := None;
      } else if msgType == INSERT_MSG || msgType == UPDATE_MSG || msgType == DELETE_MSG {
        err := ParseRow(tx);
      } else {
        err := Some(T.UnknownMessageType);
      }
    }

    method ParseControl(tx: T.WalTransaction) returns (err: Option<T.WalError>)
      requires msgType == BEGIN_MSG || msgType == COMMIT_MSG || msgType == RELATION_MSG
      requires buffer.Valid() && DecodeBody(msgType, buffer.Rest()).Done?
      modifies buffer, tx
      ensures Effect(T.Apply(old(tx.Value()), DecodeBody(msgType, old(buffer.Rest())).value), old(tx.Value()),
                     tx.Value(), err)
    {
      if msgType == BEGIN_MSG {
        var begin := GetBeginMsg();
        tx.LSN := begin.lsn;
        tx.BeginTime := Some(begin.timestamp);
      } else if msgType == COMMIT_MSG {
        var commit := GetCommitMsg();
        if tx.LSN > 0 && tx.LSN != commit.lsn {
          return Some(T.MessageLost);
        }
        tx.CommitTime := Some(commit.timestamp);
      } else {
        var relation := GetRelationMsg();
        if tx.LSN == 0 {
          return Some(T.MessageLost);
        }
        var columns := StoredColumns(relation.columns);
        tx.RelationStore := tx.RelationStore[relation.id := T.RelationData(relation.namespace, relation.name, columns)];
      }
      return None;
    }

    static method StoredColumns(announced: seq<RelationColumn>) returns (columns: seq<T.Column>)
      ensures columns == T.BlankAll(announced)
      ensures |columns| == |announced| && forall i :: 0 <= i < |announced| ==>
                && columns[i].name == announced[i].name && columns[i].value == T.Nil
                && columns[i].valueType == announced[i].typeId && columns[i].isKey == announced[i].key
    {
      columns := [];
      for k := 0 to |announced|
        invariant columns == T.BlankAll(announced)[..k]
      {
        var rf := announced[k];
        columns := columns + [T.Column(rf.name, T.Nil, rf.typeId, rf.key)];
      }
    }

    method ParseRow(tx: T.WalTransaction) returns (err: Option<T.WalError>)
      requires msgType == INSERT_MSG || msgType == UPDATE_MSG || msgType == DELETE_MSG
      requires buffer.Valid() && DecodeBody(msgType, buffer.Rest()).Done?
      requires !T.Apply(tx.Value(), DecodeBody(msgType, buffer.Rest()).value).Crash?
      modifies buffer, tx
      ensures Effect(T.Apply(old(tx.Value()), DecodeBody(msgType, old(buffer.Rest())).value), old(tx.Value()),
                     tx.Value(), err)
    {
      if msgType == INSERT_MSG {
        var insert := GetInsertMsg();
        err := Record(tx, insert.relationId, [], insert.newRow, T.InsertAction);
      } else if msgType == UPDATE_MSG {
        var upd := GetUpdateMsg();
        err := Record(tx, upd.relationId, upd.oldRow, upd.newRow, T.UpdateAction);
      } else {
        var del := GetDeleteMsg();
        err := Record(tx, del.relationId, del.oldRow, [], T.DeleteAction);
      }
    }

    method Record(tx: T.WalTransaction, id: int, oldRow: seq<TupleData>, newRow: seq<TupleData>, kind: T.ActionKind)
      returns (err: Option<T.WalError>)
      requires !T.Append(tx.Value(), id, oldRow, newRow, kind).Crash?
      modifies tx
      ensures Effect(T.Append(old(tx.Value()), id, oldRow, newRow, kind), old(tx.Value()), tx.Value(), err)
    {
      var action := tx.CreateActionData(id, oldRow, newRow, kind);
      if action.None? {
        return Some(T.RelationNotFound);
      }
      tx.Actions := tx.Actions + [action.value];
      return None;
    }
  }

  /** What a WAL message does to the transaction. */
  function Parse(msg: seq<byte>, tx: T.Tx): T.Outcome {
    if msg == [] then T.Rejected(T.EmptyWalMessage)
    else if Decode(msg).Panic? then T.Crash
    else T.Apply(tx, Decode(msg).value)
  }

  /** Trimming NULs from a NUL-free string with at most one NUL after it. */
  lemma OneNul(name: Name, b: seq<byte>, lo: nat, hi: nat)
    requires NulFree(name) && (b == name || b == name + [0])
    requires lo <= hi <= |b|
    requires forall i :: 0 <= i < lo || hi <= i < |b| ==> b[i] == 0
    requires lo < hi ==> b[lo] != 0 && b[hi - 1] != 0
    ensures b[lo..hi] == name
  {
    if name != [] {
      assert b[0] == name[0] && b[|name| - 1] == name[|name| - 1];
    }
  }

  /** A state change and an error value carry out an outcome: an error leaves
      the transaction as it was. */
  predicate Effect(outcome: T.Outcome, before: T.Tx, after: T.Tx, err: Option<T.WalError>) {
    match outcome
    case Crash => false
    case Rejected(e) => err == Some(e) && after == before
    case Accepted(tx) => err == None && after == tx
  }
}
