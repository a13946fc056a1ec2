/** Which messages the listener rejects, told from the messages it took in. */
module Rejections {
  import opened Prelude
  import opened BigEndian
  import opened Protocol
  import opened Delivery
  import Decoding
  import W = WireBytes
  import T = Transaction
  import P = Parser
  import L = Listener

  /** What a message says, when it can be read. */
  function Says(msg: L.ReplicationMessage): Option<Message> {
    if msg.wal.None? || msg.wal.value.walData == [] then None else
    var d := Decoding.Decode(msg.wal.value.walData);
    if d.Done? then Some(d.value) else None
  }

  /** The LSN of the last Begin message. */
  function LastBegin(inbox: seq<L.ReplicationMessage>): int {
    if inbox == [] then 0 else
    var before, m := inbox[..|inbox| - 1], Says(inbox[|inbox| - 1]);
    if m.Some? && m.value.Begin? then m.value.lsn else LastBegin(before)
  }

  /** The latest Relation message for every id, of those that follow a Begin. */
  function Announced(inbox: seq<L.ReplicationMessage>): map<int, Message> {
    if inbox == [] then map[] else
    var before, m := inbox[..|inbox| - 1], Says(inbox[|inbox| - 1]);
    if m.Some? && m.value.Relation? && LastBegin(before) != 0 then Announced(before)[m.value.id := m.value]
    else Announced(before)
  }

  predicate Remembers(tx: T.Tx, inbox: seq<L.ReplicationMessage>) {
    && tx.lsn == LastBegin(inbox) && tx.relations.Keys == Announced(inbox).Keys
    && forall id :: id in tx.relations ==>
         && Announced(inbox)[id].Relation?
         && tx.relations[id] == T.RelationData(Announced(inbox)[id].namespace, Announced(inbox)[id].name,
                                               T.BlankAll(Announced(inbox)[id].columns))
  }

  lemma MoveRemembers(s: State, a: Action)
    requires Move(s, a).Some?
    ensures Move(s, a).value.tx.lsn == s.tx.lsn && Move(s, a).value.tx.relations == s.tx.relations
  {
  }

  lemma ParseRemembers(tx: T.Tx, inbox: seq<L.ReplicationMessage>, msg: L.ReplicationMessage)
    requires Remembers(tx, inbox) && msg.wal.Some? && !P.Parse(msg.wal.value.walData, tx).Crash?
    ensures var r := P.Parse(msg.wal.value.walData, tx);
            Remembers(if r.Accepted? then r.tx else tx, inbox + [msg])
  {
    assert (inbox + [msg])[..|inbox|] == inbox;
  }

  /** In every run the transaction knows the LSN of the last Begin message and the
      latest Relation message of every id, and nothing else is known of either. */
  lemma {:induction false} RunRemembers(lsn0: nat, actions: seq<Action>)
    requires Run(Init(lsn0), actions).Some?
    ensures Remembers(Run(Init(lsn0), actions).value.tx, Received(actions))
  {
    if actions != [] {
      var n, a := |actions| - 1, actions[|actions| - 1];
      RunRemembers(lsn0, actions[..n]);
      var s, inbox := Run(Init(lsn0), actions[..n]).value, Received(actions[..n]);
      if !a.Receive? {
        MoveRemembers(s, a);
        assert inbox + [] == inbox;
      } else if a.msg.wal.Some? {
        ParseRemembers(s.tx, inbox, a.msg);
      } else {
        assert (inbox + [a.msg])[..|inbox|] == inbox;
      }
    }
  }

  /** Main result: in every run, what becomes of the next message. A Commit is
      refused exactly when it is not for the last Begin, a Relation exactly before
      any Begin, a row exactly when its relation was not announced, and a message
      of another kind exactly when its letter is not one of the nine. */
  lemma RejectedExactly(lsn0: nat, actions: seq<Action>, data: seq<byte>)
    requires Run(Init(lsn0), actions).Some? && (data != [] ==> Decoding.Decode(data).Done?)
    ensures var inbox := Received(actions);
            var r := P.Parse(data, Run(Init(lsn0), actions).value.tx);
            if data == [] then r == T.Rejected(T.EmptyWalMessage) else
            var m, c := Decoding.Decode(data).value, data[0];
            && (c == 'C' as int ==>
                  m.Commit? && if LastBegin(inbox) > 0 && m.lsn != LastBegin(inbox) then r == T.Rejected(T.MessageLost)
                               else r.Accepted? && r.tx.commitTime == Some(m.timestamp))
            && (c == 'R' as int ==> if LastBegin(inbox) == 0 then r == T.Rejected(T.MessageLost) else r.Accepted?)
            && (c == 'I' as int ==>
                  m.Insert? && (r == T.Rejected(T.RelationNotFound) <==> m.relationId !in Announced(inbox)))
            && (c == 'U' as int ==>
                  m.Update? && (r == T.Rejected(T.RelationNotFound) <==> m.relationId !in Announced(inbox)))
            && (c == 'D' as int ==>
                  m.Delete? && (r == T.Rejected(T.RelationNotFound) <==> m.relationId !in Announced(inbox)))
            && (c == 'B' as int ==>
                  m.Begin? && r.Accepted? && r.tx.lsn == m.lsn && r.tx.beginTime == Some(m.timestamp))
            && (c == 'O' as int || c == 'Y' as int || c == 'T' as int ==>
                  r == T.Accepted(Run(Init(lsn0), actions).value.tx))
            && (r == T.Rejected(T.UnknownMessageType) <==>
                  c !in ['B' as int, 'C' as int, 'O' as int, 'R' as int, 'Y' as int, 'I' as int, 'U' as int, 'D' as int,
                         'T' as int])
  {
    RunRemembers(lsn0, actions);
    if data != [] { W.LettersChoose(data); }
  }

  /** A message that is rejected changes nothing but where the stream loop is. */
  lemma RejectedChangesNothing(lsn0: nat, actions: seq<Action>, msg: L.ReplicationMessage)
    requires Run(Init(lsn0), actions).Some? && Run(Init(lsn0), actions).value.stream.Idle? && msg.wal.Some?
    requires P.Parse(msg.wal.value.walData, Run(Init(lsn0), actions).value.tx).Rejected?
    ensures var s := Run(Init(lsn0), actions).value;
            Run(Init(lsn0), actions + [Receive(msg)]) == Some(s.(stream := Replying(msg)))
  {
    FoldSnoc(Step, Init(lsn0), actions, Receive(msg));
  }
}
