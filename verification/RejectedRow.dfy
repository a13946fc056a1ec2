/** A row that is passed over: rejected, with a position stored beyond it. */
module RejectedRow {
  import opened Prelude
  import opened Protocol
  import opened SoloRuns
  import opened ReceivedRows
  import BigEndian
  import D = Delivery
  import EndToEnd
  import RoundTrip
  import T = Transaction
  import P = Parser
  import L = Listener

  const ROW := WInsert(1, [])
  const ORIGIN := WOrigin(0, [])

  function Msg(w: Wire, start: nat): L.ReplicationMessage
    requires WireOk(w)
  {
    L.ReplicationMessage(Some(L.WalMessage(start, Encode(w))), None)
  }

  lemma UnknownRowIsRejected(w: L.World, f: L.Fates, start: nat)
    requires w.tx.relations == map[]
    ensures WireOk(ROW) && IsRowMessage(Msg(ROW, start))
    ensures L.Receive(w, Msg(ROW, start), f) == Some(w)
    ensures forall p: Past :: Remember(p, w.tx, Msg(ROW, start)) == p
  {
    BigEndian.PowerValues();
    EndToEnd.ParseIsApply(ROW, w.tx);
    RoundTrip.DecodeInvertsEncode(ROW);
  }

  lemma OriginIsAcknowledged(w: L.World, f: L.Fates, start: nat)
    requires w.tx.commitTime.None? && start > w.lsn
    ensures WireOk(ORIGIN) && !IsRowMessage(Msg(ORIGIN, start))
    ensures L.Receive(w, Msg(ORIGIN, start), f).Some? && L.Receive(w, Msg(ORIGIN, start), f).value.lsn == start
    ensures forall p: Past :: Remember(p, w.tx, Msg(ORIGIN, start)).appended == p.appended
  {
    BigEndian.PowerValues();
    EndToEnd.ParseIsApply(ORIGIN, w.tx);
    assert Encode(ORIGIN)[0] == ORIGIN_MSG;
    NothingAdded(w.tx.actions);
  }

  lemma NothingAdded(actions: seq<T.ActionData>)
    ensures forall xs: seq<T.ActionData> :: xs + D.Added(actions, actions) == xs
  {
    assert D.Added(actions, actions) == [];
  }

  /** The position moves past a row that was rejected: it is only logged. */
  lemma RejectedRowIsPassed(lsn0: nat, f: L.Fates) returns (inbox: seq<L.ReplicationMessage>)
    ensures RowsReceived(inbox) == 1 && L.Streamed(Started(lsn0), inbox, f).Some?
    ensures PastOf(lsn0, inbox, f).appended == [] && L.Streamed(Started(lsn0), inbox, f).value.lsn == lsn0 + 2
  {
    var w := Started(lsn0);
    UnknownRowIsRejected(w, f, lsn0 + 1);
    OriginIsAcknowledged(w, f, lsn0 + 2);
    var first, second := Msg(ROW, lsn0 + 1), Msg(ORIGIN, lsn0 + 2);
    inbox := [first, second];
    SecondAfterFirst(lsn0, first, second, f);
  }

  /** A first message that changes nothing. */
  lemma SecondAfterFirst(lsn0: nat, first: L.ReplicationMessage, second: L.ReplicationMessage, f: L.Fates)
    requires L.Receive(Started(lsn0), first, f) == Some(Started(lsn0))
    requires Remember(Past([], []), Started(lsn0).tx, first) == Past([], [])
    ensures L.Streamed(Started(lsn0), [first, second], f) == L.Receive(Started(lsn0), second, f)
    ensures L.Receive(Started(lsn0), second, f).Some? ==>
              PastOf(lsn0, [first, second], f) == Remember(Past([], []), Started(lsn0).tx, second)
    ensures RowsReceived([first, second])
            == (if IsRowMessage(first) then 1 else 0) + (if IsRowMessage(second) then 1 else 0)
  {
    var both := [first, second];
    assert both[..|both| - 1] == [first] && [first][..|[first]| - 1] == [];
    assert L.Streamed(Started(lsn0), [], f) == Some(Started(lsn0)) && PastOf(lsn0, [], f) == Past([], []);
    assert L.Streamed(Started(lsn0), [first], f) == Some(Started(lsn0)) && PastOf(lsn0, [first], f) == Past([], []);
    assert RowsReceived([]) == 0 && RowsReceived([first]) == if IsRowMessage(first) then 1 else 0;
  }
}
