/** Which of the rows received went out, and which were rejected. */
module ReceivedRows {
  import opened Prelude
  import opened Protocol
  import opened SoloRuns
  import D = Delivery
  import Decoding
  import V = ServerView
  import T = Transaction
  import P = Parser
  import L = Listener

  // ----- what is rejected -----

  predicate IsRowMessage(msg: L.ReplicationMessage) {
    && msg.wal.Some? && msg.wal.value.walData != []
    && var d := Decoding.Decode(msg.wal.value.walData);
       d.Done? && (d.value.Insert? || d.value.Update? || d.value.Delete?)
  }

  function RowsReceived(inbox: seq<L.ReplicationMessage>): nat {
    if inbox == [] then 0 else
    RowsReceived(inbox[..|inbox| - 1]) + if IsRowMessage(inbox[|inbox| - 1]) then 1 else 0
  }

  predicate Rejects(tx: T.Tx, msg: L.ReplicationMessage) {
    msg.wal.Some? && P.Parse(msg.wal.value.walData, tx).Rejected?
  }

  /** The row messages that met an unknown relation. */
  function RowsRejected(lsn0: nat, inbox: seq<L.ReplicationMessage>, f: L.Fates): nat
    requires L.Streamed(Started(lsn0), inbox, f).Some?
  {
    if inbox == [] then 0 else
    var n := |inbox| - 1;
    RowsRejected(lsn0, inbox[..n], f)
    + if IsRowMessage(inbox[n]) && Rejects(L.Streamed(Started(lsn0), inbox[..n], f).value.tx, inbox[n]) then 1 else 0
  }

  lemma RowIsOneAction(tx: T.Tx, msg: L.ReplicationMessage)
    requires msg.wal.Some? && P.Parse(msg.wal.value.walData, tx).Accepted?
    ensures |D.Added(tx.actions, P.Parse(msg.wal.value.walData, tx).tx.actions)| == if IsRowMessage(msg) then 1 else 0
  {
  }

  lemma RowIsRemembered(p: Past, w: L.World, msg: L.ReplicationMessage, f: L.Fates)
    requires L.Receive(w, msg, f).Some?
    ensures |Remember(p, w.tx, msg).appended|
            == |p.appended| + if IsRowMessage(msg) && !Rejects(w.tx, msg) then 1 else 0
  {
    if msg.wal.Some? && P.Parse(msg.wal.value.walData, w.tx).Accepted? { RowIsOneAction(w.tx, msg); }
  }

  /** Every row received is either recorded, once, or rejected. */
  lemma {:induction false} RowsAreRecordedOrRejected(lsn0: nat, inbox: seq<L.ReplicationMessage>, f: L.Fates)
    requires L.Streamed(Started(lsn0), inbox, f).Some?
    ensures |PastOf(lsn0, inbox, f).appended| + RowsRejected(lsn0, inbox, f) == RowsReceived(inbox)
  {
    if inbox != [] {
      var n := |inbox| - 1;
      RowsAreRecordedOrRejected(lsn0, inbox[..n], f);
      RowIsRemembered(PastOf(lsn0, inbox[..n], f), L.Streamed(Started(lsn0), inbox[..n], f).value, inbox[n], f);
    }
  }

  /** A commit that is accepted covers every row recorded so far, those of earlier
      commits that were rejected included; one that is rejected covers none. */
  lemma CommitCovers(lsn0: nat, inbox: seq<L.ReplicationMessage>, f: L.Fates)
    requires inbox != [] && V.IsCommit(inbox[|inbox| - 1]) && L.Streamed(Started(lsn0), inbox, f).Some?
    ensures L.Streamed(Started(lsn0), inbox[..|inbox| - 1], f).Some?
    ensures var n := |inbox| - 1;
            var p, q := PastOf(lsn0, inbox[..n], f), PastOf(lsn0, inbox, f);
            if Rejects(L.Streamed(Started(lsn0), inbox[..n], f).value.tx, inbox[n]) then q == p
            else |q.stamps| == |q.appended|
  {
    var n := |inbox| - 1;
    V.StampsAreAppended(lsn0, inbox[..n], f);
    var tx, data := L.Streamed(Started(lsn0), inbox[..n], f).value.tx, inbox[n].wal.value.walData;
    if P.Parse(data, tx).Accepted? { D.AcceptedExtends(data, tx); }
  }

  // ----- which rows went out -----

  /** The row message `m` was accepted. */
  predicate Recorded(lsn0: nat, inbox: seq<L.ReplicationMessage>, f: L.Fates, m: nat)
    requires m < |inbox|
  {
    && IsRowMessage(inbox[m]) && L.Streamed(Started(lsn0), inbox[..m], f).Some?
    && !Rejects(L.Streamed(Started(lsn0), inbox[..m], f).value.tx, inbox[m])
  }

  /** The number under which its action was appended. */
  function NumberOf(lsn0: nat, inbox: seq<L.ReplicationMessage>, f: L.Fates, m: nat): nat
    requires m < |inbox| && Recorded(lsn0, inbox, f, m)
  {
    |PastOf(lsn0, inbox[..m], f).appended|
  }

  /** The row message `m` was accepted, and an attempt sent the event of its action. */
  ghost predicate RowIsOut(lsn0: nat, inbox: seq<L.ReplicationMessage>, f: L.Fates, m: nat)
    requires m < |inbox| && L.Streamed(Started(lsn0), inbox, f).Some?
  {
    Recorded(lsn0, inbox, f, m) && D.WentOut(AttemptsOf(lsn0, inbox, f), NumberOf(lsn0, inbox, f, m))
  }

  lemma OneMoreMessage(lsn0: nat, inbox: seq<L.ReplicationMessage>, f: L.Fates, m: nat)
    requires inbox != [] && m < |inbox| - 1
    ensures var before := inbox[..|inbox| - 1];
            && (Recorded(lsn0, inbox, f, m) <==> Recorded(lsn0, before, f, m))
            && (Recorded(lsn0, inbox, f, m) ==> NumberOf(lsn0, inbox, f, m) == NumberOf(lsn0, before, f, m))
  {
    assert inbox[..|inbox| - 1][..m] == inbox[..m];
  }

  lemma {:induction false} NoRejection(lsn0: nat, inbox: seq<L.ReplicationMessage>, f: L.Fates)
    requires L.Streamed(Started(lsn0), inbox, f).Some?
    ensures RowsRejected(lsn0, inbox, f) == 0
            <==> forall m :: 0 <= m < |inbox| && IsRowMessage(inbox[m]) ==> Recorded(lsn0, inbox, f, m)
  {
    if inbox != [] {
      var n := |inbox| - 1;
      var before := inbox[..n];
      NoRejection(lsn0, before, f);
      forall m | 0 <= m < n
        ensures before[m] == inbox[m] && (Recorded(lsn0, inbox, f, m) <==> Recorded(lsn0, before, f, m))
      {
        OneMoreMessage(lsn0, inbox, f, m);
      }
    }
  }

  lemma NumbersAreAppended(lsn0: nat, inbox: seq<L.ReplicationMessage>, f: L.Fates)
    requires L.Streamed(Started(lsn0), inbox, f).Some?
    ensures forall m :: 0 <= m < |inbox| && Recorded(lsn0, inbox, f, m) ==>
              NumberOf(lsn0, inbox, f, m) < |PastOf(lsn0, inbox, f).appended|
  {
    forall m | 0 <= m < |inbox| && Recorded(lsn0, inbox, f, m)
      ensures NumberOf(lsn0, inbox, f, m) < |PastOf(lsn0, inbox, f).appended|
    {
      V.PastGrows(lsn0, inbox, f, m + 1);
      assert inbox[..m + 1][..m] == inbox[..m];
      RowIsRemembered(PastOf(lsn0, inbox[..m], f), L.Streamed(Started(lsn0), inbox[..m], f).value, inbox[m], f);
    }
  }

  /** Every action was appended by some row message. */
  lemma {:induction false} AppendedByARow(lsn0: nat, inbox: seq<L.ReplicationMessage>, f: L.Fates, i: nat)
    returns (m: nat)
    requires L.Streamed(Started(lsn0), inbox, f).Some? && i < |PastOf(lsn0, inbox, f).appended|
    ensures m < |inbox| && Recorded(lsn0, inbox, f, m) && NumberOf(lsn0, inbox, f, m) == i
  {
    var n := |inbox| - 1;
    if i < |PastOf(lsn0, inbox[..n], f).appended| {
      m := AppendedByARow(lsn0, inbox[..n], f, i);
      OneMoreMessage(lsn0, inbox, f, m);
    } else {
      m := n;
      RowIsRemembered(PastOf(lsn0, inbox[..n], f), L.Streamed(Started(lsn0), inbox[..n], f).value, inbox[n], f);
    }
  }

  /** The object's attempts account for its log. */
  lemma AttemptsMakeTheLog(lsn0: nat, inbox: seq<L.ReplicationMessage>, f: L.Fates)
    requires L.Streamed(Started(lsn0), inbox, f).Some?
    ensures D.Attempted(AttemptsOf(lsn0, inbox, f), PastOf(lsn0, inbox, f).appended)
    ensures D.Partial(AttemptsOf(lsn0, inbox, f))
    ensures D.EventLog(AttemptsOf(lsn0, inbox, f)) == L.Streamed(Started(lsn0), inbox, f).value.published
  {
    var acts := StreamIsARun(lsn0, inbox, f);
    D.InvariantOverRuns(lsn0, acts);
  }

  /** Where the object's event stands that an attempt sent. */
  lemma SentIsPublished(lsn0: nat, inbox: seq<L.ReplicationMessage>, f: L.Fates, j: nat, i: nat)
    requires L.Streamed(Started(lsn0), inbox, f).Some? && D.Sends(AttemptsOf(lsn0, inbox, f), j, i)
    ensures D.Partial(AttemptsOf(lsn0, inbox, f)) && i < |PastOf(lsn0, inbox, f).appended|
    ensures var attempts, w := AttemptsOf(lsn0, inbox, f), L.Streamed(Started(lsn0), inbox, f).value;
            D.LoggedAfter(attempts[..j], attempts[j].time, i, w.published, PastOf(lsn0, inbox, f).appended[i])
  {
    AttemptsMakeTheLog(lsn0, inbox, f);
    D.SentIsLogged(AttemptsOf(lsn0, inbox, f), PastOf(lsn0, inbox, f).appended, j, i);
  }

  /** While no commit is pending, the events that went out are those of the
      actions no longer pending; they stand in the log in their order. */
  lemma NothingElsePending(lsn0: nat, inbox: seq<L.ReplicationMessage>, f: L.Fates)
    requires L.Streamed(Started(lsn0), inbox, f).Some? && L.Streamed(Started(lsn0), inbox, f).value.tx.commitTime.None?
    ensures var p, w := PastOf(lsn0, inbox, f), L.Streamed(Started(lsn0), inbox, f).value;
            var n := |p.appended| - |w.tx.actions|;
            && 0 <= n && D.Out(p.appended[..n], w.published)
            && forall i: nat :: D.WentOut(AttemptsOf(lsn0, inbox, f), i) <==> i < n
  {
    var acts := StreamIsARun(lsn0, inbox, f);
    D.InvariantOverRuns(lsn0, acts);
    var s := D.Run(D.Init(lsn0), acts).value;
    D.CommittedIsPublished(s, |D.Delivered(s.attempts)|);
    forall i: nat
      ensures D.WentOut(s.attempts, i) <==> i < |s.appended| - |s.tx.actions|
    {
      D.WentOutExactly(lsn0, acts, i);
    }
  }

  /** Main result: where no commit is pending, as at every position stored, a row
      received has gone out if and only if it was not rejected and is no longer
      pending; so every row received has gone out if and only if none was
      rejected and nothing is pending. */
  lemma ReceivedRowsAreOut(lsn0: nat, inbox: seq<L.ReplicationMessage>, f: L.Fates)
    requires L.Streamed(Started(lsn0), inbox, f).Some? && L.Streamed(Started(lsn0), inbox, f).value.tx.commitTime.None?
    ensures var p, w := PastOf(lsn0, inbox, f), L.Streamed(Started(lsn0), inbox, f).value;
            forall m :: 0 <= m < |inbox| ==>
              (RowIsOut(lsn0, inbox, f, m)
               <==> Recorded(lsn0, inbox, f, m) && NumberOf(lsn0, inbox, f, m) < |p.appended| - |w.tx.actions|)
    ensures (forall m :: 0 <= m < |inbox| && IsRowMessage(inbox[m]) ==> RowIsOut(lsn0, inbox, f, m))
            <==> RowsRejected(lsn0, inbox, f) == 0 && L.Streamed(Started(lsn0), inbox, f).value.tx.actions == []
  {
    NothingElsePending(lsn0, inbox, f);
    NoRejection(lsn0, inbox, f);
    var p, w := PastOf(lsn0, inbox, f), L.Streamed(Started(lsn0), inbox, f).value;
    NumbersAreAppended(lsn0, inbox, f);
    if w.tx.actions != [] {
      var m := AppendedByARow(lsn0, inbox, f, |p.appended| - 1);
      assert IsRowMessage(inbox[m]) && !RowIsOut(lsn0, inbox, f, m);
    }
  }
}
