/** Well-formed transactions under any pattern of publish failures: every message
    is accepted, every row recorded once, and what was reported is published. */
module WholeTransactions {
  import opened Prelude
  import opened Protocol
  import opened EndToEnd
  import RoundTrip
  import D = Delivery
  import S = SoloRuns
  import V = ServerView
  import T = Transaction
  import P = Parser
  import L = Listener

  // ----- what the messages say, one by one -----

  /** After some messages: the latest relations, the transaction's own LSN, the
      events so far without their times, and how many of them are committed. */
  datatype Track = Track(cat: Catalogue, lsn: int, events: seq<T.Event>, committed: nat)

  predicate Expected(k: Track, w: Wire) {
    if w.WBegin? then WireOk(w) && w.lsn != 0
    else if w.WCommit? then WireOk(w) && w.lsn == k.lsn
    else MessageOk(k.cat, w) && k.lsn != 0
  }

  function Next(k: Track, w: Wire): Option<Track> {
    if !Expected(k, w) then None
    else if w.WBegin? then Some(k.(lsn := w.lsn))
    else if w.WCommit? then Some(k.(committed := |k.events|))
    else if IsRow(w) then Some(k.(events := k.events + [RowEvent(k.cat[w.id], w, 0)]))
    else Some(k.(cat := Learn(k.cat, w)))
  }

  function After(k: Track, messages: seq<Wire>): Option<Track> {
    Fold(Next, k, messages)
  }

  function Untimed(events: seq<T.Event>): (r: seq<T.Event>)
    ensures |r| == |events|
  {
    seq(|events|, i requires 0 <= i < |events| => events[i].(eventTime := 0))
  }

  lemma {:induction false} BodyWithoutTimes(cat: Catalogue, body: seq<Wire>, micros: int)
    requires BodyOk(cat, body)
    ensures BodyEvents(cat, body, 0) == Untimed(BodyEvents(cat, body, micros))
  {
    if body != [] {
      var n, w := |body| - 1, body[|body| - 1];
      BodyWithoutTimes(cat, body[..n], micros);
      if IsRow(w) {
        var rel := CatalogueAfter(cat, body[..n])[w.id];
        assert RowEvent(rel, w, 0) == RowEvent(rel, w, micros).(eventTime := 0);
      }
    }
  }

  lemma NoMore(events: seq<T.Event>)
    ensures events + [] == events
  {
  }

  lemma {:induction false} BodyTracked(k: Track, body: seq<Wire>)
    requires BodyOk(k.cat, body) && k.lsn != 0
    ensures After(k, body)
            == Some(Track(CatalogueAfter(k.cat, body), k.lsn, k.events + BodyEvents(k.cat, body, 0), k.committed))
  {
    if body == [] {
      NoMore(k.events);
    } else {
      var n, w := |body| - 1, body[|body| - 1];
      BodyTracked(k, body[..n]);
      BodyStepTracked(After(k, body[..n]).value, w);
      Associative(k.events, BodyEvents(k.cat, body[..n], 0),
                  if IsRow(w) then [RowEvent(CatalogueAfter(k.cat, body[..n])[w.id], w, 0)] else []);
    }
  }

  lemma BodyStepTracked(k: Track, w: Wire)
    requires MessageOk(k.cat, w) && k.lsn != 0
    ensures Next(k, w)
            == Some(Track(Learn(k.cat, w), k.lsn,
                          k.events + if IsRow(w) then [RowEvent(k.cat[w.id], w, 0)] else [], k.committed))
  {
    NoMore(k.events);
  }

  lemma TxnTracked(k: Track, t: Txn)
    requires TxnOk(k.cat, t)
    ensures var events := k.events + BodyEvents(k.cat, t.body, 0);
            After(k, Messages(t)) == Some(Track(CatalogueAfter(k.cat, t.body), t.lsn, events, |events|))
  {
    var begin, commit := WBegin(t.lsn, t.micros, t.xid), WCommit(t.flags, t.lsn, t.endLsn, t.micros);
    var k1 := k.(lsn := t.lsn);
    BodyTracked(k1, t.body);
    FoldFirst(Next, k, begin, k1, t.body);
    FoldSnoc(Next, k, [begin] + t.body, commit);
  }

  lemma {:induction false} TxnsTracked(k: Track, txns: seq<Txn>)
    requires TxnsOk(k.cat, txns) && k.committed == |k.events|
    ensures var r := After(k, AllMessages(txns));
            && r.Some? && r.value.cat == CatalogueAfterAll(k.cat, txns)
            && r.value.events == k.events + Untimed(TxnEvents(k.cat, txns)) && r.value.committed == |r.value.events|
  {
    if txns == [] {
      NoMore(k.events);
    } else {
      var n := |txns| - 1;
      TxnsTracked(k, txns[..n]);
      var k1 := After(k, AllMessages(txns[..n])).value;
      TxnTracked(k1, txns[n]);
      FoldCompose(Next, k, AllMessages(txns[..n]), Messages(txns[n]));
      OneMoreTxn(k, txns);
    }
  }

  lemma OneMoreTxn(k: Track, txns: seq<Txn>)
    requires TxnsOk(k.cat, txns) && txns != []
    ensures var n := |txns| - 1;
            k.events + Untimed(TxnEvents(k.cat, txns[..n]))
            + BodyEvents(CatalogueAfterAll(k.cat, txns[..n]), txns[n].body, 0)
            == k.events + Untimed(TxnEvents(k.cat, txns))
  {
    var n := |txns| - 1;
    var now := CatalogueAfterAll(k.cat, txns[..n]);
    BodyWithoutTimes(now, txns[n].body, txns[n].micros);
    UntimedAppend(TxnEvents(k.cat, txns[..n]), BodyEvents(now, txns[n].body, txns[n].micros));
    Associative(k.events, Untimed(TxnEvents(k.cat, txns[..n])), BodyEvents(now, txns[n].body, 0));
  }

  lemma UntimedAppend(a: seq<T.Event>, b: seq<T.Event>)
    ensures Untimed(a + b) == Untimed(a) + Untimed(b)
  {
  }

  // ----- one message, whatever is pending -----

  /** The transaction knows the relations and the LSN of the messages so far. */
  predicate Knows(tx: T.Tx, k: Track) {
    CatalogueOk(k.cat) && tx.relations == Store(k.cat) && tx.lsn == k.lsn
  }

  /** What a message adds to the actions, as events without times. */
  predicate Adds(k: Track, w: Wire, before: T.Tx, after: T.Tx)
    requires Next(k, w).Some?
  {
    && before.actions <= after.actions
    && k.events + T.EventsOf(D.Added(before.actions, after.actions), 0) == Next(k, w).value.events
    && (!w.WCommit? ==> after.commitTime == before.commitTime)
    && (w.WCommit? ==> after.commitTime.Some? && after.actions == before.actions)
  }

  lemma RowAdds(k: Track, w: Wire, tx: T.Tx, after: T.Tx)
    requires Expected(k, w) && Knows(tx, k) && IsRow(w)
    requires after == tx.(actions := after.actions) && tx.actions <= after.actions
    requires T.EventsOf(after.actions, 0) == T.EventsOf(tx.actions, 0) + [RowEvent(k.cat[w.id], w, 0)]
    ensures Knows(after, Next(k, w).value) && Adds(k, w, tx, after)
  {
    LastEvent(tx.actions, after.actions, RowEvent(k.cat[w.id], w, 0));
  }

  lemma RowAccepted(k: Track, w: Wire, tx: T.Tx)
    requires Expected(k, w) && Knows(tx, k) && IsRow(w)
    ensures var r := P.Parse(Encode(w), tx); r.Accepted? && Knows(r.tx, Next(k, w).value) && Adds(k, w, tx, r.tx)
  {
    RowStep(k.cat[w.id], w, tx, 0);
    D.AcceptedExtends(Encode(w), tx);
    RowAdds(k, w, tx, P.Parse(Encode(w), tx).tx);
  }

  lemma LastEvent(before: seq<T.ActionData>, after: seq<T.ActionData>, e: T.Event)
    requires before <= after && T.EventsOf(after, 0) == T.EventsOf(before, 0) + [e]
    ensures T.EventsOf(D.Added(before, after), 0) == [e]
  {
    assert T.EventsOf(after, 0)[|before|] == e;
    assert |T.EventsOf(after, 0)| == |T.EventsOf(before, 0)| + 1;
  }

  lemma OtherAccepted(k: Track, w: Wire, tx: T.Tx)
    requires Expected(k, w) && Knows(tx, k) && !IsRow(w)
    ensures var r := P.Parse(Encode(w), tx); r.Accepted? && Knows(r.tx, Next(k, w).value) && Adds(k, w, tx, r.tx)
  {
    if w.WBegin? || w.WCommit? {
      ParseIsApply(w, tx);
    } else {
      OtherStep(w, k.cat, tx);
    }
  }

  lemma MessageAccepted(k: Track, w: Wire, tx: T.Tx)
    requires Expected(k, w) && Knows(tx, k)
    ensures WireOk(w)
    ensures var r := P.Parse(Encode(w), tx); r.Accepted? && Knows(r.tx, Next(k, w).value) && Adds(k, w, tx, r.tx)
  {
    if IsRow(w) { RowAccepted(k, w, tx); } else { OtherAccepted(k, w, tx); }
  }

  /** Publishing, failing to and acknowledging leave relations and LSN alone. */
  lemma SettleKeeps(w: L.World, position: nat, f: L.Fates)
    ensures var r := L.Settle(w, position, f);
            r.Processed? && r.w.tx.relations == w.tx.relations && r.w.tx.lsn == w.tx.lsn
  {
  }

  // ----- the object under any failures -----

  /** Every message of the inbox is accepted. */
  predicate NoneRejected(lsn0: nat, inbox: seq<L.ReplicationMessage>, f: L.Fates)
    requires L.Streamed(S.Started(lsn0), inbox, f).Some?
  {
    inbox != [] ==>
      var n := |inbox| - 1;
      && NoneRejected(lsn0, inbox[..n], f)
      && (inbox[n].wal.Some? ==>
          P.Parse(inbox[n].wal.value.walData, L.Streamed(S.Started(lsn0), inbox[..n], f).value.tx).Accepted?)
  }

  /** What the object has seen of the messages. */
  predicate Recorded(p: S.Past, tx: T.Tx, k: Track) {
    && Knows(tx, k) && T.EventsOf(p.appended, 0) == k.events
    && |p.stamps| <= |p.appended| && |p.stamps| == k.committed
  }

  lemma EventsOfAppend(a: seq<T.ActionData>, b: seq<T.ActionData>)
    ensures T.EventsOf(a + b, 0) == T.EventsOf(a, 0) + T.EventsOf(b, 0)
  {
  }

  /** Whoever takes the message in. */
  lemma AcceptRecorded(p: S.Past, tx: T.Tx, k: Track, msg: L.ReplicationMessage, wire: Wire)
    requires Recorded(p, tx, k) && Expected(k, wire) && msg.wal.Some? && Carries(msg.wal.value.walData, wire)
    ensures var r := P.Parse(msg.wal.value.walData, tx);
            r.Accepted? && Recorded(S.Remember(p, tx, msg), r.tx, Next(k, wire).value)
  {
    MessageAccepted(k, wire, tx);
    EventsOfAppend(p.appended, D.Added(tx.actions, P.Parse(Encode(wire), tx).tx.actions));
  }

  lemma MessageRecorded(p: S.Past, w: L.World, k: Track, msg: L.ReplicationMessage, wire: Wire, f: L.Fates)
    requires Recorded(p, w.tx, k) && Expected(k, wire) && msg.wal.Some? && Carries(msg.wal.value.walData, wire)
    ensures P.Parse(msg.wal.value.walData, w.tx).Accepted?
    ensures var r := L.Receive(w, msg, f);
            r.Some? && Recorded(S.Remember(p, w.tx, msg), r.value.tx, Next(k, wire).value)
  {
    AcceptRecorded(p, w.tx, k, msg, wire);
    SettleKeeps(w.(tx := P.Parse(msg.wal.value.walData, w.tx).tx), msg.wal.value.walStart, f);
  }

  lemma {:induction false} InboxRecorded(lsn0: nat, inbox: seq<L.ReplicationMessage>, f: L.Fates, messages: seq<Wire>)
    requires CarriesAll(Carried(inbox), messages) && After(Track(map[], 0, [], 0), messages).Some?
    ensures var r := L.Streamed(S.Started(lsn0), inbox, f);
            && r.Some? && NoneRejected(lsn0, inbox, f)
            && Recorded(S.PastOf(lsn0, inbox, f), r.value.tx, After(Track(map[], 0, [], 0), messages).value)
  {
    if inbox != [] {
      var n := |inbox| - 1;
      if inbox[n].wal.Some? {
        assert Carried(inbox)[..|Carried(inbox)| - 1] == Carried(inbox[..n]);
        LastCarried(Carried(inbox), messages);
        InboxRecorded(lsn0, inbox[..n], f, messages[..|messages| - 1]);
        MessageRecorded(S.PastOf(lsn0, inbox[..n], f), L.Streamed(S.Started(lsn0), inbox[..n], f).value,
                        After(Track(map[], 0, [], 0), messages[..|messages| - 1]).value, inbox[n],
                        messages[|messages| - 1], f);
      } else {
        assert Carried(inbox) == Carried(inbox[..n]);
        InboxRecorded(lsn0, inbox[..n], f, messages);
      }
    }
  }

  lemma OutIsInLog(actions: seq<T.ActionData>, events: seq<T.Event>, log: seq<T.Event>)
    requires D.Out(actions, log) && T.EventsOf(actions, 0) == Untimed(events)
    ensures D.InLog(events, log)
  {
    var at: seq<nat> :| D.Places(Untimed(events), log, at);
    assert D.Places(events, log, at);
  }

  /** Main result: whatever fails, over any well-formed transactions every message
      is accepted, and the actions recorded are exactly the interpreter's events,
      apart from their times; and when no commit is left pending, each of those
      events has been published, in their order, under some time. */
  lemma EveryTransactionIsRecorded(lsn0: nat, txns: seq<Txn>, inbox: seq<L.ReplicationMessage>, f: L.Fates)
    requires TxnsOk(map[], txns) && CarriesAll(Carried(inbox), AllMessages(txns))
    ensures L.Streamed(S.Started(lsn0), inbox, f).Some? && NoneRejected(lsn0, inbox, f)
    ensures var p, w := S.PastOf(lsn0, inbox, f), L.Streamed(S.Started(lsn0), inbox, f).value;
            && T.EventsOf(p.appended, 0) == Untimed(TxnEvents(map[], txns)) && |p.stamps| == |p.appended|
            && (w.tx.commitTime.None? ==> D.InLog(TxnEvents(map[], txns), w.published))
  {
    var k := Track(map[], 0, [], 0);
    TxnsTracked(k, txns);
    assert [] + Untimed(TxnEvents(map[], txns)) == Untimed(TxnEvents(map[], txns));
    InboxRecorded(lsn0, inbox, f, AllMessages(txns));
    if L.Streamed(S.Started(lsn0), inbox, f).value.tx.commitTime.None? {
      S.NothingPendingIsOut(lsn0, inbox, f);
      var p := S.PastOf(lsn0, inbox, f);
      assert p.appended[..|p.stamps|] == p.appended;
      OutIsInLog(p.appended, TxnEvents(map[], txns), L.Streamed(S.Started(lsn0), inbox, f).value.published);
    }
  }

  // ----- the two goroutines -----

  /** The steps that take no message in leave the record alone. */
  lemma MoveKeepsRecord(s: D.State, a: D.Action)
    requires D.Move(s, a).Some?
    ensures var t := D.Move(s, a).value;
            && t.appended == s.appended && t.stamps == s.stamps
            && t.tx.relations == s.tx.relations && t.tx.lsn == s.tx.lsn
  {
  }

  lemma StepRecorded(s: D.State, a: D.Action, k: Track)
    requires D.Step(s, a).Some? && Recorded(S.Past(s.appended, s.stamps), s.tx, k)
    requires !a.Receive? || a.msg.wal.None?
    ensures var t := D.Step(s, a).value; Recorded(S.Past(t.appended, t.stamps), t.tx, k)
  {
    if !a.Receive? { MoveKeepsRecord(s, a); }
  }

  lemma ReceiveRecorded(s: D.State, msg: L.ReplicationMessage, wire: Wire, k: Track)
    requires D.Step(s, D.Receive(msg)).Some? && Recorded(S.Past(s.appended, s.stamps), s.tx, k)
    requires Expected(k, wire) && msg.wal.Some? && Carries(msg.wal.value.walData, wire)
    ensures var t := D.Step(s, D.Receive(msg)).value; Recorded(S.Past(t.appended, t.stamps), t.tx, Next(k, wire).value)
  {
    AcceptRecorded(S.Past(s.appended, s.stamps), s.tx, k, msg, wire);
  }

  /** The record of a run over well-formed transactions, heartbeats and all. */
  lemma {:induction false} RunRecorded(lsn0: nat, actions: seq<D.Action>, messages: seq<Wire>)
    requires D.Run(D.Init(lsn0), actions).Some?
    requires CarriesAll(Carried(D.Received(actions)), messages) && After(Track(map[], 0, [], 0), messages).Some?
    ensures var s := D.Run(D.Init(lsn0), actions).value;
            Recorded(S.Past(s.appended, s.stamps), s.tx, After(Track(map[], 0, [], 0), messages).value)
  {
    if actions != [] {
      var n, a := |actions| - 1, actions[|actions| - 1];
      var s, inbox := D.Run(D.Init(lsn0), actions[..n]).value, D.Received(actions[..n]);
      if a.Receive? && a.msg.wal.Some? {
        OneMoreCarried(inbox, a.msg);
        LastCarried(Carried(D.Received(actions)), messages);
        var sofar := messages[..|messages| - 1];
        RunRecorded(lsn0, actions[..n], sofar);
        ReceiveRecorded(s, a.msg, messages[|messages| - 1], After(Track(map[], 0, [], 0), sofar).value);
      } else {
        if a.Receive? { OneMoreCarried(inbox, a.msg); } else { assert inbox + [] == inbox; }
        RunRecorded(lsn0, actions[..n], messages);
        StepRecorded(s, a, After(Track(map[], 0, [], 0), messages).value);
      }
    }
  }

  lemma OneMoreCarried(inbox: seq<L.ReplicationMessage>, msg: L.ReplicationMessage)
    ensures Carried(inbox + [msg]) == Carried(inbox) + if msg.wal.Some? then [msg.wal.value.walData] else []
  {
    assert (inbox + [msg])[..|inbox|] == inbox;
  }

  /** Over well-formed transactions, however the two goroutines interleave and
      whatever fails, the actions recorded are the interpreter's events, and all
      of them are under a commit. */
  lemma RunRecordsTransactions(lsn0: nat, actions: seq<D.Action>, txns: seq<Txn>)
    requires D.Run(D.Init(lsn0), actions).Some?
    requires TxnsOk(map[], txns) && CarriesAll(Carried(D.Received(actions)), AllMessages(txns))
    ensures var s := D.Run(D.Init(lsn0), actions).value;
            T.EventsOf(s.appended, 0) == Untimed(TxnEvents(map[], txns)) && |s.stamps| == |s.appended|
  {
    TxnsTracked(Track(map[], 0, [], 0), txns);
    assert [] + Untimed(TxnEvents(map[], txns)) == Untimed(TxnEvents(map[], txns));
    RunRecorded(lsn0, actions, AllMessages(txns));
  }

  // ----- a restart -----

  /** Main result: however the two goroutines interleave and whatever fails, when
      the messages up to a commit are those of well-formed transactions and some
      position at or beyond that commit was handed to the server, by either
      goroutine, then the events of all these transactions have been published,
      each in a place of its own and in their order. A server that sends again
      what commits after that position sends all that was not published. */
  lemma ReportedTransactionsAreOut(lsn0: nat, actions: seq<D.Action>, txns: seq<Txn>, n: nat, j: nat)
    requires D.Run(D.Init(lsn0), actions).Some? && V.CommitOrder(lsn0, D.Received(actions))
    requires j < |D.Received(actions)| && V.IsCommit(D.Received(actions)[j])
    requires TxnsOk(map[], txns) && CarriesAll(Carried(D.Received(actions)[..j + 1]), AllMessages(txns))
    requires n < |D.Run(D.Init(lsn0), actions).value.sent|
    requires V.Start(D.Received(actions)[j]) <= D.Run(D.Init(lsn0), actions).value.sent[n]
    ensures D.Partial(D.Run(D.Init(lsn0), actions).value.attempts)
    ensures D.InLog(TxnEvents(map[], txns), D.EventLog(D.Run(D.Init(lsn0), actions).value.attempts))
  {
    var k := V.TakenAt(actions, j);
    V.TakesIt(actions, k, j);
    V.ReportedCommitsAreOut(lsn0, actions, n, k, j);
    RunRecordsTransactions(lsn0, actions[..k + 1], txns);
    var t, s := D.Run(D.Init(lsn0), actions[..k + 1]).value, D.Run(D.Init(lsn0), actions).value;
    assert t.appended[..|t.stamps|] == t.appended;
    OutIsInLog(t.appended, TxnEvents(map[], txns), D.EventLog(s.attempts));
  }

  /** The same for the object's own reports. */
  lemma ObjectReportedTransactionsAreOut(
      lsn0: nat, inbox: seq<L.ReplicationMessage>, f: L.Fates, txns: seq<Txn>, n: nat, j: nat)
    requires L.Streamed(S.Started(lsn0), inbox, f).Some? && V.CommitOrder(lsn0, inbox)
    requires j < |inbox| && V.IsCommit(inbox[j])
    requires TxnsOk(map[], txns) && CarriesAll(Carried(inbox[..j + 1]), AllMessages(txns))
    requires n < |L.Streamed(S.Started(lsn0), inbox, f).value.sent|
    requires V.Start(inbox[j]) <= L.Streamed(S.Started(lsn0), inbox, f).value.sent[n]
    ensures D.InLog(TxnEvents(map[], txns), L.Streamed(S.Started(lsn0), inbox, f).value.published)
  {
    var actions := S.StreamIsARun(lsn0, inbox, f);
    ReportedTransactionsAreOut(lsn0, actions, txns, n, j);
  }
}
