/** What the object does to a list of messages is one of the machine's runs, so
    what holds of every run holds of the object. */
module SoloRuns {
  import opened Prelude
  import opened Delivery
  import T = Transaction
  import P = Parser
  import L = Listener

  /** The object's state, seen in a machine state between two messages. */
  predicate Shows(s: State, w: L.World) {
    && s.stream.Idle? && s.tx == w.tx && s.lsn == w.lsn && s.sent == w.sent
    && Partial(s.attempts) && EventLog(s.attempts) == w.published
  }

  // ----- what the object was told so far -----

  /** The actions of the messages accepted so far, and the commit times of those
      under a commit. */
  datatype Past = Past(appended: seq<T.ActionData>, stamps: seq<int>)

  predicate SamePast(s: State, t: State) {
    t.appended == s.appended && t.stamps == s.stamps
  }

  function Remember(p: Past, tx: T.Tx, msg: L.ReplicationMessage): Past {
    if msg.wal.None? then p else
    var data := msg.wal.value.walData;
    var r := P.Parse(data, tx);
    if !r.Accepted? then p else
    var appended := p.appended + Added(tx.actions, r.tx.actions);
    Past(appended, StampOnCommit(p.stamps, data, |appended|, r.tx))
  }

  function PastOf(lsn0: nat, inbox: seq<L.ReplicationMessage>, f: L.Fates): Past
    requires L.Streamed(Started(lsn0), inbox, f).Some?
  {
    if inbox == [] then Past([], []) else
    var n := |inbox| - 1;
    Remember(PastOf(lsn0, inbox[..n], f), L.Streamed(Started(lsn0), inbox[..n], f).value.tx, inbox[n])
  }

  /** The attempt a message leads to, if it leads to one. */
  function Tries(w: L.World, msg: L.ReplicationMessage, f: L.Fates): seq<Attempt> {
    if msg.wal.None? then [] else
    var r := P.Parse(msg.wal.value.walData, w.tx);
    if !r.Accepted? || r.tx.commitTime.None? then [] else
    var k := L.Successes(f.publish, w.publishCalls, |r.tx.actions|);
    [Attempt(r.tx.actions, r.tx.commitTime.value, k, k == |r.tx.actions|)]
  }

  /** The object's attempts to publish, and how far each got. */
  function AttemptsOf(lsn0: nat, inbox: seq<L.ReplicationMessage>, f: L.Fates): seq<Attempt>
    requires L.Streamed(Started(lsn0), inbox, f).Some?
  {
    if inbox == [] then [] else
    var n := |inbox| - 1;
    AttemptsOf(lsn0, inbox[..n], f) + Tries(L.Streamed(Started(lsn0), inbox[..n], f).value, inbox[n], f)
  }

  function Started(lsn: nat): L.World {
    L.World(T.Tx(0, None, None, map[], []), lsn, [], 0, [], 0)
  }

  lemma Chain(s: State, a: seq<Action>, b: seq<Action>)
    requires Run(s, a).Some?
    ensures Run(s, a + b) == Run(Run(s, a).value, b)
  {
    FoldCompose(Step, s, a, b);
  }

  lemma Single(s: State, a: Action)
    ensures Run(s, [a]) == Step(s, a)
  {
    assert Run(s, []) == Some(s);
    FoldSnoc(Step, s, [], a);
    assert [] + [a] == [a];
  }

  /** Steps that take no message in. */
  predicate Quiet(acts: seq<Action>) {
    forall i :: 0 <= i < |acts| ==> !acts[i].Receive?
  }

  lemma {:induction false} QuietReceivesNothing(sofar: seq<Action>, acts: seq<Action>)
    requires Quiet(acts)
    ensures Received(sofar + acts) == Received(sofar)
  {
    if acts == [] {
      assert sofar + acts == sofar;
    } else {
      var n := |acts| - 1;
      assert (sofar + acts)[..|sofar| + n] == sofar + acts[..n];
      QuietReceivesNothing(sofar, acts[..n]);
    }
  }

  lemma OneReceived(sofar: seq<Action>, msg: L.ReplicationMessage, acts: seq<Action>)
    requires Quiet(acts)
    ensures Received(sofar + ([Receive(msg)] + acts)) == Received(sofar) + [msg]
  {
    assert (sofar + [Receive(msg)])[..|sofar|] == sofar;
    QuietReceivesNothing(sofar + [Receive(msg)], acts);
    Associative(sofar, [Receive(msg)], acts);
  }

  function Newest(s: State): Attempt
    requires s.attempts != []
  {
    s.attempts[|s.attempts| - 1]
  }

  function WithSent(s: State, sent: nat): State
    requires s.attempts != []
  {
    s.(attempts := s.attempts[|s.attempts| - 1 := Newest(s).(sent := sent)])
  }

  /** Where the publish loop ends when `k` more events go through. */
  function PublishEnds(s: State, k: nat): State
    requires s.stream.Publishing? && s.attempts != []
  {
    var t := WithSent(s, Newest(s).sent + k);
    if Newest(s).sent + k == |Newest(s).actions| then t else t.(stream := Replying(s.stream.msg))
  }

  lemma NonePublished(s: State)
    requires s.attempts != []
    ensures WithSent(s, Newest(s).sent) == s
  {
    assert s.attempts[|s.attempts| - 1 := Newest(s)] == s.attempts;
  }

  lemma OnePublished(s: State, sent: nat)
    requires s.stream.Publishing? && s.attempts != [] && sent < |Newest(s).actions|
    ensures Step(WithSent(s, sent), Publish(true)) == Some(WithSent(s, sent + 1))
  {
    var i := |s.attempts| - 1;
    var a, b := Newest(s).(sent := sent), Newest(s).(sent := sent + 1);
    assert s.attempts[i := a][i := b] == s.attempts[i := b];
  }

  lemma {:induction false} SuccessRun(s: State, k: nat) returns (acts: seq<Action>)
    requires s.stream.Publishing? && s.attempts != [] && Newest(s).sent + k <= |Newest(s).actions|
    ensures Run(s, acts) == Some(WithSent(s, Newest(s).sent + k)) && Quiet(acts)
  {
    if k == 0 {
      acts := [];
      NonePublished(s);
    } else {
      var sofar := SuccessRun(s, k - 1);
      OnePublished(s, Newest(s).sent + k - 1);
      acts := sofar + [Publish(true)];
      FoldSnoc(Step, s, sofar, Publish(true));
    }
  }

  /** The publish loop, whichever of its calls is the first to fail. */
  lemma PublishRun(s: State, k: nat) returns (acts: seq<Action>)
    requires s.stream.Publishing? && s.attempts != [] && Newest(s).sent + k <= |Newest(s).actions|
    ensures Run(s, acts) == Some(PublishEnds(s, k)) && Quiet(acts)
  {
    acts := SuccessRun(s, k);
    if Newest(s).sent + k < |Newest(s).actions| {
      FoldSnoc(Step, s, acts, Publish(false));
      acts := acts + [Publish(false)];
    }
  }

  /** Comparing, storing and reporting the position of the message in hand. */
  lemma AckRun(s: State, fate: L.SendFate) returns (acts: seq<Action>, t: State)
    requires s.stream.Comparing? && s.stream.msg.wal.Some?
    ensures Run(s, acts) == Some(t) && Quiet(acts)
    ensures var position := s.stream.msg.wal.value.walStart;
            && t.stream == Replying(s.stream.msg) && t.tx == s.tx && t.attempts == s.attempts && SamePast(s, t)
            && (position <= s.lsn ==> t.lsn == s.lsn && t.sent == s.sent)
            && (position > s.lsn ==> t.lsn == position && t.sent == HandOver(s.sent, position, fate))
  {
    var s1 := Step(s, Compare).value;
    Single(s, Compare);
    if s.stream.msg.wal.value.walStart <= s.lsn {
      acts, t := [Compare], s1;
    } else {
      var s2 := Step(s1, Store).value;
      var s3 := Step(s2, StreamRead).value;
      t := Step(s3, StreamSend(fate)).value;
      Single(s1, Store);
      Single(s2, StreamRead);
      Single(s3, StreamSend(fate));
      Chain(s, [Compare], [Store]);
      Chain(s, [Compare] + [Store], [StreamRead]);
      Chain(s, [Compare] + [Store] + [StreamRead], [StreamSend(fate)]);
      acts := [Compare] + [Store] + [StreamRead] + [StreamSend(fate)];
    }
  }

  /** Answering the heartbeat part of the message in hand. */
  lemma ReplyRun(s: State, fate: L.SendFate) returns (acts: seq<Action>, t: State)
    requires s.stream.Replying?
    ensures Run(s, acts) == Some(t) && Quiet(acts)
    ensures t.stream == Idle && t.tx == s.tx && t.attempts == s.attempts && t.lsn == s.lsn && SamePast(s, t)
    ensures t.sent == if s.stream.msg.heartbeat == Some(true) then HandOver(s.sent, s.lsn, fate) else s.sent
  {
    var s1 := Step(s, Reply).value;
    Single(s, Reply);
    if s.stream.msg.heartbeat != Some(true) {
      acts, t := [Reply], s1;
    } else {
      var s2 := Step(s1, StreamRead).value;
      t := Step(s2, StreamSend(fate)).value;
      Single(s1, StreamRead);
      Single(s2, StreamSend(fate));
      Chain(s, [Reply], [StreamRead]);
      Chain(s, [Reply] + [StreamRead], [StreamSend(fate)]);
      acts := [Reply] + [StreamRead] + [StreamSend(fate)];
    }
  }

  lemma LogOfNewest(attempts: seq<Attempt>, a: Attempt)
    requires Partial(attempts) && a.sent <= |a.actions|
    ensures Partial(attempts + [a])
    ensures EventLog(attempts + [a]) == EventLog(attempts) + T.EventsOf(a.actions, a.time)[..a.sent]
  {
    assert (attempts + [a])[..|attempts|] == attempts;
  }

  /** A batch published to the end is cleared, then acknowledged. */
  lemma ClearRun(s: State, fate: L.SendFate) returns (acts: seq<Action>, t: State)
    requires s.stream.Publishing? && s.stream.msg.wal.Some? && s.attempts != [] && Newest(s).sent == |Newest(s).actions|
    ensures Run(s, acts) == Some(t) && Quiet(acts)
    ensures var position := s.stream.msg.wal.value.walStart;
            && t.stream == Replying(s.stream.msg) && t.tx == T.Clear(s.tx) && SamePast(s, t)
            && t.attempts == s.attempts[|s.attempts| - 1 := Newest(s).(cleared := true)]
            && (position <= s.lsn ==> t.lsn == s.lsn && t.sent == s.sent)
            && (position > s.lsn ==> t.lsn == position && t.sent == HandOver(s.sent, position, fate))
  {
    var s1 := Step(s, ClearTx).value;
    var more;
    more, t := AckRun(s1, fate);
    acts := [ClearTx] + more;
    FoldFirst(Step, s, ClearTx, s1, more);
  }

  /** The attempts once `k` events of a new batch went through. */
  lemma AttemptsShow(attempts: seq<Attempt>, a: Attempt, k: nat, cleared: bool)
    requires Partial(attempts) && k <= |a.actions|
    ensures var b := a.(sent := k, cleared := cleared);
            (attempts + [a])[|attempts| := b] == attempts + [b] && Partial(attempts + [b])
            && EventLog(attempts + [b]) == EventLog(attempts) + T.EventsOf(a.actions, a.time)[..k]
  {
    ReplaceLast(attempts, a, a.(sent := k, cleared := cleared));
    LogOfNewest(attempts, a.(sent := k, cleared := cleared));
  }

  /** From a fresh attempt to the reply. */
  lemma BatchRun(s: State, a: Attempt, msg: L.ReplicationMessage, publish: nat -> bool, from: nat, send: L.SendFate)
    returns (acts: seq<Action>, t: State)
    requires s.stream == Publishing(msg) && msg.wal.Some? && s.attempts != [] && Newest(s) == a && a.sent == 0
    ensures Run(s, acts) == Some(t) && Quiet(acts) && t.stream == Replying(msg) && SamePast(s, t)
    ensures var k, position := L.Successes(publish, from, |a.actions|), msg.wal.value.walStart;
            && t.attempts == s.attempts[|s.attempts| - 1 := a.(sent := k, cleared := k == |a.actions| || a.cleared)]
            && t.tx == (if k == |a.actions| then T.Clear(s.tx) else s.tx)
            && (k < |a.actions| || position <= s.lsn ==> t.lsn == s.lsn && t.sent == s.sent)
            && (k == |a.actions| && position > s.lsn ==>
                t.lsn == position && t.sent == HandOver(s.sent, position, send))
  {
    var k := L.Successes(publish, from, |a.actions|);
    acts := PublishRun(s, k);
    t := Run(s, acts).value;
    if k == |a.actions| {
      var s1 := t;
      var more;
      more, t := ClearRun(s1, send);
      Chain(s, acts, more);
      acts := acts + more;
    }
  }

  /** From an accepted message to the reply: the machine does what `Settle` says. */
  lemma SettleRun(s: State, msg: L.ReplicationMessage, tx: T.Tx, w: L.World, f: L.Fates)
    returns (acts: seq<Action>, t: State)
    requires Shows(s, w) && msg.wal.Some?
    ensures Run(Accept(s, msg, tx), acts) == Some(t) && Quiet(acts)
    ensures t.stream == Replying(msg) && SamePast(Accept(s, msg, tx), t)
    ensures tx.commitTime.None? ==> t.attempts == s.attempts
    ensures tx.commitTime.Some? ==>
              var k := L.Successes(f.publish, w.publishCalls, |tx.actions|);
              t.attempts == s.attempts + [Attempt(tx.actions, tx.commitTime.value, k, k == |tx.actions|)]
    ensures var r := L.Settle(w.(tx := tx), msg.wal.value.walStart, f);
            r.Processed? && Shows(t.(stream := Idle), r.w)
  {
    var s0 := Accept(s, msg, tx);
    var send := f.send(w.sendCalls);
    if tx.commitTime.None? {
      acts, t := AckRun(s0, send);
    } else {
      var a := Attempt(tx.actions, tx.commitTime.value, 0, false);
      var k := L.Successes(f.publish, w.publishCalls, |a.actions|);
      acts, t := BatchRun(s0, a, msg, f.publish, w.publishCalls, send);
      AttemptsShow(s.attempts, a, k, k == |a.actions|);
    }
  }

  function AfterWal(w: L.World, msg: L.ReplicationMessage, f: L.Fates): L.World
    requires L.Receive(w, msg, f).Some?
  {
    if msg.wal.None? then w else L.Process(w, msg.wal.value, f).w
  }

  /** The WAL part of a message: parsed, and settled when accepted. */
  lemma WalRun(s: State, w: L.World, msg: L.ReplicationMessage, f: L.Fates) returns (acts: seq<Action>, t: State)
    requires Shows(s, w) && L.Receive(w, msg, f).Some?
    ensures Step(s, Receive(msg)).Some? && Run(Step(s, Receive(msg)).value, acts) == Some(t) && Quiet(acts)
    ensures t.stream == Replying(msg) && Shows(t.(stream := Idle), AfterWal(w, msg, f))
    ensures t.attempts == s.attempts + Tries(w, msg, f)
    ensures Past(t.appended, t.stamps) == Remember(Past(s.appended, s.stamps), s.tx, msg)
  {
    assert s.attempts + [] == s.attempts;
    if msg.wal.Some? && P.Parse(msg.wal.value.walData, s.tx).Accepted? {
      acts, t := SettleRun(s, msg, P.Parse(msg.wal.value.walData, s.tx).tx, w, f);
    } else {
      acts, t := [], Step(s, Receive(msg)).value;
    }
  }

  lemma ReceiveRun(s: State, w: L.World, msg: L.ReplicationMessage, f: L.Fates) returns (acts: seq<Action>, t: State)
    requires Shows(s, w) && L.Receive(w, msg, f).Some?
    ensures Quiet(acts) && Run(s, [Receive(msg)] + acts) == Some(t) && Shows(t, L.Receive(w, msg, f).value)
    ensures t.attempts == s.attempts + Tries(w, msg, f)
    ensures Past(t.appended, t.stamps) == Remember(Past(s.appended, s.stamps), s.tx, msg)
  {
    var acts1, s1 := WalRun(s, w, msg, f);
    var acts2;
    acts2, t := ReplyRun(s1, f.send(AfterWal(w, msg, f).sendCalls));
    acts := acts1 + acts2;
    Chain(Step(s, Receive(msg)).value, acts1, acts2);
    FoldFirst(Step, s, Receive(msg), Step(s, Receive(msg)).value, acts);
  }

  /** Main result: the object's loop over any inbox, under any pattern of
      failures, is a run of the machine (one without heartbeat ticks) that takes
      in the same messages and makes the same attempts. */
  lemma {:induction false} StreamIsARun(lsn0: nat, inbox: seq<L.ReplicationMessage>, f: L.Fates)
    returns (acts: seq<Action>)
    requires L.Streamed(Started(lsn0), inbox, f).Some?
    ensures Run(Init(lsn0), acts).Some?
    ensures Shows(Run(Init(lsn0), acts).value,
                  L.Streamed(Started(lsn0), inbox, f).value)
    ensures Past(Run(Init(lsn0), acts).value.appended, Run(Init(lsn0), acts).value.stamps) == PastOf(lsn0, inbox, f)
    ensures Run(Init(lsn0), acts).value.attempts == AttemptsOf(lsn0, inbox, f) && Received(acts) == inbox
  {
    if inbox == [] {
      acts := [];
    } else {
      var n := |inbox| - 1;
      var w := L.Streamed(Started(lsn0), inbox[..n], f).value;
      var acts1 := StreamIsARun(lsn0, inbox[..n], f);
      var acts2, t := ReceiveRun(Run(Init(lsn0), acts1).value, w, inbox[n], f);
      Chain(Init(lsn0), acts1, [Receive(inbox[n])] + acts2);
      OneReceived(acts1, inbox[n], acts2);
      assert inbox == inbox[..n] + [inbox[n]];
      acts := acts1 + ([Receive(inbox[n])] + acts2);
    }
  }

  // ----- what the object reports -----

  /** Every action under an accepted commit has had an event of its own published,
      in their order. */
  ghost predicate CommittedIsOut(lsn0: nat, inbox: seq<L.ReplicationMessage>, f: L.Fates)
    requires L.Streamed(Started(lsn0), inbox, f).Some?
  {
    var p, w := PastOf(lsn0, inbox, f), L.Streamed(Started(lsn0), inbox, f).value;
    |p.stamps| <= |p.appended| && Out(p.appended[..|p.stamps|], w.published)
  }

  lemma NothingPendingIsOut(lsn0: nat, inbox: seq<L.ReplicationMessage>, f: L.Fates)
    requires L.Streamed(Started(lsn0), inbox, f).Some? && L.Streamed(Started(lsn0), inbox, f).value.tx.commitTime.None?
    ensures CommittedIsOut(lsn0, inbox, f)
  {
    var acts := StreamIsARun(lsn0, inbox, f);
    InvariantOverRuns(lsn0, acts);
    var s := Run(Init(lsn0), acts).value;
    CommittedIsPublished(s, |s.stamps|);
  }

  /** The position the object started from, or the start of a message after which
      everything committed had been published. */
  ghost predicate Safe(lsn0: nat, inbox: seq<L.ReplicationMessage>, f: L.Fates, position: nat) {
    position == lsn0 || exists k :: SafeAt(lsn0, inbox, f, position, k)
  }

  ghost predicate SafeAt(lsn0: nat, inbox: seq<L.ReplicationMessage>, f: L.Fates, position: nat, k: int) {
    && 0 < k <= |inbox| && inbox[k - 1].wal.Some? && inbox[k - 1].wal.value.walStart == position
    && L.Streamed(Started(lsn0), inbox[..k], f).Some? && CommittedIsOut(lsn0, inbox[..k], f)
  }

  lemma StillSafe(lsn0: nat, inbox: seq<L.ReplicationMessage>, f: L.Fates, position: nat)
    requires inbox != [] && Safe(lsn0, inbox[..|inbox| - 1], f, position)
    ensures Safe(lsn0, inbox, f, position)
  {
    if position != lsn0 {
      var before := inbox[..|inbox| - 1];
      var k :| SafeAt(lsn0, before, f, position, k);
      assert before[..k] == inbox[..k];
      assert SafeAt(lsn0, inbox, f, position, k);
    }
  }

  /** What one message does to the position and to the reports. */
  lemma ReceiveReports(w: L.World, msg: L.ReplicationMessage, f: L.Fates)
    requires L.Receive(w, msg, f).Some?
    ensures var r := L.Receive(w, msg, f).value;
            && w.lsn <= r.lsn && w.sent <= r.sent && (forall i :: |w.sent| <= i < |r.sent| ==> r.sent[i] == r.lsn)
            && (r.lsn != w.lsn ==> msg.wal.Some? && r.lsn == msg.wal.value.walStart && r.tx.commitTime.None?)
  {
  }

  /** When a message moves the position, and every status that it leads to. */
  lemma ReportsExactly(w: L.World, msg: L.ReplicationMessage, f: L.Fates)
    requires L.Receive(w, msg, f).Some?
    ensures var r := L.Receive(w, msg, f).value;
            && (r.lsn != w.lsn <==>
                  && msg.wal.Some? && msg.wal.value.walStart > w.lsn
                  && P.Parse(msg.wal.value.walData, w.tx).Accepted?
                  && var tx := P.Parse(msg.wal.value.walData, w.tx).tx;
                     tx.commitTime.None?
                     || forall i :: w.publishCalls <= i < w.publishCalls + |tx.actions| ==> f.publish(i))
            && (r.lsn != w.lsn ==> r.lsn == msg.wal.value.walStart)
            && r.sent == w.sent
                 + (if r.lsn != w.lsn && f.send(w.sendCalls) != L.NotBuilt then [r.lsn] else [])
                 + (if msg.heartbeat == Some(true)
                       && f.send(w.sendCalls + if r.lsn != w.lsn then 1 else 0) != L.NotBuilt then [r.lsn] else [])
  {
    assert w.sent + [] == w.sent;
    if msg.wal.Some? && P.Parse(msg.wal.value.walData, w.tx).Accepted? {
      AllGoThrough(f.publish, w.publishCalls, |P.Parse(msg.wal.value.walData, w.tx).tx.actions|);
    }
  }

  lemma AllGoThrough(fate: nat -> bool, from: nat, n: nat)
    ensures L.Successes(fate, from, n) == n <==> forall i :: from <= i < from + n ==> fate(i)
  {
  }

  lemma NewPositionIsSafe(lsn0: nat, inbox: seq<L.ReplicationMessage>, f: L.Fates)
    requires inbox != [] && L.Streamed(Started(lsn0), inbox, f).Some?
    requires L.Streamed(Started(lsn0), inbox[..|inbox| - 1], f).Some?
    requires Safe(lsn0, inbox[..|inbox| - 1], f, L.Streamed(Started(lsn0), inbox[..|inbox| - 1], f).value.lsn)
    ensures Safe(lsn0, inbox, f, L.Streamed(Started(lsn0), inbox, f).value.lsn)
  {
    var n := |inbox| - 1;
    var w, r := L.Streamed(Started(lsn0), inbox[..n], f).value, L.Streamed(Started(lsn0), inbox, f).value;
    ReceiveReports(w, inbox[n], f);
    if r.lsn == w.lsn {
      StillSafe(lsn0, inbox, f, w.lsn);
    } else {
      assert inbox[..n + 1] == inbox;
      NothingPendingIsOut(lsn0, inbox, f);
      assert SafeAt(lsn0, inbox, f, r.lsn, n + 1);
    }
  }

  /** Main result for the object: over any inbox and any failures, every position
      it ever reported is at most the one it holds, and is the one it started
      from or the start of a message by whose end the event of every committed
      action had been published. */
  lemma {:induction false} ObjectReportsAfterPublishing(lsn0: nat, inbox: seq<L.ReplicationMessage>, f: L.Fates)
    requires L.Streamed(Started(lsn0), inbox, f).Some?
    ensures var w := L.Streamed(Started(lsn0), inbox, f).value;
            && lsn0 <= w.lsn && Safe(lsn0, inbox, f, w.lsn)
            && forall i :: 0 <= i < |w.sent| ==> w.sent[i] <= w.lsn && Safe(lsn0, inbox, f, w.sent[i])
  {
    if inbox != [] {
      var n := |inbox| - 1;
      ObjectReportsAfterPublishing(lsn0, inbox[..n], f);
      var w, r := L.Streamed(Started(lsn0), inbox[..n], f).value, L.Streamed(Started(lsn0), inbox, f).value;
      ReceiveReports(w, inbox[n], f);
      NewPositionIsSafe(lsn0, inbox, f);
      forall i | 0 <= i < |r.sent|
        ensures r.sent[i] <= r.lsn && Safe(lsn0, inbox, f, r.sent[i])
      {
        if i < |w.sent| { StillSafe(lsn0, inbox, f, w.sent[i]); }
      }
    }
  }
}
