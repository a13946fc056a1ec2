/** The listener's two goroutines, the stream loop and the heartbeat loop, step
    by step. Every interleaving and every pattern of failures is a run. */
module Delivery {
  import opened Prelude
  import opened BigEndian
  import opened Protocol
  import T = Transaction
  import D = Decoding
  import P = Parser
  import L = Listener

  // The stream loop alone writes the transaction and the position; the heartbeat
  // loop reports the position on a timer. A run is any list of their steps.

  // ----- the machine -----

  /** One attempt to publish the pending actions. `sent` events went through;
      `cleared` says that all did and that the transaction was cleared. */
  datatype Attempt = Attempt(actions: seq<T.ActionData>, time: int, sent: nat, cleared: bool)

  /** The position took the value `position` when the first `covered` appended
      actions lay under an accepted commit and `delivered` had been published
      in full batches. */
  datatype Ack = Ack(position: nat, covered: nat, delivered: nat)

  datatype StreamPc =
    | Idle
    | Publishing(msg: L.ReplicationMessage)
    | Comparing(msg: L.ReplicationMessage)
    | Storing(msg: L.ReplicationMessage)
    | AckReading(msg: L.ReplicationMessage)
    | AckSending(msg: L.ReplicationMessage, position: nat)
    | Replying(msg: L.ReplicationMessage)
    | ReplyReading
    | ReplySending(position: nat)

  datatype BeatPc = Waiting | Reading | Sending(position: nat)

  datatype State = State(
    tx: T.Tx, lsn: nat, stream: StreamPc, beat: BeatPc,
    // history
    appended: seq<T.ActionData>, stamps: seq<int>, attempts: seq<Attempt>, acks: seq<Ack>, sent: seq<nat>)

  datatype Action =
    | Receive(msg: L.ReplicationMessage)
    | Publish(ok: bool)
    | ClearTx
    | Compare
    | Store
    | StreamRead
    | StreamSend(fate: L.SendFate)
    | Reply
    | BeatTick
    | BeatRead
    | BeatSend(fate: L.SendFate)

  function Init(lsn: nat): State {
    State(T.Tx(0, None, None, map[], []), lsn, Idle, Waiting, [], [], [], [], [])
  }

  function HandOver(sent: seq<nat>, position: nat, fate: L.SendFate): seq<nat> {
    if fate == L.NotBuilt then sent else sent + [position]
  }

  function Added(before: seq<T.ActionData>, after: seq<T.ActionData>): seq<T.ActionData> {
    if |before| <= |after| then after[|before|..] else []
  }

  /** A commit stamps the actions that no earlier commit has. */
  function Stamp(stamps: seq<int>, n: nat, time: int): (r: seq<int>)
    ensures stamps <= r && (n >= |stamps| ==> |r| == n)
  {
    if n <= |stamps| then stamps else stamps + seq(n - |stamps|, _ => time)
  }

  function StampOnCommit(stamps: seq<int>, data: seq<byte>, n: nat, tx: T.Tx): seq<int> {
    if data != [] && data[0] == COMMIT_MSG && tx.commitTime.Some? then Stamp(stamps, n, tx.commitTime.value) else stamps
  }

  /** The transaction after an accepted message, and the history it adds. */
  function Accept(s: State, msg: L.ReplicationMessage, tx: T.Tx): State
    requires msg.wal.Some?
  {
    var data := msg.wal.value.walData;
    var appended := s.appended + Added(s.tx.actions, tx.actions);
    var s1 := s.(tx := tx, appended := appended,
                 stamps := StampOnCommit(s.stamps, data, |appended|, tx));
    if tx.commitTime.None? then s1.(stream := Comparing(msg))
    else s1.(stream := Publishing(msg), attempts := s.attempts + [Attempt(tx.actions, tx.commitTime.value, 0, false)])
  }

  function ReceiveStep(s: State, msg: L.ReplicationMessage): Option<State> {
    if msg.wal.None? then Some(s.(stream := Replying(msg))) else
    match P.Parse(msg.wal.value.walData, s.tx)
    case Crash => None
    case Rejected(_) => Some(s.(stream := Replying(msg)))
    case Accepted(tx) => Some(Accept(s, msg, tx))
  }

  function Bump(a: Attempt): Attempt {
    a.(sent := a.sent + 1)
  }

  /** One step of one goroutine; None when the step is not the goroutine's next. */
  function Step(s: State, a: Action): Option<State> {
    if !a.Receive? then Move(s, a)
    else if s.stream.Idle? then ReceiveStep(s, a.msg)
    else None
  }

  /** The steps that take no message in. */
  function Move(s: State, a: Action): Option<State> {
    match a
    case Receive(_) => None
    case Publish(ok) =>
      if !s.stream.Publishing? || s.attempts == [] then None else
      var k := |s.attempts| - 1;
      if s.attempts[k].sent >= |s.attempts[k].actions| then None
      else if ok then Some(s.(attempts := s.attempts[k := Bump(s.attempts[k])]))
      else Some(s.(stream := Replying(s.stream.msg)))
    case ClearTx =>
      if !s.stream.Publishing? || s.attempts == [] then None else
      var k := |s.attempts| - 1;
      if s.attempts[k].sent < |s.attempts[k].actions| then None
      else Some(s.(tx := T.Clear(s.tx), attempts := s.attempts[k := s.attempts[k].(cleared := true)],
                   stream := Comparing(s.stream.msg)))
    case Compare =>
      if !s.stream.Comparing? || s.stream.msg.wal.None? then None
      else if s.stream.msg.wal.value.walStart > s.lsn then Some(s.(stream := Storing(s.stream.msg)))
      else Some(s.(stream := Replying(s.stream.msg)))
    case Store =>
      if !s.stream.Storing? || s.stream.msg.wal.None? then None else
      var position := s.stream.msg.wal.value.walStart;
      Some(s.(lsn := position, acks := s.acks + [Ack(position, |s.stamps|, |Delivered(s.attempts)|)],
              stream := AckReading(s.stream.msg)))
    case StreamRead =>
      if s.stream.AckReading? then Some(s.(stream := AckSending(s.stream.msg, s.lsn)))
      else if s.stream.ReplyReading? then Some(s.(stream := ReplySending(s.lsn)))
      else None
    case StreamSend(fate) =>
      if s.stream.AckSending? then
        Some(s.(sent := HandOver(s.sent, s.stream.position, fate), stream := Replying(s.stream.msg)))
      else if s.stream.ReplySending? then
        Some(s.(sent := HandOver(s.sent, s.stream.position, fate), stream := Idle))
      else None
    case Reply =>
      if !s.stream.Replying? then None
      else Some(s.(stream := if s.stream.msg.heartbeat == Some(true) then ReplyReading else Idle))
    case BeatTick =>
      if s.beat.Waiting? then Some(s.(beat := Reading)) else None
    case BeatRead =>
      if s.beat.Reading? then Some(s.(beat := Sending(s.lsn))) else None
    case BeatSend(fate) =>
      if s.beat.Sending? then Some(s.(sent := HandOver(s.sent, s.beat.position, fate), beat := Waiting)) else None
  }

  function Run(s: State, actions: seq<Action>): Option<State> {
    Fold(Step, s, actions)
  }

  /** The messages taken in, in order. */
  function Received(actions: seq<Action>): seq<L.ReplicationMessage> {
    if actions == [] then [] else
    var last := actions[|actions| - 1];
    Received(actions[..|actions| - 1]) + if last.Receive? then [last.msg] else []
  }

  // ----- what was published -----

  /** The actions of the batches that were published to the end. */
  function Delivered(attempts: seq<Attempt>): seq<T.ActionData> {
    if attempts == [] then [] else
    var last := attempts[|attempts| - 1];
    Delivered(attempts[..|attempts| - 1]) + if last.cleared then last.actions else []
  }

  predicate Partial(attempts: seq<Attempt>) {
    forall j :: 0 <= j < |attempts| ==> attempts[j].sent <= |attempts[j].actions|
  }

  /** Every event that was published without error, in order. */
  function EventLog(attempts: seq<Attempt>): seq<T.Event>
    requires Partial(attempts)
  {
    if attempts == [] then [] else
    var last := attempts[|attempts| - 1];
    EventLog(attempts[..|attempts| - 1]) + T.EventsOf(last.actions, last.time)[..last.sent]
  }

  // ----- the invariant -----

  /** An attempt that is over: it went through, or it stopped early and its
      actions are still pending. */
  predicate Followed(a: Attempt, pending: nat) {
    a.cleared || (a.sent < |a.actions| <= pending)
  }

  /** Every attempt publishes the appended actions from where the last full
      batch ended. All but the newest either went through or stopped early. */
  predicate Attempted(attempts: seq<Attempt>, appended: seq<T.ActionData>) {
    attempts != [] ==>
      var n := |attempts| - 1;
      var before, last := Delivered(attempts[..n]), attempts[n];
      && Attempted(attempts[..n], appended)
      && last.sent <= |last.actions| && (last.cleared ==> last.sent == |last.actions|)
      && |before| + |last.actions| <= |appended|
      && last.actions == appended[|before|..|before| + |last.actions|]
      && (n > 0 ==> Followed(attempts[n - 1], |last.actions|))
  }

  predicate AckOk(s: State, a: Ack) {
    a.position <= s.lsn && a.covered <= a.delivered <= |Delivered(s.attempts)|
  }

  predicate Reported(s: State, lsn0: nat, position: nat) {
    position <= s.lsn && (position == lsn0 || exists k :: 0 <= k < |s.acks| && s.acks[k].position == position)
  }

  /** The attempts made so far and the actions still pending. */
  predicate Batching(attempts: seq<Attempt>, appended: seq<T.ActionData>, tx: T.Tx, publishing: bool) {
    && Attempted(attempts, appended)
    && Delivered(attempts) + tx.actions == appended
    && (if publishing then
          attempts != [] && tx.commitTime.Some?
          && var last := attempts[|attempts| - 1];
             !last.cleared && last.actions == tx.actions && tx.commitTime == Some(last.time)
        else attempts != [] ==> Followed(attempts[|attempts| - 1], |tx.actions|))
  }

  predicate Transacting(s: State) {
    && Batching(s.attempts, s.appended, s.tx, s.stream.Publishing?)
    && |s.stamps| <= |s.appended|
    && (s.tx.commitTime.None? ==> |s.stamps| <= |Delivered(s.attempts)|)
    && (s.stream.Comparing? || s.stream.Storing? ==> s.tx.commitTime.None?)
    && (s.stream.Storing? ==> s.stream.msg.wal.Some? && s.stream.msg.wal.value.walStart > s.lsn)
  }

  predicate Reporting(s: State, lsn0: nat) {
    && Reported(s, lsn0, s.lsn)
    && (forall k :: 0 <= k < |s.acks| ==> AckOk(s, s.acks[k]))
    && (forall k :: 0 <= k < |s.sent| ==> Reported(s, lsn0, s.sent[k]))
    && (s.stream.AckSending? || s.stream.ReplySending? ==> Reported(s, lsn0, s.stream.position))
    && (s.beat.Sending? ==> Reported(s, lsn0, s.beat.position))
  }

  predicate Invariant(s: State, lsn0: nat) {
    lsn0 <= s.lsn && Transacting(s) && Reporting(s, lsn0)
  }

  // ----- every step keeps it -----

  predicate Extends(data: seq<byte>, before: T.Tx, after: T.Tx) {
    && before.actions <= after.actions && data != []
    && if data[0] == COMMIT_MSG then after.commitTime.Some? && after.actions == before.actions
       else after.commitTime == before.commitTime
  }

  lemma OnlyCommitsCommit(data: seq<byte>)
    requires data != []
    ensures D.Decode(data).Done? ==> (D.Decode(data).value.Commit? <==> data[0] == COMMIT_MSG)
  {
  }

  lemma ApplyEffect(tx: T.Tx, m: Message)
    requires T.Apply(tx, m).Accepted?
    ensures var after := T.Apply(tx, m).tx;
            && tx.actions <= after.actions
            && if m.Commit? then after.commitTime.Some? && after.actions == tx.actions
               else after.commitTime == tx.commitTime
  {
  }

  /** An accepted message only appends to the pending actions, and only a
      commit gives them a commit time. */
  lemma AcceptedExtends(data: seq<byte>, tx: T.Tx)
    requires P.Parse(data, tx).Accepted?
    ensures Extends(data, tx, P.Parse(data, tx).tx)
  {
    OnlyCommitsCommit(data);
    ApplyEffect(tx, D.Decode(data).value);
  }

  lemma OneMoreAttempt(attempts: seq<Attempt>, a: Attempt)
    ensures Delivered(attempts + [a]) == Delivered(attempts) + if a.cleared then a.actions else []
  {
    assert (attempts + [a])[..|attempts|] == attempts;
  }

  /** Publishing more does not spoil what has been reported. */
  lemma ReportingStays(s: State, t: State, lsn0: nat)
    requires Reporting(s, lsn0) && !t.stream.AckSending? && !t.stream.ReplySending?
    requires t.lsn == s.lsn && t.acks == s.acks && t.sent == s.sent && t.beat == s.beat
    requires |Delivered(s.attempts)| <= |Delivered(t.attempts)|
    ensures Reporting(t, lsn0)
  {
    assert forall p :: Reported(s, lsn0, p) ==> Reported(t, lsn0, p);
    assert forall a :: AckOk(s, a) ==> AckOk(t, a);
  }

  lemma BatchingOnAccept(attempts: seq<Attempt>, appended: seq<T.ActionData>, before: T.Tx, after: T.Tx)
    requires Batching(attempts, appended, before, false) && before.actions <= after.actions
    ensures Batching(attempts, appended + Added(before.actions, after.actions), after, false)
  {
    var more := Added(before.actions, after.actions);
    AttemptedGrows(attempts, appended, more);
    assert after.actions == before.actions + more;
    Associative(Delivered(attempts), before.actions, more);
  }

  lemma BatchingOnAttempt(attempts: seq<Attempt>, appended: seq<T.ActionData>, tx: T.Tx)
    requires Batching(attempts, appended, tx, false) && tx.commitTime.Some?
    ensures var a := Attempt(tx.actions, tx.commitTime.value, 0, false);
            Batching(attempts + [a], appended, tx, true) && Delivered(attempts + [a]) == Delivered(attempts)
  {
    var a := Attempt(tx.actions, tx.commitTime.value, 0, false);
    OneMoreAttempt(attempts, a);
    assert (attempts + [a])[..|attempts|] == attempts;
  }

  lemma TransactingOnAccept(s: State, msg: L.ReplicationMessage, tx: T.Tx)
    requires Transacting(s) && s.stream.Idle? && msg.wal.Some?
    requires Extends(msg.wal.value.walData, s.tx, tx)
    ensures Transacting(Accept(s, msg, tx)) && Delivered(Accept(s, msg, tx).attempts) == Delivered(s.attempts)
  {
    var t := Accept(s, msg, tx);
    BatchingOnAccept(s.attempts, s.appended, s.tx, tx);
    assert |s.appended| <= |t.appended|;
    if tx.commitTime.Some? {
      BatchingOnAttempt(s.attempts, t.appended, tx);
      assert t.stream.Publishing? && Batching(t.attempts, t.appended, t.tx, true);
    } else {
      assert t.stream.Comparing? && t.stamps == s.stamps && t.attempts == s.attempts;
    }
  }

  lemma KeepsAccept(s: State, lsn0: nat, msg: L.ReplicationMessage, tx: T.Tx)
    requires Invariant(s, lsn0) && s.stream.Idle? && msg.wal.Some?
    requires Extends(msg.wal.value.walData, s.tx, tx)
    ensures Invariant(Accept(s, msg, tx), lsn0)
  {
    TransactingOnAccept(s, msg, tx);
    ReportingStays(s, Accept(s, msg, tx), lsn0);
  }

  lemma {:induction false} AttemptedGrows(attempts: seq<Attempt>, appended: seq<T.ActionData>, more: seq<T.ActionData>)
    requires Attempted(attempts, appended)
    ensures Attempted(attempts, appended + more)
  {
    if attempts != [] {
      var n := |attempts| - 1;
      AttemptedGrows(attempts[..n], appended, more);
      var b := |Delivered(attempts[..n])|;
      assert (appended + more)[b..b + |attempts[n].actions|] == appended[b..b + |attempts[n].actions|];
    }
  }

  lemma InvariantIsKept(s: State, lsn0: nat, a: Action)
    requires Invariant(s, lsn0) && Step(s, a).Some?
    ensures Invariant(Step(s, a).value, lsn0)
  {
    if !a.Receive? {
      KeepsMove(s, lsn0, a);
    } else if a.msg.wal.Some? && P.Parse(a.msg.wal.value.walData, s.tx).Accepted? {
      AcceptedExtends(a.msg.wal.value.walData, s.tx);
      KeepsAccept(s, lsn0, a.msg, P.Parse(a.msg.wal.value.walData, s.tx).tx);
    }
  }

  lemma {:induction false} InvariantOverRuns(lsn0: nat, actions: seq<Action>)
    requires Run(Init(lsn0), actions).Some?
    ensures Invariant(Run(Init(lsn0), actions).value, lsn0)
  {
    if actions != [] {
      var n := |actions| - 1;
      InvariantOverRuns(lsn0, actions[..n]);
      InvariantIsKept(Run(Init(lsn0), actions[..n]).value, lsn0, actions[n]);
    }
  }

  // ----- main results -----

  /** Conservation: in every run the full batches followed by the pending
      actions are all the actions ever appended, once each and in order. */
  lemma Conservation(lsn0: nat, actions: seq<Action>)
    requires Run(Init(lsn0), actions).Some?
    ensures var s := Run(Init(lsn0), actions).value;
            Delivered(s.attempts) + s.tx.actions == s.appended
  {
    InvariantOverRuns(lsn0, actions);
  }

  // ----- what has gone out -----

  /** The events stand in the log one after another at growing places, apart
      from their times. */
  predicate Places(events: seq<T.Event>, log: seq<T.Event>, at: seq<nat>) {
    && |at| == |events|
    && (forall k :: 0 <= k < |at| ==> at[k] < |log| && log[at[k]].(eventTime := 0) == events[k].(eventTime := 0))
    && (forall k, m :: 0 <= k < m < |at| ==> at[k] < at[m])
  }

  ghost predicate InLog(events: seq<T.Event>, log: seq<T.Event>) {
    exists at: seq<nat> :: Places(events, log, at)
  }

  /** Each of the actions has an event of its own in the log, in their order. */
  ghost predicate Out(actions: seq<T.ActionData>, log: seq<T.Event>) {
    InLog(T.EventsOf(actions, 0), log)
  }

  lemma StillOut(fewer: seq<T.ActionData>, actions: seq<T.ActionData>, log: seq<T.Event>, more: seq<T.Event>)
    requires fewer <= actions && log <= more && Out(actions, log)
    ensures Out(fewer, more)
  {
    var at: seq<nat> :| Places(T.EventsOf(actions, 0), log, at);
    assert Places(T.EventsOf(fewer, 0), more, at[..|fewer|]);
  }

  lemma PlacesThenMore(events: seq<T.Event>, log: seq<T.Event>, at: seq<nat>, more: seq<T.Event>, batch: seq<T.Event>)
    requires Places(events, log, at) && |more| == |batch|
    requires forall k :: 0 <= k < |batch| ==> batch[k].(eventTime := 0) == more[k].(eventTime := 0)
    ensures Places(events + more, log + batch, at + seq(|more|, k requires 0 <= k < |more| => |log| + k))
  {
  }

  lemma OutThenMore(actions: seq<T.ActionData>, batch: seq<T.ActionData>, time: int, log: seq<T.Event>)
    requires Out(actions, log)
    ensures Out(actions + batch, log + T.EventsOf(batch, time))
  {
    var at: seq<nat> :| Places(T.EventsOf(actions, 0), log, at);
    PlacesThenMore(T.EventsOf(actions, 0), log, at, T.EventsOf(batch, 0), T.EventsOf(batch, time));
    assert T.EventsOf(actions + batch, 0) == T.EventsOf(actions, 0) + T.EventsOf(batch, 0);
  }

  lemma {:induction false} NoneOversent(attempts: seq<Attempt>, appended: seq<T.ActionData>)
    ensures Attempted(attempts, appended) ==> Partial(attempts)
  {
    if attempts != [] { NoneOversent(attempts[..|attempts| - 1], appended); }
  }

  lemma {:induction false} DeliveredIsOut(attempts: seq<Attempt>, appended: seq<T.ActionData>)
    requires Attempted(attempts, appended) && Partial(attempts)
    ensures Out(Delivered(attempts), EventLog(attempts))
  {
    if attempts == [] {
      assert Places([], [], []);
    } else {
      var n, last := |attempts| - 1, attempts[|attempts| - 1];
      DeliveredIsOut(attempts[..n], appended);
      var before, log := Delivered(attempts[..n]), EventLog(attempts[..n]);
      if last.cleared {
        OutThenMore(before, last.actions, last.time, log);
        assert T.EventsOf(last.actions, last.time)[..last.sent] == T.EventsOf(last.actions, last.time);
      } else {
        assert before + [] == before;
        StillOut(before, before, log, EventLog(attempts));
      }
    }
  }

  /** The attempt `j` sent the event of the action appended as number `i`. */
  predicate Sends(attempts: seq<Attempt>, j: nat, i: nat) {
    && j < |attempts|
    && |Delivered(attempts[..j])| <= i < |Delivered(attempts[..j])| + attempts[j].sent
  }

  ghost predicate WentOut(attempts: seq<Attempt>, i: nat) {
    exists j: nat :: Sends(attempts, j, i)
  }

  /** How many of the appended actions some attempt got to. */
  function Reach(attempts: seq<Attempt>): nat {
    if attempts == [] then 0 else
    var n := |attempts| - 1;
    var before, last := Reach(attempts[..n]), |Delivered(attempts[..n])| + attempts[n].sent;
    if before < last then last else before
  }

  lemma {:induction false} DeliveredWithinReach(attempts: seq<Attempt>, appended: seq<T.ActionData>)
    requires Attempted(attempts, appended)
    ensures |Delivered(attempts)| <= Reach(attempts)
  {
    if attempts != [] { DeliveredWithinReach(attempts[..|attempts| - 1], appended); }
  }

  lemma {:induction false} ReachWithinNewest(attempts: seq<Attempt>, appended: seq<T.ActionData>)
    requires Attempted(attempts, appended) && attempts != []
    ensures var n := |attempts| - 1; Reach(attempts) <= |Delivered(attempts[..n])| + |attempts[n].actions|
  {
    var n := |attempts| - 1;
    if n > 0 { ReachWithinNewest(attempts[..n], appended); }
  }

  lemma SendsOfPrefix(attempts: seq<Attempt>, j: nat, i: nat)
    requires attempts != []
    ensures var n := |attempts| - 1;
            Sends(attempts, j, i)
            <==> Sends(attempts[..n], j, i)
                 || (j == n && |Delivered(attempts[..n])| <= i < |Delivered(attempts[..n])| + attempts[n].sent)
  {
    if j < |attempts| - 1 { assert attempts[..|attempts| - 1][..j] == attempts[..j]; }
  }

  /** The events that went out are those of the first actions, without a gap. */
  lemma {:induction false} WentOutUpToReach(attempts: seq<Attempt>, appended: seq<T.ActionData>, i: nat)
    requires Attempted(attempts, appended)
    ensures WentOut(attempts, i) <==> i < Reach(attempts)
  {
    if attempts != [] {
      var n := |attempts| - 1;
      WentOutUpToReach(attempts[..n], appended, i);
      DeliveredWithinReach(attempts[..n], appended);
      if WentOut(attempts, i) {
        var j: nat :| Sends(attempts, j, i);
        SendsOfPrefix(attempts, j, i);
      } else if WentOut(attempts[..n], i) {
        var j: nat :| Sends(attempts[..n], j, i);
        SendsOfPrefix(attempts, j, i);
      } else {
        SendsOfPrefix(attempts, n, i);
      }
    }
  }

  /** The event that an attempt sent for the action number `i` stands in the log
      behind those of the attempts before it, under the attempt's time. */
  predicate LoggedAfter(before: seq<Attempt>, time: int, i: nat, log: seq<T.Event>, a: T.ActionData)
    requires Partial(before) && |Delivered(before)| <= i
  {
    var at := |EventLog(before)| + (i - |Delivered(before)|);
    at < |log| && log[at] == T.EventOf(a, time)
  }

  lemma InTheMiddle<X>(xs: seq<X>, ys: seq<X>, n: nat, k: nat)
    requires k < n <= |ys|
    ensures (xs + ys[..n])[|xs| + k] == ys[k]
  {
  }

  /** The newest attempt `a`, after those `before` it. */
  lemma NewestIsLogged(before: seq<Attempt>, a: Attempt, appended: seq<T.ActionData>, i: nat)
    requires Partial(before) && |Delivered(before)| <= i < |Delivered(before)| + a.sent
    requires a.sent <= |a.actions| && |Delivered(before)| + |a.actions| <= |appended|
    requires a.actions == appended[|Delivered(before)|..|Delivered(before)| + |a.actions|]
    ensures LoggedAfter(before, a.time, i, EventLog(before) + T.EventsOf(a.actions, a.time)[..a.sent], appended[i])
  {
    InTheMiddle(EventLog(before), T.EventsOf(a.actions, a.time), a.sent, i - |Delivered(before)|);
  }

  lemma {:induction false} SentIsLogged(attempts: seq<Attempt>, appended: seq<T.ActionData>, j: nat, i: nat)
    requires Attempted(attempts, appended) && Partial(attempts) && Sends(attempts, j, i)
    ensures i < |appended| && LoggedAfter(attempts[..j], attempts[j].time, i, EventLog(attempts), appended[i])
  {
    var n := |attempts| - 1;
    if j == n {
      NewestIsLogged(attempts[..n], attempts[n], appended, i);
    } else {
      SendsOfPrefix(attempts, j, i);
      SentIsLogged(attempts[..n], appended, j, i);
      assert attempts[..n][..j] == attempts[..j];
    }
  }

  lemma {:induction false} FullBatchInLog(attempts: seq<Attempt>, appended: seq<T.ActionData>, j: nat)
    requires Attempted(attempts, appended) && Partial(attempts) && j < |attempts| && attempts[j].cleared
    ensures EventLog(attempts[..j]) + T.EventsOf(attempts[j].actions, attempts[j].time) <= EventLog(attempts)
  {
    var n := |attempts| - 1;
    if j < n {
      FullBatchInLog(attempts[..n], appended, j);
      assert attempts[..n][..j] == attempts[..j];
    } else {
      var events := T.EventsOf(attempts[n].actions, attempts[n].time);
      assert events[..|events|] == events;
    }
  }

  /** At the point where everything committed has been delivered. */
  lemma CommittedIsPublished(s: State, covered: nat)
    requires Transacting(s) && covered <= |Delivered(s.attempts)|
    ensures Delivered(s.attempts) <= s.appended && Partial(s.attempts)
    ensures Out(s.appended[..covered], EventLog(s.attempts))
  {
    NoneOversent(s.attempts, s.appended);
    DeliveredIsOut(s.attempts, s.appended);
    StillOut(s.appended[..covered], Delivered(s.attempts), EventLog(s.attempts), EventLog(s.attempts));
  }

  /** The position only moves when the stream loop stores the start of the
      message in hand, it then grows, and at that moment the event of every action
      under a commit accepted so far has been published without error. */
  lemma PositionMovesAfterPublishing(lsn0: nat, actions: seq<Action>, a: Action)
    requires Run(Init(lsn0), actions).Some? && Step(Run(Init(lsn0), actions).value, a).Some?
    ensures var s := Run(Init(lsn0), actions).value;
            var t := Step(s, a).value;
            t.lsn != s.lsn ==>
              && a.Store? && s.stream.Storing? && s.stream.msg.wal.Some? && t.lsn == s.stream.msg.wal.value.walStart
              && s.lsn < t.lsn
              && |s.stamps| <= |Delivered(s.attempts)| && Delivered(s.attempts) <= s.appended
              && Partial(s.attempts) && Out(s.appended[..|s.stamps|], EventLog(s.attempts))
  {
    InvariantOverRuns(lsn0, actions);
    var s := Run(Init(lsn0), actions).value;
    if Step(s, a).value.lsn != s.lsn {
      StepMovesOnlyByStore(s, a);
      CommittedIsPublished(s, |s.stamps|);
    }
  }

  lemma StepMovesOnlyByStore(s: State, a: Action)
    requires Step(s, a).Some? && Step(s, a).value.lsn != s.lsn
    ensures a.Store? && Step(s, a) == Move(s, a)
  {
  }

  lemma {:induction false} PositionOnlyGrows(lsn0: nat, actions: seq<Action>, n: nat)
    requires n <= |actions| && Run(Init(lsn0), actions).Some?
    ensures Run(Init(lsn0), actions[..n]).Some?
    ensures Run(Init(lsn0), actions[..n]).value.lsn <= Run(Init(lsn0), actions).value.lsn
  {
    if n == |actions| {
      assert actions[..n] == actions;
    } else {
      var m := |actions| - 1;
      PositionOnlyGrows(lsn0, actions[..m], n);
      assert actions[..m][..n] == actions[..n];
      PositionMovesAfterPublishing(lsn0, actions[..m], actions[m]);
    }
  }

  /** With no commit pending the newest attempt went through. */
  predicate Settled(s: State) {
    s.tx.commitTime.None? && s.attempts != [] ==> s.attempts[|s.attempts| - 1].cleared
  }

  lemma SettledIsKept(s: State, a: Action)
    requires Transacting(s) && Settled(s) && Step(s, a).Some?
    ensures Settled(Step(s, a).value)
  {
    if a.Receive? && a.msg.wal.Some? && P.Parse(a.msg.wal.value.walData, s.tx).Accepted? {
      AcceptedExtends(a.msg.wal.value.walData, s.tx);
    }
  }

  lemma {:induction false} SettledOverRuns(lsn0: nat, actions: seq<Action>)
    requires Run(Init(lsn0), actions).Some?
    ensures Settled(Run(Init(lsn0), actions).value)
  {
    if actions != [] {
      var n := |actions| - 1;
      SettledOverRuns(lsn0, actions[..n]);
      InvariantOverRuns(lsn0, actions[..n]);
      SettledIsKept(Run(Init(lsn0), actions[..n]).value, actions[n]);
    }
  }

  /** In every run: while no commit is pending, the events that went out are
      exactly those of the actions appended and no longer pending. */
  lemma WentOutExactly(lsn0: nat, actions: seq<Action>, i: nat)
    requires Run(Init(lsn0), actions).Some? && Run(Init(lsn0), actions).value.tx.commitTime.None?
    ensures var s := Run(Init(lsn0), actions).value;
            WentOut(s.attempts, i) <==> i < |s.appended| - |s.tx.actions|
  {
    InvariantOverRuns(lsn0, actions);
    SettledOverRuns(lsn0, actions);
    var s := Run(Init(lsn0), actions).value;
    WentOutUpToReach(s.attempts, s.appended, i);
    DeliveredWithinReach(s.attempts, s.appended);
    if s.attempts != [] { ReachWithinNewest(s.attempts, s.appended); }
  }

  /** In every run: a full batch went out whole, in order and in one piece. */
  lemma FullBatchWentOut(lsn0: nat, actions: seq<Action>, j: nat)
    requires Run(Init(lsn0), actions).Some? && j < |Run(Init(lsn0), actions).value.attempts|
    requires Run(Init(lsn0), actions).value.attempts[j].cleared
    ensures var s := Run(Init(lsn0), actions).value;
            && Partial(s.attempts)
            && EventLog(s.attempts[..j]) + T.EventsOf(s.attempts[j].actions, s.attempts[j].time) <= EventLog(s.attempts)
  {
    InvariantOverRuns(lsn0, actions);
    var s := Run(Init(lsn0), actions).value;
    NoneOversent(s.attempts, s.appended);
    FullBatchInLog(s.attempts, s.appended, j);
  }

  /** The position was stored when the first `covered` actions, those committed
      up to there, had been delivered; the event of each has been published. */
  ghost predicate StoredAfterPublishing(s: State, position: nat) {
    Partial(s.attempts) &&
    exists k :: 0 <= k < |s.acks| && s.acks[k].position == position
                && s.acks[k].covered <= s.acks[k].delivered <= |s.appended|
                && Out(s.appended[..s.acks[k].delivered], EventLog(s.attempts))
  }

  /** Safety: whatever either goroutine ever handed to the replicator is at most
      the current position, and is either the position the run started from or
      one that was stored when everything committed up to there was published. */
  lemma NothingUnpublishedIsAcknowledged(lsn0: nat, actions: seq<Action>, i: nat)
    requires Run(Init(lsn0), actions).Some? && i < |Run(Init(lsn0), actions).value.sent|
    ensures var s := Run(Init(lsn0), actions).value;
            s.sent[i] <= s.lsn && (s.sent[i] == lsn0 || StoredAfterPublishing(s, s.sent[i]))
  {
    InvariantOverRuns(lsn0, actions);
    var s := Run(Init(lsn0), actions).value;
    assert Reported(s, lsn0, s.sent[i]);
    if s.sent[i] != lsn0 {
      var k :| 0 <= k < |s.acks| && s.acks[k].position == s.sent[i];
      assert AckOk(s, s.acks[k]);
      CommittedIsPublished(s, s.acks[k].delivered);
    }
  }

  lemma {:induction false} AttemptsSoFar(attempts: seq<Attempt>, appended: seq<T.ActionData>, n: nat)
    requires n <= |attempts| && Attempted(attempts, appended)
    ensures Attempted(attempts[..n], appended)
  {
    if n < |attempts| {
      var m := |attempts| - 1;
      AttemptsSoFar(attempts[..m], appended, n);
      assert attempts[..m][..n] == attempts[..n];
    } else {
      assert attempts[..n] == attempts;
    }
  }

  /** At least once: an attempt that stopped early sent a strict part of its
      batch, and the next attempt takes that whole batch up again from its
      beginning; after a full batch the next attempt starts with the action
      that follows. */
  lemma NextAttempt(lsn0: nat, actions: seq<Action>, j: nat)
    requires Run(Init(lsn0), actions).Some? && j + 1 < |Run(Init(lsn0), actions).value.attempts|
    ensures var s := Run(Init(lsn0), actions).value;
            var before, a, b := Delivered(s.attempts[..j]), s.attempts[j], s.attempts[j + 1];
            && before + a.actions <= s.appended
            && (!a.cleared ==> a.sent < |a.actions| && a.actions <= b.actions)
            && (a.cleared ==> a.sent == |a.actions| && before + a.actions + b.actions <= s.appended)
  {
    InvariantOverRuns(lsn0, actions);
    var s := Run(Init(lsn0), actions).value;
    AttemptsSoFar(s.attempts, s.appended, j + 2);
    ConsecutiveAttempts(s.attempts[..j + 2], s.appended, j);
    assert s.attempts[..j + 2][..j] == s.attempts[..j];
  }

  lemma {:induction false} DeliveredIsPrefix(attempts: seq<Attempt>, appended: seq<T.ActionData>)
    requires Attempted(attempts, appended)
    ensures Delivered(attempts) <= appended
  {
    if attempts != [] { DeliveredIsPrefix(attempts[..|attempts| - 1], appended); }
  }

  lemma ConsecutiveAttempts(attempts: seq<Attempt>, appended: seq<T.ActionData>, j: nat)
    requires |attempts| == j + 2
    requires Attempted(attempts, appended)
    ensures var before, a, b := Delivered(attempts[..j]), attempts[j], attempts[j + 1];
            && before + a.actions <= appended
            && (!a.cleared ==> a.sent < |a.actions| && a.actions <= b.actions)
            && (a.cleared ==> a.sent == |a.actions| && before + a.actions + b.actions <= appended)
  {
    var a, b := attempts[j], attempts[j + 1];
    assert attempts[..j + 1][..j] == attempts[..j] && attempts[..j + 1][j] == a;
    DeliveredIsPrefix(attempts[..j], appended);
    DeliveredIsPrefix(attempts[..j + 1], appended);
    assert Delivered(attempts[..j + 1]) == Delivered(attempts[..j]) + if a.cleared then a.actions else [];
  }

  // ----- what each step of either goroutine keeps -----

  lemma KeepsPublish(s: State, lsn0: nat)
    requires Invariant(s, lsn0) && Move(s, Publish(true)).Some?
    ensures Invariant(Move(s, Publish(true)).value, lsn0)
  {
    ReportingStays(s, Move(s, Publish(true)).value, lsn0);
  }

  lemma KeepsClear(s: State, lsn0: nat)
    requires Invariant(s, lsn0) && Move(s, ClearTx).Some?
    ensures Invariant(Move(s, ClearTx).value, lsn0)
  {
    var t := Move(s, ClearTx).value;
    assert Delivered(t.attempts) == s.appended && s.appended + [] == s.appended;
    ReportingStays(s, t, lsn0);
  }

  lemma KeepsStore(s: State, lsn0: nat)
    requires Invariant(s, lsn0) && Move(s, Store).Some?
    ensures Invariant(Move(s, Store).value, lsn0)
  {
    var t := Move(s, Store).value;
    assert t.acks[|s.acks|].position == t.lsn;
    assert forall k :: 0 <= k < |s.acks| ==> t.acks[k] == s.acks[k];
  }

  /** A publish that fails leaves its attempt as it is, to be followed. */
  lemma KeepsFailure(s: State)
    requires Transacting(s) && Move(s, Publish(false)).Some?
    ensures Transacting(Move(s, Publish(false)).value)
  {
    assert Batching(s.attempts, s.appended, s.tx, false);
  }

  lemma MoveLeavesAlone(s: State, a: Action)
    requires Move(s, a).Some? && !a.ClearTx? && !a.Publish?
    ensures var t := Move(s, a).value;
            && t.tx == s.tx && t.attempts == s.attempts && t.appended == s.appended && t.stamps == s.stamps
            && t.stream.Publishing? == s.stream.Publishing?
            && (t.stream.Comparing? ==> s.stream.Comparing?)
            && (t.stream.Storing? ==> (s.stream.Storing? && t.stream == s.stream && t.lsn == s.lsn)
                                      || (s.stream.Comparing? && t.stream.msg.wal.Some?
                                          && t.stream.msg.wal.value.walStart > t.lsn))
  {
  }

  /** A step that leaves the transaction and what was published alone. */
  lemma KeepsTransacting(s: State, a: Action)
    requires Transacting(s) && Move(s, a).Some? && !a.ClearTx? && !a.Publish?
    ensures Transacting(Move(s, a).value)
  {
    MoveLeavesAlone(s, a);
  }

  lemma KeepsReporting(s: State, lsn0: nat, a: Action)
    requires Reporting(s, lsn0) && Move(s, a).Some? && !a.ClearTx? && a != Publish(true) && !a.Store?
    ensures Reporting(Move(s, a).value, lsn0)
  {
    var t := Move(s, a).value;
    assert t.lsn == s.lsn && t.acks == s.acks && t.attempts == s.attempts;
    assert t.sent == s.sent || (exists p :: Reported(s, lsn0, p) && t.sent == s.sent + [p]);
    assert forall p :: Reported(s, lsn0, p) ==> Reported(t, lsn0, p);
  }

  lemma KeepsMove(s: State, lsn0: nat, a: Action)
    requires Invariant(s, lsn0) && Move(s, a).Some?
    ensures Invariant(Move(s, a).value, lsn0)
  {
    if a == Publish(true) {
      KeepsPublish(s, lsn0);
    } else if a.ClearTx? {
      KeepsClear(s, lsn0);
    } else if a.Store? {
      KeepsStore(s, lsn0);
    } else {
      if a.Publish? { KeepsFailure(s); } else { KeepsTransacting(s, a); }
      KeepsReporting(s, lsn0, a);
    }
  }
}
