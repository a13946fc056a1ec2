/** The delivery loop of one goroutine: parse a message, publish the batch once
    its commit is known, and only then move the acknowledged position. */
module Listener {
  import opened Prelude
  import opened BigEndian
  import T = Transaction
  import P = Parser

  /** What becomes of one status: the status object could not be built, or it
      was handed to the replicator and failed or succeeded there. */
  datatype SendFate = NotBuilt | NotSent | Sent

  datatype WalMessage = WalMessage(walStart: nat, walData: seq<byte>)

  /** `heartbeat` is the server's reply-requested flag, when there is one. */
  datatype ReplicationMessage = ReplicationMessage(wal: Option<WalMessage>, heartbeat: Option<bool>)

  datatype Problem = ParseProblem(error: T.WalError) | PublishProblem | AckProblem

  // ----- the outside, failing in any pattern -----

  class Publisher {
    const fate: nat -> bool
    var calls: nat
    var published: seq<T.Event>

    constructor (fate: nat -> bool)
      ensures this.fate == fate && calls == 0 && published == []
    {
      this.fate := fate;
      calls, published := 0, [];
    }

    method Publish(event: T.Event) returns (ok: bool)
      modifies this
      ensures ok == fate(old(calls)) && calls == old(calls) + 1
      ensures published == if ok then old(published) + [event] else old(published)
    {
      ok := fate(calls);
      calls := calls + 1;
      if ok { published := published + [event]; }
    }
  }

  class Replicator {
    const fate: nat -> SendFate
    var calls: nat
    var sent: seq<nat>

    constructor (fate: nat -> SendFate)
      ensures this.fate == fate && calls == 0 && sent == []
    {
      this.fate := fate;
      calls, sent := 0, [];
    }

    method SendStandbyStatus(position: nat) returns (ok: bool)
      modifies this
      ensures ok == (fate(old(calls)) == Sent) && calls == old(calls) + 1
      ensures sent == if fate(old(calls)) == NotBuilt then old(sent) else old(sent) + [position]
    {
      ok := fate(calls) == Sent;
      if fate(calls) != NotBuilt { sent := sent + [position]; }
      calls := calls + 1;
    }
  }

  // ----- the loop on values -----

  datatype World = World(tx: T.Tx, lsn: nat, published: seq<T.Event>, publishCalls: nat, sent: seq<nat>, sendCalls: nat)

  datatype Fates = Fates(publish: nat -> bool, send: nat -> SendFate)

  /** How many of the next `n` calls succeed before the first that fails. */
  function Successes(fate: nat -> bool, from: nat, n: nat): (k: nat)
    ensures k <= n
    ensures forall i :: from <= i < from + k ==> fate(i)
    ensures k < n ==> !fate(from + k)
    decreases n
  {
    if n == 0 || !fate(from) then 0 else 1 + Successes(fate, from + 1, n - 1)
  }

  function PublishBatch(w: World, batch: seq<T.Event>, fate: nat -> bool): World {
    var k := Successes(fate, w.publishCalls, |batch|);
    w.(published := w.published + batch[..k], publishCalls := w.publishCalls + if k < |batch| then k + 1 else k)
  }

  predicate AllPublished(w: World, batch: seq<T.Event>, fate: nat -> bool) {
    Successes(fate, w.publishCalls, |batch|) == |batch|
  }

  function SendStatus(w: World, fate: nat -> SendFate): World {
    w.(sent := if fate(w.sendCalls) == NotBuilt then w.sent else w.sent + [w.lsn], sendCalls := w.sendCalls + 1)
  }

  datatype Processed = Crash | Processed(w: World, problem: Option<Problem>)

  function Acknowledge(w: World, position: nat, fate: nat -> SendFate): Processed {
    if position <= w.lsn then Processed(w, None) else
    Processed(SendStatus(w.(lsn := position), fate), if fate(w.sendCalls) == Sent then None else Some(AckProblem))
  }

  /** What follows a message that was accepted. */
  function Settle(w: World, position: nat, f: Fates): Processed {
    if w.tx.commitTime.None? then Acknowledge(w, position, f.send) else
    var batch := T.EventsOf(w.tx.actions, w.tx.commitTime.value);
    var w1 := PublishBatch(w, batch, f.publish);
    if !AllPublished(w, batch, f.publish) then Processed(w1, Some(PublishProblem))
    else Acknowledge(w1.(tx := T.Clear(w.tx)), position, f.send)
  }

  function Process(w: World, wal: WalMessage, f: Fates): Processed {
    match P.Parse(wal.walData, w.tx)
    case Crash => Crash
    case Rejected(e) => Processed(w, Some(ParseProblem(e)))
    case Accepted(tx) => Settle(w.(tx := tx), wal.walStart, f)
  }

  /** One message with its heartbeat part; a problem is only logged. */
  function Receive(w: World, msg: ReplicationMessage, f: Fates): Option<World> {
    var r := if msg.wal.None? then Processed(w, None) else Process(w, msg.wal.value, f);
    if r.Crash? then None else
    Some(if msg.heartbeat == Some(true) then SendStatus(r.w, f.send) else r.w)
  }

  /** The loop over a whole inbox; None when a message makes the parser panic. */
  function Streamed(w: World, inbox: seq<ReplicationMessage>, f: Fates): Option<World> {
    Fold(Receiver(f), w, inbox)
  }

  function Receiver(f: Fates): (World, ReplicationMessage) -> Option<World> {
    (w: World, msg: ReplicationMessage) => Receive(w, msg, f)
  }

  // ----- the object -----

  class Listener {
    var lsn: nat
    const publisher: Publisher
    const replicator: Replicator
    const parser: P.BinaryParser

    constructor (publisher: Publisher, replicator: Replicator, lsn: nat)
      ensures this.publisher == publisher && this.replicator == replicator && this.lsn == lsn && fresh(parser)
    {
      this.publisher := publisher;
      this.replicator := replicator;
      this.lsn := lsn;
      parser := new P.BinaryParser();
    }

    ghost function Value(tx: T.WalTransaction): World
      reads this, publisher, replicator, tx
    {
      World(tx.Value(), lsn, publisher.published, publisher.calls, replicator.sent, replicator.calls)
    }

    ghost function Fate(): Fates {
      Fates(publisher.fate, replicator.fate)
    }

    method SendStandbyStatus() returns (ok: bool)
      modifies replicator
      ensures ok == (replicator.fate(old(replicator.calls)) == Sent) && replicator.calls == old(replicator.calls) + 1
      ensures replicator.sent == if replicator.fate(old(replicator.calls)) == NotBuilt then old(replicator.sent)
                                 else old(replicator.sent) + [lsn]
    {
      ok := replicator.SendStandbyStatus(lsn);
    }

    method AckWalMessage(position: nat) returns (ok: bool)
      modifies this, replicator
      ensures lsn == position
      ensures ok == (replicator.fate(old(replicator.calls)) == Sent) && replicator.calls == old(replicator.calls) + 1
      ensures replicator.sent == if replicator.fate(old(replicator.calls)) == NotBuilt then old(replicator.sent)
                                 else old(replicator.sent) + [position]
    {
      lsn := position;
      ok := SendStandbyStatus();
    }

    method PublishAll(events: seq<T.Event>) returns (ok: bool)
      modifies publisher
      ensures var k := Successes(publisher.fate, old(publisher.calls), |events|);
              && ok == (k == |events|)
              && publisher.published == old(publisher.published) + events[..k]
              && publisher.calls == old(publisher.calls) + if ok then k else k + 1
    {
      ghost var k := Successes(publisher.fate, publisher.calls, |events|);
      for i := 0 to |events|
        invariant i <= k
        invariant publisher.published == old(publisher.published) + events[..i]
        invariant publisher.calls == old(publisher.calls) + i
      {
        var sent := publisher.Publish(events[i]);
        if !sent {
          return false;
        }
      }
      return true;
    }

    method ProcessMessage(wal: WalMessage, tx: T.WalTransaction) returns (problem: Option<Problem>)
      requires !Process(Value(tx), wal, Fate()).Crash?
      modifies this, publisher, replicator, parser, tx
      ensures Processed(Value(tx), problem) == Process(old(Value(tx)), wal, Fate())
    {
      var err := parser.ParseWalMessage(wal.walData, tx);
      if err.Some? {
        return Some(ParseProblem(err.value));
      }
      problem := PublishAndAck(wal.walStart, tx);
    }

    method PublishPending(tx: T.WalTransaction) returns (ok: bool)
      requires tx.CommitTime.Some?
      modifies publisher
      ensures var batch := T.EventsOf(tx.Actions, tx.CommitTime.value);
              && ok == AllPublished(old(Value(tx)), batch, publisher.fate)
              && Value(tx) == PublishBatch(old(Value(tx)), batch, publisher.fate)
    {
      var events := tx.CreateEvents();
      ok := PublishAll(events);
    }

    method PublishAndAck(walStart: nat, tx: T.WalTransaction) returns (problem: Option<Problem>)
      modifies this, publisher, replicator, tx
      ensures Processed(Value(tx), problem) == Settle(old(Value(tx)), walStart, Fate())
    {
      if tx.CommitTime.Some? {
        var ok := PublishPending(tx);
        if !ok {
          return Some(PublishProblem);
        }
        tx.Clear();
      }
      if walStart > lsn {
        var ok := AckWalMessage(walStart);
        if !ok {
          return Some(AckProblem);
        }
      }
      return None;
    }

    method ProcessHeartBeat(heartbeat: Option<bool>)
      modifies replicator
      ensures heartbeat != Some(true) ==> unchanged(replicator)
      ensures heartbeat == Some(true) ==>
                && replicator.calls == old(replicator.calls) + 1
                && replicator.sent == if replicator.fate(old(replicator.calls)) == NotBuilt then old(replicator.sent)
                                      else old(replicator.sent) + [lsn]
    {
      if heartbeat == Some(true) {
        var ok := SendStandbyStatus();
      }
    }

    /** The loop over the messages that arrive until the context ends. */
    method Stream(inbox: seq<ReplicationMessage>) returns (tx: T.WalTransaction)
      requires Streamed(World(T.Tx(0, None, None, map[], []), lsn, publisher.published, publisher.calls,
                              replicator.sent, replicator.calls),
                        inbox, Fate()).Some?
      modifies this, publisher, replicator, parser
      ensures fresh(tx)
      ensures Streamed(World(T.Tx(0, None, None, map[], []), old(lsn), old(publisher.published), old(publisher.calls),
                             old(replicator.sent), old(replicator.calls)), inbox, Fate())
              == Some(Value(tx))
    {
      tx := new T.WalTransaction();
      ghost var start, f := Value(tx), Fate();
      for i := 0 to |inbox|
        invariant fresh(tx)
        invariant Fold(Receiver(f), start, inbox[..i]) == Some(Value(tx))
      {
        FoldPrefix(Receiver(f), start, inbox, i + 1);
        assert inbox[..i + 1] == inbox[..i] + [inbox[i]];
        FoldSnoc(Receiver(f), start, inbox[..i], inbox[i]);
        ReceiveOne(inbox[i], tx);
      }
      assert inbox[..|inbox|] == inbox;
    }

    /** The body of the loop. */
    method ReceiveOne(msg: ReplicationMessage, tx: T.WalTransaction)
      requires Receive(Value(tx), msg, Fate()).Some?
      modifies this, publisher, replicator, parser, tx
      ensures Receive(old(Value(tx)), msg, Fate()) == Some(Value(tx))
    {
      if msg.wal.Some? {
        var problem := ProcessMessage(msg.wal.value, tx);
      }
      ProcessHeartBeat(msg.heartbeat);
    }
  }
}
