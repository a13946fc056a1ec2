/** What the two goroutines hand to the replicator, told from the steps alone:
    every status that was built carries the position its goroutine had read. */
module Heartbeats {
  import opened Prelude
  import opened Delivery
  import L = Listener

  // ----- the positions, from the list of steps -----

  predicate Beats(a: Action) {
    a.BeatTick? || a.BeatRead? || a.BeatSend?
  }

  /** The message the stream loop took in last. */
  function Latest(actions: seq<Action>): Option<L.ReplicationMessage> {
    if actions == [] then None else
    var last := actions[|actions| - 1];
    if last.Receive? then Some(last.msg) else Latest(actions[..|actions| - 1])
  }

  /** The start of the message in hand at the last store. */
  function StoredLast(lsn0: nat, actions: seq<Action>): nat {
    if actions == [] then lsn0 else
    var before, last := actions[..|actions| - 1], actions[|actions| - 1];
    if last.Store? && Latest(before).Some? && Latest(before).value.wal.Some?
    then Latest(before).value.wal.value.walStart
    else StoredLast(lsn0, before)
  }

  /** What a goroutine read last: the heartbeat loop, or the stream loop. */
  function ReadLast(lsn0: nat, actions: seq<Action>, beat: bool): nat {
    if actions == [] then lsn0 else
    var before, last := actions[..|actions| - 1], actions[|actions| - 1];
    if (beat && last.BeatRead?) || (!beat && last.StreamRead?) then StoredLast(lsn0, before)
    else ReadLast(lsn0, before, beat)
  }

  /** Every status built hands over what its goroutine read last. */
  function HandedOver(lsn0: nat, actions: seq<Action>): seq<nat> {
    if actions == [] then [] else
    var before, last := actions[..|actions| - 1], actions[|actions| - 1];
    HandedOver(lsn0, before)
    + if (last.BeatSend? || last.StreamSend?) && last.fate != L.NotBuilt
      then [ReadLast(lsn0, before, last.BeatSend?)] else []
  }

  function StatusesBuilt(actions: seq<Action>): nat {
    if actions == [] then 0 else
    var last := actions[|actions| - 1];
    StatusesBuilt(actions[..|actions| - 1])
    + if (last.BeatSend? || last.StreamSend?) && last.fate != L.NotBuilt then 1 else 0
  }

  // ----- the machine agrees -----

  /** What the machine has in hand is what its steps so far say. */
  predicate Told(s: State, lsn0: nat, actions: seq<Action>) {
    && s.lsn == StoredLast(lsn0, actions) && s.sent == HandedOver(lsn0, actions)
    && (s.stream.Publishing? || s.stream.Comparing? || s.stream.Storing? || s.stream.AckReading? ==>
          Latest(actions) == Some(s.stream.msg))
    && (s.stream.AckSending? || s.stream.ReplySending? ==> s.stream.position == ReadLast(lsn0, actions, false))
    && (s.beat.Sending? ==> s.beat.position == ReadLast(lsn0, actions, true))
  }

  lemma NothingMore(sent: seq<nat>)
    ensures sent + [] == sent
  {
  }

  lemma MoveTold(s: State, lsn0: nat, actions: seq<Action>)
    requires actions != [] && !actions[|actions| - 1].Receive?
    requires Told(s, lsn0, actions[..|actions| - 1]) && Move(s, actions[|actions| - 1]).Some?
    ensures Told(Move(s, actions[|actions| - 1]).value, lsn0, actions)
  {
    NothingMore(s.sent);
  }

  lemma ReceiveTold(s: State, lsn0: nat, actions: seq<Action>)
    requires actions != [] && actions[|actions| - 1].Receive?
    requires Told(s, lsn0, actions[..|actions| - 1]) && Step(s, actions[|actions| - 1]).Some?
    ensures Told(Step(s, actions[|actions| - 1]).value, lsn0, actions)
  {
    NothingMore(s.sent);
  }

  /** Main result: in every run, what was handed to the replicator is, status by
      status, the position its goroutine had read last, and that position is the
      start of the message at the last store before the read. */
  lemma {:induction false} SentIsWhatWasRead(lsn0: nat, actions: seq<Action>)
    requires Run(Init(lsn0), actions).Some?
    ensures var s := Run(Init(lsn0), actions).value;
            s.sent == HandedOver(lsn0, actions) && s.lsn == StoredLast(lsn0, actions)
    ensures Told(Run(Init(lsn0), actions).value, lsn0, actions)
  {
    if actions != [] {
      var n := |actions| - 1;
      SentIsWhatWasRead(lsn0, actions[..n]);
      var s := Run(Init(lsn0), actions[..n]).value;
      if actions[n].Receive? { ReceiveTold(s, lsn0, actions); } else { MoveTold(s, lsn0, actions); }
    }
  }

  lemma {:induction false} OnePositionPerStatus(lsn0: nat, actions: seq<Action>)
    ensures |HandedOver(lsn0, actions)| == StatusesBuilt(actions)
  {
    if actions != [] { OnePositionPerStatus(lsn0, actions[..|actions| - 1]); }
  }

  /** As many positions are handed over as statuses are built. */
  lemma SentCountsStatuses(lsn0: nat, actions: seq<Action>)
    requires Run(Init(lsn0), actions).Some?
    ensures |Run(Init(lsn0), actions).value.sent| == StatusesBuilt(actions)
  {
    SentIsWhatWasRead(lsn0, actions);
    OnePositionPerStatus(lsn0, actions);
  }

  // ----- one heartbeat -----

  lemma {:induction false} ReadStays(lsn0: nat, actions: seq<Action>, more: seq<Action>)
    requires forall i :: 0 <= i < |more| ==> !Beats(more[i])
    ensures ReadLast(lsn0, actions + more, true) == ReadLast(lsn0, actions, true)
  {
    if more == [] {
      assert actions + more == actions;
    } else {
      var n := |more| - 1;
      assert (actions + more)[..|actions| + n] == actions + more[..n];
      ReadStays(lsn0, actions, more[..n]);
    }
  }

  function Heartbeat(before: seq<Action>, between: seq<Action>, after: seq<Action>): seq<Action> {
    (before + [BeatTick] + between + [BeatRead]) + after
  }

  /** One heartbeat, with any steps of the stream loop between its own: sending
      appends the position as it was when the heartbeat read it. */
  lemma BeatHandsOver(lsn0: nat, before: seq<Action>, between: seq<Action>, after: seq<Action>, fate: L.SendFate)
    requires forall i :: 0 <= i < |after| ==> !Beats(after[i])
    requires Run(Init(lsn0), Heartbeat(before, between, after) + [BeatSend(fate)]).Some?
    ensures Run(Init(lsn0), Heartbeat(before, between, after)).Some?
    ensures Run(Init(lsn0), before + [BeatTick] + between).Some?
    ensures var r, m, s := Run(Init(lsn0), before + [BeatTick] + between).value,
                           Run(Init(lsn0), Heartbeat(before, between, after)).value,
                           Run(Init(lsn0), Heartbeat(before, between, after) + [BeatSend(fate)]).value;
            s.sent == m.sent + (if fate == L.NotBuilt then [] else [r.lsn]) && s.beat.Waiting?
  {
    var early := before + [BeatTick] + between;
    var sofar := Heartbeat(before, between, after);
    var all := sofar + [BeatSend(fate)];
    assert all[..|sofar|] == sofar && sofar[..|early|] == early && all[..|early|] == early;
    FoldPrefix(Step, Init(lsn0), all, |sofar|);
    FoldPrefix(Step, Init(lsn0), all, |early|);
    SentIsWhatWasRead(lsn0, early);
    SentIsWhatWasRead(lsn0, sofar);
    SentIsWhatWasRead(lsn0, all);
    ReadStays(lsn0, early + [BeatRead], after);
    assert (early + [BeatRead])[..|early|] == early;
  }

  /** The heartbeat loop is never held up: its next step is always possible. */
  function NextBeat(s: State, fate: L.SendFate): Action {
    match s.beat
    case Waiting => BeatTick
    case Reading => BeatRead
    case Sending(_) => BeatSend(fate)
  }

  lemma BeatGoesOn(s: State, fate: L.SendFate)
    ensures Step(s, NextBeat(s, fate)).Some?
    ensures var t := Step(s, NextBeat(s, fate)).value;
            && t == s.(beat := t.beat, sent := t.sent)
            && (s.beat.Waiting? ==> t.beat.Reading?) && (s.beat.Reading? ==> t.beat.Sending?)
            && (s.beat.Sending? ==> t.beat.Waiting?)
  {
  }

  /** From every state the heartbeat loop alone gets the position to the server. */
  lemma PositionCanBeReported(lsn0: nat, actions: seq<Action>) returns (more: seq<Action>)
    requires Run(Init(lsn0), actions).Some?
    ensures forall i :: 0 <= i < |more| ==> Beats(more[i])
    ensures Run(Init(lsn0), actions + more).Some?
    ensures var s, t := Run(Init(lsn0), actions).value, Run(Init(lsn0), actions + more).value;
            t.sent != [] && t.sent[|t.sent| - 1] == s.lsn && s.sent <= t.sent
  {
    var s := Run(Init(lsn0), actions).value;
    var first := if s.beat.Reading? then [BeatRead, BeatSend(L.NotBuilt)]
      else if s.beat.Sending? then [BeatSend(L.NotBuilt)] else [];
    ToWaiting(s, first);
    FoldCompose(Step, Init(lsn0), actions, first);
    var t := Fold(Step, s, first).value;
    WholeBeat(t);
    FoldCompose(Step, s, first, [BeatTick, BeatRead, BeatSend(L.Sent)]);
    more := first + [BeatTick, BeatRead, BeatSend(L.Sent)];
    FoldCompose(Step, Init(lsn0), actions, more);
  }

  lemma ToWaiting(s: State, first: seq<Action>)
    requires first == if s.beat.Reading? then [BeatRead, BeatSend(L.NotBuilt)]
                      else if s.beat.Sending? then [BeatSend(L.NotBuilt)] else []
    ensures Fold(Step, s, first) == Some(s.(beat := Waiting))
  {
    if s.beat.Reading? {
      FoldFirst(Step, s, BeatRead, s.(beat := Sending(s.lsn)), [BeatSend(L.NotBuilt)]);
      FoldFirst(Step, s.(beat := Sending(s.lsn)), BeatSend(L.NotBuilt), s.(beat := Waiting), []);
      assert [BeatRead] + [BeatSend(L.NotBuilt)] == first && [BeatSend(L.NotBuilt)] + [] == [BeatSend(L.NotBuilt)];
    } else if s.beat.Sending? {
      FoldFirst(Step, s, BeatSend(L.NotBuilt), s.(beat := Waiting), []);
      assert [BeatSend(L.NotBuilt)] + [] == first;
    }
  }

  lemma WholeBeat(s: State)
    requires s.beat.Waiting?
    ensures Fold(Step, s, [BeatTick, BeatRead, BeatSend(L.Sent)]) == Some(s.(sent := s.sent + [s.lsn]))
  {
    var s1 := s.(beat := Reading);
    var s2 := s.(beat := Sending(s.lsn));
    FoldFirst(Step, s2, BeatSend(L.Sent), s.(sent := s.sent + [s.lsn]), []);
    FoldFirst(Step, s1, BeatRead, s2, [BeatSend(L.Sent)]);
    FoldFirst(Step, s, BeatTick, s1, [BeatRead, BeatSend(L.Sent)]);
    assert [BeatSend(L.Sent)] + [] == [BeatSend(L.Sent)];
    assert [BeatRead] + [BeatSend(L.Sent)] == [BeatRead, BeatSend(L.Sent)];
    assert [BeatTick] + [BeatRead, BeatSend(L.Sent)] == [BeatTick, BeatRead, BeatSend(L.Sent)];
  }
}
