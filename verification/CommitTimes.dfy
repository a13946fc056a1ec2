/** Whose commit time an event carries when publishes fail: a failed batch stays
    pending, and what is accepted meanwhile is published along with it. */
module CommitTimes {
  import opened Prelude
  import opened Protocol
  import opened Delivery
  import T = Transaction
  import P = Parser
  import L = Listener

  /** The newest attempt publishes only committed actions, each under the time of
      the first commit accepted after it. */
  predicate OwnTimes(s: State) {
    s.attempts != [] &&
    var n := |s.attempts| - 1;
    var first, a := |Delivered(s.attempts[..n])|, s.attempts[n];
    && first + |a.actions| <= |s.stamps|
    && forall i :: first <= i < first + |a.actions| ==> s.stamps[i] == a.time
  }

  /** The message is accepted while a commit is pending, and is a row or a commit
      of another time. */
  predicate Joins(s: State, msg: L.ReplicationMessage) {
    && s.tx.commitTime.Some? && msg.wal.Some?
    && var r := P.Parse(msg.wal.value.walData, s.tx);
       r.Accepted? && (r.tx.actions != s.tx.actions || r.tx.commitTime != s.tx.commitTime)
  }

  /** The step begins an attempt. */
  predicate Attempts(s: State, a: Action) {
    && a.Receive? && s.stream.Idle? && a.msg.wal.Some?
    && var r := P.Parse(a.msg.wal.value.walData, s.tx);
       r.Accepted? && r.tx.commitTime.Some?
  }

  predicate AllOwn(lsn0: nat, actions: seq<Action>)
    requires Run(Init(lsn0), actions).Some?
  {
    actions != [] ==>
      var n := |actions| - 1;
      && AllOwn(lsn0, actions[..n])
      && (Attempts(Run(Init(lsn0), actions[..n]).value, actions[n]) ==> OwnTimes(Run(Init(lsn0), actions).value))
  }

  predicate NoneJoins(lsn0: nat, actions: seq<Action>)
    requires Run(Init(lsn0), actions).Some?
  {
    actions != [] ==>
      var n := |actions| - 1;
      && NoneJoins(lsn0, actions[..n])
      && (actions[n].Receive? ==> !Joins(Run(Init(lsn0), actions[..n]).value, actions[n].msg))
  }

  /** A pending commit is one whose batch has been tried. */
  predicate Tried(s: State) {
    s.tx.commitTime.Some? ==>
      s.attempts != []
      && var a := s.attempts[|s.attempts| - 1];
         !a.cleared && a.actions == s.tx.actions && s.tx.commitTime == Some(a.time)
  }

  predicate PendingOwn(s: State) {
    s.tx.commitTime.Some? ==> OwnTimes(s)
  }

  /** What was pending before an attempt and what is pending after. */
  lemma AcceptOwns(s: State, msg: L.ReplicationMessage, tx: T.Tx)
    requires Transacting(s) && Tried(s) && PendingOwn(s) && s.stream.Idle? && msg.wal.Some? && tx.commitTime.Some?
    requires Extends(msg.wal.value.walData, s.tx, tx)
    ensures OwnTimes(Accept(s, msg, tx))
            <==> !(s.tx.commitTime.Some? && (tx.actions != s.tx.actions || tx.commitTime != s.tx.commitTime))
  {
    var t := Accept(s, msg, tx);
    var n := |s.attempts|;
    assert t.attempts[..n] == s.attempts;
    var first := |Delivered(s.attempts)|;
    assert |s.appended| == first + |s.tx.actions| && |t.appended| == first + |tx.actions|;
    if s.tx.commitTime.Some? {
      assert s.attempts == s.attempts[..n - 1] + [s.attempts[n - 1]];
      assert Delivered(s.attempts) == Delivered(s.attempts[..n - 1]);
      assert |s.stamps| == |s.appended|;
      assert s.stamps[first] == s.tx.commitTime.value;
      if tx.actions != s.tx.actions { Longer(s.tx.actions, tx.actions); }
    }
  }

  lemma Longer(xs: seq<T.ActionData>, ys: seq<T.ActionData>)
    requires xs <= ys && xs != ys
    ensures |xs| < |ys|
  {
  }

  lemma StepKeepsTried(s: State, a: Action)
    requires Tried(s) && Step(s, a).Some?
    ensures Tried(Step(s, a).value)
  {
  }

  /** The newest attempt, but for how far it got. */
  predicate SameNewest(s: State, t: State) {
    && |t.attempts| == |s.attempts| && t.stamps == s.stamps
    && (s.attempts != [] ==>
          var n := |s.attempts| - 1;
          && t.attempts[..n] == s.attempts[..n]
          && t.attempts[n].actions == s.attempts[n].actions && t.attempts[n].time == s.attempts[n].time)
  }

  lemma MoveLeavesNewest(s: State, a: Action)
    requires Move(s, a).Some?
    ensures var t := Move(s, a).value;
            t.tx.commitTime.Some? ==> s.tx.commitTime.Some? && SameNewest(s, t)
  {
  }

  lemma NewestOwns(s: State, t: State)
    requires SameNewest(s, t) && OwnTimes(s)
    ensures OwnTimes(t)
  {
  }

  /** A step that begins no attempt leaves pending what was. */
  lemma QuietStep(s: State, a: Action)
    requires PendingOwn(s) && Step(s, a).Some? && !Attempts(s, a)
    ensures PendingOwn(Step(s, a).value)
  {
    if !a.Receive? {
      MoveLeavesNewest(s, a);
      if Step(s, a).value.tx.commitTime.Some? { NewestOwns(s, Step(s, a).value); }
    } else {
      QuietReceive(s, a);
    }
  }

  lemma QuietReceive(s: State, a: Action)
    requires PendingOwn(s) && a.Receive? && Step(s, a).Some? && !Attempts(s, a)
    ensures PendingOwn(Step(s, a).value)
  {
  }

  lemma OwnStep(s: State, lsn0: nat, a: Action)
    requires Invariant(s, lsn0) && Tried(s) && PendingOwn(s) && Step(s, a).Some?
    ensures var joins := a.Receive? && Joins(s, a.msg);
            && (Attempts(s, a) ==> (OwnTimes(Step(s, a).value) <==> !joins))
            && (!joins ==> PendingOwn(Step(s, a).value))
            && (joins ==> Attempts(s, a))
  {
    if Attempts(s, a) {
      var data := a.msg.wal.value.walData;
      AcceptedExtends(data, s.tx);
      AcceptOwns(s, a.msg, P.Parse(data, s.tx).tx);
    } else {
      QuietStep(s, a);
    }
  }

  /** Main result: in every run each attempt publishes its actions under their
      own commits' times if and only if, while a commit is pending, no row is
      accepted and no commit of another time. */
  lemma {:induction false} OwnCommitTimes(lsn0: nat, actions: seq<Action>)
    requires Run(Init(lsn0), actions).Some?
    ensures AllOwn(lsn0, actions) <==> NoneJoins(lsn0, actions)
    ensures Tried(Run(Init(lsn0), actions).value)
    ensures NoneJoins(lsn0, actions) ==> PendingOwn(Run(Init(lsn0), actions).value)
  {
    if actions != [] {
      var n := |actions| - 1;
      OwnCommitTimes(lsn0, actions[..n]);
      InvariantOverRuns(lsn0, actions[..n]);
      var s := Run(Init(lsn0), actions[..n]).value;
      StepKeepsTried(s, actions[n]);
      if NoneJoins(lsn0, actions[..n]) { OwnStep(s, lsn0, actions[n]); }
    }
  }

  // ----- what a caller can check -----

  lemma {:induction false} PendingIsInHand(lsn0: nat, actions: seq<Action>)
    requires Run(Init(lsn0), actions).Some? && forall i :: 0 <= i < |actions| ==> actions[i] != Publish(false)
    ensures var s := Run(Init(lsn0), actions).value; s.tx.commitTime.Some? ==> s.stream.Publishing?
  {
    if actions != [] { PendingIsInHand(lsn0, actions[..|actions| - 1]); }
  }

  /** As long as no publish fails nothing joins a pending commit. */
  lemma {:induction false} NoFailureNoJoin(lsn0: nat, actions: seq<Action>)
    requires Run(Init(lsn0), actions).Some? && forall i :: 0 <= i < |actions| ==> actions[i] != Publish(false)
    ensures NoneJoins(lsn0, actions) && AllOwn(lsn0, actions)
  {
    if actions != [] {
      NoFailureNoJoin(lsn0, actions[..|actions| - 1]);
      PendingIsInHand(lsn0, actions[..|actions| - 1]);
    }
    OwnCommitTimes(lsn0, actions);
  }
}
