/** What the server may conclude from a reported position: which transactions a
    restart from there must send again. */
module ServerView {
  import opened Prelude
  import opened Protocol
  import opened Delivery
  import opened SoloRuns
  import T = Transaction
  import L = Listener

  predicate IsWal(msg: L.ReplicationMessage) {
    msg.wal.Some?
  }

  predicate IsCommit(msg: L.ReplicationMessage) {
    msg.wal.Some? && msg.wal.value.walData != [] && msg.wal.value.walData[0] == COMMIT_MSG
  }

  function Start(msg: L.ReplicationMessage): nat
    requires IsWal(msg)
  {
    msg.wal.value.walStart
  }

  // ----- the positions the server gives its messages -----

  /** Commits start at growing positions beyond the initial one, and every other
      message of a transaction starts before its commit. */
  predicate CommitOrder(lsn0: nat, inbox: seq<L.ReplicationMessage>) {
    && (forall j :: 0 <= j < |inbox| && IsCommit(inbox[j]) ==> lsn0 < Start(inbox[j]))
    && (forall i, j :: 0 <= i < j < |inbox| && IsCommit(inbox[i]) && IsCommit(inbox[j]) ==>
          Start(inbox[i]) < Start(inbox[j]))
    && (forall i, j :: 0 <= i < j < |inbox| && IsWal(inbox[i]) && !IsCommit(inbox[i]) && NextCommit(inbox, i, j) ==>
          Start(inbox[i]) < Start(inbox[j]))
  }

  /** `j` is the first commit after `i`. */
  predicate NextCommit(inbox: seq<L.ReplicationMessage>, i: nat, j: nat)
    requires i < j < |inbox|
  {
    IsCommit(inbox[j]) && forall m :: i < m < j ==> !IsCommit(inbox[m])
  }

  /** Hence everything received before a commit starts before it. */
  lemma {:induction false} BeforeCommit(lsn0: nat, inbox: seq<L.ReplicationMessage>, i: nat, j: nat)
    requires i < j < |inbox| && CommitOrder(lsn0, inbox) && IsWal(inbox[i]) && IsCommit(inbox[j])
    ensures Start(inbox[i]) < Start(inbox[j])
    decreases j
  {
    if !IsCommit(inbox[i]) && !NextCommit(inbox, i, j) {
      var m :| i < m < j && IsCommit(inbox[m]);
      BeforeCommit(lsn0, inbox, i, m);
    }
  }

  // ----- what a run has received -----

  lemma StepAdds(s: State, a: Action)
    requires Step(s, a).Some?
    ensures s.appended <= Step(s, a).value.appended && s.stamps <= Step(s, a).value.stamps
  {
  }

  lemma {:induction false} HistoryGrows(lsn0: nat, actions: seq<Action>, n: nat)
    requires n <= |actions| && Run(Init(lsn0), actions).Some?
    ensures Run(Init(lsn0), actions[..n]).Some?
    ensures var t, s := Run(Init(lsn0), actions[..n]).value, Run(Init(lsn0), actions).value;
            t.appended <= s.appended && t.stamps <= s.stamps
  {
    if n == |actions| {
      assert actions[..n] == actions;
    } else {
      var m := |actions| - 1;
      HistoryGrows(lsn0, actions[..m], n);
      assert actions[..m][..n] == actions[..n];
      StepAdds(Run(Init(lsn0), actions[..m]).value, actions[m]);
    }
  }

  lemma {:induction false} ReceivedGrows(actions: seq<Action>, n: nat)
    requires n <= |actions|
    ensures Received(actions[..n]) <= Received(actions)
  {
    if n == |actions| {
      assert actions[..n] == actions;
    } else {
      var m := |actions| - 1;
      ReceivedGrows(actions[..m], n);
      assert actions[..m][..n] == actions[..n];
    }
  }

  /** The step that takes the message `j` in. */
  predicate Takes(actions: seq<Action>, k: nat, j: nat) {
    k < |actions| && actions[k].Receive? && |Received(actions[..k])| == j
  }

  lemma TakesIt(actions: seq<Action>, k: nat, j: nat)
    requires Takes(actions, k, j)
    ensures j < |Received(actions)| && Received(actions)[j] == actions[k].msg
    ensures Received(actions[..k]) == Received(actions)[..j] && Received(actions[..k + 1]) == Received(actions)[..j + 1]
  {
    assert actions[..k + 1][..k] == actions[..k];
    ReceivedGrows(actions, k);
    ReceivedGrows(actions, k + 1);
  }

  lemma {:induction false} TakenAt(actions: seq<Action>, j: nat) returns (k: nat)
    requires j < |Received(actions)|
    ensures Takes(actions, k, j)
  {
    var n := |actions| - 1;
    if j < |Received(actions[..n])| {
      k := TakenAt(actions[..n], j);
      assert actions[..n][..k] == actions[..k];
    } else {
      k := n;
    }
  }

  /** The position and the message in hand come from what was received. */
  predicate FromReceived(s: State, lsn0: nat, inbox: seq<L.ReplicationMessage>) {
    && (s.lsn == lsn0 || exists i :: 0 <= i < |inbox| && IsWal(inbox[i]) && Start(inbox[i]) == s.lsn)
    && (s.stream.Publishing? || s.stream.Comparing? || s.stream.Storing? ==>
          exists i :: 0 <= i < |inbox| && inbox[i] == s.stream.msg)
  }

  lemma FromReceivedStep(s: State, lsn0: nat, inbox: seq<L.ReplicationMessage>, a: Action)
    requires FromReceived(s, lsn0, inbox) && Step(s, a).Some?
    ensures FromReceived(Step(s, a).value, lsn0, inbox + if a.Receive? then [a.msg] else [])
  {
    var more := inbox + if a.Receive? then [a.msg] else [];
    assert forall i :: 0 <= i < |inbox| ==> more[i] == inbox[i];
    assert a.Receive? ==> more[|inbox|] == a.msg;
  }

  lemma {:induction false} RunsFromReceived(lsn0: nat, actions: seq<Action>)
    requires Run(Init(lsn0), actions).Some?
    ensures FromReceived(Run(Init(lsn0), actions).value, lsn0, Received(actions))
  {
    if actions != [] {
      var n := |actions| - 1;
      RunsFromReceived(lsn0, actions[..n]);
      FromReceivedStep(Run(Init(lsn0), actions[..n]).value, lsn0, Received(actions[..n]), actions[n]);
    }
  }

  // ----- a restart -----

  /** A commit starts beyond every position stored before it is taken in. */
  lemma CommitIsBeyond(lsn0: nat, actions: seq<Action>, k: nat, j: nat)
    requires Run(Init(lsn0), actions).Some? && CommitOrder(lsn0, Received(actions))
    requires Takes(actions, k, j) && IsCommit(actions[k].msg)
    ensures Run(Init(lsn0), actions[..k]).Some?
    ensures Run(Init(lsn0), actions[..k]).value.lsn < Start(actions[k].msg)
  {
    TakesIt(actions, k, j);
    HistoryGrows(lsn0, actions, k);
    RunsFromReceived(lsn0, actions[..k]);
    var s, inbox := Run(Init(lsn0), actions[..k]).value, Received(actions);
    if s.lsn != lsn0 {
      var i :| 0 <= i < j && IsWal(inbox[..j][i]) && Start(inbox[..j][i]) == s.lsn;
      BeforeCommit(lsn0, inbox, i, j);
    }
  }

  /** A step stores at most one position, covering what is stamped by then. */
  lemma StepStores(s: State, a: Action)
    requires Step(s, a).Some?
    ensures var t := Step(s, a).value;
            && (a.Receive? ==> t.acks == s.acks)
            && (t.acks == s.acks || (|t.acks| == |s.acks| + 1 && t.acks[..|s.acks|] == s.acks
                                     && t.acks[|s.acks|].covered == |s.stamps|))
  {
  }

  /** Hence a position not before it was stored when it was covered. */
  lemma {:induction false} StoredCovers(lsn0: nat, actions: seq<Action>, k: nat, i: nat)
    requires Run(Init(lsn0), actions).Some? && k < |actions| && i < |Run(Init(lsn0), actions).value.acks|
    requires Run(Init(lsn0), actions[..k]).Some? && Run(Init(lsn0), actions[..k + 1]).Some? && actions[k].Receive?
    requires Run(Init(lsn0), actions[..k]).value.lsn < Run(Init(lsn0), actions).value.acks[i].position
    ensures |Run(Init(lsn0), actions[..k + 1]).value.stamps| <= Run(Init(lsn0), actions).value.acks[i].covered
    decreases |actions|
  {
    var n := |actions| - 1;
    var s := Run(Init(lsn0), actions[..n]).value;
    StepStores(s, actions[n]);
    if k == n {
      InvariantOverRuns(lsn0, actions[..n]);
    } else if i < |s.acks| {
      assert actions[..n][..k] == actions[..k] && actions[..n][..k + 1] == actions[..k + 1];
      StoredCovers(lsn0, actions[..n], k, i);
    } else {
      HistoryGrows(lsn0, actions[..n], k + 1);
      assert actions[..n][..k + 1] == actions[..k + 1];
    }
  }

  /** Main result: whatever either goroutine hands over, everything under a commit by the time
      a commit at or before that position was taken in has been published. */
  lemma ReportedCommitsAreOut(lsn0: nat, actions: seq<Action>, n: nat, k: nat, j: nat)
    requires Run(Init(lsn0), actions).Some? && CommitOrder(lsn0, Received(actions))
    requires Takes(actions, k, j) && IsCommit(actions[k].msg)
    requires n < |Run(Init(lsn0), actions).value.sent|
    requires Start(actions[k].msg) <= Run(Init(lsn0), actions).value.sent[n]
    ensures Run(Init(lsn0), actions[..k + 1]).Some? && Partial(Run(Init(lsn0), actions).value.attempts)
    ensures var t, s := Run(Init(lsn0), actions[..k + 1]).value, Run(Init(lsn0), actions).value;
            |t.stamps| <= |t.appended| && Out(t.appended[..|t.stamps|], EventLog(s.attempts))
  {
    var s := Run(Init(lsn0), actions).value;
    CommitIsBeyond(lsn0, actions, k, j);
    TakesIt(actions, k, j);
    InvariantOverRuns(lsn0, actions);
    assert Reported(s, lsn0, s.sent[n]);
    var i :| 0 <= i < |s.acks| && s.acks[i].position == s.sent[n];
    HistoryGrows(lsn0, actions, k + 1);
    assert actions[..k + 1][..k] == actions[..k];
    InvariantOverRuns(lsn0, actions[..k + 1]);
    StoredCovers(lsn0, actions, k, i);
    assert AckOk(s, s.acks[i]);
    CommittedIsPublished(s, s.acks[i].delivered);
    var t := Run(Init(lsn0), actions[..k + 1]).value;
    StillOut(t.appended[..|t.stamps|], s.appended[..s.acks[i].delivered], EventLog(s.attempts), EventLog(s.attempts));
  }

  // ----- the object -----

  lemma ReceivePublishes(w: L.World, msg: L.ReplicationMessage, f: L.Fates)
    requires L.Receive(w, msg, f).Some?
    ensures w.published <= L.Receive(w, msg, f).value.published
  {
  }

  lemma {:induction false} PastGrows(lsn0: nat, inbox: seq<L.ReplicationMessage>, f: L.Fates, n: nat)
    requires n <= |inbox| && L.Streamed(Started(lsn0), inbox, f).Some?
    ensures L.Streamed(Started(lsn0), inbox[..n], f).Some?
    ensures var p, q := PastOf(lsn0, inbox[..n], f), PastOf(lsn0, inbox, f);
            p.appended <= q.appended && p.stamps <= q.stamps
    ensures L.Streamed(Started(lsn0), inbox[..n], f).value.published
            <= L.Streamed(Started(lsn0), inbox, f).value.published
  {
    if n == |inbox| {
      assert inbox[..n] == inbox;
    } else {
      var m := |inbox| - 1;
      PastGrows(lsn0, inbox[..m], f, n);
      assert inbox[..m][..n] == inbox[..n];
      ReceivePublishes(L.Streamed(Started(lsn0), inbox[..m], f).value, inbox[m], f);
    }
  }

  lemma {:induction false} StampsAreAppended(lsn0: nat, inbox: seq<L.ReplicationMessage>, f: L.Fates)
    requires L.Streamed(Started(lsn0), inbox, f).Some?
    ensures |PastOf(lsn0, inbox, f).stamps| <= |PastOf(lsn0, inbox, f).appended|
  {
    if inbox != [] { StampsAreAppended(lsn0, inbox[..|inbox| - 1], f); }
  }

  /** Everything under an accepted commit by the message `j` is in the log. */
  ghost predicate CommittedByThenIsOut(lsn0: nat, inbox: seq<L.ReplicationMessage>, f: L.Fates, j: nat)
    requires j < |inbox| && L.Streamed(Started(lsn0), inbox, f).Some?
  {
    L.Streamed(Started(lsn0), inbox[..j + 1], f).Some? &&
    var p := PastOf(lsn0, inbox[..j + 1], f);
    |p.stamps| <= |p.appended|
    && Out(p.appended[..|p.stamps|], L.Streamed(Started(lsn0), inbox, f).value.published)
  }

  lemma SafeCovers(lsn0: nat, inbox: seq<L.ReplicationMessage>, f: L.Fates, k: nat, j: nat)
    requires j < k <= |inbox| && L.Streamed(Started(lsn0), inbox, f).Some?
    requires L.Streamed(Started(lsn0), inbox[..k], f).Some? && CommittedIsOut(lsn0, inbox[..k], f)
    ensures CommittedByThenIsOut(lsn0, inbox, f, j)
  {
    PastGrows(lsn0, inbox, f, k);
    PastGrows(lsn0, inbox[..k], f, j + 1);
    assert inbox[..k][..j + 1] == inbox[..j + 1];
    StampsAreAppended(lsn0, inbox[..j + 1], f);
    var p, q := PastOf(lsn0, inbox[..j + 1], f), PastOf(lsn0, inbox[..k], f);
    StillOut(p.appended[..|p.stamps|], q.appended[..|q.stamps|],
             L.Streamed(Started(lsn0), inbox[..k], f).value.published,
             L.Streamed(Started(lsn0), inbox, f).value.published);
  }

  /** Over any inbox, well-formed or not: everything under an accepted commit by
      a commit that starts at or before a reported position has been published. */
  lemma ObjectReportedCommitsAreOut(lsn0: nat, inbox: seq<L.ReplicationMessage>, f: L.Fates, n: nat, j: nat)
    requires L.Streamed(Started(lsn0), inbox, f).Some? && CommitOrder(lsn0, inbox)
    requires n < |L.Streamed(Started(lsn0), inbox, f).value.sent| && j < |inbox| && IsCommit(inbox[j])
    requires Start(inbox[j]) <= L.Streamed(Started(lsn0), inbox, f).value.sent[n]
    ensures CommittedByThenIsOut(lsn0, inbox, f, j)
  {
    ObjectReportsAfterPublishing(lsn0, inbox, f);
    var position := L.Streamed(Started(lsn0), inbox, f).value.sent[n];
    assert Safe(lsn0, inbox, f, position) && position != lsn0;
    var k :| SafeAt(lsn0, inbox, f, position, k);
    if k <= j { BeforeCommit(lsn0, inbox, k - 1, j); }
    SafeCovers(lsn0, inbox, f, k, j);
  }
}
