/** What holds in every run of the slurper, and of its log of starts,
    completions and queued lines. */
module SlurpLifecycle {
  import opened Prelude
  import opened SlurpMachine
  import opened SlurpSteps

  lemma {:induction false} InvariantOverRuns(actions: seq<Action>)
    requires Run(actions).Some?
    ensures Invariant(Run(actions).value)
  {
    if actions != [] {
      var n := |actions| - 1;
      InvariantOverRuns(actions[..n]);
      var s, a := Run(actions[..n]).value, actions[n];
      if OfSlurp(a) { KeepsSlurpStep(s, a.uid, a); } else { KeepsReaderStep(s, a); }
    }
  }

  // ----- main results -----

  /** In every run a process is completed at most once, and only after it was started. */
  lemma CompletedOnceAfterStart(actions: seq<Action>, j: nat, u: nat)
    requires Run(actions).Some? && j < |Run(actions).value.log| && Run(actions).value.log[j] == Completed(u)
    ensures var log := Run(actions).value.log;
            && (exists service :: Started(service, u) in log[..j])
            && (forall i :: 0 <= i < |log| && log[i] == Completed(u) ==> i == j)
  {
    InvariantOverRuns(actions);
    var log := Run(actions).value.log;
    EntryInPlace(log, j);
    OwnerStarted(log[..j], u);
    forall i | 0 <= i < |log| && i != j
      ensures log[i] != Completed(u)
    {
      if i < j { NotCompletedBefore(log, i, j); } else if log[i].Completed? { NotCompletedBefore(log, j, i); }
    }
  }

  /** A service is started again only after its previous process was completed. */
  lemma StartAfterCompletion(actions: seq<Action>, i: nat, j: nat, service: Name, u: nat, v: nat)
    requires Run(actions).Some? && i < j < |Run(actions).value.log|
    requires Run(actions).value.log[i] == Started(service, u) && Run(actions).value.log[j] == Started(service, v)
    ensures exists k :: i < k < j && Run(actions).value.log[k] == Completed(u)
  {
    InvariantOverRuns(actions);
    var log := Run(actions).value.log;
    var k := CompletionPrecedesRestart(log, i, j, service, u, v);
    CompletionFollowsStart(log, i, k, service, u);
  }

  /** Every accepted app line is queued, once and in order, apart from the one
      in the reader's hands; it is queued on the newest slurp of its service;
      and each publisher takes its lines in the order they were queued. */
  lemma LinesGoToTheNewestSlurp(actions: seq<Action>)
    requires Run(actions).Some?
    ensures var s := Run(actions).value;
            && QueuedLines(s.log) + InHand(s.reader) == s.accepted
            && (forall u :: 0 <= u < |s.slurps| ==> s.slurps[u].taken + s.slurps[u].queue == QueuedOn(s.log, u))
            && (forall j :: 0 <= j < |s.log| && s.log[j].Queued? ==> EntryOk(s.log[..j], s.log[j]))
  {
    InvariantOverRuns(actions);
    var s := Run(actions).value;
    forall u | 0 <= u < |s.slurps|
      ensures s.slurps[u].taken + s.slurps[u].queue == QueuedOn(s.log, u)
    {
      assert SlurpLogged(s.log, s.slurps[u], u);
    }
    forall j | 0 <= j < |s.log| && s.log[j].Queued?
      ensures EntryOk(s.log[..j], s.log[j])
    {
      EntryInPlace(s.log, j);
    }
  }

  // ----- reading a well-ordered log -----

  lemma {:induction false} EntryInPlace(log: seq<Entry>, j: nat)
    requires LogOk(log) && j < |log|
    ensures LogOk(log[..j]) && EntryOk(log[..j], log[j])
  {
    if j < |log| - 1 {
      EntryInPlace(log[..|log| - 1], j);
      assert log[..|log| - 1][..j] == log[..j];
    }
  }

  lemma {:induction false} OwnerStarted(log: seq<Entry>, u: nat)
    requires LogOk(log) && u < |Owners(log)|
    ensures Started(Owners(log)[u], u) in log
  {
    var n := |log| - 1;
    if u < |Owners(log[..n])| { OwnerStarted(log[..n], u); }
  }

  lemma {:induction false} StartedOwns(log: seq<Entry>, service: Name, u: nat)
    requires LogOk(log) && Started(service, u) in log
    ensures u < |Owners(log)| && Owners(log)[u] == service
  {
    var n := |log| - 1;
    if Started(service, u) in log[..n] { StartedOwns(log[..n], service, u); }
  }

  lemma {:induction false} OwnersGrow(log: seq<Entry>, n: nat, m: nat)
    requires n <= m <= |log|
    ensures |Owners(log[..n])| <= |Owners(log[..m])|
  {
    if n < m {
      OwnersGrow(log, n, m - 1);
      assert log[..m][..m - 1] == log[..m - 1];
    }
  }

  lemma NotCompletedBefore(log: seq<Entry>, i: nat, j: nat)
    requires LogOk(log) && i < j < |log| && log[j].Completed?
    ensures log[i] != log[j]
  {
    EntryInPlace(log, j);
    assert log[i] == log[..j][i];
  }

  lemma CompletionFollowsStart(log: seq<Entry>, i: nat, k: nat, service: Name, u: nat)
    requires LogOk(log) && i < |log| && k < |log|
    requires log[i] == Started(service, u) && log[k] == Completed(u)
    ensures i < k
  {
    EntryInPlace(log, k);
    EntryInPlace(log, i);
    if k < i {
      OwnersGrow(log, k, i);
    }
  }

  lemma CompletionPrecedesRestart(log: seq<Entry>, i: nat, j: nat, service: Name, u: nat, v: nat) returns (k: nat)
    requires LogOk(log) && i < j < |log|
    requires log[i] == Started(service, u) && log[j] == Started(service, v)
    ensures k < j && log[k] == Completed(u)
  {
    EntryInPlace(log, j);
    assert log[..j][i] == Started(service, u);
    StartedOwns(log[..j], service, u);
    assert Completed(u) in log[..j];
    k :| k < |log[..j]| && log[..j][k] == Completed(u);
  }
}
