/** A run in which a row joins a pending commit: it is published while it is
    under no commit.

    The first row's publish fails, so its commit stays pending; the second row
    is accepted, both go out in one batch, and the log holds an event for which
    there is no commit time yet. */
module JoiningRow {
  import opened Prelude
  import opened Protocol
  import opened Delivery
  import opened CommitTimes
  import BigEndian
  import EndToEnd
  import RoundTrip
  import T = Transaction
  import P = Parser
  import L = Listener

  function Msg(w: Wire): L.ReplicationMessage
    requires WireOk(w)
  {
    L.ReplicationMessage(Some(L.WalMessage(0, Encode(w))), None)
  }

  lemma Then(lsn0: nat, acts: seq<Action>, s: State, a: Action, t: State)
    requires Run(Init(lsn0), acts) == Some(s) && Step(s, a) == Some(t)
    ensures Run(Init(lsn0), acts + [a]) == Some(t)
  {
    FoldSnoc(Step, Init(lsn0), acts, a);
  }

  lemma ThreeThen(lsn0: nat, acts: seq<Action>, s: State, a: Action, s1: State, b: Action, s2: State, c: Action,
                  t: State)
    requires Run(Init(lsn0), acts) == Some(s) && Step(s, a) == Some(s1) && Step(s1, b) == Some(s2)
             && Step(s2, c) == Some(t)
    ensures Run(Init(lsn0), acts + [a] + [b] + [c]) == Some(t)
  {
    Then(lsn0, acts, s, a, s1);
    Then(lsn0, acts + [a], s1, b, s2);
    Then(lsn0, acts + [a] + [b], s2, c, t);
  }

  lemma Arrives(s: State, w: Wire, tx: T.Tx)
    requires s.stream.Idle? && WireOk(w) && !RoundTrip.Ambiguous(w) && T.Apply(s.tx, Meaning(w)) == T.Accepted(tx)
    ensures P.Parse(Encode(w), s.tx) == T.Accepted(tx)
    ensures Step(s, Receive(Msg(w))) == Some(Accept(s, Msg(w), tx))
  {
    EndToEnd.ParseIsApply(w, s.tx);
  }

  lemma Unacknowledged(s: State, msg: L.ReplicationMessage)
    requires s.stream == Comparing(msg) && msg.wal.Some? && msg.wal.value.walStart == 0 && msg.heartbeat == None
    ensures Step(s, Compare) == Some(s.(stream := Replying(msg)))
    ensures Step(s.(stream := Replying(msg)), Reply) == Some(s.(stream := Idle))
  {
  }

  lemma Unpublished(s: State, msg: L.ReplicationMessage)
    requires s.stream == Publishing(msg) && msg.heartbeat == None
    requires s.attempts != [] && s.attempts[|s.attempts| - 1].sent < |s.attempts[|s.attempts| - 1].actions|
    ensures Step(s, Publish(false)) == Some(s.(stream := Replying(msg)))
    ensures Step(s.(stream := Replying(msg)), Reply) == Some(s.(stream := Idle))
  {
  }

  /** The state after an accepted message that adds `added`. */
  function Taken(s: State, w: Wire, tx: T.Tx, added: seq<T.ActionData>, stream: StreamPc): State {
    var appended := s.appended + added;
    s.(tx := tx, appended := appended, stream := stream,
       stamps := if w.WCommit? && tx.commitTime.Some? then Stamp(s.stamps, |appended|, tx.commitTime.value)
                 else s.stamps,
       attempts := if tx.commitTime.None? then s.attempts
                   else s.attempts + [Attempt(tx.actions, tx.commitTime.value, 0, false)])
  }

  lemma AcceptTakes(s: State, w: Wire, tx: T.Tx, added: seq<T.ActionData>)
    requires WireOk(w) && tx.actions == s.tx.actions + added
    ensures Accept(s, Msg(w), tx)
            == Taken(s, w, tx, added, if tx.commitTime.None? then Comparing(Msg(w)) else Publishing(Msg(w)))
  {
    assert Encode(w)[0] == TypeByte(w);
  }

  /** A message that leaves no commit pending, or a commit whose first publish fails. */
  lemma Passes(lsn0: nat, acts: seq<Action>, s: State, w: Wire, tx: T.Tx, added: seq<T.ActionData>)
    returns (more: seq<Action>, t: State)
    requires Run(Init(lsn0), acts) == Some(s) && s.stream.Idle?
    requires tx.actions == s.tx.actions + added && (tx.commitTime.Some? ==> tx.actions != [])
    requires WireOk(w) && !RoundTrip.Ambiguous(w) && T.Apply(s.tx, Meaning(w)) == T.Accepted(tx)
    ensures Run(Init(lsn0), more) == Some(t) && t == Taken(s, w, tx, added, Idle)
  {
    Arrives(s, w, tx);
    AcceptTakes(s, w, tx, added);
    var s1 := Accept(s, Msg(w), tx);
    var s2 := s1.(stream := Replying(Msg(w)));
    t := s1.(stream := Idle);
    var b := if tx.commitTime.None? then Compare else Publish(false);
    if tx.commitTime.None? { Unacknowledged(s1, Msg(w)); } else { Unpublished(s1, Msg(w)); }
    ThreeThen(lsn0, acts, s, Receive(Msg(w)), s1, b, s2, Reply, t);
    more := acts + [Receive(Msg(w))] + [b] + [Reply];
  }

  const BEGIN := WBegin(1, 0, 0)
  const RELATION := WRelation(1, [], [], 0, [])
  const ROW := WInsert(1, [])
  const COMMIT := WCommit(0, 1, 1, 0)
  const NEXT_ROW := WDelete(1, false, [])

  lemma TheyFit()
    ensures WireOk(BEGIN) && WireOk(RELATION) && WireOk(ROW) && WireOk(COMMIT) && WireOk(NEXT_ROW)
  {
    BigEndian.PowerValues();
  }

  function Inserted(): T.ActionData {
    T.ActionData([], [], T.InsertAction, [], [])
  }

  function Deleted(): T.ActionData {
    T.ActionData([], [], T.DeleteAction, [], [])
  }

  /** A transaction of one row, its commit pending after a failed publish. */
  lemma OneRowPending(lsn0: nat) returns (actions: seq<Action>, s: State)
    ensures Run(Init(lsn0), actions) == Some(s) && Pending(s)
  {
    TheyFit();
    var tx1 := Init(lsn0).tx.(lsn := 1, beginTime := Some(0));
    var tx2 := tx1.(relations := map[1 := T.RelationData([], [], [])]);
    var tx3 := tx2.(actions := [Inserted()]);
    var tx4 := tx3.(commitTime := Some(0));
    Rows(tx2);
    actions, s := Passes(lsn0, [], Init(lsn0), BEGIN, tx1, []);
    actions, s := Passes(lsn0, actions, s, RELATION, tx2, []);
    actions, s := Passes(lsn0, actions, s, ROW, tx3, [Inserted()]);
    actions, s := Passes(lsn0, actions, s, COMMIT, tx4, []);
  }

  predicate Pending(s: State) {
    && s.stream.Idle? && s.tx.commitTime == Some(0) && s.tx.relations == map[1 := T.RelationData([], [], [])]
    && s.tx.actions == [Inserted()] && s.appended == [Inserted()] && s.stamps == [0]
    && s.attempts == [Attempt([Inserted()], 0, 0, false)]
  }

  lemma Rows(tx: T.Tx)
    requires tx.relations == map[1 := T.RelationData([], [], [])]
    ensures T.Apply(tx, Meaning(ROW)) == T.Accepted(tx.(actions := tx.actions + [Inserted()]))
    ensures T.Apply(tx, Meaning(NEXT_ROW)) == T.Accepted(tx.(actions := tx.actions + [Deleted()]))
  {
    assert SeenRow([]) == [] && T.Fill([], []) == [];
  }

  /** Two publishes that go through. */
  lemma BothGoOut(s: State, a: Attempt)
    requires s.stream.Publishing? && s.attempts != [] && s.attempts[|s.attempts| - 1] == a && a.sent == 0
             && |a.actions| == 2
    ensures var t := s.(attempts := s.attempts[|s.attempts| - 1 := a.(sent := 2)]);
            Step(s, Publish(true)).Some? && Step(Step(s, Publish(true)).value, Publish(true)) == Some(t)
  {
    var n := |s.attempts| - 1;
    assert s.attempts[n := a.(sent := 1)][n := a.(sent := 2)] == s.attempts[n := a.(sent := 2)];
  }

  /** The deleted row is accepted while the commit is pending, and both rows go out. */
  lemma RowJoins(lsn0: nat, before: seq<Action>, s: State) returns (t: State)
    requires Run(Init(lsn0), before) == Some(s) && Pending(s) && WireOk(NEXT_ROW)
    ensures Run(Init(lsn0), before + [Receive(Msg(NEXT_ROW))] + [Publish(true)] + [Publish(true)]) == Some(t)
    ensures Joins(s, Msg(NEXT_ROW))
    ensures t.appended == [Inserted(), Deleted()] && t.stamps == [0]
    ensures t.attempts == [Attempt([Inserted()], 0, 0, false), Attempt([Inserted(), Deleted()], 0, 2, false)]
  {
    Rows(s.tx);
    var tx := s.tx.(actions := s.tx.actions + [Deleted()]);
    Arrives(s, NEXT_ROW, tx);
    assert |tx.actions| != |s.tx.actions|;
    AcceptTakes(s, NEXT_ROW, tx, [Deleted()]);
    var s1 := Accept(s, Msg(NEXT_ROW), tx);
    BothGoOut(s1, s1.attempts[1]);
    var s2 := Step(s1, Publish(true)).value;
    t := Step(s2, Publish(true)).value;
    ThreeThen(lsn0, before, s, Receive(Msg(NEXT_ROW)), s1, Publish(true), s2, Publish(true), t);
  }

  /** A transaction of one row whose publish fails, and a row of the next one: the
      event of the second row, which is under no commit yet, goes out. */
  lemma RowCanJoin(lsn0: nat) returns (actions: seq<Action>)
    ensures Run(Init(lsn0), actions).Some? && !NoneJoins(lsn0, actions) && !AllOwn(lsn0, actions)
    ensures var s := Run(Init(lsn0), actions).value;
            && s.appended == [Inserted(), Deleted()] && |s.stamps| == 1 && Partial(s.attempts)
            && EventLog(s.attempts) == [T.EventOf(Inserted(), 0), T.EventOf(Deleted(), 0)]
  {
    TheyFit();
    var before, s := OneRowPending(lsn0);
    var t := RowJoins(lsn0, before, s);
    var joined := before + [Receive(Msg(NEXT_ROW))];
    actions := joined + [Publish(true)] + [Publish(true)];
    assert joined[..|before|] == before && (joined + [Publish(true)])[..|joined|] == joined;
    assert actions[..|joined| + 1] == joined + [Publish(true)];
    FoldPrefix(Step, Init(lsn0), actions, |joined| + 1);
    FoldPrefix(Step, Init(lsn0), joined + [Publish(true)], |joined|);
    assert !NoneJoins(lsn0, joined);
    OwnCommitTimes(lsn0, actions);
    TwoLogged(t.attempts);
  }

  lemma TwoLogged(attempts: seq<Attempt>)
    requires attempts == [Attempt([Inserted()], 0, 0, false), Attempt([Inserted(), Deleted()], 0, 2, false)]
    ensures Partial(attempts) && EventLog(attempts) == [T.EventOf(Inserted(), 0), T.EventOf(Deleted(), 0)]
  {
    assert attempts[..1] == [attempts[0]] && attempts[..1][..0] == [];
    assert EventLog(attempts[..1]) == [];
    assert T.EventsOf(attempts[1].actions, 0)[..2] == [T.EventOf(Inserted(), 0), T.EventOf(Deleted(), 0)];
  }
}
