/** The server's table of running consumers: update cycles that reconcile it with
    the list of servers, while consumers end on their own at any time. */
module Consumers {
  import opened Prelude
  import opened Slices

  /** A row of the server table; two rows are deeply equal when they are equal. */
  datatype Server = Server(uid: string, name: string, description: string, vpnDomainName: string, natsUrl: string,
                           extraConfig: Option<seq<int>>, auditVersion: Option<int>, auditUserGroupUid: Option<string>)

  /** `ctx` numbers the cancellable contexts in the order they are made. */
  datatype Consumer = Consumer(row: Server, ctx: nat)

  type Consumers = map<string, Consumer>

  /** Where the update cycle is. */
  datatype Phase = Resting | Cancelling(deletes: seq<Consumer>, adds: seq<Server>) | Starting(adds: seq<Server>)

  /** What the latest cycle started from, kept as history. */
  datatype Base = Base(consumers: Consumers, started: nat, cancelled: set<nat>, finished: set<nat>, listed: seq<Server>)

  datatype State = State(consumers: Consumers, wg: int, started: nat, cancelled: set<nat>, finished: set<nat>,
                         phase: Phase, base: Option<Base>)

  datatype Action =
    | Update(servers: seq<Server>, order: seq<string>)
    | CancelNext
    | Count
    | StartNext
    | Finish
    | Exit(ctx: nat)

  function Init(): State {
    State(map[], 0, 0, {}, {}, Resting, None)
  }

  // ----- the difference between the table and a listing -----

  predicate Unchanged(m: Consumers, server: Server) {
    server.uid in m && m[server.uid].row == server
  }

  function Adds(m: Consumers, servers: seq<Server>): seq<Server> {
    if servers == [] then [] else
    var last := servers[|servers| - 1];
    Adds(m, servers[..|servers| - 1]) + if Unchanged(m, last) then [] else [last]
  }

  function Changed(m: Consumers, servers: seq<Server>): seq<Consumer> {
    if servers == [] then [] else
    var last := servers[|servers| - 1];
    Changed(m, servers[..|servers| - 1]) + if last.uid in m && m[last.uid].row != last then [m[last.uid]] else []
  }

  predicate ListsUid(servers: seq<Server>, uid: string) {
    exists i :: 0 <= i < |servers| && servers[i].uid == uid
  }

  /** `order` is the order in which the map's keys are ranged over. */
  function Removed(m: Consumers, servers: seq<Server>, order: seq<string>): seq<Consumer> {
    if order == [] then [] else
    var uid := order[|order| - 1];
    Removed(m, servers, order[..|order| - 1]) + if uid in m && !ListsUid(servers, uid) then [m[uid]] else []
  }

  // ----- the machine -----

  function Step(s: State, a: Action): Option<State> {
    match a
    case Update(servers, order) =>
      if !s.phase.Resting? || !Distinct(order) || Items(order) != s.consumers.Keys then None
      else if servers == [] then Some(s)
      else Some(s.(phase := Cancelling(Changed(s.consumers, servers) + Removed(s.consumers, servers, order),
                                       Adds(s.consumers, servers)),
                   base := Some(Base(s.consumers, s.started, s.cancelled, s.finished, servers))))
    case CancelNext =>
      if !s.phase.Cancelling? || s.phase.deletes == [] then None else
      var c := s.phase.deletes[0];
      Some(s.(consumers := s.consumers - {c.row.uid}, cancelled := s.cancelled + {c.ctx},
              phase := Cancelling(s.phase.deletes[1..], s.phase.adds)))
    case Count =>
      if !s.phase.Cancelling? || s.phase.deletes != [] then None
      else Some(s.(wg := s.wg + |s.phase.adds|, phase := Starting(s.phase.adds)))
    case StartNext =>
      if !s.phase.Starting? || s.phase.adds == [] then None else
      var server := s.phase.adds[0];
      Some(s.(consumers := s.consumers[server.uid := Consumer(server, s.started)], started := s.started + 1,
              phase := Starting(s.phase.adds[1..])))
    case Finish =>
      if !s.phase.Starting? || s.phase.adds != [] then None else Some(s.(phase := Resting))
    case Exit(ctx) =>
      if ctx >= s.started || ctx in s.finished then None
      else Some(s.(finished := s.finished + {ctx}, wg := s.wg - 1))
  }

  function Run(actions: seq<Action>): Option<State> {
    Fold(Step, Init(), actions)
  }

  // ----- the cycle as the code runs it -----

  class Nefario {
    var consumersByUid: Consumers
    var wg: int
    var started: nat
    var cancelled: set<nat>
    ghost var finished: set<nat>
    ghost var base: Option<Base>

    constructor ()
      ensures At(Resting) == Init()
    {
      consumersByUid, wg, started, cancelled, finished, base := map[], 0, 0, {}, {}, None;
    }

    ghost function At(phase: Phase): State
      reads this
    {
      State(consumersByUid, wg, started, cancelled, finished, phase, base)
    }

    /** One cycle. The listing it reads may be empty, which is an error. */
    method RunUpdateCycle(servers: seq<Server>) returns (ok: bool, ghost steps: seq<Action>)
      modifies this
      ensures ok <==> servers != []
      ensures Traced(old(At(Resting)), servers, steps, At(Resting))
      ensures !ok ==> At(Resting) == old(At(Resting))
    {
      var order := Keys(consumersByUid);
      ghost var s0 := At(Resting);
      steps := [Update(servers, order)];
      TraceStarts(s0, servers, order);
      if servers == [] { return false, steps; }
      var adds, deletes := Compare(servers, order);
      base := Some(Base(consumersByUid, started, cancelled, finished, servers));
      steps := Shutdown(deletes, adds, s0, servers, steps);
      TraceGrows(s0, servers, steps, At(Cancelling([], adds)), Count);
      steps := steps + [Count];
      wg := wg + |adds|;
      steps := Startup(adds, s0, servers, steps);
      TraceGrows(s0, servers, steps, At(Starting([])), Finish);
      steps := steps + [Finish];
      ok := true;
    }

    method Shutdown(deletes: seq<Consumer>, ghost adds: seq<Server>, ghost s0: State, ghost servers: seq<Server>,
                    ghost steps0: seq<Action>)
      returns (ghost steps: seq<Action>)
      requires Traced(s0, servers, steps0, At(Cancelling(deletes, adds)))
      modifies this`consumersByUid, this`cancelled
      ensures Traced(s0, servers, steps, At(Cancelling([], adds)))
    {
      steps := steps0;
      assert deletes[0..] == deletes;
      for i := 0 to |deletes|
        invariant Traced(s0, servers, steps, At(Cancelling(deletes[i..], adds)))
      {
        TraceGrows(s0, servers, steps, At(Cancelling(deletes[i..], adds)), CancelNext);
        assert deletes[i..][1..] == deletes[i + 1..];
        cancelled := cancelled + {deletes[i].ctx};
        consumersByUid := consumersByUid - {deletes[i].row.uid};
        steps := steps + [CancelNext];
      }
    }

    method Startup(adds: seq<Server>, ghost s0: State, ghost servers: seq<Server>, ghost steps0: seq<Action>)
      returns (ghost steps: seq<Action>)
      requires Traced(s0, servers, steps0, At(Starting(adds)))
      modifies this`consumersByUid, this`started
      ensures Traced(s0, servers, steps, At(Starting([])))
    {
      steps := steps0;
      assert adds[0..] == adds;
      for i := 0 to |adds|
        invariant Traced(s0, servers, steps, At(Starting(adds[i..])))
      {
        TraceGrows(s0, servers, steps, At(Starting(adds[i..])), StartNext);
        assert adds[i..][1..] == adds[i + 1..];
        consumersByUid := consumersByUid[adds[i].uid := Consumer(adds[i], started)];
        started := started + 1;
        steps := steps + [StartNext];
      }
    }

    /** The two loops that gather what to start and what to stop. */
    method Compare(servers: seq<Server>, order: seq<string>) returns (adds: seq<Server>, deletes: seq<Consumer>)
      requires Items(order) == consumersByUid.Keys
      ensures adds == Adds(consumersByUid, servers)
      ensures deletes == Changed(consumersByUid, servers) + Removed(consumersByUid, servers, order)
    {
      adds, deletes := [], [];
      var serversByUid: map<string, Server> := map[];
      for i := 0 to |servers|
        invariant adds == Adds(consumersByUid, servers[..i]) && deletes == Changed(consumersByUid, servers[..i])
        invariant forall uid :: uid in serversByUid <==> ListsUid(servers[..i], uid)
      {
        var server := servers[i];
        ListsOneMore(servers[..i], server);
        assert servers[..i + 1] == servers[..i] + [server] && servers[..i + 1][..i] == servers[..i];
        serversByUid := serversByUid[server.uid := server];
        if server.uid !in consumersByUid {
          adds := adds + [server];
        } else if consumersByUid[server.uid].row != server {
          deletes := deletes + [consumersByUid[server.uid]];
          adds := adds + [server];
        }
      }
      assert servers[..|servers|] == servers;
      ghost var changed := deletes;
      for i := 0 to |order|
        invariant deletes == changed + Removed(consumersByUid, servers, order[..i])
      {
        assert order[..i + 1][..i] == order[..i] && order[i] in Items(order);
        if order[i] !in serversByUid {
          deletes := deletes + [consumersByUid[order[i]]];
        }
      }
      assert order[..|order|] == order;
    }
  }

  /** `steps` is a cycle over `servers`, with no consumer ending meanwhile, that
      leads from `s` to `t`. */
  ghost predicate Traced(s: State, servers: seq<Server>, steps: seq<Action>, t: State) {
    && Fold(Step, s, steps) == Some(t)
    && |steps| > 0 && steps[0].Update? && steps[0].servers == servers
    && forall k :: 0 < k < |steps| ==> !steps[k].Update? && !steps[k].Exit?
  }

  lemma TraceStarts(s: State, servers: seq<Server>, order: seq<string>)
    requires Step(s, Update(servers, order)).Some?
    ensures Traced(s, servers, [Update(servers, order)], Step(s, Update(servers, order)).value)
  {
    FoldSnoc(Step, s, [], Update(servers, order));
    assert [] + [Update(servers, order)] == [Update(servers, order)];
  }

  lemma TraceGrows(s: State, servers: seq<Server>, steps: seq<Action>, t: State, a: Action)
    requires Traced(s, servers, steps, t) && Step(t, a).Some? && !a.Update? && !a.Exit?
    ensures Traced(s, servers, steps + [a], Step(t, a).value)
  {
    FoldSnoc(Step, s, steps, a);
  }

  lemma ListsOneMore(servers: seq<Server>, server: Server)
    ensures forall uid :: ListsUid(servers + [server], uid) <==> ListsUid(servers, uid) || uid == server.uid
  {
    forall uid ensures ListsUid(servers + [server], uid) <==> ListsUid(servers, uid) || uid == server.uid {
      if ListsUid(servers, uid) {
        var i :| 0 <= i < |servers| && servers[i].uid == uid;
        assert (servers + [server])[i].uid == uid;
      }
      assert (servers + [server])[|servers|] == server;
    }
  }

  // ----- the wait group, over every run -----

  /** Goroutines started whose wg.Done has not run. */
  function Alive(s: State): set<nat> {
    set i: nat | i < s.started && i !in s.finished
  }

  /** wg.Add runs once for the whole list, before the first goroutine starts. */
  predicate Counted(s: State) {
    && s.wg == |Alive(s)| + (if s.phase.Starting? then |s.phase.adds| else 0)
    && forall i :: i in s.finished ==> i < s.started
  }

  lemma StepKeepsCount(s: State, a: Action)
    requires Counted(s) && Step(s, a).Some?
    ensures Counted(Step(s, a).value)
  {
    var t := Step(s, a).value;
    if a.StartNext? {
      assert Alive(t) == Alive(s) + {s.started};
    } else if a.Exit? {
      assert Alive(t) == Alive(s) - {a.ctx};
    } else {
      assert Alive(t) == Alive(s);
    }
  }

  /** Over any run of cycles and consumer exits, interleaved in any way, the wait
      group counts the consumers started and not yet finished. */
  lemma {:induction false} WaitGroupCountsConsumers(actions: seq<Action>)
    requires Run(actions).Some?
    ensures Counted(Run(actions).value) && Run(actions).value.wg >= 0
  {
    if actions != [] {
      var before := actions[..|actions| - 1];
      WaitGroupCountsConsumers(before);
      StepKeepsCount(Run(before).value, actions[|actions| - 1]);
    }
  }

  // ----- one cycle -----

  predicate UniqueUids(servers: seq<Server>) {
    forall i, j :: 0 <= i < j < |servers| ==> servers[i].uid != servers[j].uid
  }

  /** Every consumer is under its row's uid, with a context of its own. */
  predicate Keyed(m: Consumers, started: nat) {
    && (forall u :: u in m ==> m[u].row.uid == u && m[u].ctx < started)
    && (forall u, v :: u in m && v in m && m[u].ctx == m[v].ctx ==> u == v)
  }

  /** The consumers whose row is listed as it was. */
  function Kept(m: Consumers, servers: seq<Server>): Consumers {
    map u | u in m && m[u].row in servers :: m[u]
  }

  /** The contexts of the consumers whose row is gone or changed. */
  function Stale(m: Consumers, servers: seq<Server>): set<nat> {
    set u | u in m && m[u].row !in servers :: m[u].ctx
  }

  /** Consumers started for `adds`, in order, from context number `first`. */
  function Started(m: Consumers, first: nat, adds: seq<Server>): Consumers {
    if adds == [] then m else
    var n := |adds| - 1;
    Started(m, first, adds[..n])[adds[n].uid := Consumer(adds[n], first + n)]
  }

  lemma {:induction false} AddsAre(m: Consumers, servers: seq<Server>, x: Server)
    ensures x in Adds(m, servers) <==> x in servers && !Unchanged(m, x)
  {
    if servers != [] {
      AddsAre(m, servers[..|servers| - 1], x);
      assert servers == servers[..|servers| - 1] + [servers[|servers| - 1]];
    }
  }

  lemma {:induction false} AddsUnique(m: Consumers, servers: seq<Server>)
    requires UniqueUids(servers)
    ensures UniqueUids(Adds(m, servers))
  {
    if servers != [] {
      var n := |servers| - 1;
      AddsUnique(m, servers[..n]);
      forall i | 0 <= i < |Adds(m, servers[..n])|
        ensures Adds(m, servers[..n])[i].uid != servers[n].uid
      {
        AddsAre(m, servers[..n], Adds(m, servers[..n])[i]);
      }
    }
  }

  lemma {:induction false} ChangedAre(m: Consumers, servers: seq<Server>, c: Consumer)
    ensures c in Changed(m, servers)
            <==> exists i :: 0 <= i < |servers| && servers[i].uid in m && c == m[servers[i].uid] && c.row != servers[i]
  {
    if servers != [] {
      var n := |servers| - 1;
      ChangedAre(m, servers[..n], c);
      assert forall i :: 0 <= i < n ==> servers[..n][i] == servers[i];
    }
  }

  lemma {:induction false} RemovedAre(m: Consumers, servers: seq<Server>, order: seq<string>, c: Consumer)
    ensures c in Removed(m, servers, order)
            <==> exists i :: 0 <= i < |order| && order[i] in m && c == m[order[i]] && !ListsUid(servers, order[i])
  {
    if order != [] {
      var n := |order| - 1;
      RemovedAre(m, servers, order[..n], c);
      assert forall i :: 0 <= i < n ==> order[..n][i] == order[i];
    }
  }

  /** What the cycle cancels are the consumers whose row is not listed. */
  lemma DeletesAreStale(m: Consumers, started: nat, servers: seq<Server>, order: seq<string>, c: Consumer)
    requires Keyed(m, started) && UniqueUids(servers) && Items(order) == m.Keys
    ensures c in Changed(m, servers) + Removed(m, servers, order)
            <==> c.row.uid in m && m[c.row.uid] == c && c.row !in servers
  {
    ChangedAre(m, servers, c);
    RemovedAre(m, servers, order, c);
    if c.row.uid in m && m[c.row.uid] == c && c.row !in servers {
      if ListsUid(servers, c.row.uid) {
        var i :| 0 <= i < |servers| && servers[i].uid == c.row.uid;
        assert servers[i] != c.row;
      } else {
        assert c.row.uid in Items(order);
      }
    }
  }

  lemma ListedOnce(servers: seq<Server>, x: Server, y: Server)
    requires UniqueUids(servers) && x in servers && y in servers && x.uid == y.uid
    ensures x == y
  {
  }

  /** The uids to start are in no consumer that is kept. */
  lemma AddsAreNew(m: Consumers, started: nat, servers: seq<Server>, x: Server)
    requires Keyed(m, started) && UniqueUids(servers) && x in Adds(m, servers)
    ensures x in servers && x.uid !in Kept(m, servers)
  {
    if x in servers && x.uid in m && m[x.uid].row in servers {
      ListedOnce(servers, x, m[x.uid].row);
    }
    AddsAre(m, servers, x);
  }

  /** The contexts of the consumers of `m` that `now` no longer holds. */
  function Dropped(m: Consumers, now: Consumers): set<nat> {
    set u | u in m && u !in now :: m[u].ctx
  }

  lemma NoneDropped(m: Consumers)
    ensures Dropped(m, m) == {}
  {
  }

  /** The cancelled consumers of `b` are gone, the others are as they were. */
  predicate Untouched(b: Base, m: Consumers, deletes: seq<Consumer>, u: string) {
    && (u in m ==> u in b.consumers && m[u] == b.consumers[u])
    && (u in b.consumers ==> if b.consumers[u].row in b.listed then u in m else u in m ==> b.consumers[u] in deletes)
  }

  predicate IsStale(b: Base, c: Consumer) {
    c.row.uid in b.consumers && b.consumers[c.row.uid] == c && c.row !in b.listed
  }

  ghost predicate Stopping(b: Base, s: State, deletes: seq<Consumer>) {
    && (forall u :: Untouched(b, s.consumers, deletes, u))
    && (forall c :: c in deletes ==> IsStale(b, c))
    && s.cancelled == b.cancelled + Dropped(b.consumers, s.consumers)
    && s.started == b.started
  }

  predicate Launching(b: Base, m: Consumers, started: nat, cancelled: set<nat>, adds: seq<Server>) {
    var all := Adds(b.consumers, b.listed);
    && b.started <= started <= b.started + |all| && adds == all[started - b.started..]
    && m == Started(Kept(b.consumers, b.listed), b.started, all[..started - b.started])
    && cancelled == b.cancelled + Stale(b.consumers, b.listed)
  }

  ghost predicate InCycle(b: Base, s: State) {
    match s.phase
    case Cancelling(deletes, adds) => adds == Adds(b.consumers, b.listed) && Stopping(b, s, deletes)
    case Starting(adds) => Launching(b, s.consumers, s.started, s.cancelled, adds)
    case Resting => Launching(b, s.consumers, s.started, s.cancelled, [])
  }

  lemma UpdateBegins(s: State, servers: seq<Server>, order: seq<string>)
    requires s.phase.Resting? && Keyed(s.consumers, s.started) && UniqueUids(servers) && servers != []
    requires Step(s, Update(servers, order)).Some?
    ensures var t := Step(s, Update(servers, order)).value;
            t.base == Some(Base(s.consumers, s.started, s.cancelled, s.finished, servers)) && InCycle(t.base.value, t)
  {
    var t := Step(s, Update(servers, order)).value;
    var b := t.base.value;
    forall u ensures Untouched(b, t.consumers, t.phase.deletes, u) {
      if u in s.consumers {
        DeletesAreStale(s.consumers, s.started, servers, order, s.consumers[u]);
      }
    }
    forall c | c in t.phase.deletes ensures IsStale(b, c) {
      DeletesAreStale(s.consumers, s.started, servers, order, c);
    }
    NoneDropped(s.consumers);
  }

  lemma CancelContinues(b: Base, s: State)
    requires Keyed(b.consumers, b.started) && InCycle(b, s) && Step(s, CancelNext).Some?
    ensures InCycle(b, Step(s, CancelNext).value)
  {
    var t := Step(s, CancelNext).value;
    var deletes, c := s.phase.deletes, s.phase.deletes[0];
    assert IsStale(b, c);
    assert deletes == [c] + deletes[1..];
    forall u ensures Untouched(b, t.consumers, deletes[1..], u) {
      assert Untouched(b, s.consumers, deletes, u);
      if u in b.consumers && b.consumers[u] == c { assert u == c.row.uid; }
    }
    DroppedOneMore(b, s.consumers, c.row.uid);
    assert Untouched(b, s.consumers, deletes, c.row.uid);
    if c.row.uid !in s.consumers {
      assert s.consumers - {c.row.uid} == s.consumers;
      assert c.ctx in Dropped(b.consumers, s.consumers);
    }
  }

  lemma DroppedOneMore(b: Base, m: Consumers, uid: string)
    requires uid in b.consumers
    ensures Dropped(b.consumers, m - {uid}) == Dropped(b.consumers, m) + {b.consumers[uid].ctx}
  {
  }

  /** Nothing left to cancel: what remains is what is kept. */
  lemma StoppedIsKept(b: Base, m: Consumers)
    requires forall u :: Untouched(b, m, [], u)
    ensures m == Kept(b.consumers, b.listed) && Dropped(b.consumers, m) == Stale(b.consumers, b.listed)
  {
    var kept := Kept(b.consumers, b.listed);
    forall u ensures u in m <==> u in kept {
      assert Untouched(b, m, [], u);
    }
    forall u | u in m ensures m[u] == kept[u] {
      assert Untouched(b, m, [], u);
    }
  }

  lemma CountContinues(b: Base, s: State)
    requires InCycle(b, s) && Step(s, Count).Some?
    ensures InCycle(b, Step(s, Count).value)
  {
    var all := Adds(b.consumers, b.listed);
    assert all[0..] == all && all[..0] == [];
    StoppedIsKept(b, s.consumers);
  }

  lemma StartedNext(m: Consumers, first: nat, all: seq<Server>, k: nat)
    requires k < |all|
    ensures Started(m, first, all[..k + 1]) == Started(m, first, all[..k])[all[k].uid := Consumer(all[k], first + k)]
  {
    assert all[..k + 1][..k] == all[..k];
  }

  lemma StartLaunches(b: Base, m: Consumers, started: nat, cancelled: set<nat>, adds: seq<Server>)
    requires adds != [] && Launching(b, m, started, cancelled, adds)
    ensures Launching(b, m[adds[0].uid := Consumer(adds[0], started)], started + 1, cancelled, adds[1..])
  {
    var all, k := Adds(b.consumers, b.listed), started - b.started;
    assert all[k..][1..] == all[k + 1..];
    StartedNext(Kept(b.consumers, b.listed), b.started, all, k);
  }

  lemma StartContinues(b: Base, s: State)
    requires InCycle(b, s) && Step(s, StartNext).Some?
    ensures InCycle(b, Step(s, StartNext).value)
  {
    StartLaunches(b, s.consumers, s.started, s.cancelled, s.phase.adds);
  }

  /** `r` is `m` with a consumer for each of `adds`, from context `first`. */
  ghost predicate StartsAll(m: Consumers, first: nat, adds: seq<Server>, r: Consumers) {
    && (forall u :: u in r <==> u in m || ListsUid(adds, u))
    && (forall u :: u in m ==> r[u] == m[u])
    && (forall j :: 0 <= j < |adds| ==> r[adds[j].uid] == Consumer(adds[j], first + j))
  }

  lemma StartsOneMore(m: Consumers, first: nat, adds: seq<Server>, r: Consumers, server: Server)
    requires StartsAll(m, first, adds, r) && server.uid !in r
    ensures StartsAll(m, first, adds + [server], r[server.uid := Consumer(server, first + |adds|)])
  {
    ListsOneMore(adds, server);
    forall j | 0 <= j < |adds| ensures adds[j].uid in r {
      assert ListsUid(adds, adds[j].uid);
    }
  }

  lemma KeyedOneMore(m: Consumers, started: nat, server: Server)
    requires Keyed(m, started)
    ensures Keyed(m[server.uid := Consumer(server, started)], started + 1)
  {
  }

  lemma NotStarted(m: Consumers, first: nat, adds: seq<Server>, r: Consumers, uid: string)
    requires StartsAll(m, first, adds, r) && uid !in m && forall j :: 0 <= j < |adds| ==> adds[j].uid != uid
    ensures uid !in r
  {
    assert !ListsUid(adds, uid);
  }

  /** What starting `adds` makes of the table. */
  lemma {:induction false} StartedAre(m: Consumers, first: nat, adds: seq<Server>)
    requires Keyed(m, first) && UniqueUids(adds) && forall j :: 0 <= j < |adds| ==> adds[j].uid !in m
    ensures StartsAll(m, first, adds, Started(m, first, adds)) && Keyed(Started(m, first, adds), first + |adds|)
  {
    if adds != [] {
      var n := |adds| - 1;
      StartedAre(m, first, adds[..n]);
      assert adds == adds[..n] + [adds[n]];
      var r := Started(m, first, adds[..n]);
      NotStarted(m, first, adds[..n], r, adds[n].uid);
      StartsOneMore(m, first, adds[..n], r, adds[n]);
      KeyedOneMore(r, first + n, adds[n]);
    }
  }

  predicate Holds(m: Consumers, ctx: nat) {
    exists u :: u in m && m[u].ctx == ctx
  }

  /** No consumer is lost: each one started is in the table, or was cancelled. */
  predicate Managed(m: Consumers, started: nat, cancelled: set<nat>) {
    && (forall i: nat :: i < started ==> (i in cancelled <==> !Holds(m, i)))
    && (forall i :: i in cancelled ==> i < started)
  }

  predicate Exactly(m: Consumers, listed: seq<Server>) {
    && (forall u :: u in m ==> m[u].row in listed)
    && (forall x :: x in listed ==> x.uid in m && m[x.uid].row == x)
  }

  /** Consumers with a listed row are the same ones as before; the rest are new. */
  predicate KeepsOrStarts(b: Base, m: Consumers) {
    && (forall u :: u in b.consumers && b.consumers[u].row in b.listed ==> u in m && m[u] == b.consumers[u])
    && (forall u :: u in m && !(u in b.consumers && b.consumers[u].row in b.listed) ==> b.started <= m[u].ctx)
  }

  /** What a finished cycle has made of the state it started from. */
  predicate Reconciled(b: Base, m: Consumers, started: nat, cancelled: set<nat>) {
    && Keyed(m, started) && Exactly(m, b.listed) && KeepsOrStarts(b, m)
    && started == b.started + |Adds(b.consumers, b.listed)|
    && cancelled == b.cancelled + Stale(b.consumers, b.listed)
  }

  lemma AllAddsAreNew(m: Consumers, started: nat, servers: seq<Server>, all: seq<Server>)
    requires Keyed(m, started) && UniqueUids(servers) && all == Adds(m, servers)
    ensures forall j :: 0 <= j < |all| ==> all[j].uid !in Kept(m, servers)
    ensures forall j :: 0 <= j < |all| ==> all[j] in servers
  {
    forall j | 0 <= j < |all|
      ensures all[j].uid !in Kept(m, servers) && all[j] in servers
    {
      AddsAreNew(m, started, servers, all[j]);
    }
  }

  lemma KeptIsKeyed(m: Consumers, started: nat, servers: seq<Server>)
    requires Keyed(m, started)
    ensures Keyed(Kept(m, servers), started)
  {
  }

  /** The table after a cycle, in terms of what was added. */
  lemma CycleStarts(b: Base, s: State) returns (all: seq<Server>)
    requires Keyed(b.consumers, b.started) && UniqueUids(b.listed)
             && Launching(b, s.consumers, s.started, s.cancelled, [])
    ensures all == Adds(b.consumers, b.listed) && s.started == b.started + |all|
    ensures StartsAll(Kept(b.consumers, b.listed), b.started, all, s.consumers) && Keyed(s.consumers, s.started)
    ensures forall j :: 0 <= j < |all| ==> all[j] in b.listed
  {
    all := Adds(b.consumers, b.listed);
    assert all[..|all|] == all;
    AddsUnique(b.consumers, b.listed);
    AllAddsAreNew(b.consumers, b.started, b.listed, all);
    KeptIsKeyed(b.consumers, b.started, b.listed);
    StartedAre(Kept(b.consumers, b.listed), b.started, all);
  }

  /** Where a consumer of the table after a cycle comes from. */
  lemma FromKeptOrNew(b: Base, all: seq<Server>, m: Consumers, u: string)
    requires StartsAll(Kept(b.consumers, b.listed), b.started, all, m) && u in m
    requires forall j :: 0 <= j < |all| ==> all[j] in b.listed
    ensures m[u].row in b.listed
    ensures if u in Kept(b.consumers, b.listed) then m[u] == b.consumers[u] else b.started <= m[u].ctx
  {
    if u !in Kept(b.consumers, b.listed) {
      var j :| 0 <= j < |all| && all[j].uid == u;
    }
  }

  lemma ListedIsThere(b: Base, m: Consumers, x: Server)
    requires StartsAll(Kept(b.consumers, b.listed), b.started, Adds(b.consumers, b.listed), m) && x in b.listed
    ensures x.uid in m && m[x.uid].row == x
  {
    var all := Adds(b.consumers, b.listed);
    AddsAre(b.consumers, b.listed, x);
    if x in all {
      var j :| 0 <= j < |all| && all[j] == x;
      assert ListsUid(all, x.uid);
    } else {
      assert x.uid in Kept(b.consumers, b.listed);
    }
  }

  lemma CycleReconciles(b: Base, s: State)
    requires Keyed(b.consumers, b.started) && UniqueUids(b.listed)
             && Launching(b, s.consumers, s.started, s.cancelled, [])
    ensures Reconciled(b, s.consumers, s.started, s.cancelled)
  {
    var all := CycleStarts(b, s);
    forall x | x in b.listed ensures x.uid in s.consumers && s.consumers[x.uid].row == x {
      ListedIsThere(b, s.consumers, x);
    }
    forall u | u in s.consumers
      ensures s.consumers[u].row in b.listed && (u !in Kept(b.consumers, b.listed) ==> b.started <= s.consumers[u].ctx)
    {
      FromKeptOrNew(b, all, s.consumers, u);
    }
  }

  // ----- over every run -----

  ghost predicate Inv(s: State) {
    match s.base
    case None => s.phase.Resting? && s.consumers == map[] && s.started == 0 && s.cancelled == {}
    case Some(b) =>
      && Keyed(b.consumers, b.started) && UniqueUids(b.listed)
      && Managed(b.consumers, b.started, b.cancelled) && InCycle(b, s)
  }

  /** Contexts made by a cycle are in the table, those it drops are cancelled. */
  lemma CycleManages(b: Base, s: State)
    requires Keyed(b.consumers, b.started) && UniqueUids(b.listed) && Managed(b.consumers, b.started, b.cancelled)
    requires Launching(b, s.consumers, s.started, s.cancelled, [])
    ensures Managed(s.consumers, s.started, s.cancelled)
  {
    var all := CycleStarts(b, s);
    CycleReconciles(b, s);
    CancelledAreOld(b);
    forall i: nat | i < s.started ensures i in s.cancelled <==> !Holds(s.consumers, i) {
      if i >= b.started {
        NewContext(Kept(b.consumers, b.listed), b.started, all, s.consumers, i);
      } else {
        OldContext(b, s.consumers, i);
      }
    }
  }

  lemma CancelledAreOld(b: Base)
    requires Keyed(b.consumers, b.started) && Managed(b.consumers, b.started, b.cancelled)
    ensures forall i :: i in b.cancelled + Stale(b.consumers, b.listed) ==> i < b.started
  {
  }

  lemma NewContext(m: Consumers, first: nat, adds: seq<Server>, r: Consumers, i: nat)
    requires StartsAll(m, first, adds, r) && first <= i < first + |adds|
    ensures Holds(r, i)
  {
    assert ListsUid(adds, adds[i - first].uid);
    assert r[adds[i - first].uid].ctx == i;
  }

  lemma OldContext(b: Base, m: Consumers, i: nat)
    requires Keyed(b.consumers, b.started) && Managed(b.consumers, b.started, b.cancelled) && i < b.started
    requires KeepsOrStarts(b, m)
    ensures i in b.cancelled + Stale(b.consumers, b.listed) <==> !Holds(m, i)
  {
    if Holds(m, i) {
      var u :| u in m && m[u].ctx == i;
      assert u in b.consumers && b.consumers[u].ctx == i && b.consumers[u].row in b.listed;
      assert Holds(b.consumers, i);
    } else if Holds(b.consumers, i) {
      var u :| u in b.consumers && b.consumers[u].ctx == i;
      assert b.consumers[u].row !in b.listed;
      assert i in Stale(b.consumers, b.listed);
    }
  }

  lemma StepKeepsInv(s: State, a: Action)
    requires Inv(s) && Step(s, a).Some? && (a.Update? ==> UniqueUids(a.servers))
    ensures Inv(Step(s, a).value)
  {
    match a
    case Update(servers, order) =>
      if s.base.Some? {
        CycleReconciles(s.base.value, s);
        CycleManages(s.base.value, s);
      }
      if servers != [] { UpdateBegins(s, servers, order); }
    case CancelNext => CancelContinues(s.base.value, s);
    case Count => CountContinues(s.base.value, s);
    case StartNext => StartContinues(s.base.value, s);
    case _ =>
  }

  lemma {:induction false} InvOverRuns(actions: seq<Action>)
    requires Run(actions).Some?
    requires forall i :: 0 <= i < |actions| && actions[i].Update? ==> UniqueUids(actions[i].servers)
    ensures Inv(Run(actions).value)
  {
    if actions != [] {
      var before := actions[..|actions| - 1];
      InvOverRuns(before);
      StepKeepsInv(Run(before).value, actions[|actions| - 1]);
    }
  }

  /** In any run, however consumers end meanwhile: once a cycle is over, the table
      holds exactly the listed servers, the unchanged consumers are the ones
      there were, exactly the others were cancelled, and none is lost. */
  lemma CyclesReconcile(actions: seq<Action>)
    requires Run(actions).Some?
    requires forall i :: 0 <= i < |actions| && actions[i].Update? ==> UniqueUids(actions[i].servers)
    ensures var s := Run(actions).value;
            s.phase.Resting? && s.base.Some? ==>
              && Reconciled(s.base.value, s.consumers, s.started, s.cancelled)
              && Managed(s.consumers, s.started, s.cancelled)
  {
    InvOverRuns(actions);
    var s := Run(actions).value;
    if s.phase.Resting? && s.base.Some? {
      CycleReconciles(s.base.value, s);
      CycleManages(s.base.value, s);
    }
  }

  lemma {:induction false} BaseStays(s: State, steps: seq<Action>)
    requires Fold(Step, s, steps).Some? && forall i :: 0 <= i < |steps| ==> !steps[i].Update?
    ensures Fold(Step, s, steps).value.base == s.base
  {
    if steps != [] { BaseStays(s, steps[..|steps| - 1]); }
  }

  /** The object's cycle, from any state a run leads to: it reconciles the table
      it found with the rows it read. */
  lemma ObjectCycleReconciles(actions: seq<Action>, s: State, servers: seq<Server>, steps: seq<Action>, t: State)
    requires Run(actions) == Some(s)
    requires forall i :: 0 <= i < |actions| && actions[i].Update? ==> UniqueUids(actions[i].servers)
    requires Traced(s, servers, steps, t) && UniqueUids(servers) && servers != [] && t.phase.Resting?
    ensures Reconciled(Base(s.consumers, s.started, s.cancelled, s.finished, servers), t.consumers, t.started,
                       t.cancelled)
  {
    var s1 := Step(s, steps[0]);
    assert steps[..1] == [steps[0]] && steps == steps[..1] + steps[1..];
    FoldPrefix(Step, s, steps, 1);
    assert [] + [steps[0]] == [steps[0]];
    FoldSnoc(Step, s, [], steps[0]);
    FoldFirst(Step, s, steps[0], s1.value, steps[1..]);
    BaseStays(s1.value, steps[1..]);
    FoldCompose(Step, Init(), actions, steps);
    CyclesReconcile(actions + steps);
  }

  /** Repeating a cycle with the same rows changes nothing. */
  lemma RepeatedCycleIsIdle(b: Base, m: Consumers, started: nat, cancelled: set<nat>)
    requires Exactly(b.consumers, b.listed) && Reconciled(b, m, started, cancelled)
    ensures m == b.consumers && started == b.started && cancelled == b.cancelled
  {
    var all := Adds(b.consumers, b.listed);
    if all != [] {
      AddsAre(b.consumers, b.listed, all[0]);
    }
    assert Stale(b.consumers, b.listed) == {};
    assert forall u :: u in m ==> m[u].row in b.listed;
  }

  // ----- who is alive after a cycle -----

  /** Goroutines only end; those a cycle starts were not there when it began. */
  predicate Ending(s: State) {
    && (forall i :: i in s.finished ==> i < s.started)
    && (s.base.Some? ==>
          && s.base.value.finished <= s.finished
          && forall i :: i in s.base.value.finished ==> i < s.base.value.started)
  }

  lemma {:induction false} EndingOverRuns(actions: seq<Action>)
    requires Run(actions).Some?
    ensures Ending(Run(actions).value)
  {
    if actions != [] { EndingOverRuns(actions[..|actions| - 1]); }
  }

  /** A consumer that ended on its own keeps its entry: in any run, after a cycle,
      the listed server `x` has no live consumer if and only if its row was
      already there, unchanged, with a consumer that had ended before the cycle
      began, or its consumer has ended since. */
  lemma EndedConsumersStay(actions: seq<Action>, x: Server)
    requires Run(actions).Some?
    requires forall i :: 0 <= i < |actions| && actions[i].Update? ==> UniqueUids(actions[i].servers)
    requires Run(actions).value.phase.Resting? && Run(actions).value.base.Some?
             && x in Run(actions).value.base.value.listed
    ensures var s := Run(actions).value;
            var b := s.base.value;
            && x.uid in s.consumers
            && var ctx := s.consumers[x.uid].ctx;
               && ctx < s.started
               && (ctx !in Alive(s) <==>
                     (Unchanged(b.consumers, x) && b.consumers[x.uid].ctx in b.finished)
                       || ctx in s.finished - b.finished)
  {
    CyclesReconcile(actions);
    EndingOverRuns(actions);
    InvOverRuns(actions);
    var s := Run(actions).value;
    if Unchanged(s.base.value.consumers, x) {
      assert s.consumers[x.uid] == s.base.value.consumers[x.uid];
    } else {
      assert s.base.value.started <= s.consumers[x.uid].ctx by { ChangedIsNew(s.base.value, s.consumers, x); }
    }
  }

  lemma ChangedIsNew(b: Base, m: Consumers, x: Server)
    requires Keyed(b.consumers, b.started) && UniqueUids(b.listed) && KeepsOrStarts(b, m)
    requires x in b.listed && x.uid in m && !Unchanged(b.consumers, x)
    ensures b.started <= m[x.uid].ctx
  {
    if x.uid in b.consumers && b.consumers[x.uid].row in b.listed {
      ListedOnce(b.listed, x, b.consumers[x.uid].row);
    }
  }

  /** One server listed, its consumer started and ended. */
  lemma StartsAndEnds(x: Server, more: seq<Action>) returns (s: State)
    ensures Run([Update([x], [])] + ([Count] + ([StartNext] + ([Finish] + ([Exit(0)] + more))))) == Fold(Step, s, more)
    ensures s.phase.Resting? && s.consumers == map[x.uid := Consumer(x, 0)] && s.started == 1 && s.finished == {0}
  {
    assert Adds(map[], [x]) == [x] && Changed(map[], [x]) + Removed(map[], [x], []) == [];
    var s1 := Step(Init(), Update([x], [])).value;
    var s2 := Step(s1, Count).value;
    var s3 := Step(s2, StartNext).value;
    var s4 := Step(s3, Finish).value;
    s := Step(s4, Exit(0)).value;
    FoldFirst(Step, s4, Exit(0), s, more);
    FoldFirst(Step, s3, Finish, s4, [Exit(0)] + more);
    FoldFirst(Step, s2, StartNext, s3, [Finish] + ([Exit(0)] + more));
    FoldFirst(Step, s1, Count, s2, [StartNext] + ([Finish] + ([Exit(0)] + more)));
    FoldFirst(Step, Init(), Update([x], []), s1, [Count] + ([StartNext] + ([Finish] + ([Exit(0)] + more))));
  }

  /** The next cycle over the same listing starts nothing. */
  lemma UpdatesIdly(s: State, x: Server) returns (t: State)
    requires s.phase.Resting? && s.consumers == map[x.uid := Consumer(x, 0)]
    ensures Fold(Step, s, [Update([x], [x.uid])] + ([Count] + ([Finish] + []))) == Some(t)
    ensures t.phase.Resting? && t.consumers == s.consumers && t.started == s.started && t.finished == s.finished
    ensures t.base == Some(Base(s.consumers, s.started, s.cancelled, s.finished, [x]))
  {
    assert [x][0].uid == x.uid && ListsUid([x], x.uid);
    assert Adds(s.consumers, [x]) == [] && Changed(s.consumers, [x]) + Removed(s.consumers, [x], [x.uid]) == [];
    var s1 := Step(s, Update([x], [x.uid])).value;
    var s2 := Step(s1, Count).value;
    t := Step(s2, Finish).value;
    FoldFirst(Step, s2, Finish, t, []);
    FoldFirst(Step, s1, Count, s2, [Finish] + []);
    FoldFirst(Step, s, Update([x], [x.uid]), s1, [Count] + ([Finish] + []));
  }

  /** For every server there is such a run: its consumer ends on its own, the next
      cycle lists it again, and it is left without a live consumer. */
  lemma ConsumerIsNotRestarted(x: Server) returns (actions: seq<Action>)
    ensures Run(actions).Some?
    ensures var s := Run(actions).value;
            && s.phase.Resting? && s.base.Some? && x in s.base.value.listed && x.uid in s.consumers
            && s.consumers[x.uid].ctx in s.base.value.finished && Alive(s) == {}
  {
    var cycle := [Update([x], [x.uid])] + ([Count] + ([Finish] + []));
    var s := StartsAndEnds(x, cycle);
    var t := UpdatesIdly(s, x);
    actions := [Update([x], [])] + ([Count] + ([StartNext] + ([Finish] + ([Exit(0)] + cycle))));
  }

  // ----- a cycle ends -----

  /** What is left to do in a cycle. */
  function Left(s: State): nat {
    match s.phase
    case Resting => 0
    case Cancelling(deletes, adds) => |deletes| + |adds| + 3
    case Starting(adds) => |adds| + 1
  }

  /** The cycle's own next step. */
  function NextOf(s: State): Action
    requires !s.phase.Resting?
  {
    if s.phase.Cancelling? then (if s.phase.deletes != [] then CancelNext else Count)
    else if s.phase.adds != [] then StartNext else Finish
  }

  /** A cycle always has a next step, each of which brings its end nearer; no
      consumer's end holds it up. */
  lemma CycleEnds(s: State, a: Action)
    ensures !s.phase.Resting? ==> Step(s, NextOf(s)).Some? && Left(Step(s, NextOf(s)).value) < Left(s)
    ensures Step(s, a).Some? && a.Exit? ==> Left(Step(s, a).value) == Left(s)
  {
  }
}
