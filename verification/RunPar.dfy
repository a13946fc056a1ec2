/** One goroutine per item, results over a channel with room for all of them. */
module RunPar {
  import opened Prelude
  import opened Tally

  /** Where an item's goroutine is: not started, before its send, about to call
      wg.Done, ended. */
  datatype Pc = Unborn | Running | Finishing | Gone

  /** `output` is what the runner makes of the item. */
  datatype Worker<B> = Worker(output: B, pc: Pc)

  datatype Main = Launching(next: nat) | Waiting | Closing | Collecting | Returned

  datatype State<B> = State(workers: seq<Worker<B>>, wg: int, main: Main, queue: seq<B>, closed: bool, results: seq<B>,
                            panicked: bool)

  datatype Action =
    | Launch
    | Wait
    | Send(worker: nat)
    | SendOnClosed(worker: nat)
    | Done(worker: nat)
    | Wake
    | Close
    | Receive
    | EndRange

  function Mapped<A, B>(items: seq<A>, runner: A -> B): seq<B> {
    seq(|items|, i requires 0 <= i < |items| => runner(items[i]))
  }

  function Init<B>(outputs: seq<B>): State<B> {
    State(seq(|outputs|, i requires 0 <= i < |outputs| => Worker(outputs[i], Unborn)), 0, Launching(0),
          [], false, [], false)
  }

  /** Steps of the goroutine of item `i`; the channel has one slot per item. */
  function WorkerStep<B>(s: State<B>, a: Action, i: nat): Option<State<B>>
    requires i < |s.workers|
  {
    var w := s.workers[i];
    if a.Send? && w.pc.Running? && !s.closed && |s.queue| < |s.workers| then
      Some(s.(workers := s.workers[i := w.(pc := Finishing)], queue := s.queue + [w.output]))
    else if a.SendOnClosed? && w.pc.Running? && s.closed then
      Some(s.(panicked := true))
    else if a.Done? && w.pc.Finishing? then
      Some(s.(workers := s.workers[i := w.(pc := Gone)], wg := s.wg - 1, panicked := s.panicked || s.wg <= 0))
    else None
  }

  function MainStep<B>(s: State<B>, a: Action): Option<State<B>> {
    match a
    case Launch =>
      if !s.main.Launching? || s.main.next >= |s.workers| then None
      else Some(s.(workers := s.workers[s.main.next := s.workers[s.main.next].(pc := Running)],
                   wg := s.wg + 1, main := Launching(s.main.next + 1)))
    case Wait =>
      if !s.main.Launching? || s.main.next < |s.workers| then None else Some(s.(main := Waiting))
    case Wake =>
      if !s.main.Waiting? || s.wg != 0 then None else Some(s.(main := Closing))
    case Close =>
      if !s.main.Closing? then None
      else Some(s.(main := Collecting, closed := true, panicked := s.panicked || s.closed))
    case Receive =>
      if !s.main.Collecting? || s.queue == [] then None
      else Some(s.(queue := s.queue[1..], results := s.results + [s.queue[0]]))
    case EndRange =>
      if !s.main.Collecting? || s.queue != [] || !s.closed then None else Some(s.(main := Returned))
    case _ => None
  }

  predicate ByWorker(a: Action) {
    a.Send? || a.SendOnClosed? || a.Done?
  }

  function Step<B>(s: State<B>, a: Action): Option<State<B>> {
    if !ByWorker(a) then MainStep(s, a) else if a.worker < |s.workers| then WorkerStep(s, a, a.worker) else None
  }

  function Run<B>(outputs: seq<B>, actions: seq<Action>): Option<State<B>> {
    Fold(Step, Init(outputs), actions)
  }

  // ----- what every step keeps -----

  function Alive<B>(w: Worker<B>): nat {
    if w.pc.Running? || w.pc.Finishing? then 1 else 0
  }

  /** The output a worker has still to send. */
  function Owed<B>(w: Worker<B>): seq<B> {
    if w.pc.Unborn? || w.pc.Running? then [w.output] else []
  }

  function Owing<B>(w: Worker<B>): nat {
    |Owed(w)|
  }

  predicate WorkerOk<B>(w: Worker<B>, i: nat, main: Main) {
    main.Launching? && i >= main.next <==> w.pc.Unborn?
  }

  predicate Ordered<B>(s: State<B>) {
    && (s.main.Launching? ==> s.main.next <= |s.workers|)
    && (forall i :: 0 <= i < |s.workers| ==> WorkerOk(s.workers[i], i, s.main))
    && (s.closed <==> s.main.Collecting? || s.main.Returned?)
    && (s.main.Closing? || s.main.Collecting? || s.main.Returned? ==> s.wg == 0)
    && (s.main.Returned? ==> s.queue == [])
  }

  ghost predicate Accounted<B>(s: State<B>, outputs: seq<B>) {
    && s.wg == Total(Alive, s.workers)
    && multiset(s.results + s.queue) + Held(Owed, s.workers) == multiset(outputs)
    && |s.results| + |s.queue| + Total(Owing, s.workers) == |s.workers|
  }

  ghost predicate Inv<B>(s: State<B>, outputs: seq<B>) {
    !s.panicked && Ordered(s) && Accounted(s, outputs)
  }

  lemma SomeoneAlive<B>(s: State<B>, outputs: seq<B>, i: nat)
    requires i < |s.workers| && (s.workers[i].pc.Running? || s.workers[i].pc.Finishing?) && Inv(s, outputs)
    ensures s.wg > 0 && !s.closed && !s.main.Closing?
    ensures s.workers[i].pc.Running? ==> |s.queue| < |s.workers|
  {
    TotalAtLeast(Alive, s.workers, i);
    TotalAtLeast(Owing, s.workers, i);
  }

  lemma WorkerStepOrders<B>(s: State<B>, a: Action, i: nat)
    requires Ordered(s) && !s.panicked && i < |s.workers| && s.wg > 0 && WorkerStep(s, a, i).Some?
    ensures Ordered(WorkerStep(s, a, i).value) && !WorkerStep(s, a, i).value.panicked
  {
    var t := WorkerStep(s, a, i).value;
    assert WorkerOk(s.workers[i], i, s.main);
    forall k | 0 <= k < |t.workers| ensures WorkerOk(t.workers[k], k, t.main) {
      assert WorkerOk(s.workers[k], k, s.main);
    }
  }

  /** A worker moves on, still owing what it owed. */
  lemma MoveAccounts<B>(s: State<B>, i: nat, pc: Pc)
    requires i < |s.workers| && Owed(s.workers[i].(pc := pc)) == Owed(s.workers[i])
    ensures var ws := s.workers[i := s.workers[i].(pc := pc)];
            && Total(Alive, ws) + Alive(s.workers[i]) == Total(Alive, s.workers) + Alive(s.workers[i].(pc := pc))
            && Total(Owing, ws) == Total(Owing, s.workers)
            && Held(Owed, ws) == Held(Owed, s.workers)
  {
    TotalUpdate(Alive, s.workers, i, s.workers[i].(pc := pc));
    TotalUpdate(Owing, s.workers, i, s.workers[i].(pc := pc));
    KeepsHold(Owed, s.workers, i, s.workers[i].(pc := pc));
  }

  lemma SendAccounts<B>(s: State<B>, outputs: seq<B>, i: nat)
    requires Accounted(s, outputs) && i < |s.workers| && s.workers[i].pc.Running?
    ensures var w := s.workers[i];
            Accounted(s.(workers := s.workers[i := w.(pc := Finishing)], queue := s.queue + [w.output]), outputs)
  {
    var w := s.workers[i];
    TotalUpdate(Alive, s.workers, i, w.(pc := Finishing));
    TotalUpdate(Owing, s.workers, i, w.(pc := Finishing));
    HandOver(Owed, s.workers, i, w.(pc := Finishing), s.results + s.queue, w.output, multiset(outputs));
    Associative(s.results, s.queue, [w.output]);
  }

  lemma WorkerStepAccounts<B>(s: State<B>, outputs: seq<B>, a: Action, i: nat)
    requires Accounted(s, outputs) && i < |s.workers| && !s.closed && WorkerStep(s, a, i).Some?
    ensures Accounted(WorkerStep(s, a, i).value, outputs)
  {
    if a.Send? { SendAccounts(s, outputs, i); } else { MoveAccounts(s, i, Gone); }
  }

  lemma MainStepOrders<B>(s: State<B>, a: Action)
    requires Ordered(s) && !s.panicked && MainStep(s, a).Some?
    ensures Ordered(MainStep(s, a).value) && !MainStep(s, a).value.panicked
  {
    var t := MainStep(s, a).value;
    forall k | 0 <= k < |t.workers| ensures WorkerOk(t.workers[k], k, t.main) {
      assert WorkerOk(s.workers[k], k, s.main);
    }
  }

  lemma MainStepAccounts<B>(s: State<B>, outputs: seq<B>, a: Action)
    requires Ordered(s) && Accounted(s, outputs) && MainStep(s, a).Some?
    ensures Accounted(MainStep(s, a).value, outputs)
  {
    if a.Launch? {
      assert WorkerOk(s.workers[s.main.next], s.main.next, s.main);
      MoveAccounts(s, s.main.next, Running);
    } else if a.Receive? {
      assert s.results + [s.queue[0]] + s.queue[1..] == s.results + s.queue;
    }
  }

  lemma StepKeepsInv<B>(s: State<B>, outputs: seq<B>, a: Action)
    requires Inv(s, outputs) && Step(s, a).Some?
    ensures Inv(Step(s, a).value, outputs)
  {
    if ByWorker(a) {
      SomeoneAlive(s, outputs, a.worker);
      WorkerStepOrders(s, a, a.worker);
      WorkerStepAccounts(s, outputs, a, a.worker);
    } else {
      MainStepOrders(s, a);
      MainStepAccounts(s, outputs, a);
    }
  }

  lemma {:induction false} AllOwedAtFirst<B>(outputs: seq<B>)
    ensures Held(Owed, Init(outputs).workers) == multiset(outputs)
  {
    if outputs != [] {
      var k := |outputs| - 1;
      AllOwedAtFirst(outputs[..k]);
      assert Init(outputs).workers[..k] == Init(outputs[..k]).workers;
      assert outputs == outputs[..k] + [outputs[k]];
    }
  }

  lemma InitHolds<B>(outputs: seq<B>)
    ensures Inv(Init(outputs), outputs)
  {
    TotalOfConstant(Alive, Init(outputs).workers, 0);
    TotalOfConstant(Owing, Init(outputs).workers, 1);
    AllOwedAtFirst(outputs);
  }

  /** Over every run: no send after the close, no second close, no negative wait
      group, and no output is lost or doubled. */
  lemma {:induction false} SafeOverRuns<B>(outputs: seq<B>, actions: seq<Action>)
    requires Run(outputs, actions).Some?
    ensures Inv(Run(outputs, actions).value, outputs)
  {
    if actions == [] {
      InitHolds(outputs);
    } else {
      var n := |actions| - 1;
      SafeOverRuns(outputs, actions[..n]);
      StepKeepsInv(Run(outputs, actions[..n]).value, outputs, actions[n]);
    }
  }

  lemma {:induction false} SameWorkers<B>(outputs: seq<B>, actions: seq<Action>)
    requires Run(outputs, actions).Some?
    ensures var s := Run(outputs, actions).value;
            |s.workers| == |outputs| && forall i :: 0 <= i < |outputs| ==> s.workers[i].output == outputs[i]
  {
    if actions != [] { SameWorkers(outputs, actions[..|actions| - 1]); }
  }

  /** The same without the monitors. In every run, as long as a goroutine that was
      started is not gone, the channel is open and the wait group positive; one
      that has still to send finds room, and puts its own item's output there. */
  lemma NothingGoesWrong<B>(outputs: seq<B>, actions: seq<Action>, i: nat)
    requires Run(outputs, actions).Some? && i < |outputs|
    ensures var s := Run(outputs, actions).value;
            && |s.workers| == |outputs| && |s.queue| <= |outputs| && (s.main.Closing? ==> !s.closed)
            && (s.workers[i].pc.Running? || s.workers[i].pc.Finishing? ==> !s.closed && s.wg > 0 && !s.main.Closing?)
            && Step(s, SendOnClosed(i)).None?
            && (s.workers[i].pc.Running? ==>
                  |s.queue| < |outputs|
                  && Step(s, Send(i)).Some? && Step(s, Send(i)).value.queue == s.queue + [outputs[i]])
  {
    SafeOverRuns(outputs, actions);
    SameWorkers(outputs, actions);
    var s := Run(outputs, actions).value;
    if s.workers[i].pc.Running? || s.workers[i].pc.Finishing? { SomeoneAlive(s, outputs, i); }
  }

  // ----- every run ends -----

  function WorkerRank<B>(w: Worker<B>): nat {
    match w.pc
    case Unborn => 4
    case Running => 3
    case Finishing => 1
    case Gone => 0
  }

  /** The steps that may still be taken, at most. */
  function Rank<B>(s: State<B>): nat {
    Total(WorkerRank, s.workers) + |s.queue|
    + match s.main case Launching(_) => 4 case Waiting => 3 case Closing => 2 case Collecting => 1 case Returned => 0
  }

  lemma MoveLowersRank<B>(s: State<B>, i: nat, pc: Pc)
    requires i < |s.workers|
    ensures Total(WorkerRank, s.workers[i := s.workers[i].(pc := pc)]) + WorkerRank(s.workers[i])
            == Total(WorkerRank, s.workers) + WorkerRank(s.workers[i].(pc := pc))
  {
    TotalUpdate(WorkerRank, s.workers, i, s.workers[i].(pc := pc));
  }

  /** A send frees a worker of two steps and leaves one in the channel. */
  lemma WorkerStepLowersRank<B>(s: State<B>, a: Action, i: nat)
    requires i < |s.workers| && !s.closed && WorkerStep(s, a, i).Some?
    ensures Rank(WorkerStep(s, a, i).value) < Rank(s)
  {
    MoveLowersRank(s, i, WorkerStep(s, a, i).value.workers[i].pc);
  }

  lemma MainStepLowersRank<B>(s: State<B>, a: Action)
    requires Ordered(s) && MainStep(s, a).Some?
    ensures Rank(MainStep(s, a).value) < Rank(s)
  {
    if a.Launch? {
      assert WorkerOk(s.workers[s.main.next], s.main.next, s.main);
      MoveLowersRank(s, s.main.next, Running);
    }
  }

  lemma StepLowersRank<B>(s: State<B>, outputs: seq<B>, a: Action)
    requires Inv(s, outputs) && Step(s, a).Some?
    ensures Rank(Step(s, a).value) < Rank(s)
  {
    if ByWorker(a) {
      SomeoneAlive(s, outputs, a.worker);
      WorkerStepLowersRank(s, a, a.worker);
    } else {
      MainStepLowersRank(s, a);
    }
  }

  lemma {:induction false} RunsAreBounded<B>(outputs: seq<B>, actions: seq<Action>)
    requires Run(outputs, actions).Some?
    ensures |actions| + Rank(Run(outputs, actions).value) <= 4 * |outputs| + 4
  {
    if actions == [] {
      TotalOfConstant(WorkerRank, Init(outputs).workers, 4);
    } else {
      var n := |actions| - 1;
      RunsAreBounded(outputs, actions[..n]);
      SafeOverRuns(outputs, actions[..n]);
      StepLowersRank(Run(outputs, actions[..n]).value, outputs, actions[n]);
    }
  }

  predicate AllGone<B>(s: State<B>) {
    forall i :: 0 <= i < |s.workers| ==> s.workers[i].pc.Gone?
  }

  lemma NoneAlive<B>(s: State<B>)
    requires AllGone(s)
    ensures Total(Alive, s.workers) == 0 && Held(Owed, s.workers) == multiset{}
  {
    TotalOfConstant(Alive, s.workers, 0);
    HeldNothing(Owed, s.workers);
  }

  lemma WorkerGoesOn<B>(s: State<B>, outputs: seq<B>, i: nat) returns (a: Action)
    requires Inv(s, outputs) && i < |s.workers| && (s.workers[i].pc.Running? || s.workers[i].pc.Finishing?)
    ensures Step(s, a).Some?
  {
    SomeoneAlive(s, outputs, i);
    a := if s.workers[i].pc.Running? then Send(i) else Done(i);
  }

  lemma MainGoesOn<B>(s: State<B>) returns (a: Action)
    requires Ordered(s) && !s.main.Returned? && (s.main.Waiting? ==> s.wg == 0)
    ensures Step(s, a).Some?
  {
    a := match s.main
      case Launching(next) => if next < |s.workers| then Launch else Wait
      case Waiting => Wake
      case Closing => Close
      case _ => if s.queue != [] then Receive else EndRange;
  }

  lemma SomeStepIsEnabled<B>(s: State<B>, outputs: seq<B>) returns (a: Action)
    requires Inv(s, outputs) && !s.main.Returned?
    ensures Step(s, a).Some?
  {
    if !s.main.Launching? && !AllGone(s) {
      var i :| 0 <= i < |s.workers| && !s.workers[i].pc.Gone?;
      assert WorkerOk(s.workers[i], i, s.main);
      a := WorkerGoesOn(s, outputs, i);
    } else {
      if AllGone(s) { NoneAlive(s); }
      a := MainGoesOn(s);
    }
  }

  lemma ReturnedHasAll<B>(s: State<B>, outputs: seq<B>)
    requires Inv(s, outputs) && s.main.Returned?
    ensures AllGone(s) && multiset(s.results) == multiset(outputs)
  {
    forall i | 0 <= i < |s.workers| ensures s.workers[i].pc.Gone? {
      assert WorkerOk(s.workers[i], i, s.main);
      if !s.workers[i].pc.Gone? { SomeoneAlive(s, outputs, i); }
    }
    NoneAlive(s);
    assert s.results + s.queue == s.results;
  }

  /** For every number of items and every schedule: no panic, a worker that is
      about to send never blocks, the call is never stuck (and runs are bounded,
      see RunsAreBounded), and what it returns is a permutation of the runner
      mapped over the items. */
  lemma ResultsArePermutation<A, B>(items: seq<A>, runner: A -> B, actions: seq<Action>)
    requires Run(Mapped(items, runner), actions).Some?
    ensures var s := Run(Mapped(items, runner), actions).value;
            && !s.panicked
            && (forall i :: 0 <= i < |s.workers| && s.workers[i].pc.Running? ==> Step(s, Send(i)).Some?)
            && (s.main.Returned? || exists a :: Step(s, a).Some?)
            && (s.main.Returned? ==> AllGone(s) && multiset(s.results) == multiset(Mapped(items, runner)))
  {
    var outputs := Mapped(items, runner);
    SafeOverRuns(outputs, actions);
    var s := Run(outputs, actions).value;
    forall i | 0 <= i < |s.workers| && s.workers[i].pc.Running? ensures Step(s, Send(i)).Some? {
      SomeoneAlive(s, outputs, i);
    }
    if !s.main.Returned? { var a := SomeStepIsEnabled(s, outputs); } else { ReturnedHasAll(s, outputs); }
  }
}
