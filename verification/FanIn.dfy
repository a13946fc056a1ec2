/** Several app functions run side by side; their errors come together over one
    unbuffered channel that is closed when the last of them is done. */
module FanIn {
  import opened Prelude
  import opened Tally

  type Error = string

  /** Where a worker's goroutine is: not started, in its app function, sending the
      error, about to call wg.Done, ended. */
  datatype Pc = Unborn | Running | Sending | Finishing | Gone

  /** `result` is what the app function returns. */
  datatype Worker = Worker(result: Option<Error>, pc: Pc)

  datatype Main = Launching(next: nat) | Collecting | Joined

  datatype Closer = NoCloser | Waiting | Closing | Ended

  datatype State = State(workers: seq<Worker>, wg: int, main: Main, closer: Closer, closed: bool,
                         collected: seq<Error>, panicked: bool)

  datatype Action =
    | Launch
    | LaunchCloser
    | Return(worker: nat)
    | Deliver(worker: nat)
    | SendOnClosed(worker: nat)
    | Done(worker: nat)
    | Wake
    | Close
    | EndRange

  function Init(results: seq<Option<Error>>): State {
    State(seq(|results|, i requires 0 <= i < |results| => Worker(results[i], Unborn)), |results|, Launching(0),
          NoCloser, false, [], false)
  }

  /** The steps of the worker goroutines. */
  function WorkerStep(s: State, a: Action, i: nat): Option<State>
    requires i < |s.workers|
  {
    var w := s.workers[i];
    if a.Return? && w.pc.Running? then
      Some(s.(workers := s.workers[i := w.(pc := if w.result.Some? then Sending else Finishing)]))
    else if a.Deliver? && w.pc.Sending? && w.result.Some? && s.main.Collecting? && !s.closed then
      Some(s.(workers := s.workers[i := w.(pc := Finishing)], collected := s.collected + [w.result.value]))
    else if a.SendOnClosed? && w.pc.Sending? && s.closed then
      Some(s.(panicked := true))
    else if a.Done? && w.pc.Finishing? then
      Some(s.(workers := s.workers[i := w.(pc := Gone)], wg := s.wg - 1, panicked := s.panicked || s.wg <= 0))
    else None
  }

  /** The steps of the launching goroutine, which then collects, and of the closer. */
  function MainStep(s: State, a: Action): Option<State> {
    match a
    case Launch =>
      if !s.main.Launching? || s.main.next >= |s.workers| then None
      else Some(s.(workers := s.workers[s.main.next := s.workers[s.main.next].(pc := Running)],
                   main := Launching(s.main.next + 1)))
    case LaunchCloser =>
      if !s.main.Launching? || s.main.next < |s.workers| then None else Some(s.(main := Collecting, closer := Waiting))
    case EndRange =>
      if !s.main.Collecting? || !s.closed then None else Some(s.(main := Joined))
    case Wake =>
      if !s.closer.Waiting? || s.wg != 0 then None else Some(s.(closer := Closing))
    case Close =>
      if !s.closer.Closing? then None else Some(s.(closer := Ended, closed := true, panicked := s.panicked || s.closed))
    case _ => None
  }

  predicate ByWorker(a: Action) {
    a.Return? || a.Deliver? || a.SendOnClosed? || a.Done?
  }

  function Step(s: State, a: Action): Option<State> {
    if !ByWorker(a) then MainStep(s, a) else if a.worker < |s.workers| then WorkerStep(s, a, a.worker) else None
  }

  function Run(results: seq<Option<Error>>, actions: seq<Action>): Option<State> {
    Fold(Step, Init(results), actions)
  }

  // ----- what every step keeps -----

  function Alive(w: Worker): nat {
    if w.pc.Gone? then 0 else 1
  }

  /** The error a worker has still to hand over. */
  function Owed(w: Worker): seq<Error> {
    if w.result.Some? && !w.pc.Finishing? && !w.pc.Gone? then [w.result.value] else []
  }

  /** The errors the app functions return, nil left out. */
  function NonNil(results: seq<Option<Error>>): seq<Error> {
    if results == [] then [] else
    var last := results[|results| - 1];
    NonNil(results[..|results| - 1]) + if last.Some? then [last.value] else []
  }

  predicate WorkerOk(w: Worker, i: nat, main: Main) {
    && (w.pc.Sending? ==> w.result.Some?)
    && (main.Launching? && i >= main.next <==> w.pc.Unborn?)
  }

  /** Control: who is where. */
  predicate Ordered(s: State) {
    && (s.main.Launching? ==> s.main.next <= |s.workers|)
    && (forall i :: 0 <= i < |s.workers| ==> WorkerOk(s.workers[i], i, s.main))
    && (s.closer.NoCloser? <==> s.main.Launching?)
    && (s.closed <==> s.closer.Ended?)
    && (s.closer.Closing? || s.closer.Ended? ==> s.wg == 0)
    && (s.main.Joined? ==> s.closed)
  }

  /** Accounts: the wait group counts the workers alive, and every error is
      either owed or collected. */
  predicate Accounted(s: State, results: seq<Option<Error>>) {
    && s.wg == Total(Alive, s.workers)
    && multiset(s.collected) + Held(Owed, s.workers) == multiset(NonNil(results))
  }

  predicate Inv(s: State, results: seq<Option<Error>>) {
    !s.panicked && Ordered(s) && Accounted(s, results)
  }

  lemma SomeoneAlive(s: State, results: seq<Option<Error>>, i: nat)
    requires i < |s.workers| && !s.workers[i].pc.Gone? && Inv(s, results)
    ensures s.wg > 0 && !s.closed && !s.closer.Closing?
  {
    TotalAtLeast(Alive, s.workers, i);
  }

  lemma WorkerStepOrders(s: State, a: Action, i: nat)
    requires Ordered(s) && !s.panicked && i < |s.workers| && s.wg > 0 && WorkerStep(s, a, i).Some?
    ensures Ordered(WorkerStep(s, a, i).value) && !WorkerStep(s, a, i).value.panicked
  {
    var t := WorkerStep(s, a, i).value;
    assert WorkerOk(s.workers[i], i, s.main);
    forall k | 0 <= k < |t.workers| ensures WorkerOk(t.workers[k], k, t.main) {
      assert WorkerOk(s.workers[k], k, s.main);
    }
  }

  /** A worker moves on, still owing what it owed. */
  lemma MoveAccounts(s: State, i: nat, pc: Pc)
    requires i < |s.workers| && Owed(s.workers[i].(pc := pc)) == Owed(s.workers[i])
    ensures var ws := s.workers[i := s.workers[i].(pc := pc)];
            Total(Alive, ws) + Alive(s.workers[i]) == Total(Alive, s.workers) + (if pc.Gone? then 0 else 1)
            && Held(Owed, ws) == Held(Owed, s.workers)
  {
    TotalUpdate(Alive, s.workers, i, s.workers[i].(pc := pc));
    KeepsHold(Owed, s.workers, i, s.workers[i].(pc := pc));
  }

  lemma DeliverAccounts(s: State, results: seq<Option<Error>>, i: nat)
    requires Accounted(s, results) && i < |s.workers| && s.workers[i].pc.Sending? && s.workers[i].result.Some?
    ensures var w := s.workers[i];
            Accounted(s.(workers := s.workers[i := w.(pc := Finishing)], collected := s.collected + [w.result.value]),
                      results)
  {
    var w := s.workers[i];
    TotalUpdate(Alive, s.workers, i, w.(pc := Finishing));
    HandOver(Owed, s.workers, i, w.(pc := Finishing), s.collected, w.result.value, multiset(NonNil(results)));
  }

  lemma WorkerStepAccounts(s: State, results: seq<Option<Error>>, a: Action, i: nat)
    requires Accounted(s, results) && i < |s.workers| && !s.closed && WorkerStep(s, a, i).Some?
    ensures Accounted(WorkerStep(s, a, i).value, results)
  {
    var w := s.workers[i];
    if a.Deliver? {
      DeliverAccounts(s, results, i);
    } else if a.Return? {
      MoveAccounts(s, i, if w.result.Some? then Sending else Finishing);
    } else {
      MoveAccounts(s, i, Gone);
    }
  }

  lemma MainStepKeeps(s: State, results: seq<Option<Error>>, a: Action)
    requires Inv(s, results) && MainStep(s, a).Some?
    ensures Inv(MainStep(s, a).value, results)
  {
    var t := MainStep(s, a).value;
    if a.Launch? {
      assert WorkerOk(s.workers[s.main.next], s.main.next, s.main);
      MoveAccounts(s, s.main.next, Running);
    }
    forall k | 0 <= k < |t.workers| ensures WorkerOk(t.workers[k], k, t.main) {
      assert WorkerOk(s.workers[k], k, s.main);
    }
  }

  lemma {:induction false} AllOwedAtFirst(results: seq<Option<Error>>)
    ensures Held(Owed, Init(results).workers) == multiset(NonNil(results))
  {
    if results != [] {
      var k := |results| - 1;
      AllOwedAtFirst(results[..k]);
      var ws := Init(results).workers;
      assert ws[..k] == Init(results[..k]).workers;
      assert multiset(NonNil(results[..k]) + Owed(ws[k])) == multiset(NonNil(results[..k])) + multiset(Owed(ws[k]));
    }
  }

  lemma StepKeepsInv(s: State, results: seq<Option<Error>>, a: Action)
    requires Inv(s, results) && Step(s, a).Some?
    ensures Inv(Step(s, a).value, results)
  {
    if ByWorker(a) {
      SomeoneAlive(s, results, a.worker);
      WorkerStepOrders(s, a, a.worker);
      WorkerStepAccounts(s, results, a, a.worker);
    } else {
      MainStepKeeps(s, results, a);
    }
  }

  /** Over every run: nothing panics (no send on the closed channel, no second
      close, no negative wait group), and no error is lost or doubled. */
  lemma {:induction false} SafeOverRuns(results: seq<Option<Error>>, actions: seq<Action>)
    requires Run(results, actions).Some?
    ensures Inv(Run(results, actions).value, results)
  {
    if actions == [] {
      TotalOfConstant(Alive, Init(results).workers, 1);
      AllOwedAtFirst(results);
    } else {
      var n := |actions| - 1;
      SafeOverRuns(results, actions[..n]);
      StepKeepsInv(Run(results, actions[..n]).value, results, actions[n]);
    }
  }

  lemma {:induction false} SameWorkers(results: seq<Option<Error>>, actions: seq<Action>)
    requires Run(results, actions).Some?
    ensures var s := Run(results, actions).value;
            |s.workers| == |results| && forall i :: 0 <= i < |results| ==> s.workers[i].result == results[i]
  {
    if actions != [] { SameWorkers(results, actions[..|actions| - 1]); }
  }

  /** The same without the monitors. In every run the channel is open and the
      wait group positive as long as a worker is not gone, so a worker that sends
      finds it open and its wg.Done is covered; it is closed once. A worker sends
      exactly what its app function returned, and hands it to the collector. */
  lemma NothingGoesWrong(results: seq<Option<Error>>, actions: seq<Action>, i: nat)
    requires Run(results, actions).Some? && i < |results|
    ensures var s := Run(results, actions).value;
            && |s.workers| == |results| && s.workers[i].result == results[i]
            && (s.closer.Closing? ==> !s.closed)
            && (!s.workers[i].pc.Gone? ==> !s.closed && s.wg > 0 && !s.closer.Closing?)
            && (s.workers[i].pc.Sending? ==> results[i].Some?)
            && Step(s, SendOnClosed(i)).None?
            && (Step(s, Deliver(i)).Some? <==> s.workers[i].pc.Sending? && s.main.Collecting?)
            && (Step(s, Deliver(i)).Some? ==>
                  Step(s, Deliver(i)).value.collected == s.collected + [results[i].value])
  {
    SafeOverRuns(results, actions);
    SameWorkers(results, actions);
    var s := Run(results, actions).value;
    assert WorkerOk(s.workers[i], i, s.main);
    if !s.workers[i].pc.Gone? { SomeoneAlive(s, results, i); }
  }

  // ----- every run ends -----

  function WorkerRank(w: Worker): nat {
    match w.pc
    case Unborn => 4
    case Running => 3
    case Sending => 2
    case Finishing => 1
    case Gone => 0
  }

  /** The steps that may still be taken, at most. */
  function Rank(s: State): nat {
    Total(WorkerRank, s.workers)
    + (match s.main case Launching(_) => 2 case Collecting => 1 case Joined => 0)
    + (match s.closer case NoCloser => 2 case Waiting => 2 case Closing => 1 case Ended => 0)
  }

  lemma MoveLowersRank(s: State, i: nat, pc: Pc)
    requires i < |s.workers| && WorkerRank(s.workers[i].(pc := pc)) < WorkerRank(s.workers[i])
    ensures Total(WorkerRank, s.workers[i := s.workers[i].(pc := pc)]) < Total(WorkerRank, s.workers)
  {
    TotalUpdate(WorkerRank, s.workers, i, s.workers[i].(pc := pc));
  }

  lemma WorkerStepLowersRank(s: State, a: Action, i: nat)
    requires i < |s.workers| && !s.closed && WorkerStep(s, a, i).Some?
    ensures Rank(WorkerStep(s, a, i).value) < Rank(s)
  {
    MoveLowersRank(s, i, WorkerStep(s, a, i).value.workers[i].pc);
  }

  lemma MainStepLowersRank(s: State, a: Action)
    requires Ordered(s) && MainStep(s, a).Some?
    ensures Rank(MainStep(s, a).value) < Rank(s)
  {
    if a.Launch? {
      assert WorkerOk(s.workers[s.main.next], s.main.next, s.main);
      MoveLowersRank(s, s.main.next, Running);
    }
  }

  lemma StepLowersRank(s: State, results: seq<Option<Error>>, a: Action)
    requires Inv(s, results) && Step(s, a).Some?
    ensures Rank(Step(s, a).value) < Rank(s)
  {
    if ByWorker(a) {
      SomeoneAlive(s, results, a.worker);
      WorkerStepLowersRank(s, a, a.worker);
    } else {
      MainStepLowersRank(s, a);
    }
  }

  /** No run is longer than four steps a worker and four more. */
  lemma {:induction false} RunsAreBounded(results: seq<Option<Error>>, actions: seq<Action>)
    requires Run(results, actions).Some?
    ensures |actions| + Rank(Run(results, actions).value) <= 4 * |results| + 4
  {
    if actions == [] {
      TotalOfConstant(WorkerRank, Init(results).workers, 4);
    } else {
      var n := |actions| - 1;
      RunsAreBounded(results, actions[..n]);
      SafeOverRuns(results, actions[..n]);
      StepLowersRank(Run(results, actions[..n]).value, results, actions[n]);
    }
  }

  predicate AllGone(s: State) {
    forall i :: 0 <= i < |s.workers| ==> s.workers[i].pc.Gone?
  }

  predicate Finished(s: State) {
    s.main.Joined? && s.closer.Ended? && AllGone(s)
  }

  lemma NoneAlive(s: State)
    requires AllGone(s)
    ensures Total(Alive, s.workers) == 0 && Held(Owed, s.workers) == multiset{}
  {
    TotalOfConstant(Alive, s.workers, 0);
    HeldNothing(Owed, s.workers);
  }

  /** While work is left some goroutine can go on. */
  lemma SomeStepIsEnabled(s: State, results: seq<Option<Error>>) returns (a: Action)
    requires Inv(s, results) && !Finished(s)
    ensures Step(s, a).Some?
  {
    if s.main.Launching? {
      a := if s.main.next < |s.workers| then Launch else LaunchCloser;
    } else if AllGone(s) {
      NoneAlive(s);
      a := if s.closer.Waiting? then Wake else if s.closer.Closing? then Close else EndRange;
    } else {
      var i :| 0 <= i < |s.workers| && !s.workers[i].pc.Gone?;
      assert WorkerOk(s.workers[i], i, s.main);
      SomeoneAlive(s, results, i);
      a := if s.workers[i].pc.Running? then Return(i) else if s.workers[i].pc.Sending? then Deliver(i) else Done(i);
    }
  }

  /** When the collecting loop has ended, so has every worker, and each non-nil
      error was collected exactly once. */
  lemma JoinedHasAll(s: State, results: seq<Option<Error>>)
    requires Inv(s, results) && s.main.Joined?
    ensures Finished(s) && multiset(s.collected) == multiset(NonNil(results))
  {
    forall i | 0 <= i < |s.workers| ensures s.workers[i].pc.Gone? {
      if !s.workers[i].pc.Gone? { SomeoneAlive(s, results, i); }
    }
    NoneAlive(s);
  }

  /** The fan-in, for any app functions that return and any interleaving: no
      panic; as long as not everything has ended there is a step to take (and
      runs are bounded, see RunsAreBounded); and in the end each non-nil error
      was collected once, so that the joined error is nil exactly when there was
      none. */
  lemma ErrorsFanIn(results: seq<Option<Error>>, actions: seq<Action>)
    requires Run(results, actions).Some?
    ensures var s := Run(results, actions).value;
            && !s.panicked
            && (Finished(s) || exists a :: Step(s, a).Some?)
            && (s.main.Joined? ==> Finished(s) && multiset(s.collected) == multiset(NonNil(results))
                                   && (s.collected == [] <==> NonNil(results) == []))
  {
    SafeOverRuns(results, actions);
    var s := Run(results, actions).value;
    if !Finished(s) { var a := SomeStepIsEnabled(s, results); }
    if s.main.Joined? {
      JoinedHasAll(s, results);
      assert |s.collected| == |multiset(s.collected)| && |NonNil(results)| == |multiset(NonNil(results))|;
    }
  }
}
