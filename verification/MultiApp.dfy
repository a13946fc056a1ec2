/** RunMultiRoutineApp: the fan-in of several app functions is the app function
    of one RunApp, so its goroutines and RunApp's run together. */
module MultiApp {
  import opened Prelude
  import F = FanIn
  import A = RunApp

  datatype State = State(fan: F.State, app: A.State)

  /** `JoinErrors` is the combined app function returning once the range over the
      errors has ended. */
  datatype Action = Inner(fan: F.Action) | JoinErrors | Outer(app: A.Action)

  /** errors.Join: nil when there is no error. */
  function Joined(errors: seq<F.Error>): Option<A.Error> {
    if errors == [] then None else Some(Flatten(errors))
  }

  function Init(results: seq<Option<F.Error>>): State {
    State(F.Init(results), A.Init())
  }

  function Step(s: State, a: Action): Option<State> {
    match a
    case Inner(fan) =>
      var t := F.Step(s.fan, fan);
      if t.None? then None else Some(s.(fan := t.value))
    case JoinErrors =>
      if !s.fan.main.Joined? then None else
      var t := A.Step(s.app, A.AppReturns(Joined(s.fan.collected)));
      if t.None? then None else Some(s.(app := t.value))
    case Outer(app) =>
      if app.AppReturns? then None else
      var t := A.Step(s.app, app);
      if t.None? then None else Some(s.(app := t.value))
  }

  function Run(results: seq<Option<F.Error>>, actions: seq<Action>): Option<State> {
    Fold(Step, Init(results), actions)
  }

  // ----- what every step keeps -----

  /** The app function returns when everything inside has ended, and with an error
      exactly when one of the functions did. */
  predicate Inv(s: State, results: seq<Option<F.Error>>) {
    && F.Inv(s.fan, results) && A.Inv(s.app)
    && (!s.app.app.Running? ==> s.fan.main.Joined?)
    && (s.app.app.Marking? || s.app.app.Handing? ==> (s.app.app.result.None? <==> F.NonNil(results) == []))
  }

  lemma JoinKeeps(s: State, results: seq<Option<F.Error>>)
    requires Inv(s, results) && Step(s, JoinErrors).Some?
    ensures Inv(Step(s, JoinErrors).value, results)
  {
    F.JoinedHasAll(s.fan, results);
    assert |s.fan.collected| == |multiset(s.fan.collected)| && |F.NonNil(results)| == |multiset(F.NonNil(results))|;
  }

  /** What is joined stays so, and what the app function returned stays until it is
      handed over. */
  lemma OuterKeeps(s: State, results: seq<Option<F.Error>>, a: A.Action)
    requires Inv(s, results) && Step(s, Outer(a)).Some?
    ensures Inv(Step(s, Outer(a)).value, results)
  {
    ResultStays(s.app, a);
  }

  lemma ResultStays(s: A.State, a: A.Action)
    requires A.Step(s, a).Some? && !a.AppReturns?
    ensures var t := A.Step(s, a).value;
            && (t.app.Running? <==> s.app.Running?)
            && (t.app.Marking? || t.app.Handing? ==> (s.app.Marking? || s.app.Handing?) && t.app.result == s.app.result)
  {
  }

  lemma InnerKeeps(s: State, results: seq<Option<F.Error>>, a: F.Action)
    requires Inv(s, results) && Step(s, Inner(a)).Some?
    ensures Inv(Step(s, Inner(a)).value, results)
  {
    F.StepKeepsInv(s.fan, results, a);
    JoinedStays(s.fan, a);
  }

  lemma JoinedStays(s: F.State, a: F.Action)
    requires F.Step(s, a).Some?
    ensures s.main.Joined? ==> F.Step(s, a).value.main.Joined?
  {
  }

  lemma StepKeeps(s: State, results: seq<Option<F.Error>>, a: Action)
    requires Inv(s, results) && Step(s, a).Some?
    ensures Inv(Step(s, a).value, results)
  {
    match a
    case Inner(fan) => InnerKeeps(s, results, fan);
    case JoinErrors => JoinKeeps(s, results);
    case Outer(app) => OuterKeeps(s, results, app);
  }

  lemma {:induction false} InvOverRuns(results: seq<Option<F.Error>>, actions: seq<Action>)
    requires Run(results, actions).Some?
    ensures Inv(Run(results, actions).value, results)
  {
    if actions == [] {
      F.SafeOverRuns(results, []);
    } else {
      var n := |actions| - 1;
      InvOverRuns(results, actions[..n]);
      StepKeeps(Run(results, actions[..n]).value, results, actions[n]);
    }
  }

  /** Main result: for any app functions, any schedule and any signals, the call
      ends only after every app function has returned, with every non-nil error
      collected once. */
  lemma EndsAfterEveryApp(results: seq<Option<F.Error>>, actions: seq<Action>)
    requires Run(results, actions).Some?
    ensures var s := Run(results, actions).value;
            && !s.fan.panicked
            && (s.app.main.Ended? ==> F.Finished(s.fan) && multiset(s.fan.collected) == multiset(F.NonNil(results)))
            && (s.app.app.Handing? ==> (s.app.app.result.None? <==> F.NonNil(results) == []))
  {
    InvOverRuns(results, actions);
    var s := Run(results, actions).value;
    if s.app.main.Ended? { F.JoinedHasAll(s.fan, results); }
  }

  // ----- and it does end -----

  function Rank(s: State): nat {
    F.Rank(s.fan) + A.Rank(s.app)
  }

  function Signals(actions: seq<Action>): nat {
    if actions == [] then 0 else
    Signals(actions[..|actions| - 1]) + if actions[|actions| - 1] == Outer(A.Signal) then 1 else 0
  }

  lemma AppStepLowersRank(s: A.State, a: A.Action)
    requires A.Step(s, a).Some?
    ensures A.Rank(A.Step(s, a).value) <= A.Rank(s) && (!a.Signal? ==> A.Rank(A.Step(s, a).value) < A.Rank(s))
  {
  }

  lemma StepLowersRank(s: State, results: seq<Option<F.Error>>, a: Action)
    requires Inv(s, results) && Step(s, a).Some?
    ensures Rank(Step(s, a).value) <= Rank(s) && (a != Outer(A.Signal) ==> Rank(Step(s, a).value) < Rank(s))
  {
    match a
    case Inner(fan) => F.StepLowersRank(s.fan, results, fan);
    case JoinErrors => AppStepLowersRank(s.app, A.AppReturns(Joined(s.fan.collected)));
    case Outer(app) => AppStepLowersRank(s.app, app);
  }

  /** Apart from signals arriving, a run has four steps a function and ten more. */
  lemma {:induction false} RunsAreBounded(results: seq<Option<F.Error>>, actions: seq<Action>)
    requires Run(results, actions).Some?
    ensures |actions| + Rank(Run(results, actions).value) <= 4 * |results| + 10 + Signals(actions)
  {
    if actions == [] {
      F.RunsAreBounded(results, []);
    } else {
      var n := |actions| - 1;
      RunsAreBounded(results, actions[..n]);
      InvOverRuns(results, actions[..n]);
      StepLowersRank(Run(results, actions[..n]).value, results, actions[n]);
    }
  }

  /** Until the call has ended some goroutine can go on, without a signal. */
  lemma NeverStuck(results: seq<Option<F.Error>>, actions: seq<Action>)
    requires Run(results, actions).Some? && !Run(results, actions).value.app.main.Ended?
    ensures exists a: Action :: a != Outer(A.Signal) && Step(Run(results, actions).value, a).Some?
  {
    InvOverRuns(results, actions);
    var s := Run(results, actions).value;
    var a: Action;
    if !F.Finished(s.fan) {
      var inner := F.SomeStepIsEnabled(s.fan, results);
      a := Inner(inner);
    } else if s.app.app.Running? {
      a := JoinErrors;
    } else {
      a := Outer(AppGoesOn(s.app));
    }
    assert a != Outer(A.Signal) && Step(s, a).Some?;
  }

  function AppGoesOn(s: A.State): (a: A.Action)
    requires A.Inv(s) && !s.app.Running? && !s.main.Ended?
    ensures !a.Signal? && !a.AppReturns? && A.Step(s, a).Some?
  {
    if s.app.Marking? then A.Mark
    else if s.main.Checking? then A.Check(false)
    else if s.main.Selecting? then A.TakeCompletion
    else A.ReceiveCompletion
  }
}
