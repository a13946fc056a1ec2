/** Running one app function until it returns, with a signal asking it to stop. */
module RunApp {
  import opened Prelude

  type Error = string

  /** The app's goroutine: in the app function, about to set `complete`, handing
      the result over, ended. */
  datatype App = Running | Marking(result: Option<Error>) | Handing(result: Option<Error>) | Gone

  datatype Main = Selecting | Checking | WaitingForApp | Ended

  /** `pending` is the one-slot signal channel. `synced` says that the main
      goroutine received from the app's, and so sees all it wrote before. */
  datatype State = State(app: App, main: Main, complete: bool, synced: bool, pending: bool, cancelled: bool,
                         received: nat)

  datatype Action =
    | Signal
    | AppReturns(result: Option<Error>)
    | Mark
    | TakeSignal
    | TakeCompletion
    | Check(stale: bool)
    | ReceiveCompletion

  function Init(): State {
    State(Running, Selecting, false, false, false, false, 0)
  }

  /** `complete` is read without a lock: unless the goroutines have synchronised
      the read may miss a write. */
  function Seen(s: State, stale: bool): bool {
    s.complete && !(stale && !s.synced)
  }

  function Step(s: State, a: Action): Option<State> {
    match a
    case Signal => Some(s.(pending := true))
    case AppReturns(result) => if !s.app.Running? then None else Some(s.(app := Marking(result)))
    case Mark => if !s.app.Marking? then None else Some(s.(app := Handing(s.app.result), complete := true))
    case TakeSignal =>
      if !s.main.Selecting? || !s.pending then None
      else Some(s.(main := Checking, pending := false, cancelled := true))
    case TakeCompletion =>
      if !s.main.Selecting? || !s.app.Handing? then None
      else Some(s.(main := Checking, app := Gone, cancelled := true, synced := true, received := s.received + 1))
    case Check(stale) =>
      if !s.main.Checking? then None
      else Some(s.(main := if Seen(s, stale) then Ended else WaitingForApp))
    case ReceiveCompletion =>
      if !s.main.WaitingForApp? || !s.app.Handing? then None
      else Some(s.(main := Ended, app := Gone, synced := true, received := s.received + 1))
  }

  function Run(actions: seq<Action>): Option<State> {
    Fold(Step, Init(), actions)
  }

  // ----- what every step keeps -----

  predicate Inv(s: State) {
    && (s.complete <==> s.app.Handing? || s.app.Gone?)
    && (s.app.Gone? <==> s.synced) && (s.received == if s.synced then 1 else 0)
    && (s.main.Selecting? ==> !s.synced && !s.cancelled)
    && (!s.main.Selecting? ==> s.cancelled)
    && (s.main.WaitingForApp? ==> !s.app.Gone?)
    && (s.main.Ended? ==> s.complete)
  }

  lemma {:induction false} InvOverRuns(actions: seq<Action>)
    requires Run(actions).Some?
    ensures Inv(Run(actions).value)
  {
    if actions != [] { InvOverRuns(actions[..|actions| - 1]); }
  }

  /** Whatever the interleaving of signals with the app's end: the call ends only
      once the app function has returned, it waits only after telling the app to
      stop, and it takes at most one result. */
  lemma NeverEndsBeforeTheApp(actions: seq<Action>)
    requires Run(actions).Some?
    ensures var s := Run(actions).value;
            && (s.main.Ended? ==> !s.app.Running? && !s.app.Marking?)
            && (s.main.WaitingForApp? || s.main.Ended? ==> s.cancelled)
            && s.received <= 1
  {
    InvOverRuns(actions);
  }

  // ----- signals -----

  /** Until the main goroutine has chosen, a signal that arrived is waiting; the
      context is cancelled from that choice on, and only for a cause. */
  lemma {:induction false} SignalsWait(actions: seq<Action>)
    requires Run(actions).Some?
    ensures var s := Run(actions).value;
            && (s.main.Selecting? ==> (s.pending <==> Signals(actions) > 0))
            && (s.cancelled <==> !s.main.Selecting?)
            && (s.cancelled ==> Signals(actions) > 0 || s.app.Gone?)
  {
    if actions != [] {
      InvOverRuns(actions);
      SignalsWait(actions[..|actions| - 1]);
    }
  }

  /** A signal reaches the app: as long as the call has not been told otherwise it
      can take the signal next, and it cancels the app function's context then. */
  lemma SignalCancels(actions: seq<Action>)
    requires Run(actions).Some? && Run(actions).value.main.Selecting?
    ensures Run(actions + [Signal]).Some? && Run(actions + [Signal]).value.main.Selecting?
    ensures Run(actions + [Signal] + [TakeSignal]).Some?
    ensures var s := Run(actions + [Signal] + [TakeSignal]).value; s.cancelled && s.main.Checking?
  {
    FoldSnoc(Step, Init(), actions, Signal);
    FoldSnoc(Step, Init(), actions + [Signal], TakeSignal);
  }

  /** The unsynchronised read can miss: a run in which the app function has
      returned and the call still goes on to wait for it. */
  lemma StaleReadWaits() returns (actions: seq<Action>)
    ensures Run(actions).Some?
    ensures var s := Run(actions).value; s.complete && s.main.WaitingForApp?
  {
    var s1 := Init().(pending := true);
    var s2 := s1.(main := Checking, pending := false, cancelled := true);
    var s3 := s2.(app := Marking(None));
    var s4 := s3.(app := Handing(None), complete := true);
    var s5 := s4.(main := WaitingForApp);
    FoldFirst(Step, s4, Check(true), s5, []);
    FoldFirst(Step, s3, Mark, s4, [Check(true)] + []);
    FoldFirst(Step, s2, AppReturns(None), s3, [Mark] + ([Check(true)] + []));
    FoldFirst(Step, s1, TakeSignal, s2, [AppReturns(None)] + ([Mark] + ([Check(true)] + [])));
    actions := [Signal] + ([TakeSignal] + ([AppReturns(None)] + ([Mark] + ([Check(true)] + []))));
    FoldFirst(Step, Init(), Signal, s1, [TakeSignal] + ([AppReturns(None)] + ([Mark] + ([Check(true)] + []))));
  }

  // ----- and it does end -----

  function Rank(s: State): nat {
    (match s.app case Running => 3 case Marking(_) => 2 case Handing(_) => 1 case Gone => 0)
    + match s.main case Selecting => 3 case Checking => 2 case WaitingForApp => 1 case Ended => 0
  }

  function Signals(actions: seq<Action>): nat {
    if actions == [] then 0 else Signals(actions[..|actions| - 1]) + if actions[|actions| - 1].Signal? then 1 else 0
  }

  /** At most six steps are anything but the arrival of a signal. */
  lemma {:induction false} RunsAreBounded(actions: seq<Action>)
    requires Run(actions).Some?
    ensures |actions| + Rank(Run(actions).value) <= 6 + Signals(actions)
  {
    if actions != [] { RunsAreBounded(actions[..|actions| - 1]); }
  }

  /** Once the app function has returned the call is never stuck, even when it
      read `complete` too early and went on to wait: until it ends one of the two
      goroutines can take a step, and there are at most six of those. Before the
      app function returns, the call waits at most for that and for a signal. */
  lemma NeverStuckAfterTheApp(actions: seq<Action>)
    requires Run(actions).Some?
    ensures var s := Run(actions).value;
            !s.main.Ended? && !s.app.Running? ==> exists a: Action :: !a.Signal? && Step(s, a).Some?
    ensures var s := Run(actions).value;
            !s.main.Ended? && s.app.Running? ==> Step(s, AppReturns(None)).Some?
    ensures |actions| <= 6 + Signals(actions)
  {
    InvOverRuns(actions);
    RunsAreBounded(actions);
    var s := Run(actions).value;
    if !s.main.Ended? && !s.app.Running? {
      var a := if s.app.Marking? then Mark
        else if s.main.Checking? then Check(false)
        else if s.main.Selecting? then TakeCompletion
        else ReceiveCompletion;
      assert !a.Signal? && Step(s, a).Some?;
    }
  }
}
