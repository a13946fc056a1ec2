/** What becomes of the lines queued on a slurp: a publisher leaves its loop when
    it sees its context done, whether or not its channel still holds lines. */
module SlurpLines {
  import opened Prelude
  import opened SlurpMachine
  import opened SlurpSteps
  import opened SlurpLifecycle
  import opened SlurpProgress

  // ----- which queued lines can still be taken -----

  /** The run can go on to a state in which all that is queued has been taken. */
  ghost predicate CanBeTaken(s: State, u: nat)
    requires u < |s.slurps|
  {
    exists more: seq<Action> :: Fold(Step, s, more).Some? && TakesAll(s, u, Fold(Step, s, more).value)
  }

  predicate TakesAll(s: State, u: nat, t: State)
    requires u < |s.slurps|
  {
    u < |t.slurps| && s.slurps[u].taken + s.slurps[u].queue <= t.slurps[u].taken
  }

  lemma OneTaken(s: State, u: nat) returns (t: State)
    requires u < |s.slurps| && s.slurps[u].publisher == Capturing && s.slurps[u].queue != [] && !s.reader.Dead?
    ensures Step(s, Take(u)) == Some(t) && |t.slurps| == |s.slurps| && !t.reader.Dead?
    ensures t.slurps[u].publisher == Capturing && |t.slurps[u].queue| < |s.slurps[u].queue|
    ensures t.slurps[u].taken + t.slurps[u].queue == s.slurps[u].taken + s.slurps[u].queue
  {
    t := Step(s, Take(u)).value;
    var slurp := s.slurps[u];
    assert slurp.taken + slurp.queue == (slurp.taken + [slurp.queue[0]]) + slurp.queue[1..];
  }

  lemma {:induction false} Drains(s: State, u: nat) returns (more: seq<Action>)
    requires u < |s.slurps| && s.slurps[u].publisher == Capturing && !s.reader.Dead?
    ensures Fold(Step, s, more).Some? && TakesAll(s, u, Fold(Step, s, more).value)
    decreases |s.slurps[u].queue|
  {
    if s.slurps[u].queue == [] {
      more := [];
      assert s.slurps[u].taken + [] == s.slurps[u].taken;
    } else {
      var t := OneTaken(s, u);
      var rest := Drains(t, u);
      more := [Take(u)] + rest;
      FoldFirst(Step, s, Take(u), t, rest);
    }
  }

  /** Main result: lines in a slurp's queue can still be taken if and only if its
      publisher has not left its loop. */
  lemma QueuedLinesCanBeTaken(s: State, u: nat)
    requires u < |s.slurps| && s.slurps[u].queue != [] && !s.reader.Dead?
    ensures CanBeTaken(s, u) <==> s.slurps[u].publisher == Capturing
  {
    if s.slurps[u].publisher == Capturing {
      var more := Drains(s, u);
    } else {
      forall more: seq<Action> | Fold(Step, s, more).Some?
        ensures !TakesAll(s, u, Fold(Step, s, more).value)
      {
        LeftTakesNoMore(s, u, more);
      }
    }
  }

  // ----- when a publisher leaves nothing behind, over whole runs -----

  /** The step puts a line on slurp `u`. */
  predicate Puts(s: State, a: Action, u: nat) {
    a.ReaderPut? && s.reader.Put? && s.reader.line.service in s.current && s.current[s.reader.line.service] == u
  }

  predicate CleanStep(s: State, a: Action, u: nat) {
    && (a == SeeDone(u) && u < |s.slurps| ==> s.slurps[u].queue == [])
    && (Left(s, u) ==> !Puts(s, a, u))
  }

  /** The publisher of `u` found its channel empty when it saw its context done,
      and no line was put there since. */
  predicate LeavesCleanly(actions: seq<Action>, u: nat)
    requires Run(actions).Some?
  {
    actions != [] ==>
      var n := |actions| - 1;
      LeavesCleanly(actions[..n], u) && CleanStep(Run(actions[..n]).value, actions[n], u)
  }

  /** A slurp is left by SeeDone alone, and its queue then grows by Puts alone. */
  lemma LeavingStep(s: State, a: Action, u: nat)
    requires Step(s, a).Some?
    ensures var t := Step(s, a).value;
            && (Left(t, u) && !Left(s, u) ==>
                a == SeeDone(u) && u < |s.slurps| && t.slurps[u].queue == s.slurps[u].queue)
            && (!Left(t, u) ==> !Left(s, u) && a != SeeDone(u))
            && (Left(s, u) ==>
                  Left(t, u) && a != SeeDone(u) && (Puts(s, a, u) ==> t.slurps[u].queue != [])
                  && (!Puts(s, a, u) ==> t.slurps[u].queue == s.slurps[u].queue)
                  && (s.slurps[u].queue != [] ==> t.slurps[u].queue != []))
  {
  }

  lemma {:induction false} LeftQueueIsEmpty(actions: seq<Action>, u: nat)
    requires Run(actions).Some?
    ensures var s := Run(actions).value;
            if Left(s, u) then s.slurps[u].queue == [] <==> LeavesCleanly(actions, u) else LeavesCleanly(actions, u)
  {
    if actions != [] {
      var n := |actions| - 1;
      LeftQueueIsEmpty(actions[..n], u);
      LeavingStep(Run(actions[..n]).value, actions[n], u);
    }
  }

  /** Main result: in every run, a publisher that has left its loop has taken every
      line ever queued on its slurp if and only if its channel was empty when it
      saw its context done and nothing was put there since. */
  lemma LeftHasTakenAll(actions: seq<Action>, u: nat)
    requires Run(actions).Some? && Left(Run(actions).value, u)
    ensures var s := Run(actions).value;
            s.slurps[u].taken == QueuedOn(s.log, u) <==> LeavesCleanly(actions, u)
  {
    var s := Run(actions).value;
    InvariantOverRuns(actions);
    assert SlurpLogged(s.log, s.slurps[u], u);
    LeftQueueIsEmpty(actions, u);
    assert s.slurps[u].taken + [] == s.slurps[u].taken;
  }

  // ----- an ordinary stop that loses a line -----

  /** The one service there is, its slurp being shut down by the reader. */
  lemma ReaderEnters(s: State, stop: Line, more: seq<Action>) returns (t: State)
    requires s.reader.Idle? && stop.kind == Stopped && s.current == map[stop.service := 0]
    requires |s.slurps| == 1 && s.slurps[0].once == NotYet
    ensures Fold(Step, s, [Read(stop)] + ([ReaderEnter] + more)) == Fold(Step, t, more)
    ensures t.reader == ShuttingDown(stop) && t.current == s.current
            && t.slurps == [s.slurps[0].(once := Busy(true, false))]
  {
    var s1 := Step(s, Read(stop)).value;
    t := Step(s1, ReaderEnter).value;
    FoldFirst(Step, s1, ReaderEnter, t, more);
    FoldFirst(Step, s, Read(stop), s1, [ReaderEnter] + more);
  }

  lemma ReaderLeaves(s: State, stop: Line, more: seq<Action>) returns (t: State)
    requires s.reader == ShuttingDown(stop) && stop.kind == Stopped && s.current == map[stop.service := 0]
    requires |s.slurps| == 1 && s.slurps[0].once == Busy(true, false)
    ensures Fold(Step, s, [ReaderSend] + ([ReaderEnd] + more)) == Fold(Step, t, more)
    ensures t.reader.Idle? && t.slurps == [s.slurps[0].(once := Finished, cancelled := true)]
  {
    var s1 := Step(s, ReaderSend).value;
    t := Step(s1, ReaderEnd).value;
    FoldFirst(Step, s1, ReaderEnd, t, more);
    FoldFirst(Step, s, ReaderSend, s1, [ReaderEnd] + more);
  }

  /** No pid ends early here: an app line, then the line that its service stopped.
      The publisher sees its context done before it takes the line. */
  lemma StopCanLoseALine(app: Line, stop: Line) returns (acts: seq<Action>)
    requires app.kind == App && app.enabled && stop.kind == Stopped && stop.service == app.service
    ensures Run(acts).Some? && forall i :: 0 <= i < |acts| ==> !acts[i].Cancel?
    ensures var s := Run(acts).value;
            && s.reader.Idle? && |s.slurps| == 1 && s.slurps[0].queue == [app] && s.slurps[0].taken == []
            && !CanBeTaken(s, 0)
  {
    var leaving := [ReaderSend] + ([ReaderEnd] + [SeeDone(0)]);
    var stopping := [Read(stop)] + ([ReaderEnter] + leaving);
    var s0 := FirstLine(app, stopping);
    var s1 := ReaderEnters(s0, stop, leaving);
    var s2 := ReaderLeaves(s1, stop, [SeeDone(0)]);
    var t := Step(s2, SeeDone(0)).value;
    FoldFirst(Step, s2, SeeDone(0), t, []);
    assert [SeeDone(0)] + [] == [SeeDone(0)];
    acts := [Read(app)] + ([ReaderStart(true)] + ([ReaderPut] + stopping));
    QueuedLinesCanBeTaken(t, 0);
  }
}
