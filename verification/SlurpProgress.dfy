/** When the journal reader goes on: it serves all services, and waits for room
    in the queue of one slurp, for the Once of another, and for nothing else. */
module SlurpProgress {
  import opened Prelude
  import opened SlurpMachine
  import opened SlurpSteps
  import opened SlurpLifecycle

  // ----- the state in which it never will -----

  /** The reader holds a line for a full queue whose publisher has seen its
      context done and takes no more. */
  predicate Blocked(s: State) {
    && s.reader.Put? && s.reader.line.service in s.current
    && var u := s.current[s.reader.line.service];
       u < |s.slurps| && s.slurps[u].publisher != Capturing && |s.slurps[u].queue| >= CHANNEL_CAPACITY
  }

  /** Whatever the other goroutines do, and the pid watchers. */
  lemma {:induction false} BlockedForGood(s: State, more: seq<Action>)
    requires Blocked(s) && Fold(Step, s, more).Some?
    ensures Blocked(Fold(Step, s, more).value) && Fold(Step, s, more).value.reader == s.reader
  {
    if more != [] {
      var n := |more| - 1;
      BlockedForGood(s, more[..n]);
    }
  }

  /** A publisher that has left its loop. */
  predicate Left(s: State, u: nat) {
    u < |s.slurps| && s.slurps[u].publisher != Capturing
  }

  lemma LeftStep(s: State, u: nat, a: Action)
    requires Left(s, u) && Step(s, a).Some?
    ensures var t := Step(s, a).value;
            Left(t, u) && t.slurps[u].taken == s.slurps[u].taken && s.slurps[u].queue <= t.slurps[u].queue
  {
  }

  /** Lines still queued when a publisher leaves its loop are never published. */
  lemma {:induction false} LeftTakesNoMore(s: State, u: nat, more: seq<Action>)
    requires Left(s, u) && Fold(Step, s, more).Some?
    ensures var t := Fold(Step, s, more).value;
            Left(t, u) && t.slurps[u].taken == s.slurps[u].taken && s.slurps[u].queue <= t.slurps[u].queue
  {
    if more != [] {
      var n := |more| - 1;
      LeftTakesNoMore(s, u, more[..n]);
      LeftStep(Fold(Step, s, more[..n]).value, u, more[n]);
    }
  }

  // ----- in every other state it can -----

  /** A shutdown by the reader is one inside the Once of the slurp it shuts down. */
  predicate OnceHeld(s: State) {
    s.reader.ShuttingDown? ==>
      && s.reader.line.service in s.current
      && var u := s.current[s.reader.line.service];
         u < |s.slurps| && s.slurps[u].once.Busy? && s.slurps[u].once.byReader
  }

  lemma ReaderStepHoldsOnce(s: State, a: Action)
    requires OnceHeld(s) && ReaderStep(s, a).Some?
    ensures OnceHeld(ReaderStep(s, a).value)
  {
  }

  lemma StepHoldsOnce(s: State, a: Action)
    requires Invariant(s) && OnceHeld(s) && Step(s, a).Some?
    ensures OnceHeld(Step(s, a).value)
  {
    if OfSlurp(a) {
      assert Inside(s.slurps[a.uid], s.reader);
    } else {
      ReaderStepHoldsOnce(s, a);
    }
  }

  lemma {:induction false} OnceHeldOverRuns(actions: seq<Action>)
    requires Run(actions).Some?
    ensures OnceHeld(Run(actions).value)
  {
    if actions != [] {
      var n := |actions| - 1;
      OnceHeldOverRuns(actions[..n]);
      InvariantOverRuns(actions[..n]);
      StepHoldsOnce(Run(actions[..n]).value, actions[n]);
    }
  }

  predicate Sound(s: State) {
    Invariant(s) && OnceHeld(s)
  }

  lemma StepKeepsSound(s: State, a: Action)
    requires Sound(s) && Step(s, a).Some?
    ensures Sound(Step(s, a).value)
  {
    StepHoldsOnce(s, a);
    if OfSlurp(a) { KeepsSlurpStep(s, a.uid, a); } else { KeepsReaderStep(s, a); }
  }

  /** A reader past its line's service being attached works on that slurp. */
  predicate AtWork(s: State) {
    s.reader.Put? || s.reader.Stop? || s.reader.ShuttingDown? ==>
      s.reader.line.service in s.current && s.current[s.reader.line.service] < |s.slurps|
  }

  lemma InvariantIsAtWork(s: State)
    requires Invariant(s)
    ensures AtWork(s)
  {
    if s.reader.Put? || s.reader.Stop? || s.reader.ShuttingDown? {
      assert LastOf(s.slurps, s.reader.line.service, s.current[s.reader.line.service]);
    }
  }

  /** How many steps the reader is from its next line, other goroutines' included. */
  function Distance(s: State): nat
    requires AtWork(s)
  {
    match s.reader
    case Idle => 0
    case Dead(_) => 0
    case Start(line) => if line.kind == App then 3 else 1
    case Put(line) =>
      var queue := s.slurps[s.current[line.service]].queue;
      if |queue| < CHANNEL_CAPACITY then 1 else 2 + |queue| - CHANNEL_CAPACITY
    case Stop(line) => 4 + OnceDistance(s.slurps[s.current[line.service]].once)
    case ShuttingDown(line) => 2 + OnceDistance(s.slurps[s.current[line.service]].once)
  }

  function OnceDistance(o: Once): nat {
    match o
    case Finished => 0
    case Busy(_, sent) => if sent then 1 else 2
    case NotYet => 3
  }

  /** The next step towards the reader's next line. */
  function Towards(s: State): Action
    requires !s.reader.Idle? && !s.reader.Dead?
    requires AtWork(s)
  {
    if s.reader.Start? then ReaderStart(true) else
    var u := s.current[s.reader.line.service];
    var slurp := s.slurps[u];
    if s.reader.Put? then (if |slurp.queue| < CHANNEL_CAPACITY then ReaderPut else Take(u))
    else if s.reader.ShuttingDown? then (if slurp.once == Busy(true, false) then ReaderSend else ReaderEnd)
    else if slurp.once.Busy? then (if slurp.once.sent then PublisherEnd(u) else PublisherSend(u))
    else ReaderEnter
  }

  predicate Nearer(s: State, a: Action)
    requires AtWork(s)
  {
    var t := Step(s, a);
    t.Some? && AtWork(t.value) && !t.value.reader.Dead? && !Blocked(t.value) && Distance(t.value) < Distance(s)
  }

  lemma StartApproaches(s: State)
    requires s.reader.Start?
    ensures Nearer(s, Towards(s))
  {
  }

  lemma StopApproaches(s: State)
    requires AtWork(s) && s.reader.Stop? && Purposeful(s.reader)
             && Inside(s.slurps[s.current[s.reader.line.service]], s.reader)
    ensures Nearer(s, Towards(s))
  {
  }

  lemma ShutdownApproaches(s: State)
    requires AtWork(s) && s.reader.ShuttingDown? && Purposeful(s.reader) && OnceHeld(s)
    ensures Nearer(s, Towards(s))
  {
  }

  lemma Approaches(s: State)
    requires Sound(s) && AtWork(s) && !s.reader.Idle? && !s.reader.Dead? && !Blocked(s)
    ensures Nearer(s, Towards(s)) && Sound(Step(s, Towards(s)).value)
  {
    if s.reader.Put? {
    } else if s.reader.Start? {
      StartApproaches(s);
    } else if s.reader.Stop? {
      assert Inside(s.slurps[s.current[s.reader.line.service]], s.reader);
      StopApproaches(s);
    } else {
      ShutdownApproaches(s);
    }
    StepKeepsSound(s, Towards(s));
  }

  lemma {:induction false} ReachesIdle(s: State) returns (more: seq<Action>)
    requires Sound(s) && AtWork(s) && !s.reader.Dead? && !Blocked(s)
    ensures Fold(Step, s, more).Some? && Fold(Step, s, more).value.reader.Idle?
    decreases Distance(s)
  {
    if s.reader.Idle? {
      more := [];
    } else {
      Approaches(s);
      var t := Step(s, Towards(s)).value;
      var rest := ReachesIdle(t);
      more := [Towards(s)] + rest;
      FoldFirst(Step, s, Towards(s), t, rest);
    }
  }

  /** The run can go on to a state in which the reader waits for its next line. */
  ghost predicate CanReadOn(s: State) {
    exists more: seq<Action> :: Fold(Step, s, more).Some? && Fold(Step, s, more).value.reader.Idle?
  }

  /** Main result: in every run, a reader at work can get to its next line if and
      only if it is not blocked on a full queue that nobody takes from. */
  lemma ReaderGoesOn(actions: seq<Action>)
    requires Run(actions).Some? && !Run(actions).value.reader.Dead?
    ensures CanReadOn(Run(actions).value) <==> !Blocked(Run(actions).value)
  {
    var s := Run(actions).value;
    InvariantOverRuns(actions);
    OnceHeldOverRuns(actions);
    if Blocked(s) {
      forall more: seq<Action> | Fold(Step, s, more).Some?
        ensures !Fold(Step, s, more).value.reader.Idle?
      {
        BlockedForGood(s, more);
      }
    } else {
      InvariantIsAtWork(s);
      var more := ReachesIdle(s);
    }
  }

  // ----- what a caller can check -----

  /** Only the end of a pid makes a publisher leave before its slurp is let go. */
  predicate Uncancelled(s: State) {
    && (forall u :: 0 <= u < |s.slurps| ==> QuietSlurp(s.slurps[u]))
    && (forall name :: name in s.current && s.current[name] < |s.slurps| ==> !s.slurps[s.current[name]].cancelled)
  }

  predicate QuietSlurp(slurp: Slurp) {
    && (slurp.publisher != Capturing ==> slurp.cancelled)
    && (slurp.cancelled ==> slurp.once.Finished?)
  }

  lemma SlurpStepStaysQuiet(s: State, u: nat, a: Action)
    requires u < |s.slurps| && SlurpStep(s, u, a).Some? && !a.Cancel?
    requires QuietSlurp(s.slurps[u]) && Inside(s.slurps[u], s.reader)
    ensures var t := SlurpStep(s, u, a).value;
            && t.current == s.current && QuietSlurp(t.slurps[u]) && t.slurps[u].cancelled == s.slurps[u].cancelled
            && t.slurps == s.slurps[u := t.slurps[u]]
  {
  }

  lemma SlurpStepStaysUncancelled(s: State, u: nat, a: Action)
    requires u < |s.slurps| && Uncancelled(s) && SlurpStep(s, u, a).Some? && !a.Cancel?
    requires Inside(s.slurps[u], s.reader)
    ensures Uncancelled(SlurpStep(s, u, a).value)
  {
    assert QuietSlurp(s.slurps[u]);
    SlurpStepStaysQuiet(s, u, a);
  }

  /** The reader cancels a slurp only while it detaches it. */
  lemma ReaderStepStaysUncancelled(s: State, a: Action)
    requires Attached(s.current, s.slurps) && Uncancelled(s) && ReaderStep(s, a).Some?
    ensures Uncancelled(ReaderStep(s, a).value)
  {
    var t := ReaderStep(s, a).value;
    forall u | 0 <= u < |t.slurps|
      ensures QuietSlurp(t.slurps[u])
    {
      if u < |s.slurps| { assert QuietSlurp(s.slurps[u]); }
    }
    if a.ReaderEnd? { DetachStaysUncancelled(s); }
  }

  lemma DetachStaysUncancelled(s: State)
    requires Attached(s.current, s.slurps) && Uncancelled(s) && ReaderStep(s, ReaderEnd).Some?
    ensures var t := ReaderStep(s, ReaderEnd).value;
            forall name :: name in t.current && t.current[name] < |t.slurps| ==> !t.slurps[t.current[name]].cancelled
  {
    var t, line := ReaderStep(s, ReaderEnd).value, s.reader.line;
    forall name | name in t.current && t.current[name] < |t.slurps|
      ensures !t.slurps[t.current[name]].cancelled
    {
      assert LastOf(s.slurps, name, s.current[name]) && LastOf(s.slurps, line.service, s.current[line.service]);
    }
  }

  lemma StepStaysUncancelled(s: State, a: Action)
    requires Sound(s) && Uncancelled(s) && Step(s, a).Some? && !a.Cancel?
    ensures Uncancelled(Step(s, a).value)
  {
    if OfSlurp(a) {
      assert Inside(s.slurps[a.uid], s.reader);
      SlurpStepStaysUncancelled(s, a.uid, a);
    } else {
      ReaderStepStaysUncancelled(s, a);
    }
  }

  lemma {:induction false} UncancelledOverRuns(actions: seq<Action>)
    requires Run(actions).Some? && forall i :: 0 <= i < |actions| ==> !actions[i].Cancel?
    ensures Uncancelled(Run(actions).value)
  {
    if actions != [] {
      var n := |actions| - 1;
      UncancelledOverRuns(actions[..n]);
      InvariantOverRuns(actions[..n]);
      OnceHeldOverRuns(actions[..n]);
      StepStaysUncancelled(Run(actions[..n]).value, actions[n]);
    }
  }

  /** As long as no pid ends before the journal says its service stopped, the
      reader is never blocked, whatever else happens. */
  lemma NeverBlockedWhilePidsLast(actions: seq<Action>)
    requires Run(actions).Some? && forall i :: 0 <= i < |actions| ==> !actions[i].Cancel?
    ensures !Blocked(Run(actions).value)
    ensures !Run(actions).value.reader.Dead? ==> CanReadOn(Run(actions).value)
  {
    UncancelledOverRuns(actions);
    var s := Run(actions).value;
    if s.reader.Put? && s.reader.line.service in s.current && s.current[s.reader.line.service] < |s.slurps| {
      assert QuietSlurp(s.slurps[s.current[s.reader.line.service]]);
    }
    if !s.reader.Dead? { ReaderGoesOn(actions); }
  }

  // ----- a run that blocks the reader -----

  /** A service whose pid has ended, seen from the reader: still attached. */
  predicate Abandoned(s: State, u: nat, line: Line) {
    && Left(s, u) && |s.slurps[u].queue| <= CHANNEL_CAPACITY
    && s.reader.Idle? && line.service in s.current && s.current[line.service] == u && line.kind == App
  }

  /** Reading on until the queue is full and one more line is in hand. */
  lemma {:induction false} FillsUp(s: State, u: nat, line: Line) returns (acts: seq<Action>)
    requires Abandoned(s, u, line)
    ensures Fold(Step, s, acts).Some? && Blocked(Fold(Step, s, acts).value)
    decreases CHANNEL_CAPACITY - |s.slurps[u].queue|
  {
    var s1 := Step(s, Read(line)).value;
    if |s.slurps[u].queue| == CHANNEL_CAPACITY {
      acts := [Read(line)] + [];
      FoldFirst(Step, s, Read(line), s1, []);
    } else {
      var s2 := Step(s1, ReaderPut).value;
      var more := FillsUp(s2, u, line);
      acts := [Read(line)] + ([ReaderPut] + more);
      FoldFirst(Step, s1, ReaderPut, s2, more);
      FoldFirst(Step, s, Read(line), s1, [ReaderPut] + more);
    }
  }

  /** The publisher finds the context done. */
  lemma SeesDone(s: State, u: nat, more: seq<Action>) returns (t: State)
    requires u < |s.slurps| && s.slurps[u].publisher == Capturing && !s.reader.Dead?
    ensures Fold(Step, s, [Cancel(u)] + ([SeeDone(u)] + more)) == Fold(Step, t, more)
    ensures t == Update(s, u, s.slurps[u].(cancelled := true, publisher := Leaving))
  {
    var s1 := Step(s, Cancel(u)).value;
    t := Step(s1, SeeDone(u)).value;
    FoldFirst(Step, s1, SeeDone(u), t, more);
    FoldFirst(Step, s, Cancel(u), s1, [SeeDone(u)] + more);
  }

  lemma FirstLine(line: Line, more: seq<Action>) returns (t: State)
    requires line.kind == App && line.enabled
    ensures Run([Read(line)] + ([ReaderStart(true)] + ([ReaderPut] + more))) == Fold(Step, t, more)
    ensures t == State(map[line.service := 0], [Slurp(line.service, false, NotYet, Capturing, [line], [])], Idle,
                       [Started(line.service, 0), Queued(0, line)], [line])
  {
    var s1 := Step(Init(), Read(line)).value;
    var s2 := Step(s1, ReaderStart(true)).value;
    t := Step(s2, ReaderPut).value;
    assert s1 == Init().(reader := Start(line), accepted := [line]);
    assert s2.slurps == [Slurp(line.service, false, NotYet, Capturing, [], [])] && s2.reader == Put(line);
    assert s2.current == map[line.service := 0];
    assert t.slurps[0] == Slurp(line.service, false, NotYet, Capturing, [line], []);
    assert t.log == [Started(line.service, 0), Queued(0, line)];
    FoldFirst(Step, s2, ReaderPut, t, more);
    FoldFirst(Step, s1, ReaderStart(true), s2, [ReaderPut] + more);
    FoldFirst(Step, Init(), Read(line), s1, [ReaderStart(true)] + ([ReaderPut] + more));
  }

  /** For any app line of an enabled service there is a run that blocks the
      reader: the line starts a slurp, its pid ends, its publisher sees it, and
      lines keep coming until one finds a hundred that nobody takes. */
  lemma ReaderCanBlock(line: Line) returns (acts: seq<Action>)
    requires line.kind == App && line.enabled
    ensures Run(acts).Some? && Blocked(Run(acts).value)
  {
    var s1 := FirstLine(line, []);
    var s2 := SeesDone(s1, 0, []);
    var more := FillsUp(s2, 0, line);
    var rest := [Cancel(0)] + ([SeeDone(0)] + more);
    s2 := SeesDone(s1, 0, more);
    s1 := FirstLine(line, rest);
    acts := [Read(line)] + ([ReaderStart(true)] + ([ReaderPut] + rest));
  }
}
