/** What the lines of the journal do: from one line to the next, which services
    are attached, which processes are completed and started, what is queued. */
module SlurpReader {
  import opened Prelude
  import opened SlurpMachine
  import opened SlurpSteps
  import opened SlurpLifecycle
  import opened SlurpProgress

  // ----- the app lines accepted -----

  /** The app lines read of services that were enabled or attached when read. */
  function AppLines(actions: seq<Action>): seq<Line>
    requires Run(actions).Some?
  {
    if actions == [] then [] else
    var n := |actions| - 1;
    AppLines(actions[..n])
    + if actions[n].Read? && actions[n].line.kind == App
         && (actions[n].line.enabled || actions[n].line.service in Run(actions[..n]).value.current)
      then [actions[n].line] else []
  }

  lemma StepAccepts(s: State, a: Action)
    requires Step(s, a).Some?
    ensures Step(s, a).value.accepted
            == s.accepted + if a.Read? && a.line.kind == App && (a.line.enabled || a.line.service in s.current)
                            then [a.line] else []
  {
    assert s.accepted + [] == s.accepted;
  }

  lemma {:induction false} AcceptsAppLines(actions: seq<Action>)
    requires Run(actions).Some?
    ensures Run(actions).value.accepted == AppLines(actions)
  {
    if actions != [] {
      var n := |actions| - 1;
      AcceptsAppLines(actions[..n]);
      StepAccepts(Run(actions[..n]).value, actions[n]);
    }
  }

  /** Exactly these are accepted; whenever the reader waits for a line, each has
      been queued, once and in order. */
  lemma AppLinesAreQueued(actions: seq<Action>)
    requires Run(actions).Some?
    ensures var s := Run(actions).value;
            s.accepted == AppLines(actions) && (s.reader.Idle? ==> QueuedLines(s.log) == AppLines(actions))
  {
    AcceptsAppLines(actions);
    InvariantOverRuns(actions);
    assert QueuedLines(Run(actions).value.log) + [] == QueuedLines(Run(actions).value.log);
  }

  // ----- from one line to the next -----

  predicate Heard(s: State, line: Line) {
    line.enabled || line.service in s.current
  }

  /** The line ends the process its service is attached to. */
  predicate Ends(s: State, line: Line) {
    line.service in s.current && (line.kind == Failed || line.kind == Stopped || line.kind == StartUnit)
  }

  predicate Same(s: State, t: State) {
    t.current == s.current && Owners(t.log) == Owners(s.log) && QueuedLines(t.log) == QueuedLines(s.log)
  }

  predicate ProcessCompleted(s: State, line: Line, t: State) {
    line.service in s.current ==> Completed(s.current[line.service]) in t.log
  }

  /** No process of the line's service is attached, and what was has been completed. */
  predicate LetGo(s: State, line: Line, t: State) {
    && t.current == s.current - {line.service}
    && Owners(t.log) == Owners(s.log) && QueuedLines(t.log) == QueuedLines(s.log)
    && ProcessCompleted(s, line, t)
  }

  /** The service is attached to a process started since. */
  predicate StartedAnew(s: State, line: Line, t: State) {
    && t.current == s.current[line.service := |Owners(s.log)|]
    && Owners(t.log) == Owners(s.log) + [line.service] && QueuedLines(t.log) == QueuedLines(s.log)
    && (line.kind == StartUnit ==> ProcessCompleted(s, line, t))
  }

  /** The line is queued, on a process started for it when none was attached. */
  predicate PutOn(s: State, line: Line, t: State) {
    && QueuedLines(t.log) == QueuedLines(s.log) + [line]
    && (if line.service in s.current then t.current == s.current && Owners(t.log) == Owners(s.log)
        else t.current == s.current[line.service := |Owners(s.log)|] && Owners(t.log) == Owners(s.log) + [line.service])
  }

  /** What a line has done once the reader waits for the next one. `started`
      says whether a process was started meanwhile. */
  predicate Done(s: State, line: Line, t: State, started: bool) {
    if !Heard(s, line) || line.kind == Stopping || line.kind == Unknown then Same(s, t) && !started
    else if line.kind == App then PutOn(s, line, t) && started == (line.service !in s.current)
    else if line.kind == StartUnit then if started then StartedAnew(s, line, t) else LetGo(s, line, t)
    else if Ends(s, line) then LetGo(s, line, t) && !started
    else Same(s, t) && !started
  }

  /** On the way there. */
  predicate Underway(s: State, line: Line, t: State, started: bool) {
    match t.reader
    case Idle => Done(s, line, t, started)
    case Stop(l) => l == line && Ends(s, line) && Same(s, t) && !started
    case ShuttingDown(l) => l == line && Ends(s, line) && Same(s, t) && !started
    case Start(l) =>
      && l == line && Heard(s, line) && LetGo(s, line, t) && !started
      && (line.kind == StartUnit || (line.kind == App && line.service !in s.current))
    case Put(l) =>
      && l == line && Heard(s, line) && line.kind == App && started == (line.service !in s.current)
      && if started then StartedAnew(s, line, t) else Same(s, t)
    case Dead(_) => true
  }

  lemma ReadSetsOut(s: State, line: Line)
    requires Invariant(s) && s.reader.Idle?
    ensures Step(s, Read(line)).Some? && Underway(s, line, Step(s, Read(line)).value, false)
  {
    if line.service !in s.current { assert s.current - {line.service} == s.current; }
  }

  lemma OneMoreEntry(log: seq<Entry>, e: Entry)
    ensures Owners(log + [e]) == Owners(log) + if e.Started? then [e.service] else []
    ensures QueuedLines(log + [e]) == QueuedLines(log) + if e.Queued? then [e.line] else []
    ensures forall f :: f in log ==> f in log + [e]
  {
    assert (log + [e])[..|log|] == log;
  }

  /** Completions change neither the services started nor the lines queued. */
  lemma CompletionsAside(log: seq<Entry>, u: nat)
    ensures Owners(log + [Completed(u)]) == Owners(log) && QueuedLines(log + [Completed(u)]) == QueuedLines(log)
  {
    OneMoreEntry(log, Completed(u));
    assert Owners(log) + [] == Owners(log) && QueuedLines(log) + [] == QueuedLines(log);
  }

  /** The other goroutines. */
  lemma OthersStep(s: State, line: Line, t: State, started: bool, a: Action)
    requires Underway(s, line, t, started) && OfSlurp(a) && Step(t, a).Some?
    ensures Underway(s, line, Step(t, a).value, started)
  {
    CompletionsAside(t.log, a.uid);
    OneMoreEntry(t.log, Completed(a.uid));
    var r := Step(t, a).value;
    assert r.reader == t.reader && r.current == t.current;
    assert r.log == t.log || r.log == t.log + [Completed(a.uid)];
  }

  lemma StartsAnew(s: State, line: Line, t: State, ok: bool)
    requires Underway(s, line, t, false) && Invariant(t) && t.reader.Start?
    ensures Underway(s, line, StartStep(t, line, ok), ok)
  {
    OneMoreEntry(t.log, Started(line.service, |t.slurps|));
    assert Owners(s.log) == Owners(t.log) && |Owners(t.log)| == |t.slurps|;
    assert (s.current - {line.service})[line.service := |t.slurps|] == s.current[line.service := |t.slurps|];
    assert QueuedLines(t.log) + [] == QueuedLines(t.log);
  }

  lemma ServesAttached(s: State, line: Line, t: State, started: bool, a: Action)
    requires Underway(s, line, t, started) && Invariant(t) && line.service in t.current
    requires t.reader.Stop? || t.reader.ShuttingDown? || t.reader.Put?
    requires var u := t.current[line.service]; u < |t.slurps| && AttachedStep(t, line, u, a).Some?
    ensures Underway(s, line, AttachedStep(t, line, t.current[line.service], a).value, started)
  {
    var u := t.current[line.service];
    assert SlurpLogged(t.log, t.slurps[u], u);
    CompletionsAside(t.log, u);
    OneMoreEntry(t.log, Completed(u));
    OneMoreEntry(t.log, Queued(u, line));
    assert Owners(t.log) + [] == Owners(t.log);
  }

  lemma ReaderServes(s: State, line: Line, t: State, started: bool, a: Action)
    requires Underway(s, line, t, started) && Invariant(t) && !OfSlurp(a) && !a.Read? && Step(t, a).Some?
    ensures Underway(s, line, Step(t, a).value, started || a == ReaderStart(true))
  {
    if a.ReaderStart? { StartsAnew(s, line, t, a.ok); } else { ServesAttached(s, line, t, started, a); }
  }

  lemma ServesOn(s: State, line: Line, t: State, started: bool, a: Action)
    requires Underway(s, line, t, started) && Invariant(t) && !a.Read? && Step(t, a).Some?
    ensures Underway(s, line, Step(t, a).value, started || a == ReaderStart(true))
    ensures Invariant(Step(t, a).value)
  {
    if OfSlurp(a) {
      OthersStep(s, line, t, started, a);
      KeepsSlurpStep(t, a.uid, a);
    } else {
      ReaderServes(s, line, t, started, a);
      KeepsReaderStep(t, a);
    }
  }

  lemma {:induction false} ServedSoFar(s: State, line: Line, t: State, more: seq<Action>)
    requires Invariant(t) && Underway(s, line, t, false)
    requires Fold(Step, t, more).Some? && forall i :: 0 <= i < |more| ==> !more[i].Read?
    ensures Invariant(Fold(Step, t, more).value)
    ensures Underway(s, line, Fold(Step, t, more).value, ReaderStart(true) in more)
  {
    if more != [] {
      var n, last := |more| - 1, more[|more| - 1];
      ServedSoFar(s, line, t, more[..n]);
      InLonger(more, ReaderStart(true));
      ServesOn(s, line, Fold(Step, t, more[..n]).value, ReaderStart(true) in more[..n], last);
    }
  }

  lemma InLonger(more: seq<Action>, a: Action)
    requires more != []
    ensures a in more <==> a in more[..|more| - 1] || more[|more| - 1] == a
  {
  }

  /** Main result: in every run, whatever the other goroutines do meanwhile, what
      a line has done when the reader waits for the next. A line that ends its
      service's process has completed it and detached the service; a start line
      has done the same and attached the service to a newer process, if it could
      be started; an app line is queued; no other line does anything, and no line
      touches another service. */
  lemma LineIsServed(actions: seq<Action>, line: Line, more: seq<Action>)
    requires Run(actions + ([Read(line)] + more)).Some? && forall i :: 0 <= i < |more| ==> !more[i].Read?
    ensures Run(actions).Some?
    ensures var s, t := Run(actions).value, Run(actions + ([Read(line)] + more)).value;
            t.reader.Idle? ==> Done(s, line, t, ReaderStart(true) in more)
  {
    var rest := [Read(line)] + more;
    FoldPrefix(Step, Init(), actions + rest, |actions|);
    assert (actions + rest)[..|actions|] == actions;
    FoldCompose(Step, Init(), actions, rest);
    InvariantOverRuns(actions);
    var s := Run(actions).value;
    FirstOfFold(s, Read(line), more);
    ReadSetsOut(s, line);
    KeepsReaderStep(s, Read(line));
    ServedSoFar(s, line, Step(s, Read(line)).value, more);
  }

  lemma FirstOfFold(s: State, a: Action, more: seq<Action>)
    requires Fold(Step, s, [a] + more).Some?
    ensures Step(s, a).Some? && Fold(Step, s, [a] + more) == Fold(Step, Step(s, a).value, more)
  {
    FoldPrefix(Step, s, [a] + more, 1);
    assert ([a] + more)[..1] == [a] && [a][..0] == [] && Fold(Step, s, []) == Some(s);
    FoldFirst(Step, s, a, Step(s, a).value, more);
  }

  /** A queue has room for a hundred lines. */
  lemma PutNeedsRoom(actions: seq<Action>)
    requires Run(actions).Some? && Run(actions).value.reader.Put?
    ensures var s := Run(actions).value;
            var service := s.reader.line.service;
            && service in s.current && s.current[service] < |s.slurps|
            && (Step(s, ReaderPut).Some? <==> |s.slurps[s.current[service]].queue| < 100)
  {
    InvariantOverRuns(actions);
    InvariantIsAtWork(Run(actions).value);
  }

  // ----- the end of a process -----

  /** The publisher of a slurp whose context is done gets to its end, and then
      the process has been completed: steps left to it. */
  function StepsToGone(slurp: Slurp): nat {
    (match slurp.publisher case Capturing => 5 case Leaving => 4 case _ => 0)
    + if slurp.publisher == Gone then 0 else OnceDistance(slurp.once)
  }

  /** Who has to act for it. */
  function TowardsGone(s: State, u: nat): Action
    requires u < |s.slurps|
  {
    var slurp := s.slurps[u];
    match slurp.publisher
    case Capturing => SeeDone(u)
    case Leaving =>
      if !slurp.once.Busy? then PublisherEnter(u) else if slurp.once.sent then ReaderEnd else ReaderSend
    case Finishing => if slurp.once == Busy(false, true) then PublisherEnd(u) else PublisherSend(u)
    case Gone => Cancel(u)
  }

  predicate OnTheWay(s: State, u: nat) {
    !s.reader.Dead? && u < |s.slurps| && (s.slurps[u].cancelled || s.slurps[u].publisher != Capturing)
  }

  predicate GoneIsNearer(s: State, u: nat, t: State)
    requires u < |s.slurps|
  {
    OnTheWay(t, u) && StepsToGone(t.slurps[u]) < StepsToGone(s.slurps[u])
  }

  /** The reader is inside the Once, and can go on. */
  lemma ReaderLetsGo(s: State, u: nat)
    requires OnTheWay(s, u) && OnceHeld(s) && Attached(s.current, s.slurps)
    requires s.slurps[u].publisher == Leaving && s.slurps[u].once.Busy? && Inside(s.slurps[u], s.reader)
    ensures var r := Step(s, TowardsGone(s, u)); r.Some? && GoneIsNearer(s, u, r.value)
  {
    assert s.current[s.slurps[u].service] == u;
  }

  lemma PublisherGoes(s: State, u: nat)
    requires OnTheWay(s, u) && s.slurps[u].publisher != Gone && Inside(s.slurps[u], s.reader)
    requires s.slurps[u].publisher == Leaving ==> !s.slurps[u].once.Busy?
    ensures var r := Step(s, TowardsGone(s, u)); r.Some? && GoneIsNearer(s, u, r.value)
  {
  }

  lemma GoneApproaches(s: State, u: nat)
    requires Sound(s) && OnTheWay(s, u) && s.slurps[u].publisher != Gone
    ensures var r := Step(s, TowardsGone(s, u)); r.Some? && Sound(r.value) && GoneIsNearer(s, u, r.value)
  {
    assert Inside(s.slurps[u], s.reader);
    if s.slurps[u].publisher == Leaving && s.slurps[u].once.Busy? { ReaderLetsGo(s, u); } else { PublisherGoes(s, u); }
    StepKeepsSound(s, TowardsGone(s, u));
  }

  lemma {:induction false} ReachesGone(s: State, u: nat) returns (more: seq<Action>)
    requires Sound(s) && OnTheWay(s, u)
    ensures Fold(Step, s, more).Some? && Invariant(Fold(Step, s, more).value)
    ensures var t := Fold(Step, s, more).value; u < |t.slurps| && t.slurps[u].publisher == Gone
    decreases StepsToGone(s.slurps[u])
  {
    if s.slurps[u].publisher == Gone {
      more := [];
    } else {
      GoneApproaches(s, u);
      var t := Step(s, TowardsGone(s, u)).value;
      var rest := ReachesGone(t, u);
      more := [TowardsGone(s, u)] + rest;
      FoldFirst(Step, s, TowardsGone(s, u), t, rest);
    }
  }

  predicate GoneIsFinished(s: State) {
    forall u :: 0 <= u < |s.slurps| && s.slurps[u].publisher == Gone ==> s.slurps[u].once.Finished?
  }

  lemma SlurpStepFinishes(s: State, u: nat, a: Action)
    requires GoneIsFinished(s) && u < |s.slurps| && SlurpStep(s, u, a).Some?
    ensures GoneIsFinished(SlurpStep(s, u, a).value)
  {
  }

  lemma ReaderStepFinishes(s: State, a: Action)
    requires GoneIsFinished(s) && ReaderStep(s, a).Some?
    ensures GoneIsFinished(ReaderStep(s, a).value)
  {
  }

  lemma {:induction false} GoneIsFinishedOverRuns(actions: seq<Action>)
    requires Run(actions).Some?
    ensures GoneIsFinished(Run(actions).value)
  {
    if actions != [] {
      var n, a := |actions| - 1, actions[|actions| - 1];
      GoneIsFinishedOverRuns(actions[..n]);
      var s := Run(actions[..n]).value;
      if OfSlurp(a) { SlurpStepFinishes(s, a.uid, a); } else { ReaderStepFinishes(s, a); }
    }
  }

  /** In every run the process of a publisher that has ended has been completed. */
  lemma EndedIsCompleted(actions: seq<Action>, u: nat)
    requires Run(actions).Some? && u < |Run(actions).value.slurps| && Run(actions).value.slurps[u].publisher == Gone
    ensures Completed(u) in Run(actions).value.log
  {
    GoneIsFinishedOverRuns(actions);
    InvariantOverRuns(actions);
    assert SlurpLogged(Run(actions).value.log, Run(actions).value.slurps[u], u);
  }

  /** When a pid ends, the run can go on until its process has been completed,
      whatever the reader is doing: nothing it waits for holds the publisher up. */
  lemma PidEndCompletes(actions: seq<Action>, u: nat) returns (more: seq<Action>)
    requires Run(actions).Some? && !Run(actions).value.reader.Dead? && u < |Run(actions).value.slurps|
    ensures Run(actions + ([Cancel(u)] + more)).Some?
    ensures Completed(u) in Run(actions + ([Cancel(u)] + more)).value.log
    ensures var t := Run(actions + ([Cancel(u)] + more)).value; u < |t.slurps| && t.slurps[u].publisher == Gone
  {
    var s := Run(actions).value;
    InvariantOverRuns(actions);
    OnceHeldOverRuns(actions);
    var t := Step(s, Cancel(u)).value;
    StepKeepsSound(s, Cancel(u));
    more := ReachesGone(t, u);
    FoldFirst(Step, s, Cancel(u), t, more);
    FoldCompose(Step, Init(), actions, [Cancel(u)] + more);
    EndedIsCompleted(actions + ([Cancel(u)] + more), u);
  }
}
