/** What single steps of the slurper keep of its invariant.

    The invariant ties the log to the slurps, to the services they are attached
    to and to the line in the reader's hands. A step changes few of these parts:
    it appends at most one entry to the log, touches at most one slurp, and
    attaches or detaches at most one service. So the parts come first, then the
    steps. */
module SlurpSteps {
  import opened Prelude
  import opened SlurpMachine

  // ----- appending to the log -----

  lemma {:induction false} NothingBeforeStart(log: seq<Entry>, u: nat)
    requires LogOk(log) && |Owners(log)| <= u
    ensures QueuedOn(log, u) == [] && Completed(u) !in log
  {
    if log != [] { NothingBeforeStart(log[..|log| - 1], u); }
  }

  lemma SlurpStillLogged(log: seq<Entry>, e: Entry, slurp: Slurp, u: nat)
    requires SlurpLogged(log, slurp, u) && e != Completed(u) && !(e.Queued? && e.uid == u)
    ensures SlurpLogged(log + [e], slurp, u)
  {
    assert QueuedOn(log, u) + [] == QueuedOn(log, u);
  }

  lemma MatchesStart(log: seq<Entry>, slurps: seq<Slurp>, name: Name)
    requires Matches(log, slurps)
    requires forall u :: 0 <= u < |slurps| && slurps[u].service == name ==> slurps[u].once.Finished?
    ensures Matches(log + [Started(name, |slurps|)], slurps + [Slurp(name, false, NotYet, Capturing, [], [])])
  {
    var e, slurps' := Started(name, |slurps|), slurps + [Slurp(name, false, NotYet, Capturing, [], [])];
    NothingBeforeStart(log, |slurps|);
    forall v | 0 <= v < |slurps| && Owners(log)[v] == name
      ensures Completed(v) in log
    {
      assert SlurpLogged(log, slurps[v], v);
    }
    assert SlurpLogged(log + [e], slurps'[|slurps|], |slurps|);
    forall u | 0 <= u < |slurps|
      ensures SlurpLogged(log + [e], slurps'[u], u)
    {
      SlurpStillLogged(log, e, slurps[u], u);
    }
  }

  lemma MatchesCompleted(log: seq<Entry>, slurps: seq<Slurp>, u: nat, slurp: Slurp)
    requires Matches(log, slurps) && u < |slurps|
    requires slurp == slurps[u].(once := slurp.once) && !Sent(slurps[u].once) && Sent(slurp.once)
    ensures Matches(log + [Completed(u)], slurps[u := slurp])
  {
    var slurps' := slurps[u := slurp];
    assert SlurpLogged(log, slurps[u], u);
    assert QueuedOn(log, u) + [] == QueuedOn(log, u);
    forall v | 0 <= v < |slurps|
      ensures SlurpLogged(log + [Completed(u)], slurps'[v], v)
    {
      if v != u { SlurpStillLogged(log, Completed(u), slurps[v], v); }
    }
  }

  lemma MatchesQueued(log: seq<Entry>, slurps: seq<Slurp>, u: nat, line: Line)
    requires Matches(log, slurps) && LastOf(slurps, line.service, u)
    ensures Matches(log + [Queued(u, line)], slurps[u := slurps[u].(queue := slurps[u].queue + [line])])
  {
    var e, slurps' := Queued(u, line), slurps[u := slurps[u].(queue := slurps[u].queue + [line])];
    forall v | 0 <= v < |slurps|
      ensures Owners(log)[v] == slurps[v].service
    {
      assert SlurpLogged(log, slurps[v], v);
    }
    forall v | 0 <= v < |slurps|
      ensures SlurpLogged(log + [e], slurps'[v], v)
    {
      if v == u {
        assert SlurpLogged(log, slurps[u], u);
        Associative(slurps[u].taken, slurps[u].queue, [line]);
      } else {
        SlurpStillLogged(log, e, slurps[v], v);
      }
    }
  }

  // ----- attaching and detaching -----

  lemma AttachedReplace(current: map<Name, nat>, slurps: seq<Slurp>, u: nat, slurp: Slurp)
    requires Attached(current, slurps) && u < |slurps|
    requires slurp.service == slurps[u].service && (slurp.once.Finished? || !slurps[u].once.Finished?)
    ensures Attached(current, slurps[u := slurp])
  {
    var slurps' := slurps[u := slurp];
    forall name | name in current
      ensures LastOf(slurps', name, current[name])
    {
      assert LastOf(slurps, name, current[name]);
    }
  }

  lemma AttachedStart(current: map<Name, nat>, slurps: seq<Slurp>, slurp: Slurp)
    requires Attached(current, slurps) && slurp.service !in current
    ensures Attached(current[slurp.service := |slurps|], slurps + [slurp])
  {
    var slurps' := slurps + [slurp];
    forall name | name in current
      ensures LastOf(slurps', name, current[name])
    {
      assert LastOf(slurps, name, current[name]);
    }
  }

  /** The reader may move on unless it is the one inside some Once. */
  lemma ExclusiveMove(slurps: seq<Slurp>, reader: ReaderPc, after: ReaderPc)
    requires Exclusive(slurps, reader)
    requires forall u :: 0 <= u < |slurps| ==> !(slurps[u].once.Busy? && slurps[u].once.byReader)
    ensures Exclusive(slurps, after)
  {
    forall u | 0 <= u < |slurps|
      ensures Inside(slurps[u], after)
    {
      assert Inside(slurps[u], reader);
    }
  }

  lemma NobodyInside(s: State)
    requires Invariant(s) && !s.reader.ShuttingDown?
    ensures forall u :: 0 <= u < |s.slurps| ==> !(s.slurps[u].once.Busy? && s.slurps[u].once.byReader)
  {
    forall u | 0 <= u < |s.slurps|
      ensures !(s.slurps[u].once.Busy? && s.slurps[u].once.byReader)
    {
      assert Inside(s.slurps[u], s.reader);
    }
  }

  // ----- what each step keeps -----

  lemma ReadPlaces(s: State, line: Line)
    requires s.reader.Idle?
    ensures var t := ReadStep(s, line);
            && t == s.(reader := t.reader, accepted := t.accepted)
            && Placed(t.reader, s.current) && Purposeful(t.reader)
            && s.accepted + InHand(t.reader) == t.accepted
  {
  }

  lemma KeepsRead(s: State, line: Line)
    requires Invariant(s) && s.reader.Idle?
    ensures Invariant(ReadStep(s, line))
  {
    var t := ReadStep(s, line);
    assert QueuedLines(s.log) == s.accepted;
    ReadPlaces(s, line);
  }

  lemma KeepsStart(s: State, ok: bool)
    requires Invariant(s) && s.reader.Start?
    ensures Invariant(StartStep(s, s.reader.line, ok))
  {
    var t, line := StartStep(s, s.reader.line, ok), s.reader.line;
    NobodyInside(s);
    ExclusiveMove(s.slurps, s.reader, t.reader);
    if ok {
      MatchesStart(s.log, s.slurps, line.service);
      AttachedStart(s.current, s.slurps, t.slurps[|s.slurps|]);
    }
  }

  lemma KeepsQuiet(s: State, u: nat, slurp: Slurp)
    requires Invariant(s) && u < |s.slurps|
    requires slurp.service == s.slurps[u].service && slurp.once == s.slurps[u].once
    requires slurp.publisher == Finishing <==> s.slurps[u].publisher == Finishing
    requires slurp.taken + slurp.queue == s.slurps[u].taken + s.slurps[u].queue
    ensures Invariant(Update(s, u, slurp))
  {
    assert Inside(s.slurps[u], s.reader);
    AttachedReplace(s.current, s.slurps, u, slurp);
  }

  /** Entering or leaving the Once without a log entry. */
  lemma KeepsOnce(s: State, u: nat, slurp: Slurp)
    requires Invariant(s) && u < |s.slurps|
    requires slurp == s.slurps[u].(once := slurp.once, publisher := slurp.publisher, cancelled := slurp.cancelled)
    requires Sent(slurp.once) == Sent(s.slurps[u].once) && (slurp.once.Finished? || !s.slurps[u].once.Finished?)
    requires Inside(slurp, s.reader)
    ensures Invariant(Update(s, u, slurp))
  {
    AttachedReplace(s.current, s.slurps, u, slurp);
  }

  lemma KeepsSend(s: State, u: nat, once: Once)
    requires Invariant(s) && u < |s.slurps|
    requires s.slurps[u].once.Busy? && !s.slurps[u].once.sent && once == s.slurps[u].once.(sent := true)
    ensures Invariant(Update(s, u, s.slurps[u].(once := once)).(log := s.log + [Completed(u)]))
  {
    var slurp := s.slurps[u].(once := once);
    assert Inside(s.slurps[u], s.reader);
    AttachedReplace(s.current, s.slurps, u, slurp);
    MatchesCompleted(s.log, s.slurps, u, slurp);
  }

  lemma KeepsDetach(s: State, line: Line)
    requires Invariant(s) && (s.reader == Stop(line) || s.reader == ShuttingDown(line))
    requires line.service in s.current && s.slurps[s.current[line.service]].once.Finished?
    ensures Invariant(Detached(s, line))
  {
    forall u | 0 <= u < |s.slurps|
      ensures !(s.slurps[u].once.Busy? && s.slurps[u].once.byReader)
    {
      assert Inside(s.slurps[u], s.reader);
    }
    ExclusiveMove(s.slurps, s.reader, Detached(s, line).reader);
  }

  lemma KeepsPut(s: State)
    requires Invariant(s) && s.reader.Put?
    ensures var line := s.reader.line;
            var u := s.current[line.service];
            Invariant(Update(s, u, s.slurps[u].(queue := s.slurps[u].queue + [line]))
                      .(log := s.log + [Queued(u, line)], reader := Idle))
  {
    var line := s.reader.line;
    var u := s.current[line.service];
    assert LastOf(s.slurps, line.service, u);
    var slurp := s.slurps[u].(queue := s.slurps[u].queue + [line]);
    NobodyInside(s);
    assert Inside(s.slurps[u], s.reader);
    ExclusiveMove(s.slurps[u := slurp], s.reader, Idle);
    AttachedReplace(s.current, s.slurps, u, slurp);
    MatchesQueued(s.log, s.slurps, u, line);
  }

  lemma KeepsEnter(s: State)
    requires Invariant(s) && s.reader.Stop? && s.slurps[s.current[s.reader.line.service]].once == NotYet
    ensures var line := s.reader.line;
            var u := s.current[line.service];
            Invariant(Update(s, u, s.slurps[u].(once := Busy(true, false))).(reader := ShuttingDown(line)))
  {
    var line := s.reader.line;
    var u := s.current[line.service];
    var t := s.(reader := ShuttingDown(line));
    assert LastOf(s.slurps, line.service, u) && Inside(s.slurps[u], s.reader);
    NobodyInside(s);
    ExclusiveMove(s.slurps, s.reader, t.reader);
    KeepsOnce(t, u, s.slurps[u].(once := Busy(true, false)));
  }

  lemma KeepsLeave(s: State)
    requires Invariant(s) && s.reader.ShuttingDown?
             && s.slurps[s.current[s.reader.line.service]].once == Busy(true, true)
    ensures var line := s.reader.line;
            var u := s.current[line.service];
            Invariant(Detached(Update(s, u, s.slurps[u].(once := Finished, cancelled := true)), line))
  {
    var line := s.reader.line;
    var u := s.current[line.service];
    assert Inside(s.slurps[u], s.reader);
    var slurp := s.slurps[u].(once := Finished, cancelled := true);
    KeepsOnce(s, u, slurp);
    KeepsDetach(Update(s, u, slurp), line);
  }

  lemma KeepsReaderStep(s: State, a: Action)
    requires Invariant(s) && ReaderStep(s, a).Some?
    ensures Invariant(ReaderStep(s, a).value)
  {
    if a.Read? {
      KeepsRead(s, a.line);
    } else if a.ReaderStart? {
      KeepsStart(s, a.ok);
    } else {
      var line := s.reader.line;
      var u := s.current[line.service];
      assert LastOf(s.slurps, line.service, u) && Inside(s.slurps[u], s.reader);
      if a.ReaderEnter? {
        if s.slurps[u].once.Finished? { KeepsDetach(s, line); } else { KeepsEnter(s); }
      } else if a.ReaderSend? {
        KeepsSend(s, u, Busy(true, true));
      } else if a.ReaderEnd? {
        KeepsLeave(s);
      } else {
        KeepsPut(s);
      }
    }
  }

  lemma KeepsSlurpStep(s: State, u: nat, a: Action)
    requires Invariant(s) && u < |s.slurps| && SlurpStep(s, u, a).Some?
    ensures Invariant(SlurpStep(s, u, a).value)
  {
    var slurp := s.slurps[u];
    assert Inside(slurp, s.reader);
    match a
    case Take(_) =>
      assert slurp.taken + slurp.queue == (slurp.taken + [slurp.queue[0]]) + slurp.queue[1..];
      KeepsQuiet(s, u, slurp.(queue := slurp.queue[1..], taken := slurp.taken + [slurp.queue[0]]));
    case SeeDone(_) => KeepsQuiet(s, u, slurp.(publisher := Leaving));
    case PublisherEnter(_) =>
      if slurp.once.Finished? {
        KeepsQuiet(s, u, slurp.(publisher := Gone));
      } else {
        KeepsOnce(s, u, slurp.(publisher := Finishing, once := Busy(false, false)));
      }
    case PublisherSend(_) => KeepsSend(s, u, Busy(false, true));
    case PublisherEnd(_) => KeepsOnce(s, u, slurp.(once := Finished, cancelled := true, publisher := Gone));
    case Cancel(_) => KeepsQuiet(s, u, slurp.(cancelled := true));
  }
}
