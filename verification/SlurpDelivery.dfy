/** Slurps and their batchers together: a publisher goroutine's turn takes a line
    from its slurp's channel, or sees its context done. */
module SlurpDelivery {
  import opened Prelude
  import S = SlurpMachine
  import P = SlurpSteps
  import B = Batcher

  /** How a line is turned into a buffer, and the capture window of each service. */
  datatype Setting = Setting(bytes: S.Line -> B.Buffer, window: S.Name -> B.CaptureWindow)

  /** Batcher number `u` is the publisher of slurp `u`. */
  datatype State = State(slurps: S.State, batches: seq<B.Batch>)

  datatype Action = Launch(now: int) | Turn(uid: nat, turn: B.Turn) | Other(step: S.Action)

  function Init(): State {
    State(S.Init(), [])
  }

  function BuffersOf(c: Setting, lines: seq<S.Line>): (r: seq<B.Buffer>)
    ensures |r| == |lines|
  {
    seq(|lines|, i requires 0 <= i < |lines| => c.bytes(lines[i]))
  }

  /** What a turn of the publisher of `u` does to its slurp; None when the select
      cannot be woken like that. */
  function Woken(c: Setting, s: S.State, u: nat, b: B.Batch, t: B.Turn): Option<S.State>
    requires u < |s.slurps|
  {
    if B.TimeLeft(b, c.window(s.slurps[u].service), t.now) <= 0 || t.wake.TimesOut? then Some(s)
    else if t.wake.Cancelled? then S.SlurpStep(s, u, S.SeeDone(u))
    else if s.slurps[u].queue != [] && t.wake.buffer == c.bytes(s.slurps[u].queue[0]) then S.SlurpStep(s, u, S.Take(u))
    else None
  }

  function TurnStep(c: Setting, s: State, u: nat, t: B.Turn): Option<State>
    requires u < |s.slurps.slurps| && u < |s.batches|
  {
    var slurp := s.slurps.slurps[u];
    if s.slurps.reader.Dead? || slurp.publisher != S.Capturing then None else
    var b := B.Step(s.batches[u], c.window(slurp.service), t);
    var after := Woken(c, s.slurps, u, s.batches[u], t);
    if b.None? || after.None? then None else Some(State(after.value, s.batches[u := b.value]))
  }

  predicate OfPublisherLoop(a: S.Action) {
    a.Take? || a.SeeDone? || a == S.ReaderStart(true)
  }

  function Step(c: Setting, s: State, a: Action): Option<State> {
    match a
    case Launch(now) =>
      var t := S.Step(s.slurps, S.ReaderStart(true));
      if t.None? then None else Some(State(t.value, s.batches + [B.Init(now)]))
    case Turn(u, t) => if u < |s.slurps.slurps| && u < |s.batches| then TurnStep(c, s, u, t) else None
    case Other(step) =>
      if OfPublisherLoop(step) then None else
      var t := S.Step(s.slurps, step);
      if t.None? then None else Some(s.(slurps := t.value))
  }

  function Stepper(c: Setting): (State, Action) -> Option<State> {
    (s: State, a: Action) => Step(c, s, a)
  }

  function Run(c: Setting, actions: seq<Action>): Option<State> {
    Fold(Stepper(c), Init(), actions)
  }

  // ----- what every step keeps -----

  /** The publisher's batcher took what was taken from the slurp's channel, and is
      done when the publisher has left its loop. */
  predicate Coupled(c: Setting, slurp: S.Slurp, b: B.Batch) {
    && b.taken == BuffersOf(c, slurp.taken)
    && B.Kept(b, c.window(slurp.service))
    && (b.done <==> slurp.publisher != S.Capturing)
  }

  predicate Inv(c: Setting, s: State) {
    && S.Invariant(s.slurps) && |s.batches| == |s.slurps.slurps|
    && forall u :: 0 <= u < |s.batches| ==> Coupled(c, s.slurps.slurps[u], s.batches[u])
  }

  lemma SlurpsKept(s: S.State, a: S.Action)
    requires S.Invariant(s) && S.Step(s, a).Some?
    ensures S.Invariant(S.Step(s, a).value)
  {
    if S.OfSlurp(a) { P.KeepsSlurpStep(s, a.uid, a); } else { P.KeepsReaderStep(s, a); }
  }

  /** The steps outside the publishers' loops. */
  lemma OtherStays(s: S.State, a: S.Action)
    requires S.Step(s, a).Some? && !OfPublisherLoop(a)
    ensures var t := S.Step(s, a).value;
            && |t.slurps| == |s.slurps|
            && forall u :: 0 <= u < |s.slurps| ==> SameLoop(s.slurps[u], t.slurps[u])
  {
  }

  predicate SameLoop(x: S.Slurp, y: S.Slurp) {
    y.taken == x.taken && y.service == x.service && (y.publisher == S.Capturing <==> x.publisher == S.Capturing)
  }

  lemma OtherKeeps(c: Setting, s: State, a: S.Action)
    requires Inv(c, s) && Step(c, s, Other(a)).Some?
    ensures Inv(c, Step(c, s, Other(a)).value)
  {
    SlurpsKept(s.slurps, a);
    OtherStays(s.slurps, a);
    var t := Step(c, s, Other(a)).value;
    forall u | 0 <= u < |t.batches|
      ensures Coupled(c, t.slurps.slurps[u], t.batches[u])
    {
      assert Coupled(c, s.slurps.slurps[u], s.batches[u]) && SameLoop(s.slurps.slurps[u], t.slurps.slurps[u]);
    }
  }

  lemma LaunchKeeps(c: Setting, s: State, now: int)
    requires Inv(c, s) && Step(c, s, Launch(now)).Some?
    ensures Inv(c, Step(c, s, Launch(now)).value)
  {
    SlurpsKept(s.slurps, S.ReaderStart(true));
    B.InitKept(now, c.window(s.slurps.reader.line.service));
    var t := Step(c, s, Launch(now)).value;
    forall u | 0 <= u < |t.batches|
      ensures Coupled(c, t.slurps.slurps[u], t.batches[u])
    {
      if u < |s.batches| { assert Coupled(c, s.slurps.slurps[u], s.batches[u]); }
    }
  }

  /** One turn, seen from its slurp and its batcher. */
  lemma TurnCouples(c: Setting, s: State, u: nat, t: B.Turn)
    requires u < |s.slurps.slurps| == |s.batches| && TurnStep(c, s, u, t).Some?
    requires Coupled(c, s.slurps.slurps[u], s.batches[u])
    ensures var r := TurnStep(c, s, u, t).value;
            && r.slurps == s.slurps.(slurps := s.slurps.slurps[u := r.slurps.slurps[u]])
            && Coupled(c, r.slurps.slurps[u], r.batches[u])
  {
    var slurp, b := s.slurps.slurps[u], s.batches[u];
    var w := c.window(slurp.service);
    B.StepKept(b, w, t);
    if B.TimeLeft(b, w, t.now) > 0 && t.wake.Arrives? {
      assert BuffersOf(c, slurp.taken + [slurp.queue[0]]) == BuffersOf(c, slurp.taken) + [c.bytes(slurp.queue[0])];
    }
    assert s.slurps.slurps[u := slurp] == s.slurps.slurps;
  }

  lemma WokenKeeps(c: Setting, s: S.State, u: nat, b: B.Batch, t: B.Turn)
    requires S.Invariant(s) && u < |s.slurps| && Woken(c, s, u, b, t).Some?
    ensures S.Invariant(Woken(c, s, u, b, t).value)
  {
    if B.TimeLeft(b, c.window(s.slurps[u].service), t.now) > 0 && !t.wake.TimesOut? {
      P.KeepsSlurpStep(s, u, if t.wake.Cancelled? then S.SeeDone(u) else S.Take(u));
    }
  }

  lemma TurnKeeps(c: Setting, s: State, u: nat, t: B.Turn)
    requires Inv(c, s) && Step(c, s, Turn(u, t)).Some?
    ensures Inv(c, Step(c, s, Turn(u, t)).value)
  {
    assert Coupled(c, s.slurps.slurps[u], s.batches[u]);
    TurnCouples(c, s, u, t);
    WokenKeeps(c, s.slurps, u, s.batches[u], t);
    var r := TurnStep(c, s, u, t).value;
    forall v | 0 <= v < |r.batches|
      ensures Coupled(c, r.slurps.slurps[v], r.batches[v])
    {
      assert Coupled(c, s.slurps.slurps[v], s.batches[v]);
    }
  }

  lemma {:induction false} InvOverRuns(c: Setting, actions: seq<Action>)
    requires Run(c, actions).Some?
    ensures Inv(c, Run(c, actions).value)
  {
    if actions != [] {
      var n := |actions| - 1;
      InvOverRuns(c, actions[..n]);
      var s := Run(c, actions[..n]).value;
      match actions[n]
      case Launch(now) => LaunchKeeps(c, s, now);
      case Turn(u, t) => TurnKeeps(c, s, u, t);
      case Other(a) => OtherKeeps(c, s, a);
    }
  }

  // ----- main results -----

  /** The buffers in the records and in the slots still pending are the lines taken. */
  lemma WrittenAndPending(c: Setting, slurp: S.Slurp, b: B.Batch)
    requires Coupled(c, slurp, b)
    ensures B.Buffers(Flatten(b.written)) + B.Buffers(b.pending) == BuffersOf(c, slurp.taken)
  {
    B.BuffersAppend(Flatten(b.written), b.pending);
    B.BuffersOfSlots(b.taken);
  }

  lemma TakenAndQueued(c: Setting, taken: seq<S.Line>, queue: seq<S.Line>)
    ensures BuffersOf(c, taken + queue) == BuffersOf(c, taken) + BuffersOf(c, queue)
  {
  }

  lemma NothingPending(written: seq<B.Buffer>)
    ensures written + B.Buffers([]) == written
  {
  }

  /** From the journal to the records: in every run, for every slurp, what its
      records hold, then what its batcher has pending, then what is queued, are the
      lines queued on it, in order; and once its publisher has left its loop the
      records hold all it took, so that what is lost is what is still queued. */
  lemma LinesReachTheRecords(c: Setting, actions: seq<Action>, u: nat)
    requires Run(c, actions).Some? && u < |Run(c, actions).value.slurps.slurps|
    ensures |Run(c, actions).value.batches| == |Run(c, actions).value.slurps.slurps|
    ensures var s := Run(c, actions).value;
            var slurp, b := s.slurps.slurps[u], s.batches[u];
            && B.Buffers(Flatten(b.written)) + B.Buffers(b.pending) + BuffersOf(c, slurp.queue)
               == BuffersOf(c, S.QueuedOn(s.slurps.log, u))
            && (slurp.publisher != S.Capturing ==>
                b.pending == [] && B.Buffers(Flatten(b.written)) == BuffersOf(c, slurp.taken))
  {
    InvOverRuns(c, actions);
    var s := Run(c, actions).value;
    var slurp, b := s.slurps.slurps[u], s.batches[u];
    assert Coupled(c, slurp, b) && S.SlurpLogged(s.slurps.log, slurp, u);
    WrittenAndPending(c, slurp, b);
    TakenAndQueued(c, slurp.taken, slurp.queue);
    if slurp.publisher != S.Capturing { NothingPending(B.Buffers(Flatten(b.written))); }
  }
}
