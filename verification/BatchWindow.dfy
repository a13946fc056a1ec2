/** When records are written: which turns of the batching loop flush, and how
    long a buffer can wait. */
module BatchWindow {
  import opened Prelude
  import opened Batcher

  /** The turn ends the batch: the time is up, the timer or the cancellation
      wakes the loop, or a buffer arrives that fills the batch. */
  predicate Flushes(b: Batch, w: CaptureWindow, t: Turn) {
    || b.start + w.millis - t.now <= 0
    || !t.wake.Arrives?
    || Bytes(Buffers(b.pending)) + |t.wake.buffer| >= w.maxBytes
  }

  /** The turn takes a buffer from the channel. */
  predicate Takes(b: Batch, w: CaptureWindow, t: Turn) {
    b.start + w.millis - t.now > 0 && t.wake.Arrives?
  }

  lemma NoneTaken(taken: seq<Buffer>)
    ensures taken + [] == taken
  {
  }

  lemma StepFlushes(b: Batch, w: CaptureWindow, t: Turn)
    requires Kept(b, w) && Step(b, w, t).Some?
    ensures var r := Step(b, w, t).value;
            && r.taken == b.taken + (if Takes(b, w, t) then [t.wake.buffer] else [])
            && (Flushes(b, w, t) ==> r.pending == [] && r.start == t.after)
            && (!Flushes(b, w, t) ==>
                  r.pending == b.pending + [Some(t.wake.buffer)] && r.written == b.written && r.start == b.start)
            && (r.done <==> b.start + w.millis - t.now > 0 && t.wake.Cancelled?)
            && b.written <= r.written && |r.written| <= |b.written| + 1
  {
    NoneTaken(b.taken);
  }

  /** In every run, a turn that ends the batch leaves nothing pending: everything
      taken so far has been written. Any other turn writes nothing, and adds the
      buffer it takes. Only the cancellation ends the loop. */
  lemma TurnFlushesExactly(start: int, w: CaptureWindow, turns: seq<Turn>)
    requires turns != [] && Run(start, w, turns).Some?
    ensures Run(start, w, turns[..|turns| - 1]).Some?
    ensures var t, b, r := turns[|turns| - 1], Run(start, w, turns[..|turns| - 1]).value, Run(start, w, turns).value;
            && r.taken == b.taken + (if Takes(b, w, t) then [t.wake.buffer] else [])
            && (Flushes(b, w, t) ==> r.pending == [] && Flatten(r.written) == Slots(r.taken) && r.start == t.after)
            && (!Flushes(b, w, t) ==>
                  r.pending == b.pending + [Some(t.wake.buffer)] && r.written == b.written && r.start == b.start)
            && (r.done <==> b.start + w.millis - t.now > 0 && t.wake.Cancelled?)
            && |r.written| <= |b.written| + 1
  {
    var n := |turns| - 1;
    KeptOverRuns(start, w, turns[..n]);
    KeptOverRuns(start, w, turns);
    StepFlushes(Run(start, w, turns[..n]).value, w, turns[n]);
    var r := Run(start, w, turns).value;
    assert Flatten(r.written) + [] == Flatten(r.written);
  }

  /** The timer and the cancellation flush, however little is pending. */
  lemma TimerFlushes(start: int, w: CaptureWindow, turns: seq<Turn>)
    requires turns != [] && Run(start, w, turns).Some?
    requires var t := turns[|turns| - 1]; t.wake.TimesOut? || t.wake.Cancelled?
    ensures var r := Run(start, w, turns).value; r.pending == [] && Flatten(r.written) == Slots(r.taken)
  {
    TurnFlushesExactly(start, w, turns);
  }

  // ----- since the last flush -----

  /** The turns from `k` on only took buffers, each within the window. */
  predicate OnlyArrivals(w: CaptureWindow, turns: seq<Turn>, k: nat, from: int) {
    forall i :: k <= i < |turns| ==> turns[i].wake.Arrives? && turns[i].now < from + w.millis
  }

  function Arrivals(turns: seq<Turn>, k: nat): seq<Slot>
    requires k <= |turns| && forall i :: k <= i < |turns| ==> turns[i].wake.Arrives?
  {
    seq(|turns| - k, i requires 0 <= i < |turns| - k => Some(turns[k + i].wake.buffer))
  }

  /** The batch `b` after the turns is the batch `s` after `k` of them, and since
      then only buffers were taken. */
  predicate Since(start: int, w: CaptureWindow, turns: seq<Turn>, k: nat, s: Batch, b: Batch) {
    && k <= |turns| && s.pending == (if k == 0 then [None, None, None, None] else [])
    && b.start == (if k == 0 then start else turns[k - 1].after)
    && OnlyArrivals(w, turns, k, b.start)
    && b.pending == s.pending + Arrivals(turns, k) && b.written == s.written
  }

  lemma OneMoreArrival(start: int, w: CaptureWindow, turns: seq<Turn>, t: Turn, k: nat, s: Batch, b: Batch, r: Batch)
    requires Since(start, w, turns, k, s, b) && !Flushes(b, w, t)
    requires r.pending == b.pending + [Some(t.wake.buffer)] && r.written == b.written && r.start == b.start
    ensures Since(start, w, turns + [t], k, s, r)
  {
    assert Arrivals(turns + [t], k) == Arrivals(turns, k) + [Some(t.wake.buffer)];
    Associative(s.pending, Arrivals(turns, k), [Some(t.wake.buffer)]);
  }

  /** What is pending was taken after the last flush, turn by turn, and each of
      those turns began within the window that the flush opened. */
  lemma {:induction false} SinceLastFlush(start: int, w: CaptureWindow, turns: seq<Turn>) returns (k: nat)
    requires Run(start, w, turns).Some?
    ensures k <= |turns| && Run(start, w, turns[..k]).Some?
    ensures Since(start, w, turns, k, Run(start, w, turns[..k]).value, Run(start, w, turns).value)
  {
    var n := |turns| - 1;
    if turns == [] {
      k := 0;
    } else {
      TurnFlushesExactly(start, w, turns);
      var b, r := Run(start, w, turns[..n]).value, Run(start, w, turns).value;
      if Flushes(b, w, turns[n]) {
        k := |turns|;
        assert turns[..k] == turns && r.pending == r.pending + Arrivals(turns, k);
      } else {
        k := SinceLastFlush(start, w, turns[..n]);
        assert turns[..n][..k] == turns[..k] && turns == turns[..n] + [turns[n]];
        OneMoreArrival(start, w, turns[..n], turns[n], k, Run(start, w, turns[..k]).value, b, r);
      }
    }
  }

  lemma {:induction false} WrittenGrows(start: int, w: CaptureWindow, turns: seq<Turn>, k: nat)
    requires k <= |turns| && Run(start, w, turns).Some?
    ensures Run(start, w, turns[..k]).Some?
    ensures var s, b := Run(start, w, turns[..k]).value, Run(start, w, turns).value;
            s.written <= b.written && s.taken <= b.taken
  {
    var n := |turns| - 1;
    if k == |turns| {
      assert turns[..k] == turns;
    } else {
      WrittenGrows(start, w, turns[..n], k);
      assert turns[..n][..k] == turns[..k];
      KeptOverRuns(start, w, turns[..n]);
      StepFlushes(Run(start, w, turns[..n]).value, w, turns[n]);
    }
  }

  lemma FlattenPrefix(a: seq<seq<Slot>>, b: seq<seq<Slot>>)
    requires a <= b
    ensures Flatten(a) <= Flatten(b)
  {
    FlattenAppend(a, b[|a|..]);
    assert a + b[|a|..] == b;
  }

  lemma SlotsPrefix(a: seq<Buffer>, b: seq<Buffer>)
    requires a <= b
    ensures Slots(a) <= Slots(b)
  {
  }

  /** The clock at turn `i` is not before the end of any earlier turn. */
  lemma {:induction false} ForwardFrom(start: int, turns: seq<Turn>, k: nat, i: nat)
    requires Forward(start, turns) && k <= i < |turns|
    ensures (if k == 0 then start else turns[k - 1].after) <= turns[i].now
    decreases i
  {
    ForwardPrefix(start, turns, i + 1);
    assert turns[..i + 1][i] == turns[i];
    if k < i {
      ForwardFrom(start, turns, k, i - 1);
    }
  }

  /** Everything taken when a batch was last ended has been written. */
  lemma EndedIsWritten(start: int, w: CaptureWindow, turns: seq<Turn>, k: nat, i: nat)
    requires Run(start, w, turns).Some? && i < k <= |turns|
    requires Run(start, w, turns[..k]).Some? && Run(start, w, turns[..k]).value.pending == []
    ensures Run(start, w, turns[..i + 1]).Some?
    ensures Slots(Run(start, w, turns[..i + 1]).value.taken) <= Flatten(Run(start, w, turns).value.written)
  {
    WrittenGrows(start, w, turns[..k], i + 1);
    assert turns[..k][..i + 1] == turns[..i + 1];
    WrittenGrows(start, w, turns, k);
    KeptOverRuns(start, w, turns[..k]);
    var s := Run(start, w, turns[..k]).value;
    assert Flatten(s.written) + [] == Flatten(s.written);
    SlotsPrefix(Run(start, w, turns[..i + 1]).value.taken, s.taken);
    FlattenPrefix(s.written, Run(start, w, turns).value.written);
  }

  /** Main result: when the clock does not go backwards, no buffer waits longer
      than the window. Once a turn begins that long after the turn in which a
      buffer was taken, the buffer is in the records when it ends. */
  lemma NoBufferWaitsLonger(start: int, w: CaptureWindow, turns: seq<Turn>, i: nat)
    requires Run(start, w, turns).Some? && Forward(start, turns) && i + 1 < |turns|
    requires turns[|turns| - 1].now >= turns[i].now + w.millis
    ensures Run(start, w, turns[..i + 1]).Some?
    ensures Slots(Run(start, w, turns[..i + 1]).value.taken) <= Flatten(Run(start, w, turns).value.written)
  {
    var n := |turns| - 1;
    TurnFlushesExactly(start, w, turns);
    var k := SinceLastFlush(start, w, turns[..n]);
    assert turns[..n][..k] == turns[..k];
    if i < k {
      EndedIsWritten(start, w, turns, k, i);
    } else {
      ForwardFrom(start, turns, k, i);
      assert turns[..|turns|] == turns;
      EndedIsWritten(start, w, turns, |turns|, i);
    }
  }
}
