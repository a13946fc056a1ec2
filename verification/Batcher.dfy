/** The publisher goroutine of one journal slurp: it gathers buffers by size and
    time and writes them as records, reusing one backing array. */
module Batcher {
  import opened Prelude

  type Buffer = seq<int>

  /** A slot of the buffer slice; a nil pointer is None. */
  type Slot = Option<Buffer>

  datatype CaptureWindow = CaptureWindow(maxBytes: int, millis: int)

  /** What wakes the select: cancellation, a buffer, or the timer. */
  datatype Wake = Cancelled | Arrives(buffer: Buffer) | TimesOut

  /** One turn of the loop: the clock when the wait is computed, what wakes the
      select if it is reached, and the clock when a flush ends. */
  datatype Turn = Turn(now: int, wake: Wake, after: int)

  datatype Batch = Batch(pending: seq<Slot>, byteCount: nat, start: int, size: nat, done: bool,
                         // history
                         written: seq<seq<Slot>>, taken: seq<Buffer>)

  // ----- the loop on values -----

  function Init(now: int): Batch {
    Batch([None, None, None, None], 0, now, 0, false, [], [])
  }

  function Flush(b: Batch, now: int): Batch {
    if b.pending == [] then b.(start := now) else
    b.(pending := [], byteCount := 0, start := now, size := b.size + b.byteCount, written := b.written + [b.pending])
  }

  function TimeLeft(b: Batch, w: CaptureWindow, now: int): int {
    b.start + w.millis - now
  }

  function Store(b: Batch, buffer: Buffer): Batch {
    b.(pending := b.pending + [Some(buffer)], byteCount := b.byteCount + |buffer|, taken := b.taken + [buffer])
  }

  function Step(b: Batch, w: CaptureWindow, t: Turn): Option<Batch> {
    if b.done then None
    else if TimeLeft(b, w, t.now) <= 0 then Some(Flush(b, t.after))
    else match t.wake
    case Cancelled => Some(Flush(b, t.after).(done := true))
    case TimesOut => Some(Flush(b, t.after))
    case Arrives(buffer) =>
      var b1 := Store(b, buffer);
      Some(if b1.byteCount >= w.maxBytes then Flush(b1, t.after) else b1)
  }

  function Stepper(w: CaptureWindow): (Batch, Turn) -> Option<Batch> {
    (b: Batch, t: Turn) => Step(b, w, t)
  }

  function Run(start: int, w: CaptureWindow, turns: seq<Turn>): Option<Batch> {
    Fold(Stepper(w), Init(start), turns)
  }

  // ----- what is kept -----

  /** The buffers in a list of slots, nil slots left out. */
  function Buffers(slots: seq<Slot>): seq<Buffer> {
    if slots == [] then [] else
    var last := slots[|slots| - 1];
    Buffers(slots[..|slots| - 1]) + if last.Some? then [last.value] else []
  }

  function Bytes(buffers: seq<Buffer>): nat {
    if buffers == [] then 0 else Bytes(buffers[..|buffers| - 1]) + |buffers[|buffers| - 1]|
  }

  /** The four nil slots the slice starts with, then every buffer taken. */
  function Slots(taken: seq<Buffer>): seq<Slot> {
    [None, None, None, None] + seq(|taken|, i requires 0 <= i < |taken| => Some(taken[i]))
  }

  lemma SlotsOne(taken: seq<Buffer>, buffer: Buffer)
    ensures Slots(taken + [buffer]) == Slots(taken) + [Some(buffer)]
  {
  }

  /** A record's bytes without its last slot. */
  function BytesBeforeLast(record: seq<Slot>): nat
    requires record != []
  {
    Bytes(Buffers(record[..|record| - 1]))
  }

  predicate Kept(b: Batch, w: CaptureWindow) {
    && Flatten(b.written) + b.pending == Slots(b.taken)
    && b.byteCount == Bytes(Buffers(b.pending))
    && b.size + b.byteCount == Bytes(b.taken)
    && (w.maxBytes > 0 ==> b.byteCount < w.maxBytes)
    && (b.done ==> b.pending == [])
    && (forall i :: 0 <= i < |b.written| ==>
        b.written[i] != [] && (w.maxBytes > 0 ==> BytesBeforeLast(b.written[i]) < w.maxBytes))
  }

  lemma InitKept(now: int, w: CaptureWindow)
    ensures Kept(Init(now), w)
  {
    NilSlots(Init(now).pending);
    assert Flatten<Slot>([]) + Init(now).pending == Slots([]);
  }

  lemma {:induction false} NilSlots(slots: seq<Slot>)
    requires forall i :: 0 <= i < |slots| ==> slots[i] == None
    ensures Buffers(slots) == []
  {
    if slots != [] { NilSlots(slots[..|slots| - 1]); }
  }

  /** Flushing may follow a buffer that reached the limit, so it asks for the
      bound only on what came before the last slot. */
  lemma FlushKept(b: Batch, w: CaptureWindow, now: int)
    requires Kept(b, w.(maxBytes := 0)) && !b.done
    requires w.maxBytes > 0 ==>
               && (b.pending != [] ==> BytesBeforeLast(b.pending) < w.maxBytes)
               && forall i :: 0 <= i < |b.written| ==> BytesBeforeLast(b.written[i]) < w.maxBytes
    ensures Kept(Flush(b, now), w) && Flush(b, now).pending == []
  {
    if b.pending != [] {
      assert Flatten(b.written + [b.pending]) == Flatten(b.written) + b.pending by {
        FlattenAppend(b.written, [b.pending]);
        FlattenSingle(b.pending);
      }
      assert Flatten(b.written) + b.pending + [] == Flatten(b.written) + b.pending;
    }
  }

  lemma StoreKept(b: Batch, w: CaptureWindow, buffer: Buffer)
    requires Kept(b, w) && !b.done
    ensures var b1 := Store(b, buffer);
            && Kept(b1, w.(maxBytes := 0))
            && (b1.byteCount < w.maxBytes ==> Kept(b1, w))
            && (w.maxBytes > 0 ==> BytesBeforeLast(b1.pending) < w.maxBytes)
  {
    var more: seq<Slot> := [Some(buffer)];
    Associative(Flatten(b.written), b.pending, more);
    SlotsOne(b.taken, buffer);
    assert (b.pending + more)[..|b.pending|] == b.pending;
  }

  lemma {:induction false} BytesMonotone(record: seq<Slot>)
    requires record != []
    ensures BytesBeforeLast(record) <= Bytes(Buffers(record))
  {
    var n := |record| - 1;
    if record[n].Some? {
    } else {
      assert Buffers(record[..n]) + [] == Buffers(record[..n]);
    }
  }

  lemma StepKept(b: Batch, w: CaptureWindow, t: Turn)
    requires Kept(b, w) && Step(b, w, t).Some?
    ensures Kept(Step(b, w, t).value, w)
  {
    if b.pending != [] { BytesMonotone(b.pending); }
    FlushKept(b, w, t.after);
    if t.wake.Arrives? {
      StoreKept(b, w, t.wake.buffer);
      FlushKept(Store(b, t.wake.buffer), w, t.after);
    }
  }

  // ----- main results -----

  lemma {:induction false} KeptOverRuns(start: int, w: CaptureWindow, turns: seq<Turn>)
    requires Run(start, w, turns).Some?
    ensures Kept(Run(start, w, turns).value, w)
  {
    if turns == [] {
      InitKept(start, w);
    } else {
      var n := |turns| - 1;
      KeptOverRuns(start, w, turns[..n]);
      StepKept(Run(start, w, turns[..n]).value, w, turns[n]);
    }
  }

  /** The nil slots the slice starts with are still pending, or went out with the
      first record. */
  predicate NilsTogether(b: Batch) {
    Slots([]) <= if b.written == [] then b.pending else b.written[0]
  }

  lemma {:induction false} NilsStayTogether(start: int, w: CaptureWindow, turns: seq<Turn>)
    requires Run(start, w, turns).Some?
    ensures NilsTogether(Run(start, w, turns).value)
  {
    if turns != [] {
      var n := |turns| - 1;
      NilsStayTogether(start, w, turns[..n]);
    }
  }

  /** Conservation: the records written so far, followed by the pending slots,
      are the four initial nils and then the buffers taken from the channel,
      each once and in order; the nils are all in the first record; sizes add up;
      and once cancellation ended the loop everything taken was written. */
  lemma NoBufferIsLost(start: int, w: CaptureWindow, turns: seq<Turn>)
    requires Run(start, w, turns).Some?
    ensures var b := Run(start, w, turns).value;
            && Flatten(b.written) + b.pending == Slots(b.taken)
            && b.size + b.byteCount == Bytes(b.taken)
            && (b.done ==> Flatten(b.written) == Slots(b.taken) && b.size == Bytes(b.taken))
            && (b.written != [] ==> Slots([]) <= b.written[0])
  {
    KeptOverRuns(start, w, turns);
    var b := Run(start, w, turns).value;
    NilsStayTogether(start, w, turns);
    assert b.done ==> Flatten(b.written) + [] == Flatten(b.written);
  }

  lemma {:induction false} BuffersAppend(a: seq<Slot>, b: seq<Slot>)
    ensures Buffers(a + b) == Buffers(a) + Buffers(b)
  {
    if b == [] {
      assert a + b == a;
    } else {
      var n := |b| - 1;
      assert (a + b)[..|a| + n] == a + b[..n];
      BuffersAppend(a, b[..n]);
    }
  }

  lemma {:induction false} BuffersOfSlots(taken: seq<Buffer>)
    ensures Buffers(Slots(taken)) == taken
  {
    if taken == [] {
      NilSlots(Slots([]));
    } else {
      var n := |taken| - 1;
      BuffersOfSlots(taken[..n]);
      assert taken == taken[..n] + [taken[n]];
      SlotsOne(taken[..n], taken[n]);
    }
  }

  /** Bound: with a positive limit the pending bytes are below it at every loop
      head, so a record can exceed it only by its last buffer. */
  lemma RecordsAreBounded(start: int, w: CaptureWindow, turns: seq<Turn>)
    requires w.maxBytes > 0 && Run(start, w, turns).Some?
    ensures var b := Run(start, w, turns).value;
            && Bytes(Buffers(b.pending)) < w.maxBytes
            && forall i :: 0 <= i < |b.written| ==> b.written[i] != [] && BytesBeforeLast(b.written[i]) < w.maxBytes
  {
    KeptOverRuns(start, w, turns);
  }

  /** The clock readings of a run, in the order they are taken. */
  predicate Forward(start: int, turns: seq<Turn>) {
    turns != [] ==>
      var n := |turns| - 1;
      && Forward(start, turns[..n]) && turns[n].now <= turns[n].after
      && (if n == 0 then start else turns[n - 1].after) <= turns[n].now
  }

  lemma {:induction false} StartIsPast(start: int, w: CaptureWindow, turns: seq<Turn>)
    requires Run(start, w, turns).Some? && Forward(start, turns)
    ensures Run(start, w, turns).value.start <= if turns == [] then start else turns[|turns| - 1].after
  {
    if turns != [] {
      StartIsPast(start, w, turns[..|turns| - 1]);
    }
  }

  /** If the clock never goes backwards, no wait exceeds the capture window. */
  lemma WaitIsBounded(start: int, w: CaptureWindow, turns: seq<Turn>, i: nat)
    requires i < |turns| && Run(start, w, turns).Some? && Forward(start, turns)
    ensures Run(start, w, turns[..i]).Some?
    ensures TimeLeft(Run(start, w, turns[..i]).value, w, turns[i].now) <= w.millis
  {
    FoldPrefix(Stepper(w), Init(start), turns, i);
    ForwardPrefix(start, turns, i + 1);
    assert turns[..i + 1][..i] == turns[..i];
    StartIsPast(start, w, turns[..i]);
  }

  lemma {:induction false} ForwardPrefix(start: int, turns: seq<Turn>, n: nat)
    requires n <= |turns| && Forward(start, turns)
    ensures Forward(start, turns[..n])
  {
    if n < |turns| {
      ForwardPrefix(start, turns[..|turns| - 1], n);
      assert turns[..|turns| - 1][..n] == turns[..n];
    } else {
      assert turns[..n] == turns;
    }
  }

  // ----- the object -----

  /** The goroutine's variables. `currentBuffers` is the slice of the first
      `len` slots of `backing`; a record handed to StreamWrite shares them, and
      is serialized before the call returns. */
  class Publisher {
    const window: CaptureWindow
    var backing: array<Slot>
    var len: nat
    var byteCount: nat
    var start: int
    var size: nat
    var done: bool
    var written: seq<seq<Slot>>
    ghost var taken: seq<Buffer>

    ghost predicate Valid()
      reads this
    {
      0 < backing.Length && len <= backing.Length
    }

    ghost function Value(): Batch
      requires Valid()
      reads this, backing
    {
      Batch(backing[..len], byteCount, start, size, done, written, taken)
    }

    constructor (window: CaptureWindow, now: int)
      ensures Valid() && Value() == Init(now) && this.window == window && fresh(backing)
    {
      this.window := window;
      backing := new Slot[4](_ => None);
      len, byteCount, start, size, done := 4, 0, now, 0, false;
      written, taken := [], [];
    }

    /** append: in place while there is room, else into a larger array. */
    method Append(buffer: Buffer)
      requires Valid()
      modifies this`backing, this`len, backing
      ensures Valid() && (backing == old(backing) || fresh(backing))
      ensures backing[..len] == old(backing[..len]) + [Some(buffer)]
    {
      if len == backing.Length {
        var larger := new Slot[2 * backing.Length](i requires 0 <= i reads this, backing =>
                                                     if i < backing.Length then backing[i] else None);
        backing := larger;
      }
      backing[len] := Some(buffer);
      len := len + 1;
    }

    /** Afterwards the slots the record shared are all nil again. */
    method SendCurrentBuffers(now: int)
      requires Valid()
      modifies this`written, this`size, this`byteCount, this`len, this`start, backing
      ensures Valid() && Value() == Flush(old(Value()), now)
      ensures forall i :: 0 <= i < old(len) ==> backing[i] == None
    {
      if len > 0 {
        written := written + [backing[..len]];
        size := size + byteCount;
        byteCount := 0;
        for i := 0 to len
          modifies backing
          invariant forall j :: 0 <= j < i ==> backing[j] == None
        {
          backing[i] := None;
        }
        len := 0;
      }
      start := now;
    }

    /** One turn of the loop. */
    method TakeTurn(t: Turn)
      requires Valid() && !done
      modifies this, backing
      ensures Valid() && (backing == old(backing) || fresh(backing))
      ensures Some(Value()) == Step(old(Value()), window, t)
    {
      var timeLeft := start + window.millis - t.now;
      if timeLeft <= 0 {
        SendCurrentBuffers(t.after);
      } else {
        match t.wake
        case Cancelled =>
          SendCurrentBuffers(t.after);
          done := true;
        case Arrives(buffer) =>
          byteCount := byteCount + |buffer|;
          Append(buffer);
          taken := taken + [buffer];
          if byteCount >= window.maxBytes {
            SendCurrentBuffers(t.after);
          }
        case TimesOut =>
          SendCurrentBuffers(t.after);
      }
    }

    /** The loop, until a cancellation is seen or the turns given run out. */
    method Loop(turns: seq<Turn>) returns (n: nat)
      requires Valid() && !done
      modifies this, backing
      ensures Valid() && n <= |turns| && (done || n == |turns|)
      ensures Some(Value()) == Fold(Stepper(window), old(Value()), turns[..n])
    {
      n := 0;
      while n < |turns| && !done
        invariant Valid() && n <= |turns|
        invariant backing == old(backing) || fresh(backing)
        invariant Some(Value()) == Fold(Stepper(window), old(Value()), turns[..n])
      {
        assert turns[..n + 1] == turns[..n] + [turns[n]];
        FoldSnoc(Stepper(window), old(Value()), turns[..n], turns[n]);
        TakeTurn(turns[n]);
        n := n + 1;
      }
    }
  }
}
