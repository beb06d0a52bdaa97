/** Double-buffered logging: many threads append lines, one thread swaps the full buffers out,
    writes them and recycles them. */
module AsyncLogging {
  import opened Bytes
  import opened Common

  const LARGE_BUFFER := 4000 * 1000
  const MAX_PILE := 25

  /** What a buffer holds. */
  type Buf = seq<Byte>

  /** What goes to the log file: a buffer's bytes, or the note that `n` buffers were dropped. */
  datatype Item = Text(buf: Buf) | Notice(n: nat)

  datatype Phase = Head | Writing | Stopped

  /** `accepted` is every line taken, in order; `batches` is what each turn swapped out. */
  datatype State = State(
    phase: Phase,
    currentBuffer: Buf,
    nextBuffer: Option<Buf>,
    buffers: seq<Buf>,
    newBuffer1: Option<Buf>,
    newBuffer2: Option<Buf>,
    buffersToWrite: seq<Buf>,
    output: seq<Item>,
    accepted: seq<Byte>,
    batches: seq<seq<Buf>>)

  /** `Append` is taken by any thread under the lock; the others by the logging thread. */
  datatype Action = Append(line: seq<Byte>) | Swap | WriteAndRecycle | LeaveLoop

  function Init(): State {
    State(Head, [], Some([]), [], Some([]), Some([]), [], [], [], [])
  }

  /** The buffer's own append: a line that does not fit is not copied. */
  function Put(b: Buf, line: seq<Byte>): Buf {
    if LARGE_BUFFER - |b| > |line| then b + line else b
  }

  function AppendLine(s: State, line: seq<Byte>): State {
    if LARGE_BUFFER - |s.currentBuffer| > |line| then
      s.(currentBuffer := Put(s.currentBuffer, line), accepted := s.accepted + line)
    else
      var spare := if s.nextBuffer.Some? then s.nextBuffer.value else [];
      s.(buffers := s.buffers + [s.currentBuffer],
         nextBuffer := None,
         currentBuffer := Put(spare, line),
         accepted := s.accepted + Put([], line))
  }

  predicate Enabled(s: State, a: Action) {
    match a
    case Append(_) => true
    case Swap => s.phase == Head && s.newBuffer1.Some?
    case WriteAndRecycle => s.phase == Writing
    case LeaveLoop => s.phase == Head
  }

  /** What one turn writes for the buffers it swapped out. */
  function Written(batch: seq<Buf>): (items: seq<Item>) {
    if |batch| > MAX_PILE then [Notice(|batch| - 2), Text(batch[0]), Text(batch[1])] else Texts(batch)
  }

  function Texts(batch: seq<Buf>): (items: seq<Item>)
    ensures |items| == |batch|
  {
    seq(|batch|, i requires 0 <= i < |batch| => Text(batch[i]))
  }

  function Next(s: State, a: Action): State
    requires Enabled(s, a)
  {
    match a
    case Append(line) => AppendLine(s, line)
    case Swap =>
      s.(phase := Writing,
         buffersToWrite := s.buffers + [s.currentBuffer],
         batches := s.batches + [s.buffers + [s.currentBuffer]],
         buffers := [],
         currentBuffer := s.newBuffer1.value,
         newBuffer1 := None,
         nextBuffer := if s.nextBuffer.None? then s.newBuffer2 else s.nextBuffer,
         newBuffer2 := if s.nextBuffer.None? then None else s.newBuffer2)
    case WriteAndRecycle =>
      s.(phase := Head,
         output := s.output + Written(s.buffersToWrite),
         buffersToWrite := [],
         newBuffer1 := if s.newBuffer1.None? then Some([]) else s.newBuffer1,
         newBuffer2 := if s.newBuffer2.None? then Some([]) else s.newBuffer2)
    case LeaveLoop => s.(phase := Stopped)
  }

  function After(acts: seq<Action>): (s: State) {
    if acts == [] then Init()
    else
      var t := After(acts[..|acts| - 1]);
      if Enabled(t, acts[|acts| - 1]) then Next(t, acts[|acts| - 1]) else t
  }

  // -------------------------------------------------------------- invariants

  function Flat(bs: seq<Buf>): (b: seq<Byte>) {
    if bs == [] then [] else Flat(bs[..|bs| - 1]) + bs[|bs| - 1]
  }

  function FlatAll(bss: seq<seq<Buf>>): (b: seq<Byte>) {
    if bss == [] then [] else FlatAll(bss[..|bss| - 1]) + Flat(bss[|bss| - 1])
  }

  function WrittenAll(bss: seq<seq<Buf>>): (items: seq<Item>) {
    if bss == [] then [] else WrittenAll(bss[..|bss| - 1]) + Written(bss[|bss| - 1])
  }

  /** The batches whose writing is finished. */
  function Finished(s: State): seq<seq<Buf>> {
    if s.phase == Writing && s.batches != [] then s.batches[..|s.batches| - 1] else s.batches
  }

  /** Every accepted byte is, in order, in a batch, in a queued buffer or in the current one;
      the file holds exactly what the finished batches call for. */
  ghost predicate Conserved(s: State) {
    && s.accepted == FlatAll(s.batches) + Flat(s.buffers) + s.currentBuffer
    && s.output == WrittenAll(Finished(s))
    && (s.phase == Writing ==> s.batches != [] && s.buffersToWrite == s.batches[|s.batches| - 1])
    && (s.phase != Writing ==> s.buffersToWrite == [])
  }

  /** The spare buffers are where the code expects them, and empty. */
  ghost predicate SparesOk(s: State) {
    && (s.nextBuffer.Some? ==> s.nextBuffer.value == [])
    && (s.nextBuffer.None? ==> s.buffers != [])
    && (s.newBuffer1.Some? ==> s.newBuffer1.value == [])
    && (s.newBuffer2.Some? ==> s.newBuffer2.value == [])
    && (s.phase != Writing ==> s.newBuffer1.Some? && s.newBuffer2.Some?)
    && (s.phase == Writing ==> s.newBuffer1.None? && s.buffersToWrite != [])
    && (s.phase == Writing && s.newBuffer2.None? ==> |s.buffersToWrite| >= 2)
  }

  ghost predicate Inv(s: State) {
    Conserved(s) && SparesOk(s)
  }

  lemma FlatSnoc(bs: seq<Buf>, b: Buf)
    ensures Flat(bs + [b]) == Flat(bs) + b
  {
    assert (bs + [b])[..|bs|] == bs;
  }

  lemma AppendConserves(s: State, line: seq<Byte>)
    requires Conserved(s) && SparesOk(s)
    ensures Conserved(AppendLine(s, line))
  {
    var t := AppendLine(s, line);
    var a, f, c := FlatAll(s.batches), Flat(s.buffers), s.currentBuffer;
    if LARGE_BUFFER - |c| > |line| {
      assert (a + f + c) + line == a + f + (c + line);
    } else {
      FlatSnoc(s.buffers, c);
      var p := Put([], line);
      assert (a + f + c) + p == a + (f + c) + p;
    }
  }

  /** A line is taken exactly when it is shorter than an empty buffer. */
  lemma AppendAccepts(s: State, line: seq<Byte>)
    requires SparesOk(s)
    ensures SparesOk(AppendLine(s, line))
    ensures |line| < LARGE_BUFFER ==> AppendLine(s, line).accepted == s.accepted + line
    ensures |line| >= LARGE_BUFFER ==> AppendLine(s, line).accepted == s.accepted
  {
  }

  lemma SwapConserves(s: State)
    requires Conserved(s) && Enabled(s, Swap) && s.newBuffer1 == Some([])
    ensures Conserved(Next(s, Swap))
  {
    var t := Next(s, Swap);
    assert t.batches[..|s.batches|] == s.batches;
    FlatSnoc(s.buffers, s.currentBuffer);
    var a, f := FlatAll(s.batches), Flat(s.buffers);
    assert a + f + s.currentBuffer == a + (f + s.currentBuffer) + [] + [];
  }

  lemma WriteConserves(s: State)
    requires Conserved(s) && Enabled(s, WriteAndRecycle)
    ensures Conserved(Next(s, WriteAndRecycle))
  {
    assert WrittenAll(s.batches) == WrittenAll(Finished(s)) + Written(s.buffersToWrite);
  }

  lemma StepKeeps(s: State, a: Action)
    requires Inv(s) && Enabled(s, a)
    ensures Inv(Next(s, a))
  {
    match a
    case Append(line) =>
      AppendConserves(s, line);
      AppendAccepts(s, line);
    case Swap => SwapConserves(s);
    case WriteAndRecycle => WriteConserves(s);
    case LeaveLoop =>
  }

  lemma {:induction false} RunKeeps(acts: seq<Action>)
    ensures Inv(After(acts))
  {
    if acts == [] {
      assert Inv(Init());
    } else {
      RunKeeps(acts[..|acts| - 1]);
      var t := After(acts[..|acts| - 1]);
      if Enabled(t, acts[|acts| - 1]) {
        StepKeeps(t, acts[|acts| - 1]);
      }
    }
  }

  // ------------------------------------------------------------ main results

  /** The lines short enough for a buffer, in the order they were appended. */
  function Lines(acts: seq<Action>): (b: seq<Byte>) {
    if acts == [] then []
    else
      var a := acts[|acts| - 1];
      Lines(acts[..|acts| - 1]) + (if a.Append? && |a.line| < LARGE_BUFFER then a.line else [])
  }

  lemma StepAccepts(s: State, a: Action)
    requires Inv(s) && Enabled(s, a)
    ensures Next(s, a).accepted == s.accepted + if a.Append? && |a.line| < LARGE_BUFFER then a.line else []
  {
    if a.Append? {
      AppendAccepts(s, a.line);
    }
  }

  lemma {:induction false} AcceptedLines(acts: seq<Action>)
    ensures After(acts).accepted == Lines(acts)
  {
    if acts != [] {
      var before, a := acts[..|acts| - 1], acts[|acts| - 1];
      AcceptedLines(before);
      RunKeeps(before);
      if Enabled(After(before), a) {
        StepAccepts(After(before), a);
      }
    }
  }

  function TextBytes(items: seq<Item>): (b: seq<Byte>) {
    if items == [] then []
    else
      var last := items[|items| - 1];
      TextBytes(items[..|items| - 1]) + (if last.Text? then last.buf else [])
  }

  lemma {:induction false} TextBytesConcat(a: seq<Item>, b: seq<Item>)
    ensures TextBytes(a + b) == TextBytes(a) + TextBytes(b)
  {
    if b == [] {
      assert a + b == a;
    } else {
      TextBytesConcat(a, b[..|b| - 1]);
      assert (a + b)[..|a + b| - 1] == a + b[..|b| - 1];
    }
  }

  lemma {:induction false} TextsFlat(batch: seq<Buf>)
    ensures TextBytes(Texts(batch)) == Flat(batch)
  {
    if batch != [] {
      TextsFlat(batch[..|batch| - 1]);
      assert Texts(batch)[..|batch| - 1] == Texts(batch[..|batch| - 1]);
    }
  }

  /** What a turn keeps of the buffers it swapped out: all of them, or the two oldest of a pile. */
  function Kept(batch: seq<Buf>): seq<Buf> {
    if |batch| > MAX_PILE then batch[..2] else batch
  }

  function KeptAll(bss: seq<seq<Buf>>): (b: seq<Byte>) {
    if bss == [] then [] else KeptAll(bss[..|bss| - 1]) + Flat(Kept(bss[|bss| - 1]))
  }

  /** When more pile up, the turn writes a note and exactly the first two, the oldest. */
  lemma PileWritten(batch: seq<Buf>)
    ensures TextBytes(Written(batch)) == Flat(Kept(batch))
  {
    if |batch| <= MAX_PILE {
      TextsFlat(batch);
    } else {
      var note := [Notice(|batch| - 2)];
      TextsFlat(batch[..2]);
      TextBytesConcat(note, Texts(batch[..2]));
      assert Written(batch) == note + Texts(batch[..2]);
      assert note[..0] == [];
    }
  }

  lemma {:induction false} KeptWritten(bss: seq<seq<Buf>>)
    ensures TextBytes(WrittenAll(bss)) == KeptAll(bss)
  {
    if bss != [] {
      var before, last := bss[..|bss| - 1], bss[|bss| - 1];
      KeptWritten(before);
      PileWritten(last);
      TextBytesConcat(WrittenAll(before), Written(last));
    }
  }

  /** On every run, the lines appended so far are, in order, the finished batches, the buffers being
      written, the queued ones and the current one; and the file has the text of each finished batch,
      whole or, of a pile, its two oldest buffers. */
  lemma LinesAccountedFor(acts: seq<Action>)
    ensures var s := After(acts);
      && s.output == WrittenAll(Finished(s)) && TextBytes(s.output) == KeptAll(Finished(s))
      && FlatAll(Finished(s)) + Flat(s.buffersToWrite) + Flat(s.buffers) + s.currentBuffer == Lines(acts)
  {
    var s := After(acts);
    RunKeeps(acts);
    AcceptedLines(acts);
    KeptWritten(Finished(s));
    assert FlatAll(s.batches) == FlatAll(Finished(s)) + Flat(s.buffersToWrite);
  }

  ghost predicate NoPile(bss: seq<seq<Buf>>) {
    forall i :: 0 <= i < |bss| ==> |bss[i]| <= MAX_PILE
  }

  lemma {:induction false} NothingDropped(bss: seq<seq<Buf>>)
    requires NoPile(bss)
    ensures KeptAll(bss) == FlatAll(bss)
  {
    if bss != [] {
      NothingDropped(bss[..|bss| - 1]);
    }
  }

  /** As long as no turn finds more than 25 buffers, the file followed by the buffers being
      written, the queued ones and the current one is exactly the lines appended so far. */
  lemma NoLineLost(acts: seq<Action>)
    requires NoPile(Finished(After(acts)))
    ensures var s := After(acts);
      TextBytes(s.output) + Flat(s.buffersToWrite) + Flat(s.buffers) + s.currentBuffer == Lines(acts)
  {
    LinesAccountedFor(acts);
    NothingDropped(Finished(After(acts)));
  }

  // -------------------------------------------------------------- the object

  class AsyncLogging {
    var phase: Phase
    var currentBuffer: Option<Buf>
    var nextBuffer: Option<Buf>
    var buffers: seq<Buf>
    /** Locals of the logging thread. */
    var newBuffer1: Option<Buf>
    var newBuffer2: Option<Buf>
    var buffersToWrite: seq<Buf>
    var output: seq<Item>
    ghost var accepted: seq<Byte>
    ghost var batches: seq<seq<Buf>>

    ghost predicate Valid()
      reads this
    {
      currentBuffer.Some?
    }

    ghost function View(): State
      requires Valid()
      reads this
    {
      State(phase, currentBuffer.value, nextBuffer, buffers, newBuffer1, newBuffer2, buffersToWrite,
            output, accepted, batches)
    }

    constructor ()
      ensures Valid() && View() == Init()
    {
      phase, currentBuffer, nextBuffer, buffers := Head, Some([]), Some([]), [];
      newBuffer1, newBuffer2, buffersToWrite, output := Some([]), Some([]), [], [];
      accepted, batches := [], [];
    }

    method AppendLogline(line: seq<Byte>)
      requires Valid()
      modifies this
      ensures Valid() && View() == Next(old(View()), Append(line))
    {
      if LARGE_BUFFER - |currentBuffer.value| > |line| {
        currentBuffer := Some(Put(currentBuffer.value, line));
        accepted := accepted + line;
      } else {
        buffers := buffers + [currentBuffer.value];
        currentBuffer := None;
        if nextBuffer.Some? {
          currentBuffer := nextBuffer;
          nextBuffer := None;
        } else {
          currentBuffer := Some([]);
        }
        currentBuffer := Some(Put(currentBuffer.value, line));
        accepted := accepted + Put([], line);
      }
    }

    /** The locked part of the logging thread's loop. */
    method SwapBuffers()
      requires Valid() && Inv(View()) && phase == Head
      modifies this
      ensures Valid() && View() == Next(old(View()), Swap)
    {
      assert newBuffer1 == Some([]) && newBuffer2 == Some([]) && buffersToWrite == [];
      phase := Writing;
      buffers := buffers + [currentBuffer.value];
      batches := batches + [buffers];
      currentBuffer := newBuffer1;
      newBuffer1 := None;
      buffersToWrite, buffers := buffers, buffersToWrite;
      if nextBuffer.None? {
        nextBuffer := newBuffer2;
        newBuffer2 := None;
      }
    }

    /** The rest of the turn, on the thread's own buffers. */
    method WriteAndRecycleBuffers()
      requires Valid() && Inv(View()) && phase == Writing
      modifies this
      ensures Valid() && View() == Next(old(View()), WriteAndRecycle)
    {
      var was := output;
      ghost var batch := buffersToWrite;
      if |buffersToWrite| > MAX_PILE {
        output := output + [Notice(|buffersToWrite| - 2)];
        buffersToWrite := buffersToWrite[..2];
      }
      WriteTexts();
      assert output == was + Written(batch);
      if |buffersToWrite| > 2 {
        buffersToWrite := buffersToWrite[..2];
      }
      if newBuffer1.None? {
        assert buffersToWrite != [];
        newBuffer1 := Some([]);
        buffersToWrite := buffersToWrite[..|buffersToWrite| - 1];
      }
      if newBuffer2.None? {
        assert buffersToWrite != [];
        newBuffer2 := Some([]);
        buffersToWrite := buffersToWrite[..|buffersToWrite| - 1];
      }
      buffersToWrite := [];
      phase := Head;
    }

    method WriteTexts()
      modifies this`output
      ensures output == old(output) + Texts(buffersToWrite)
    {
      var i := 0;
      while i < |buffersToWrite|
        invariant 0 <= i <= |buffersToWrite|
        invariant output == old(output) + Texts(buffersToWrite)[..i]
      {
        output := output + [Text(buffersToWrite[i])];
        i := i + 1;
      }
    }
  }
}
