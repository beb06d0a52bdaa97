/** What one turn of the logging thread achieves, and how what it drops is accounted for. */
module LoggingTurns {
  import opened Bytes
  import opened Common
  import opened L = AsyncLogging

  // -------------------------------------------------------------- one turn

  ghost predicate OnlyAppends(acts: seq<Action>) {
    forall i :: 0 <= i < |acts| ==> acts[i].Append?
  }

  lemma RunOne(acts: seq<Action>, a: Action)
    requires Enabled(After(acts), a)
    ensures After(acts + [a]) == Next(After(acts), a)
  {
    assert (acts + [a])[..|acts|] == acts;
  }

  /** Lines appended meanwhile change nothing of what was swapped out. */
  lemma {:induction false} AppendsLeave(acts: seq<Action>, more: seq<Action>)
    requires OnlyAppends(more)
    ensures var s, r := After(acts), After(acts + more);
      r.phase == s.phase && r.batches == s.batches && r.buffersToWrite == s.buffersToWrite && r.output == s.output
    decreases |more|
  {
    if more == [] {
      assert acts + more == acts;
    } else {
      var front, last := more[..|more| - 1], more[|more| - 1];
      AppendsLeave(acts, front);
      assert acts + more == (acts + front) + [last];
      RunOne(acts + front, last);
    }
  }

  /** A turn, with any lines appended while it writes. */
  function Turn(acts: seq<Action>, more: seq<Action>): seq<Action> {
    acts + [Swap] + more + [WriteAndRecycle]
  }

  /** After a turn, the batches written are exactly the lines appended before its swap, so these are in the
      file, whole unless a turn found a pile; nothing of them waits for another turn. */
  lemma TurnWritesAll(acts: seq<Action>, more: seq<Action>)
    requires After(acts).phase == Head && OnlyAppends(more)
    ensures var r := After(Turn(acts, more));
      && r.phase == Head && FlatAll(Finished(r)) == Lines(acts)
      && TextBytes(r.output) == KeptAll(Finished(r))
      && (NoPile(Finished(r)) ==> TextBytes(r.output) == Lines(acts))
  {
    RunKeeps(acts);
    RunOne(acts, Swap);
    var swapped := acts + [Swap];
    RunKeeps(swapped);
    AppendsLeave(swapped, more);
    RunKeeps(swapped + more);
    RunOne(swapped + more, WriteAndRecycle);
    var r := After(Turn(acts, more));
    SwapTakesAll(acts);
    LinesAccountedFor(Turn(acts, more));
    if NoPile(Finished(r)) {
      NothingDropped(Finished(r));
    }
  }

  lemma SwapTakesAll(acts: seq<Action>)
    requires Enabled(After(acts), Swap)
    ensures FlatAll(After(acts + [Swap]).batches) == Lines(acts)
  {
    RunKeeps(acts);
    RunOne(acts, Swap);
    RunKeeps(acts + [Swap]);
    var s, t := After(acts), After(acts + [Swap]);
    AcceptedLines(acts);
    assert t.accepted == s.accepted && t.buffers == [] && t.currentBuffer == [];
    assert t.accepted == FlatAll(t.batches) + [] + [];
  }

  // ------------------------------------------------------------- the notes

  /** How many buffers the notes in the file speak of, and how many buffers are in the file. */
  function Noted(items: seq<Item>): nat {
    if items == [] then 0
    else
      var last := items[|items| - 1];
      Noted(items[..|items| - 1]) + if last.Notice? then last.n else 0
  }

  function TextCount(items: seq<Item>): nat {
    if items == [] then 0
    else TextCount(items[..|items| - 1]) + if items[|items| - 1].Text? then 1 else 0
  }

  function BufferCount(bss: seq<seq<Buf>>): nat {
    if bss == [] then 0 else BufferCount(bss[..|bss| - 1]) + |bss[|bss| - 1]|
  }

  lemma {:induction false} CountsConcat(a: seq<Item>, b: seq<Item>)
    ensures Noted(a + b) == Noted(a) + Noted(b) && TextCount(a + b) == TextCount(a) + TextCount(b)
    decreases |b|
  {
    if b == [] {
      assert a + b == a;
    } else {
      CountsConcat(a, b[..|b| - 1]);
      assert (a + b)[..|a + b| - 1] == a + b[..|b| - 1];
    }
  }

  lemma {:induction false} TextsCount(batch: seq<Buf>)
    ensures Noted(Texts(batch)) == 0 && TextCount(Texts(batch)) == |batch|
    decreases |batch|
  {
    if batch != [] {
      TextsCount(batch[..|batch| - 1]);
      assert Texts(batch)[..|batch| - 1] == Texts(batch[..|batch| - 1]);
    }
  }

  lemma BatchCount(batch: seq<Buf>)
    ensures Noted(Written(batch)) + TextCount(Written(batch)) == |batch|
    ensures Noted(Written(batch)) > 0 <==> |batch| > 25
  {
    if |batch| <= MAX_PILE {
      TextsCount(batch);
    } else {
      var note := [Notice(|batch| - 2)];
      assert note[..0] == [] && Noted(note) == |batch| - 2 && TextCount(note) == 0;
      TextsCount(batch[..2]);
      CountsConcat(note, Texts(batch[..2]));
      assert Written(batch) == note + Texts(batch[..2]);
    }
  }

  lemma {:induction false} WrittenCount(bss: seq<seq<Buf>>)
    ensures Noted(WrittenAll(bss)) + TextCount(WrittenAll(bss)) == BufferCount(bss)
    ensures Noted(WrittenAll(bss)) > 0 <==> !NoPile(bss)
    decreases |bss|
  {
    if bss != [] {
      var before, last := bss[..|bss| - 1], bss[|bss| - 1];
      WrittenCount(before);
      BatchCount(last);
      CountsConcat(WrittenAll(before), Written(last));
      assert bss == before + [last];
      assert NoPile(bss) <==> NoPile(before) && |last| <= MAX_PILE;
    }
  }

  /** Nothing is dropped in silence: in every run, the buffers in the file and those that its notes speak of
      are together all that the finished turns swapped out, and there is a note exactly when some turn found
      more than 25. */
  lemma DropsAreNoted(acts: seq<Action>)
    ensures var s := After(acts);
      && Noted(s.output) + TextCount(s.output) == BufferCount(Finished(s))
      && (Noted(s.output) > 0 <==> exists i :: 0 <= i < |Finished(s)| && |Finished(s)[i]| > 25)
  {
    LinesAccountedFor(acts);
    WrittenCount(Finished(After(acts)));
  }
}
