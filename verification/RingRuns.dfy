// The ring is a FIFO under every interleaving of its two threads, exactly when
// its capacity divides the range of its positions.
module RingRuns {
  import opened Base
  import opened Ring
  import opened RingProtocol

  // Every slot the writer may still fill is outside what the reader may still
  // read, and outside the bytes stored for later reads.
  lemma WriterSlotIsFree(s: State, k: nat)
    requires Inv(s) && s.writer.Writing? && Continuous(|s.data|, Total(s)) && s.writer.done < |s.writer.src|
    requires |s.delivered| <= k < |s.accepted| + s.writer.done
    ensures Slot(k, |s.data|) != Slot(|s.accepted| + s.writer.done, |s.data|)
  {
    SlotsDiffer(k, |s.accepted| + s.writer.done, |s.data|, Total(s));
  }

  // Positions and byte counts name the same slots.
  lemma SlotOfPosition(n: nat, i: nat, capacity: nat)
    requires capacity > 0
    ensures Slot(n % WORD + i, capacity) == Slot(n + i, capacity)
  {
    DivMod(n, WORD);
    DivMod(n % WORD + i, WORD);
    ModUnique(n + i, WORD, n / WORD + (n % WORD + i) / WORD, (n % WORD + i) % WORD);
  }

  lemma WriteClipOk(s: State)
    requires Inv(s) && Enabled(s, WriteClip)
    ensures Inv(Next(s, WriteClip))
  {
    hide Slot;
    var seen, src := s.writer.seen, s.writer.src;
    MinusCounts(|s.accepted|, seen);
    var freeSpace := Minus(|s.data|, Minus(s.writePos, s.writer.readPos));
    assert freeSpace == |s.data| - (|s.accepted| - seen);
    var len := Min(|src|, freeSpace);
    PlusCounts(s.offered - Total(s), |src| - len);
  }

  lemma WriteByteOk(s: State)
    requires Inv(s) && Enabled(s, WriteByte) && Continuous(|s.data|, Total(s))
    ensures Inv(Next(s, WriteByte))
  {
    hide Slot;
    var t, w := Next(s, WriteByte), s.writer;
    SlotOfPosition(|s.accepted|, w.done, |s.data|);
    assert forall k :: |s.delivered| <= k < |s.accepted| + w.done ==>
                         t.data[Slot(k, |s.data|)] == s.data[Slot(k, |s.data|)] by {
      forall k: nat | |s.delivered| <= k < |s.accepted| + w.done
        ensures t.data[Slot(k, |s.data|)] == s.data[Slot(k, |s.data|)]
      {
        WriterSlotIsFree(s, k);
      }
    }
  }

  lemma WriteStoreOk(s: State)
    requires Inv(s) && Enabled(s, WriteStore)
    ensures Inv(Next(s, WriteStore))
  {
    hide Slot;
    var t, src := Next(s, WriteStore), s.writer.src;
    PlusCounts(|s.accepted|, |src|);
    forall k | |t.delivered| <= k < |t.accepted| ensures t.data[Slot(k, |t.data|)] == t.accepted[k] {
      if k >= |s.accepted| {
        assert t.accepted[k] == src[k - |s.accepted|];
        assert s.data[Slot(|s.accepted| + (k - |s.accepted|), |s.data|)] == src[k - |s.accepted|];
      }
    }
    assert t.accepted[..|s.delivered|] == s.accepted[..|s.delivered|];
    if t.reader.Reading? {
      var n := |t.delivered| + |t.reader.out|;
      assert t.accepted[|t.delivered|..n] == s.accepted[|t.delivered|..n];
    }
  }

  lemma ReadClipOk(s: State)
    requires Inv(s) && Enabled(s, ReadClip)
    ensures Inv(Next(s, ReadClip))
  {
    hide Slot;
    MinusCounts(s.reader.seen, |s.delivered|);
    assert s.accepted[|s.delivered|..|s.delivered| + 0] == [];
  }

  // The writer's part of the invariant, and the stored bytes, do not depend on
  // how far the reader is.
  lemma ReaderFrame(s: State, t: State)
    requires |s.data| > 0 && t == s.(reader := t.reader)
    ensures WriterOk(t) == WriterOk(s) && Stored(t) == Stored(s)
  {
    hide Slot;
  }

  lemma ReadByteOk(s: State)
    requires Inv(s) && Enabled(s, ReadByte)
    ensures Inv(Next(s, ReadByte))
  {
    hide Slot, WriterOk, Stored;
    var r, d, t := s.reader, |s.delivered|, Next(s, ReadByte);
    SlotOfPosition(d, |r.out|, |s.data|);
    assert s.data[Slot(d + |r.out|, |s.data|)] == s.accepted[d + |r.out|] by { StoredAt(s, d + |r.out|); }
    ReaderFrame(s, t);
    assert s.accepted[d..d + |r.out| + 1] == s.accepted[d..d + |r.out|] + [s.accepted[d + |r.out|]];
  }

  lemma StoredAt(s: State, k: nat)
    requires |s.data| > 0 && Stored(s) && |s.delivered| <= k < |s.accepted|
    ensures s.data[Slot(k, |s.data|)] == s.accepted[k]
  {
  }

  lemma ReadStoreOk(s: State)
    requires Inv(s) && Enabled(s, ReadStore)
    ensures Inv(Next(s, ReadStore))
  {
    hide Slot;
    var t, d, n := Next(s, ReadStore), |s.delivered|, s.reader.len;
    PlusCounts(d, n);
    assert s.accepted[..d + n] == s.accepted[..d] + s.accepted[d..d + n];
  }

  lemma StepOk(s: State, step: Step)
    requires Inv(s) && Enabled(s, step) && Continuous(|s.data|, Total(s))
    ensures Inv(Next(s, step))
  {
    match step
    case WriteLoad(_) =>
    case WriteClip => WriteClipOk(s);
    case WriteByte => WriteByteOk(s);
    case WriteStore => WriteStoreOk(s);
    case ReadLoad(_) =>
    case ReadClip => ReadClipOk(s);
    case ReadByte => ReadByteOk(s);
    case ReadStore => ReadStoreOk(s);
  }

  lemma {:induction false} RunOk(capacity: nat, steps: seq<Step>)
    requires 0 < capacity < WORD && After(Start(capacity), steps).Some?
    requires Continuous(capacity, Total(After(Start(capacity), steps).value))
    ensures Inv(After(Start(capacity), steps).value) && |After(Start(capacity), steps).value.data| == capacity
  {
    hide Inv;
    if steps == [] {
      assert Inv(Start(capacity)) by { StartOk(capacity); }
    } else {
      var n := |steps| - 1;
      var before := After(Start(capacity), steps[..n]).value;
      assert Total(before) <= Total(Next(before, steps[n]));
      RunOk(capacity, steps[..n]);
      StepOk(before, steps[n]);
    }
  }

  lemma StartOk(capacity: nat)
    requires 0 < capacity < WORD
    ensures Inv(Start(capacity))
  {
  }

  // Under every interleaving, while positions and byte counts agree: reads
  // return a prefix of what writes accepted, at most `capacity` bytes are in
  // between, and every offered byte was accepted, is being copied in, or was
  // counted as dropped.
  lemma RingIsFifo(capacity: nat, steps: seq<Step>, s: State)
    requires 0 < capacity < WORD && After(Start(capacity), steps) == Some(s)
    requires Continuous(capacity, Total(s))
    ensures s.delivered <= s.accepted && |s.accepted| - |s.delivered| <= capacity
    ensures Minus(s.writePos, s.readPos) == |s.accepted| - |s.delivered|
    ensures Total(s) <= s.offered && s.dropped == (s.offered - Total(s)) % WORD
  {
    hide Slot, Stored;
    RunOk(capacity, steps);
    MinusCounts(|s.accepted|, |s.delivered|);
  }

  // No race: the byte being written is in no slot the reader is reading.
  lemma NoSlotIsShared(capacity: nat, steps: seq<Step>, s: State, j: nat)
    requires 0 < capacity < WORD && After(Start(capacity), steps) == Some(s)
    requires Continuous(capacity, Total(s))
    requires s.writer.Writing? && s.writer.done < |s.writer.src| && s.reader.Reading? && j < s.reader.len
    ensures Slot(s.writer.at + s.writer.done, capacity) != Slot(s.reader.at + j, capacity)
  {
    hide Slot, After, Stored, WellTyped, Continuous;
    RunOk(capacity, steps);
    SlotOfPosition(|s.accepted|, s.writer.done, capacity);
    SlotOfPosition(|s.delivered|, j, capacity);
    WriterSlotIsFree(s, |s.delivered| + j);
  }

  // ------------------------------------------------- uninterrupted operations

  lemma {:induction false} Compose(s: State, a: seq<Step>, b: seq<Step>)
    requires After(s, a).Some?
    ensures After(s, a + b) == After(After(s, a).value, b)
  {
    hide Enabled, Next;
    if b == [] {
      assert a + b == a;
    } else {
      Compose(s, a, b[..|b| - 1]);
      assert (a + b)[..|a + b| - 1] == a + b[..|b| - 1];
    }
  }

  lemma Chain(s: State, a: seq<Step>, b: seq<Step>, c: seq<Step>, d: seq<Step>, s1: State, s2: State, s3: State, s4: State)
    requires After(s, a) == Some(s1) && After(s1, b) == Some(s2) && After(s2, c) == Some(s3) && After(s3, d) == Some(s4)
    ensures After(s, a + (b + (c + d))) == Some(s4)
  {
    hide After;
    Compose(s2, c, d);
    Compose(s1, b, c + d);
    Compose(s, a, b + (c + d));
  }

  lemma One(s: State, step: Step)
    requires Enabled(s, step)
    ensures After(s, [step]) == Some(Next(s, step))
  {
    assert [step][..0] == [];
  }

  function Repeat(step: Step, n: nat): (steps: seq<Step>)
    ensures |steps| == n
  {
    seq(n, _ => step)
  }

  lemma {:induction false} CopyAll(s: State, n: nat)
    requires WellTyped(s) && s.writer.Writing? && s.writer.done == 0 && n <= |s.writer.src|
    ensures After(s, Repeat(WriteByte, n))
         == Some(s.(data := Ring.CopyIn(s.data, s.writer.at, s.writer.src, n), writer := s.writer.(done := n)))
  {
    hide Slot;
    if n > 0 {
      CopyAll(s, n - 1);
      assert Repeat(WriteByte, n)[..n - 1] == Repeat(WriteByte, n - 1);
    }
  }

  lemma {:induction false} ReadAll(s: State, n: nat)
    requires WellTyped(s) && s.reader.Reading? && s.reader.out == [] && n <= s.reader.len
    ensures After(s, Repeat(ReadByte, n))
         == Some(s.(reader := s.reader.(out := CopyOut(s.data, s.reader.at, n))))
  {
    hide Slot;
    if n > 0 {
      ReadAll(s, n - 1);
      assert Repeat(ReadByte, n)[..n - 1] == Repeat(ReadByte, n - 1);
      assert CopyOut(s.data, s.reader.at, n)
          == CopyOut(s.data, s.reader.at, n - 1) + [s.data[Slot(s.reader.at + n - 1, |s.data|)]];
    }
  }

  function WriteSteps(src: seq<Byte>, n: nat): seq<Step> {
    [WriteLoad(src)] + ([WriteClip] + (Repeat(WriteByte, n) + [WriteStore]))
  }

  function ReadSteps(len: nat, n: nat): seq<Step> {
    [ReadLoad(len)] + ([ReadClip] + (Repeat(ReadByte, n) + [ReadStore]))
  }

  // A write of `src` that keeps n bytes, after `done` of them are copied in.
  function Copying(s: State, src: seq<Byte>, n: nat, done: nat): (t: State)
    requires WellTyped(s) && done <= n <= |src| < WORD
  {
    s.(data := Ring.CopyIn(s.data, s.writePos, src, done), writer := Writing(src[..n], s.writePos, done),
       dropped := Plus(s.dropped, |src| - n), offered := s.offered + |src|)
  }

  function Written(s: State, src: seq<Byte>, n: nat): (t: State)
    requires WellTyped(s) && s.writer.WriterIdle? && n <= |src| < WORD
    ensures WellTyped(t) && |t.data| == |s.data|
  {
    s.(data := Ring.CopyIn(s.data, s.writePos, src, n), writePos := Plus(s.writePos, n),
       dropped := Plus(s.dropped, |src| - n), offered := s.offered + |src|, accepted := s.accepted + src[..n])
  }

  function Room(s: State): (n: nat)
    requires WellTyped(s) && Minus(s.writePos, s.readPos) <= |s.data|
  {
    |s.data| - Minus(s.writePos, s.readPos)
  }

  lemma ClipAlone(s: State, src: seq<Byte>)
    requires WellTyped(s) && s.writer.WriterIdle? && |src| < WORD && Minus(s.writePos, s.readPos) <= |s.data|
    ensures After(Next(s, WriteLoad(src)), [WriteClip]) == Some(Copying(s, src, Min(|src|, Room(s)), 0))
  {
    hide After;
    One(Next(s, WriteLoad(src)), WriteClip);
  }

  lemma CopyAlone(s: State, src: seq<Byte>, n: nat)
    requires WellTyped(s) && n <= |src| < WORD
    ensures After(Copying(s, src, n, 0), Repeat(WriteByte, n)) == Some(Copying(s, src, n, n))
  {
    hide After, Slot, Plus, Minus;
    CopyAll(Copying(s, src, n, 0), n);
    CopyInPrefix(s.data, s.writePos, src, n);
  }

  lemma StoreAlone(s: State, src: seq<Byte>, n: nat)
    requires WellTyped(s) && s.writer.WriterIdle? && n <= |src| < WORD
    ensures After(Copying(s, src, n, n), [WriteStore]) == Some(Written(s, src, n))
  {
    hide After, Slot, Ring.CopyIn;
    One(Copying(s, src, n, n), WriteStore);
  }

  // A write that nothing interrupts does to the ring what LoopbackRing.Write
  // does.
  lemma WriteAlone(s: State, src: seq<Byte>)
    requires WellTyped(s) && s.writer.WriterIdle? && |src| < WORD && Minus(s.writePos, s.readPos) <= |s.data|
    ensures After(s, WriteSteps(src, Min(|src|, Room(s)))) == Some(Written(s, src, Min(|src|, Room(s))))
  {
    hide After, Copying, Written, Room, Ring.CopyIn;
    var n := Min(|src|, Room(s));
    One(s, WriteLoad(src));
    ClipAlone(s, src);
    CopyAlone(s, src, n);
    StoreAlone(s, src, n);
    Chain(s, [WriteLoad(src)], [WriteClip], Repeat(WriteByte, n), [WriteStore],
          Next(s, WriteLoad(src)), Copying(s, src, n, 0), Copying(s, src, n, n), Written(s, src, n));
  }

  lemma {:induction false} CopyInPrefix(data: seq<Byte>, at: nat, src: seq<Byte>, n: nat, m: nat := n)
    requires m <= n <= |src| && (n > 0 ==> |data| > 0)
    ensures Ring.CopyIn(data, at, src[..n], m) == Ring.CopyIn(data, at, src, m)
  {
    if m > 0 {
      CopyInPrefix(data, at, src, n, m - 1);
    }
  }

  // A read that nothing interrupts does what LoopbackRing.Read does.
  lemma ReadAlone(s: State, len: nat)
    requires WellTyped(s) && s.reader.ReaderIdle?
    ensures var n := Min(len, Minus(s.writePos, s.readPos));
            After(s, ReadSteps(len, n))
              == Some(s.(readPos := Plus(s.readPos, n), delivered := s.delivered + CopyOut(s.data, s.readPos, n)))
  {
    hide After, Slot;
    var n := Min(len, Minus(s.writePos, s.readPos));
    var s1 := Next(s, ReadLoad(len));
    var s2 := Next(s1, ReadClip);
    ReadAll(s2, n);
    var s3 := After(s2, Repeat(ReadByte, n)).value;
    One(s, ReadLoad(len));
    One(s1, ReadClip);
    One(s3, ReadStore);
    Chain(s, [ReadLoad(len)], [ReadClip], Repeat(ReadByte, n), [ReadStore], s1, s2, s3, Next(s3, ReadStore));
  }

  // --------------------------------------------------- the size_t wrap-around

  // An empty, idle ring after n zero bytes went through it.
  function Drained(capacity: nat, n: nat): State {
    State(Zeros(capacity), n % WORD, n % WORD, 0, WriterIdle, ReaderIdle, n, Zeros(n), Zeros(n))
  }

  lemma DrainOne(capacity: nat, n: nat)
    requires 0 < capacity < WORD && n > 0
    ensures After(Drained(capacity, n - 1), WriteSteps([0], 1) + ReadSteps(1, 1)) == Some(Drained(capacity, n))
  {
    hide After;
    var s, p := Drained(capacity, n - 1), (n - 1) % WORD;
    WriteAlone(s, [0]);
    var t := After(s, WriteSteps([0], 1)).value;
    PlusCounts(n - 1, 1);
    assert Ring.CopyIn(s.data, p, [0], 0) == s.data;
    assert Ring.CopyIn(s.data, p, [0], 1) == Zeros(capacity);
    assert Zeros(n - 1) + [0] == Zeros(n);
    assert [0][..1] == [0];
    MinusCounts(n, n - 1);
    ReadAlone(t, 1);
    assert CopyOut(t.data, p, 1) == [0];
    Compose(s, WriteSteps([0], 1), ReadSteps(1, 1));
  }

  lemma {:induction false} ReachDrained(capacity: nat, n: nat) returns (steps: seq<Step>)
    requires 0 < capacity < WORD
    ensures After(Start(capacity), steps) == Some(Drained(capacity, n))
  {
    if n == 0 {
      steps := [];
    } else {
      hide After;
      var before := ReachDrained(capacity, n - 1);
      DrainOne(capacity, n);
      steps := before + (WriteSteps([0], 1) + ReadSteps(1, 1));
      Compose(Start(capacity), before, WriteSteps([0], 1) + ReadSteps(1, 1));
    }
  }

  // Bytes between the last multiple of the capacity below 2^64 and 2^64: the
  // byte after them goes back to slot 0, which still holds the first of them.
  lemma WrapReusesSlotZero(capacity: nat, r: nat)
    requires 0 < capacity < WORD && r == WORD % capacity
    ensures Slot(WORD - r, capacity) == 0 || r == 0
    ensures Slot(WORD - r + r, capacity) == 0
  {
    DivMod(WORD, capacity);
    if r > 0 {
      ModUnique(WORD - r, capacity, WORD / capacity, 0);
      assert (WORD - r) % WORD == WORD - r;
    }
  }

  lemma WrapOverwrites(capacity: nat) returns (steps: seq<Step>, s: State)
    requires 0 < capacity < WORD && WORD % capacity != 0
    ensures After(Start(capacity), steps) == Some(s) && !(s.delivered <= s.accepted)
  {
    hide After, Slot;
    var r := WORD % capacity;
    var n, empty, src := WORD - r, Drained(capacity, WORD - r), Zeros(r) + [1];
    var prefix := ReachDrained(capacity, n);
    WrapReusesSlotZero(capacity, r);
    MinusCounts(n, n);
    WriteAlone(empty, src);
    var full := Written(empty, src, r + 1);
    assert full.data[0] == 1;
    assert src[..r + 1] == src;
    assert full.accepted[n] == 0;
    MinusCounts(n + r + 1, n);
    PlusCounts(n, r + 1);
    ReadAlone(full, 1);
    var w, d := WriteSteps(src, r + 1), ReadSteps(1, 1);
    steps := prefix + (w + d);
    Compose(empty, w, d);
    Compose(Start(capacity), prefix, w + d);
    s := After(full, d).value;
    assert s.delivered[n] == 1;
  }

  ghost predicate Fifo(capacity: nat) {
    forall steps :: After(Start(capacity), steps).Some? ==>
      After(Start(capacity), steps).value.delivered <= After(Start(capacity), steps).value.accepted
  }

  // A ring is a FIFO for streams of any length exactly when its capacity
  // divides 2^64.
  lemma FifoExactlyWhenCapacityDivides(capacity: nat)
    requires 0 < capacity < WORD
    ensures Fifo(capacity) <==> WORD % capacity == 0
  {
    hide After, Inv;
    if WORD % capacity == 0 {
      forall steps | After(Start(capacity), steps).Some?
        ensures After(Start(capacity), steps).value.delivered <= After(Start(capacity), steps).value.accepted
      {
        RingIsFifo(capacity, steps, After(Start(capacity), steps).value);
      }
    } else {
      var steps, s := WrapOverwrites(capacity);
      assert After(Start(capacity), steps).Some?;
    }
  }
}
