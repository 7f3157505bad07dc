// The byte ring as two threads run it: every load of an index, copy of one
// byte, and store of an index is a step, in any interleaving
// (utils/pwf_stream_loopback.c).
module RingProtocol {
  import opened Base
  import opened Ring

  // `seen` is the stream length behind a loaded, possibly stale, index.
  datatype Writer =
    | WriterIdle
    | WriterLoaded(src: seq<Byte>, readPos: nat, seen: nat)
    | Writing(src: seq<Byte>, at: nat, done: nat)

  datatype Reader =
    | ReaderIdle
    | ReaderLoaded(len: nat, writePos: nat, seen: nat)
    | Reading(len: nat, at: nat, out: seq<Byte>)

  // The shared ring, both threads' progress, and the history: bytes offered to
  // writes, the accepted stream, and the stream that reads returned.
  datatype State = State(
    data: seq<Byte>, writePos: nat, readPos: nat, dropped: nat, writer: Writer, reader: Reader,
    offered: nat, accepted: seq<Byte>, delivered: seq<Byte>)

  datatype Step =
    | WriteLoad(src: seq<Byte>)
    | WriteClip
    | WriteByte
    | WriteStore
    | ReadLoad(len: nat)
    | ReadClip
    | ReadByte
    | ReadStore

  function Zeros(n: nat): (s: seq<Byte>)
    ensures |s| == n
  {
    seq(n, _ => 0)
  }

  function Start(capacity: nat): State {
    State(Zeros(capacity), 0, 0, 0, WriterIdle, ReaderIdle, 0, [], [])
  }

  predicate WellTyped(s: State) {
    && 0 < |s.data| < WORD
    && s.writePos < WORD && s.readPos < WORD && s.dropped < WORD
    && (s.writer.WriterLoaded? ==> |s.writer.src| < WORD && s.writer.readPos < WORD)
    && (s.writer.Writing? ==> |s.writer.src| < WORD && s.writer.at < WORD)
    && (s.reader.ReaderLoaded? ==> s.reader.writePos < WORD)
    && (s.reader.Reading? ==> s.reader.len < WORD && s.reader.at < WORD)
  }

  predicate Enabled(s: State, step: Step) {
    WellTyped(s) &&
    match step
    case WriteLoad(src) => s.writer.WriterIdle? && |src| < WORD
    case WriteClip => s.writer.WriterLoaded?
    case WriteByte => s.writer.Writing? && s.writer.done < |s.writer.src|
    case WriteStore => s.writer.Writing? && s.writer.done == |s.writer.src|
    case ReadLoad(_) => s.reader.ReaderIdle?
    case ReadClip => s.reader.ReaderLoaded?
    case ReadByte => s.reader.Reading? && |s.reader.out| < s.reader.len
    case ReadStore => s.reader.Reading? && |s.reader.out| == s.reader.len
  }

  function StoreByte(data: seq<Byte>, slot: nat, byte: Byte): (out: seq<Byte>)
    requires slot < |data|
    ensures |out| == |data|
  {
    data[slot := byte]
  }

  function Next(s: State, step: Step): (t: State)
    requires Enabled(s, step)
    ensures WellTyped(t) && |t.data| == |s.data|
  {
    match step
    case WriteLoad(src) => s.(writer := WriterLoaded(src, s.readPos, |s.delivered|))
    case WriteClip =>
      var src := s.writer.src;
      var freeSpace := Minus(|s.data|, Minus(s.writePos, s.writer.readPos));
      var len := Min(|src|, freeSpace);
      s.(writer := Writing(src[..len], s.writePos, 0), dropped := Plus(s.dropped, |src| - len),
         offered := s.offered + |src|)
    case WriteByte =>
      var w := s.writer;
      s.(data := StoreByte(s.data, Slot(w.at + w.done, |s.data|), w.src[w.done]), writer := w.(done := w.done + 1))
    case WriteStore =>
      s.(writePos := Plus(s.writer.at, |s.writer.src|), writer := WriterIdle, accepted := s.accepted + s.writer.src)
    case ReadLoad(len) => s.(reader := ReaderLoaded(len, s.writePos, |s.accepted|))
    case ReadClip =>
      s.(reader := Reading(Min(s.reader.len, Minus(s.reader.writePos, s.readPos)), s.readPos, []))
    case ReadByte =>
      var r := s.reader;
      s.(reader := r.(out := r.out + [s.data[Slot(r.at + |r.out|, |s.data|)]]))
    case ReadStore =>
      s.(readPos := Plus(s.reader.at, s.reader.len), reader := ReaderIdle, delivered := s.delivered + s.reader.out)
  }

  function After(s: State, steps: seq<Step>): Option<State> {
    if steps == [] then Some(s)
    else
      var before := After(s, steps[..|steps| - 1]);
      if before.Some? && Enabled(before.value, steps[|steps| - 1])
      then Some(Next(before.value, steps[|steps| - 1])) else None
  }

  // --------------------------------------------------------------- addressing

  // Bytes accepted or being copied in.
  function Total(s: State): nat {
    |s.accepted| + if s.writer.Writing? then |s.writer.src| else 0
  }

  // size_t positions address the ring as the byte count would: the capacity
  // divides 2^64, or the stream has not run past it.
  predicate Continuous(capacity: nat, total: nat)
    requires capacity > 0
  {
    WORD % capacity == 0 || total <= WORD
  }

  lemma DivMod(n: nat, d: nat)
    requires d > 0
    ensures n == d * (n / d) + n % d
  {
  }

  lemma Product(d: nat, e: int)
    ensures e >= 1 ==> d * e >= d
    ensures e <= -1 ==> d * e <= -1 * d
    ensures e == 0 ==> d * e == 0
  {
  }

  lemma ModUnique(n: nat, d: nat, q: nat, r: nat)
    requires d > 0 && r < d && n == d * q + r
    ensures n % d == r
  {
    DivMod(n, d);
    Product(d, n / d - q);
    assert d * (n / d - q) == r - n % d;
  }

  lemma SlotIsModulo(p: nat, capacity: nat, total: nat)
    requires capacity > 0 && p < total && Continuous(capacity, total)
    ensures Slot(p, capacity) == p % capacity
  {
    if p < WORD {
      assert p % WORD == p;
    } else {
      DivMod(p, WORD);
      DivMod(WORD, capacity);
      var m, k, b := p / WORD, WORD / capacity, p % WORD;
      DivMod(b, capacity);
      assert p == capacity * (k * m + b / capacity) + b % capacity by {
        assert WORD * m == capacity * k * m == capacity * (k * m);
        assert capacity * (k * m) + capacity * (b / capacity) == capacity * (k * m + b / capacity);
      }
      ModUnique(p, capacity, k * m + b / capacity, b % capacity);
    }
  }

  lemma SlotsDiffer(p: nat, q: nat, capacity: nat, total: nat)
    requires capacity > 0 && p < q < p + capacity && q < total && Continuous(capacity, total)
    ensures Slot(p, capacity) != Slot(q, capacity)
  {
    SlotIsModulo(p, capacity, total);
    SlotIsModulo(q, capacity, total);
    DivMod(p, capacity);
    DivMod(q, capacity);
    Product(capacity, q / capacity - p / capacity);
    assert capacity * (q / capacity - p / capacity) == (q - q % capacity) - (p - p % capacity);
  }

  lemma MinusCounts(a: nat, b: nat)
    requires b <= a < b + WORD
    ensures Minus(a % WORD, b % WORD) == a - b
  {
    var d := Minus(a % WORD, b % WORD);
    DivMod(a, WORD);
    DivMod(b, WORD);
  }

  lemma PlusCounts(a: nat, n: nat)
    requires n < WORD
    ensures Plus(a % WORD, n) == (a + n) % WORD
  {
    DivMod(a, WORD);
    var r := a % WORD + n;
    if r < WORD {
      ModUnique(a + n, WORD, a / WORD, r);
    } else {
      ModUnique(a + n, WORD, a / WORD + 1, r - WORD);
    }
  }

  // ---------------------------------------------------------------- invariant

  // The bytes between the two positions are the stream's.
  ghost predicate Stored(s: State)
    requires |s.data| > 0
  {
    forall k :: |s.delivered| <= k < |s.accepted| ==> s.data[Slot(k, |s.data|)] == s.accepted[k]
  }

  ghost predicate WriterOk(s: State)
    requires |s.data| > 0
  {
    match s.writer
    case WriterIdle => true
    case WriterLoaded(src, readPos, seen) =>
      readPos == seen % WORD && seen <= |s.delivered| && |s.accepted| <= seen + |s.data|
    case Writing(src, at, done) =>
      && at == s.writePos && done <= |src| && |s.accepted| + |src| <= |s.delivered| + |s.data|
      && forall k :: 0 <= k < done ==> s.data[Slot(|s.accepted| + k, |s.data|)] == src[k]
  }

  predicate ReaderOk(s: State) {
    match s.reader
    case ReaderIdle => true
    case ReaderLoaded(_, writePos, seen) => writePos == seen % WORD && |s.delivered| <= seen <= |s.accepted|
    case Reading(len, at, out) =>
      && at == s.readPos && |out| <= len && |s.delivered| + len <= |s.accepted|
      && out == s.accepted[|s.delivered|..|s.delivered| + |out|]
  }

  ghost predicate Inv(s: State) {
    && WellTyped(s)
    && s.writePos == |s.accepted| % WORD && s.readPos == |s.delivered| % WORD
    && |s.delivered| <= |s.accepted| <= |s.delivered| + |s.data|
    && s.delivered == s.accepted[..|s.delivered|]
    && s.dropped == (s.offered - Total(s)) % WORD && Total(s) <= s.offered
    && Stored(s) && WriterOk(s) && ReaderOk(s)
  }
}
