// The single-producer single-consumer byte ring (utils/pwf_stream_loopback.c):
// its two operations as they run alone.
module Ring {
  import opened Base

  // Where byte number p of the stream lives. Positions are size_t, so they are
  // taken modulo WORD before the modulo by the capacity.
  function Slot(p: nat, capacity: nat): (slot: nat)
    requires capacity > 0
    ensures slot < capacity
  {
    p % WORD % capacity
  }

  // The store after byte i of `src` has been written for i < n.
  function CopyIn(data: seq<Byte>, at: nat, src: seq<Byte>, n: nat): (out: seq<Byte>)
    requires n <= |src| && (n > 0 ==> |data| > 0)
    ensures |out| == |data|
  {
    if n == 0 then data else CopyIn(data, at, src, n - 1)[Slot(at + n - 1, |data|) := src[n - 1]]
  }

  function CopyOut(data: seq<Byte>, at: nat, n: nat): (out: seq<Byte>)
    requires n > 0 ==> |data| > 0
    ensures |out| == n
  {
    seq(n, i requires 0 <= i < n => data[Slot(at + i, |data|)])
  }

  // size_t addition and subtraction.
  function Plus(a: nat, b: nat): (sum: nat)
    requires a < WORD && b < WORD
    ensures sum < WORD && sum == (a + b) % WORD
  {
    if a + b < WORD then a + b else a + b - WORD
  }

  function Minus(a: nat, b: nat): (difference: nat)
    requires a < WORD && b < WORD
    ensures difference < WORD && (difference + b) % WORD == a
  {
    if a >= b then a - b else a + WORD - b
  }

  class LoopbackRing {
    const data: array<Byte>
    const capacity: nat
    var writePos: nat
    var readPos: nat
    var dropped: nat

    predicate Valid()
      reads this
    {
      && 0 < data.Length == capacity < WORD
      && writePos < WORD && readPos < WORD && dropped < WORD
      && Minus(writePos, readPos) <= capacity
    }

    // ring_init
    constructor (capacity: nat)
      requires 0 < capacity < WORD
      ensures Valid() && this.capacity == capacity && writePos == readPos == dropped == 0
      ensures fresh(data)
    {
      this.capacity := capacity;
      data := new Byte[capacity](_ => 0);
      writePos, readPos, dropped := 0, 0, 0;
    }

    method CopyFrom(src: seq<Byte>, len: nat)
      requires len <= |src| && 0 < data.Length == capacity
      modifies data
      ensures data[..] == CopyIn(old(data[..]), writePos, src, len)
    {
      hide Slot;
      for i := 0 to len
        invariant data[..] == CopyIn(old(data[..]), writePos, src, i)
      {
        data[Slot(writePos + i, capacity)] := src[i];
      }
    }

    // ring_write, with no read in between: the free space is filled and the
    // rest counted as dropped.
    method Write(src: seq<Byte>)
      requires Valid() && |src| < WORD
      modifies this`writePos, this`dropped, data
      ensures Valid()
      ensures var n := Min(|src|, capacity - Minus(old(writePos), readPos));
              && data[..] == CopyIn(old(data[..]), old(writePos), src, n)
              && writePos == Plus(old(writePos), n)
              && dropped == Plus(old(dropped), |src| - n)
              && Minus(writePos, readPos) == Minus(old(writePos), readPos) + n
    {
      var len := |src|;
      var freeSpace := Minus(capacity, Minus(writePos, readPos));
      if len > freeSpace {
        dropped := Plus(dropped, len - freeSpace);
        len := freeSpace;
      }
      CopyFrom(src, len);
      writePos := Plus(writePos, len);
    }

    // ring_read, with no write in between: at most what the ring holds.
    method Read(len: nat) returns (out: seq<Byte>)
      requires Valid() && len < WORD
      modifies this`readPos
      ensures Valid()
      ensures out == CopyOut(data[..], old(readPos), Min(len, Minus(writePos, old(readPos))))
      ensures readPos == Plus(old(readPos), |out|)
      ensures Minus(writePos, readPos) == Minus(writePos, old(readPos)) - |out|
    {
      var n := Min(len, Minus(writePos, readPos));
      out := [];
      hide Slot;
      for i := 0 to n
        invariant out == CopyOut(data[..], readPos, i)
      {
        out := out + [data[Slot(readPos + i, capacity)]];
        assert out == CopyOut(data[..], readPos, i + 1);
      }
      readPos := Plus(readPos, n);
    }
  }
}
