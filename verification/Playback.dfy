// One playback cycle (src/pwf_stream_playback.c).
module Playback {
  import opened Base
  import opened RateLimit

  // What the application's callback does with its region: the bytes it leaves
  // there, and the count it reports.
  datatype Callback = Callback(bytes: seq<Byte>, size: nat)

  // The clock before and after the callback.
  datatype Clock = Clock(started: nat, finished: nat)

  function FloorToFrame(size: nat, bytesPerFrame: nat): (r: nat)
    ensures r <= size
  {
    if bytesPerFrame > 0 then size - size % bytesPerFrame else size
  }

  // size_t multiplication
  function Times(a: nat, b: nat): (product: nat)
    ensures product < WORD
  {
    a * b % WORD
  }

  // What the device asked for, or the whole region.
  function Available(maxsize: nat, requested: nat, bytesPerFrame: nat): (available: nat)
    ensures available <= maxsize
  {
    if requested > 0 && bytesPerFrame > 0 && Times(requested, bytesPerFrame) < maxsize
    then Times(requested, bytesPerFrame) else maxsize
  }

  // pwf_stream_cycle_budget_ns
  function Budget(available: nat, bytesPerFrame: nat, sampleRate: int): nat {
    if bytesPerFrame == 0 || sampleRate <= 0 then 0
    else Times(available / bytesPerFrame, 1_000_000_000) / sampleRate
  }

  // struct pw_time, when the stream has one.
  datatype GraphTime = GraphTime(now: int, delay: int, queued: nat, buffered: nat, num: nat, denom: nat)

  // C division truncates towards zero.
  function Truncated(a: int, b: nat): int
    requires b > 0
  {
    if a >= 0 then a / b else -(-a / b)
  }

  // pwf_stream_playback_pts, within the range of int64_t
  function PresentationTime(t: Option<GraphTime>): int {
    if t.None? || t.value.denom == 0 then -1
    else
      var ahead := t.value.delay + t.value.queued + t.value.buffered;
      t.value.now + Truncated(ahead * t.value.num * 1_000_000_000, t.value.denom)
  }

  // struct spa_chunk
  datatype Chunk = Chunk(offset: nat, stride: nat, size: nat)

  // The dequeued buffer and its first region.
  datatype OutBuffer = OutBuffer(data: array?<Byte>, maxsize: nat, hasChunk: bool, requested: nat)

  predicate Usable(b: OutBuffer) {
    b.data != null && b.maxsize != 0 && b.hasChunk
  }

  // The playback part of struct pwf_stream.
  class PlaybackStream {
    const bytesPerFrame: nat
    const sampleRate: int
    const hasCallback: bool
    const overrun: LogLimiter
    const unusable: LogLimiter

    predicate Valid()
      reads overrun, unusable
    {
      && overrun != unusable && bytesPerFrame < 0x8000_0000
      && overrun.lastLog < WORD && unusable.lastLog < WORD
    }

    constructor (bytesPerFrame: nat, sampleRate: int, hasCallback: bool)
      requires bytesPerFrame < 0x8000_0000
      ensures Valid() && fresh(overrun) && fresh(unusable)
      ensures this.bytesPerFrame == bytesPerFrame && this.sampleRate == sampleRate && this.hasCallback == hasCallback
    {
      this.bytesPerFrame, this.sampleRate, this.hasCallback := bytesPerFrame, sampleRate, hasCallback;
      overrun := new LogLimiter();
      unusable := new LogLimiter();
    }

    // pwf_stream_playback_fill: the callback's bytes up to the last whole
    // frame it wrote, then silence. How long it took is only logged.
    method Fill(data: array<Byte>, available: nat, cb: Callback, clock: Clock) returns (size: nat)
      requires Valid() && available <= data.Length && |cb.bytes| == available
      requires clock.started < WORD && clock.finished < WORD
      modifies data, overrun
      ensures Valid() && size == FloorToFrame(Min(cb.size, available), bytesPerFrame)
      ensures data[..size] == cb.bytes[..size]
      ensures forall k :: size <= k < available ==> data[k] == 0
      ensures forall k :: available <= k < data.Length ==> data[k] == old(data[k])
      ensures overrun.State()
           == var budget := Budget(available, bytesPerFrame, sampleRate);
              if 0 < budget < Elapsed(clock.finished, clock.started)
              then Noted(old(overrun.State()), clock.finished).0 else old(overrun.State())
    {
      hide Noted, Elapsed, Budget, FloorToFrame;
      for k := 0 to available
        invariant data[..k] == cb.bytes[..k]
        invariant forall j :: available <= j < data.Length ==> data[j] == old(data[j])
        modifies data
      {
        data[k] := cb.bytes[k];
      }
      size := FloorToFrame(Min(cb.size, available), bytesPerFrame);
      ghost var kept := cb.bytes[..size];
      assert data[..size] == kept;
      for k := size to available
        invariant data[..size] == kept && forall j :: size <= j < k ==> data[j] == 0
        invariant forall j :: available <= j < data.Length ==> data[j] == old(data[j])
        modifies data
      {
        data[k] := 0;
      }
      var budget := Budget(available, bytesPerFrame, sampleRate);
      if budget > 0 && Elapsed(clock.finished, clock.started) > budget {
        var _ := overrun.Note(clock.finished);
      }
    }

    // pwf_stream_on_process_playback. `queued` tells if a buffer was queued
    // back; chunk and frames are what it says then, None when left alone.
    method OnProcess(dequeued: Option<OutBuffer>, callback: (nat, int) -> Callback, time: Option<GraphTime>, clock: Clock)
      returns (queued: bool, chunk: Option<Chunk>, frames: Option<nat>)
      requires Valid() && clock.started < WORD && clock.finished < WORD
      requires dequeued.Some? && dequeued.value.data != null ==>
                 dequeued.value.data.Length == dequeued.value.maxsize < 0x1_0000_0000
      requires forall n, pts :: |callback(n, pts).bytes| == n
      modifies overrun, unusable, if dequeued.Some? && dequeued.value.data != null then {dequeued.value.data} else {}
      ensures Valid() && queued == dequeued.Some?
      ensures chunk.Some? == frames.Some? == (dequeued.Some? && Usable(dequeued.value) && hasCallback)
      ensures chunk.Some? ==>
                var b := dequeued.value;
                var available := Available(b.maxsize, b.requested, bytesPerFrame);
                var cb := callback(available, PresentationTime(time));
                var size := FloorToFrame(Min(cb.size, available), bytesPerFrame);
                && chunk == Some(Chunk(0, bytesPerFrame, available))
                && frames == Some(if bytesPerFrame > 0 then available / bytesPerFrame else 0)
                && b.data[..size] == cb.bytes[..size]
                && (forall k :: size <= k < available ==> b.data[k] == 0)
                && forall k :: available <= k < b.maxsize ==> b.data[k] == old(b.data[k])
      ensures chunk.None? && dequeued.Some? && dequeued.value.data != null ==>
                dequeued.value.data[..] == old(dequeued.value.data[..])
      ensures unusable.State()
           == if dequeued.Some? && chunk.None? then Noted(old(unusable.State()), clock.started).0
              else old(unusable.State())
    {
      hide Noted, Available, FloorToFrame, PresentationTime;
      chunk, frames := None, None;
      if dequeued.None? {
        return false, None, None;
      }
      var b := dequeued.value;
      if b.data == null || b.maxsize == 0 || !b.hasChunk || !hasCallback {
        var _ := unusable.Note(clock.started);
        return true, None, None;
      }
      var available := Available(b.maxsize, b.requested, bytesPerFrame);
      var _ := Fill(b.data, available, callback(available, PresentationTime(time)), clock);
      chunk := Some(Chunk(0, bytesPerFrame, available));
      frames := Some(if bytesPerFrame > 0 then available / bytesPerFrame else 0);
      return true, chunk, frames;
    }
  }

  // A reported size is floored to the greatest number of whole frames in it, and
  // kept when the size of a frame is not known.
  lemma FloorIsGreatest(size: nat, bytesPerFrame: nat, frames: nat)
    ensures bytesPerFrame == 0 ==> FloorToFrame(size, bytesPerFrame) == size
    ensures bytesPerFrame > 0 ==> FloorToFrame(size, bytesPerFrame) == size / bytesPerFrame * bytesPerFrame
    ensures frames * bytesPerFrame <= size <==> frames * bytesPerFrame <= FloorToFrame(size, bytesPerFrame)
  {
    if bytesPerFrame == 0 {
      return;
    }
    var q := size / bytesPerFrame;
    if frames > q {
      Product(frames - q, bytesPerFrame);
      assert frames * bytesPerFrame == q * bytesPerFrame + (frames - q) * bytesPerFrame;
    }
    if frames <= q {
      Product(q - frames, bytesPerFrame);
      assert q * bytesPerFrame == frames * bytesPerFrame + (q - frames) * bytesPerFrame;
    }
  }

  lemma Product(a: nat, b: nat)
    ensures a * b >= 0 && (a > 0 ==> a * b >= b)
  {
  }

  // The first sample is due when what is ahead of it has played: less than a
  // nanosecond of it is lost to rounding, in either direction. It is not known
  // without a time, or a rate.
  lemma PresentationIsAfterWhatIsAhead(t: GraphTime)
    ensures PresentationTime(None) == -1 && (t.denom == 0 ==> PresentationTime(Some(t)) == -1)
    ensures t.denom > 0 ==>
            var ahead, wait := (t.delay + t.queued + t.buffered) * t.num * 1_000_000_000, PresentationTime(Some(t)) - t.now;
            && ahead - wait * t.denom < t.denom && wait * t.denom - ahead < t.denom
            && (ahead >= 0 ==> wait >= 0 && wait * t.denom <= ahead)
            && (ahead <= 0 ==> wait <= 0 && wait * t.denom >= ahead)
  {
    if t.denom > 0 {
      TruncatedBounds((t.delay + t.queued + t.buffered) * t.num * 1_000_000_000, t.denom);
    }
  }

  lemma TruncatedBounds(a: int, b: nat)
    requires b > 0
    ensures var q := Truncated(a, b);
            && a - q * b < b && q * b - a < b
            && (a >= 0 ==> q >= 0 && q * b <= a) && (a <= 0 ==> q <= 0 && q * b >= a)
  {
    if a >= 0 {
      Quotient(a, b);
    } else {
      Quotient(-a, b);
      var m := -a / b;
      assert (-m) * b == -(m * b);
    }
  }

  lemma Quotient(n: nat, b: nat)
    requires b > 0
    ensures n / b >= 0 && n / b * b <= n < n / b * b + b
  {
    assert n == n / b * b + n % b;
  }

  // A cycle has the frames that were asked for when they fit, and the whole
  // region otherwise or when none were or their size is not known - exactly when the request does not wrap around size_t
  // into something that fits.
  lemma AvailableExactly(maxsize: nat, requested: nat, bytesPerFrame: nat)
    requires maxsize < WORD
    ensures (if requested == 0 || bytesPerFrame == 0 then Available(maxsize, requested, bytesPerFrame) == maxsize
             else Available(maxsize, requested, bytesPerFrame) == Min(requested * bytesPerFrame, maxsize))
       <==> requested * bytesPerFrame < WORD || requested * bytesPerFrame % WORD >= maxsize
  {
    var product := requested * bytesPerFrame;
    if product < WORD {
      assert product % WORD == product;
    }
  }

  // The buffer never claims more frames than the chunk holds, and claims all
  // of them when the cycle is whole frames.
  lemma FramesFit(maxsize: nat, requested: nat, bytesPerFrame: nat)
    requires bytesPerFrame > 0
    ensures var available := Available(maxsize, requested, bytesPerFrame);
            && available / bytesPerFrame * bytesPerFrame <= available
            && (available / bytesPerFrame * bytesPerFrame == available <==> available % bytesPerFrame == 0)
  {
    hide Available;
  }

  // The time a cycle has is the time its frames play for: the 64-bit product
  // does not wrap for any region. Without a frame size or a rate there is none.
  lemma BudgetIsPlayingTime(available: nat, bytesPerFrame: nat, sampleRate: int)
    requires available < 0x1_0000_0000
    ensures bytesPerFrame == 0 || sampleRate <= 0 ==> Budget(available, bytesPerFrame, sampleRate) == 0
    ensures bytesPerFrame > 0 && sampleRate > 0 ==>
            var frames, budget := available / bytesPerFrame, Budget(available, bytesPerFrame, sampleRate);
            budget * sampleRate <= frames * 1_000_000_000 < (budget + 1) * sampleRate
  {
    if bytesPerFrame == 0 || sampleRate <= 0 {
      return;
    }
    var frames := available / bytesPerFrame;
    assert frames <= available by {
      Product(frames, bytesPerFrame - 1);
      assert frames * bytesPerFrame == frames + frames * (bytesPerFrame - 1);
    }
    assert frames * 1_000_000_000 < WORD;
    assert Times(frames, 1_000_000_000) == frames * 1_000_000_000;
    var n := frames * 1_000_000_000;
    assert n == n / sampleRate * sampleRate + n % sampleRate;
  }
}
