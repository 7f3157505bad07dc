// What a port's callback must see, as a function of the port's history alone.
module PortHistory {
  import opened Base
  import opened Events
  import opened PortModel

  // A pointer: a block of the library's own memory, or a graph buffer's region.
  datatype Ref = Block(id: nat) | Mapped(buffer: nat)

  // What reading through a pointer yields. Dangling stands for a freed block.
  datatype Content = Memory(bytes: seq<Byte>) | Region(buffer: nat) | Dangling

  // What happened to one media input port, oldest first: a push that returned
  // OK, a cycle with its try-lock result and the buffer its dequeue would
  // return, a stop.
  datatype Happening =
    | Pushed(bytes: seq<Byte>, pts: int)
    | Cycled(staged: bool, offered: Option<GraphBuffer<Ref>>)
    | Stopped

  datatype Frame = Frame(content: Content, size: nat, pts: int, dmabuf: Option<nat>)

  datatype Shown = Shown(frame: Frame, isFresh: bool, seqNo: nat)

  const NOTHING: Frame := Frame(Memory([]), 0, -1, None)

  // The newest push no cycle has taken yet: a cycle takes it if it got the lock.
  function Unread(h: seq<Happening>): (push: Option<Happening>)
    ensures push.Some? ==> push.value.Pushed?
  {
    if h == [] then None
    else
      var (before, last) := (h[..|h| - 1], h[|h| - 1]);
      match last
      case Pushed(_, _) => Some(last)
      case Cycled(staged, _) => if staged then None else Unread(before)
      case Stopped => Unread(before)
  }

  // The frame that newly arrives at a cycle following `before`, if any.
  function Arrival(before: seq<Happening>, useDmabuf: bool, cycle: Happening): Option<Frame> {
    match cycle
    case Cycled(staged, offered) =>
      var push := Unread(before);
      if staged && push.Some? then
        Some(Frame(Memory(push.value.bytes), |push.value.bytes|, push.value.pts, None))
      else if offered.Some? && HasMedia(useDmabuf, offered.value) then
        var b := offered.value;
        var (size, pts) := (if b.chunkSize.None? then 0 else b.chunkSize.value, if b.pts.None? then -1 else b.pts.value);
        Some(if useDmabuf then Frame(Memory([]), 0, pts, Some(b.id)) else Frame(Region(b.id), size, pts, None))
      else None
    case _ => None
  }

  // A buffer brings a frame in a DMABUF, when the port takes these, or else in
  // a mapped region.
  predicate HasMedia(useDmabuf: bool, b: GraphBuffer<Ref>) {
    b.nDatas > 0 && (useDmabuf ==> b.isDmaBuf) && (!useDmabuf ==> b.data != None)
  }

  function ArrivalAt(h: seq<Happening>, useDmabuf: bool, k: nat): Option<Frame>
    requires k < |h|
  {
    Arrival(h[..k], useDmabuf, h[k])
  }

  // The newest arrival since the last stop.
  function Newest(h: seq<Happening>, useDmabuf: bool): Option<Frame> {
    if h == [] || h[|h| - 1].Stopped? then None
    else
      var arrived := ArrivalAt(h, useDmabuf, |h| - 1);
      if arrived.Some? then arrived else Newest(h[..|h| - 1], useDmabuf)
  }

  // How many frames ever arrived.
  function Arrivals(h: seq<Happening>, useDmabuf: bool): nat {
    if h == [] then 0
    else Arrivals(h[..|h| - 1], useDmabuf) + if ArrivalAt(h, useDmabuf, |h| - 1).Some? then 1 else 0
  }

  // What the callback of the last cycle in `h` is shown.
  function Expected(h: seq<Happening>, useDmabuf: bool, hold: bool): Shown
    requires h != []
  {
    var arrived := ArrivalAt(h, useDmabuf, |h| - 1);
    var n := Arrivals(h, useDmabuf) % WORD;
    if arrived.Some? then Shown(arrived.value, true, n)
    else if hold && Newest(h, useDmabuf).Some? then Shown(Newest(h, useDmabuf).value, false, n)
    else Shown(NOTHING, false, n)
  }

  // Frame `frame` arrived at k, with no arrival and no stop after it.
  predicate IsLatestArrival(h: seq<Happening>, useDmabuf: bool, frame: Frame, k: nat)
    requires k < |h|
  {
    ArrivalAt(h, useDmabuf, k) == Some(frame)
    && forall j :: k < j < |h| ==> ArrivalAt(h, useDmabuf, j).None? && !h[j].Stopped?
  }

  // Newest, said outright: the arrival with no arrival and no stop after it.
  lemma {:induction false} NewestIsLatest(h: seq<Happening>, useDmabuf: bool, frame: Frame)
    ensures Newest(h, useDmabuf) == Some(frame) <==> exists k :: 0 <= k < |h| && IsLatestArrival(h, useDmabuf, frame, k)
  {
    if h != [] {
      hide IsLatestArrival, ArrivalAt;
      NewestIsLatest(h[..|h| - 1], useDmabuf, frame);
      LatestArrivalSnoc(h, useDmabuf, frame);
    }
  }

  lemma ArrivalOfPrefix(h: seq<Happening>, useDmabuf: bool, n: nat, k: nat)
    requires k < n <= |h|
    ensures ArrivalAt(h[..n], useDmabuf, k) == ArrivalAt(h, useDmabuf, k) && h[..n][k] == h[k]
  {
    PrefixOfPrefix(h, n, k);
  }

  lemma LatestArrivalSnoc(h: seq<Happening>, useDmabuf: bool, frame: Frame)
    requires h != []
    ensures var n := |h| - 1;
            (exists k :: 0 <= k < |h| && IsLatestArrival(h, useDmabuf, frame, k)) <==>
            if ArrivalAt(h, useDmabuf, n).Some? then ArrivalAt(h, useDmabuf, n).value == frame
            else !h[n].Stopped? && exists k :: 0 <= k < n && IsLatestArrival(h[..n], useDmabuf, frame, k)
  {
    var n := |h| - 1;
    forall k | 0 <= k < n
      ensures ArrivalAt(h[..n], useDmabuf, k) == ArrivalAt(h, useDmabuf, k) && h[..n][k] == h[k]
    {
      ArrivalOfPrefix(h, useDmabuf, n, k);
    }
    hide ArrivalAt;
    assert IsLatestArrival(h, useDmabuf, frame, n) <==> ArrivalAt(h, useDmabuf, n) == Some(frame);
    forall k | 0 <= k < n
      ensures IsLatestArrival(h, useDmabuf, frame, k)
         <==> IsLatestArrival(h[..n], useDmabuf, frame, k) && ArrivalAt(h, useDmabuf, n).None? && !h[n].Stopped?
    {
    }
  }

  // After this, an earlier push will not be shown any more.
  predicate Supersedes(e: Happening) {
    e.Pushed? || (e.Cycled? && e.staged)
  }

  predicate IsLatestPush(h: seq<Happening>, push: Happening, k: nat)
    requires k < |h|
  {
    h[k] == push && push.Pushed? && forall j :: k < j < |h| ==> !Supersedes(h[j])
  }

  // A push is shown by the next cycle that gets the lock, and by no other.
  lemma {:induction false} UnreadIsLatestPush(h: seq<Happening>, push: Happening)
    ensures Unread(h) == Some(push) <==> exists k :: 0 <= k < |h| && IsLatestPush(h, push, k)
  {
    if h != [] {
      var n := |h| - 1;
      UnreadIsLatestPush(h[..n], push);
      LatestPushSnoc(h, push);
    }
  }

  lemma LatestPushSnoc(h: seq<Happening>, push: Happening)
    requires h != []
    ensures var n := |h| - 1;
            (exists k :: 0 <= k < |h| && IsLatestPush(h, push, k)) <==>
            if Supersedes(h[n]) then h[n] == push && push.Pushed?
            else exists k :: 0 <= k < n && IsLatestPush(h[..n], push, k)
  {
    var n := |h| - 1;
    forall k | 0 <= k < n ensures IsLatestPush(h, push, k) == (IsLatestPush(h[..n], push, k) && !Supersedes(h[n])) {
      assert forall j :: 0 <= j < n ==> h[..n][j] == h[j];
    }
    assert IsLatestPush(h, push, n) <==> h[n] == push && push.Pushed?;
  }
}
