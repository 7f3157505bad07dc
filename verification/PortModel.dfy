// One filter port and what a processing cycle does to it
// (struct pwf_filter_port and src/pwf_filter_process.c). P is the type of a
// non-NULL memory pointer: the functions move pointers and never follow them,
// so the class FilterPort uses them with arrays and FilterProtocol with block
// identities.
module PortModel {
  import opened Base
  import opened Events

  datatype DataType = Audio | Video | Signal | EventData

  datatype Direction = Input | Output

  // What is fixed once the port runs.
  datatype Kind = Kind(media: DataType, direction: Direction, useDmabuf: bool, hold: bool)

  // A dequeued PipeWire buffer: its identity, its first data region, and the
  // controls that region's memory parses into.
  datatype GraphBuffer<+P> = GraphBuffer(
    id: nat, nDatas: nat, data: Option<P>, isDmaBuf: bool, chunkSize: Option<nat>, maxsize: nat,
    pts: Option<int>, controls: seq<Control<P>>)

  // pushed_data, pushed_size, pushed_capacity, pushed_pts, pushed_pending
  datatype Staging<+P> = Staging(data: Option<P>, size: nat, capacity: nat, pts: int, waiting: bool)

  // delivered_data, delivered_capacity
  datatype Delivered<+P> = Delivered(data: Option<P>, capacity: nat)

  // incoming_events, incoming_events_capacity, pending_events,
  // delivering_events, event_output_capacity
  datatype EventLists<+P> = EventLists(
    incoming: seq<Event<P>>, capacity: nat, pending: seq<Event<P>>, delivering: seq<Event<P>>, room: nat)

  // has_held, held, held_data, held_size, held_pts, held_dmabuf_buf
  datatype Held<+P> = Held(
    some: bool, buffer: Option<GraphBuffer<P>>, data: Option<P>, size: nat, pts: int, dmabuf: Option<nat>)

  datatype Port<+P> = Port(
    kind: Kind, pushed: Staging<P>, delivered: Delivered<P>, events: EventLists<P>, held: Held<P>,
    currentDmabuf: Option<nat>, updateSeq: nat)

  // struct pwf_filter_port_buffer, less its port.
  datatype PortBuffer<+P> = PortBuffer(
    data: Option<P>, size: nat, capacity: nat, pts: int, isFresh: bool, seqNo: nat)

  function NoBuffer<P>(): PortBuffer<P> {
    PortBuffer(None, 0, 0, -1, false, 0)
  }

  // What one port contributes to a cycle: its new state, its callback entry,
  // the buffer to queue back when the cycle ends, the buffer queued back now,
  // and whether the port's dequeue was called at all.
  datatype Assembled<+P> = Assembled(
    port: Port<P>, buffer: PortBuffer<P>, dequeued: Option<GraphBuffer<P>>,
    released: Option<GraphBuffer<P>>, asked: bool)

  // pwf_filter_input_buffer_present
  predicate Present<P>(useDmabuf: bool, b: GraphBuffer<P>) {
    b.nDatas != 0 && if useDmabuf then b.isDmaBuf else b.data.Some?
  }

  function SizeOf<P>(b: GraphBuffer<P>): nat {
    if b.chunkSize.Some? then b.chunkSize.value else 0
  }

  function PtsOf<P>(b: GraphBuffer<P>): int {
    if b.pts.Some? then b.pts.value else -1
  }

  // pwf_filter_event_take_pending
  function TakePending<P>(e: EventLists<P>): EventLists<P> {
    e.(delivering := e.pending, pending := [])
  }

  // pwf_filter_incoming_event_append, for one event after the other, into an
  // array emptied before: what it then holds, and its capacity. When it is full
  // for one of the events numbered in `refused`, it cannot be grown.
  function Load<P>(events: seq<Event<P>>, capacity: nat, refused: set<nat>): (r: (seq<Event<P>>, nat))
    ensures |r.0| <= r.1 && |r.0| <= |events|
  {
    if events == [] then ([], capacity)
    else
      var n := |events| - 1;
      var (got, room) := Load(events[..n], capacity, refused);
      if |got| < room then (got + [events[n]], room)
      else if n in refused then (got, room)
      else (got + [events[n]], if room == 0 then 4 else 2 * room)
  }

  function Loaded<P>(e: EventLists<P>, events: seq<Event<P>>, refused: set<nat>): EventLists<P> {
    var (got, room) := Load(events, e.capacity, refused);
    e.(incoming := got, capacity := room)
  }

  // Some event finds the array full and not to be grown.
  predicate Refuses<P>(events: seq<Event<P>>, capacity: nat, refused: set<nat>) {
    exists k :: 0 <= k < |events| && k in refused && Full(events[..k], capacity, refused)
  }

  predicate Full<P>(events: seq<Event<P>>, capacity: nat, refused: set<nat>) {
    var (got, room) := Load(events, capacity, refused);
    |got| == room
  }

  function AssembleEventInput<P>(p: Port<P>, staged: bool, offered: Option<GraphBuffer<P>>, refused: set<nat>)
    : Assembled<P>
  {
    var e := if staged && p.events.pending != [] then TakePending(p.events) else p.events;
    if e.delivering != [] then
      Assembled(p.(events := Loaded(e, e.delivering, refused)), NoBuffer(), None, None, false)
    else if offered.Some? && offered.value.data.Some? then
      Assembled(p.(events := Loaded(e, Decode(offered.value.controls), refused)), NoBuffer(), offered, None, true)
    else
      Assembled(p.(events := e.(incoming := [])), NoBuffer(), None, None, true)
  }

  function AssembleEventOutput<P>(p: Port<P>, offered: Option<GraphBuffer<P>>): Assembled<P> {
    var e := p.events.(pending := []);
    if offered.Some? && offered.value.data.Some? then
      Assembled(p.(events := e.(room := offered.value.maxsize)), NoBuffer(), offered, None, true)
    else
      Assembled(p.(events := e.(room := 0)), NoBuffer(), None, None, true)
  }

  function AssembleMediaOutput<P>(p: Port<P>, offered: Option<GraphBuffer<P>>): Assembled<P> {
    if offered.Some? && offered.value.data.Some? then
      Assembled(p, NoBuffer().(data := offered.value.data, capacity := offered.value.maxsize), offered, None, true)
    else
      Assembled(p, NoBuffer(), None, None, true)
  }

  // The swap that takes a staged push, leaving the push side the buffer the
  // data thread no longer reads.
  function Swap<P>(p: Port<P>): Port<P> {
    p.(pushed := p.pushed.(data := p.delivered.data, capacity := p.delivered.capacity, waiting := false),
       delivered := Delivered(p.pushed.data, p.pushed.capacity))
  }

  // A media input port before hold: new data from a staged push first, else
  // from a dequeued buffer that carries some. The flag tells if there was any.
  function Arrive<P>(p: Port<P>, staged: bool, offered: Option<GraphBuffer<P>>): (r: (Assembled<P>, bool)) {
    if staged && p.pushed.waiting then
      var b := NoBuffer().(data := p.pushed.data, size := p.pushed.size, pts := p.pushed.pts);
      (Assembled(Swap(p), b, None, None, false), true)
    else if offered.Some? && Present(p.kind.useDmabuf, offered.value) then
      var b := NoBuffer().(pts := PtsOf(offered.value));
      if p.kind.useDmabuf then
        (Assembled(p.(currentDmabuf := Some(offered.value.id)), b, offered, None, true), true)
      else
        (Assembled(p, b.(data := offered.value.data, size := SizeOf(offered.value)), offered, None, true), true)
    else
      (Assembled(p, NoBuffer(), offered, None, true), false)
  }

  // update_seq, a uint64_t, after one more arrival.
  function NextSeq(n: nat): nat {
    (n + 1) % WORD
  }

  // The rest of a media input port's cycle: numbering, and hold, which retains
  // what arrived or shows again what it retained.
  function Retain<P>(a: Assembled<P>, gotNew: bool): Assembled<P> {
    var p, b := a.port, a.buffer;
    if gotNew then
      var n := NextSeq(p.updateSeq);
      var shown := b.(isFresh := true, seqNo := n);
      if p.kind.hold then
        var held := Held(true, a.dequeued, b.data, b.size, b.pts, p.currentDmabuf);
        Assembled(p.(updateSeq := n, held := held), shown, None, p.held.buffer, a.asked)
      else
        a.(port := p.(updateSeq := n), buffer := shown)
    else if p.kind.hold && p.held.some then
      a.(port := p.(currentDmabuf := p.held.dmabuf),
         buffer := b.(data := p.held.data, size := p.held.size, pts := p.held.pts, seqNo := p.updateSeq))
    else
      a.(buffer := b.(seqNo := p.updateSeq))
  }

  function AssembleMediaInput<P>(p: Port<P>, staged: bool, offered: Option<GraphBuffer<P>>): Assembled<P> {
    var (a, gotNew) := Arrive(p, staged, offered);
    Retain(a, gotNew)
  }

  // One iteration of the cycle's assembly loop. `offered` is what dequeuing
  // from this port would return.
  function Assemble<P>(port: Port<P>, staged: bool, offered: Option<GraphBuffer<P>>, refused: set<nat>): Assembled<P> {
    var p := port.(currentDmabuf := None);
    match (p.kind.media, p.kind.direction)
    case (EventData, Input) => AssembleEventInput(p, staged, offered, refused)
    case (EventData, Output) => AssembleEventOutput(p, offered)
    case (_, Input) => AssembleMediaInput(p, staged, offered)
    case (_, Output) => AssembleMediaOutput(p, offered)
  }

  // One iteration of the loop after the callback. The events freed are
  // `delivering` on an input port and `pending` on an output port.
  function Finish<P>(p: Port<P>): Port<P> {
    if p.kind.media != EventData then p
    else if p.kind.direction == Input then p.(events := p.events.(delivering := []))
    else p.(events := p.events.(pending := []))
  }

  // pwf_filter_stop, for one port.
  function Stop<P>(p: Port<P>): Port<P> {
    p.(held := p.held.(some := false, buffer := None, data := None, dmabuf := None), currentDmabuf := None)
  }

  predicate IsMediaInput(k: Kind) {
    k.media != EventData && k.direction == Input
  }

  predicate IsEventInput(k: Kind) {
    k.media == EventData && k.direction == Input
  }

  predicate IsEventOutput(k: Kind) {
    k.media == EventData && k.direction == Output
  }

  // Media input ports keep every buffer they dequeue; the others forget a
  // dequeued buffer whose data pointer is NULL.
  predicate Recorded<P>(k: Kind, b: GraphBuffer<P>) {
    IsMediaInput(k) || b.data.Some?
  }

  // ------------------------------------------------------------ incoming events

  // `a` is what is left of `b` when some of it is dropped.
  predicate IsPart<T(==)>(a: seq<T>, b: seq<T>) {
    if b == [] then a == []
    else
      var n, m := |b| - 1, |a| - 1;
      IsPart(a, b[..n]) || (a != [] && a[m] == b[n] && IsPart(a[..m], b[..n]))
  }

  lemma {:induction false} PartJoin<T>(a: seq<T>, b: seq<T>, c: seq<T>, d: seq<T>)
    requires IsPart(a, b) && IsPart(c, d)
    ensures IsPart(a + c, b + d)
  {
    if d == [] {
      assert a + c == a && b + d == b;
    } else {
      var n, m := |d| - 1, |c| - 1;
      assert (b + d)[..|b| + n] == b + d[..n];
      if IsPart(c, d[..n]) {
        PartJoin(a, b, c, d[..n]);
      } else {
        PartJoin(a, b, c[..m], d[..n]);
        assert (a + c)[..|a| + m] == a + c[..m];
      }
    }
  }

  lemma {:induction false} PartOfItself<T>(a: seq<T>)
    ensures IsPart(a, a)
  {
    if a != [] {
      PartOfItself(a[..|a| - 1]);
    }
  }

  lemma LoadMembers<P>(events: seq<Event<P>>, capacity: nat, refused: set<nat>)
    ensures forall e <- Load(events, capacity, refused).0 :: e in events
  {
    if events != [] {
      LoadMembers(events[..|events| - 1], capacity, refused);
    }
  }

  lemma {:induction false} LoadExactly<P>(events: seq<Event<P>>, capacity: nat, refused: set<nat>)
    ensures IsPart(Load(events, capacity, refused).0, events)
    ensures if Refuses(events, capacity, refused) then |Load(events, capacity, refused).0| < |events|
            else Load(events, capacity, refused).0 == events
  {
    if events != [] {
      var n := |events| - 1;
      LastSplit(events);
      LoadExactly(events[..n], capacity, refused);
      RefusesSnoc(events, capacity, refused);
      var got := Load(events[..n], capacity, refused).0;
      assert (got + [events[n]])[..|got|] == got;
    }
  }

  lemma RefusesSnoc<P>(events: seq<Event<P>>, capacity: nat, refused: set<nat>)
    requires events != []
    ensures var n := |events| - 1;
            Refuses(events, capacity, refused) <==>
            Refuses(events[..n], capacity, refused) || (n in refused && Full(events[..n], capacity, refused))
  {
    hide Full;
    var n := |events| - 1;
    forall k | 0 <= k < n ensures events[..n][..k] == events[..k] {
      PrefixOfPrefix(events, n, k);
    }
  }
}
