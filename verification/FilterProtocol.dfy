// The whole filter as a step system: application threads stage pushes byte by
// byte under the push lock while the data thread runs cycles that only try it
// (src/pwf_filter_process.c, src/pwf_filter_port.c, src/pwf_filter_event.c and
// the stop path of src/pwf_filter.c).
module FilterProtocol {
  import opened Base
  import opened Events
  import opened PortModel
  import opened PortHistory

  // ------------------------------------------------------------------- memory

  // The live heap blocks of one port. A block is only ever reached from the
  // port that allocated it, and an allocation is fresh in every arena.
  type Arena = map<nat, seq<Byte>>

  function ContentOf(mem: Arena, data: Option<Ref>, size: nat): Content {
    match data
    case None => if size == 0 then Memory([]) else Dangling
    case Some(Mapped(g)) => Region(g)
    case Some(Block(b)) => if b in mem && size <= |mem[b]| then Memory(mem[b][..size]) else Dangling
  }

  function Freed(mem: Arena, blocks: multiset<nat>): Arena {
    map b | b in mem && b !in blocks :: mem[b]
  }

  function RefBlocks(data: Option<Ref>): multiset<nat> {
    if data.Some? && data.value.Block? then multiset{data.value.id} else multiset{}
  }

  function EventBlocks(events: seq<Event<Ref>>): multiset<nat> {
    if events == [] then multiset{}
    else EventBlocks(events[..|events| - 1]) + RefBlocks(events[|events| - 1].data)
  }

  // Every pointer a port owns, with multiplicity.
  function Blocks(p: Port<Ref>): multiset<nat> {
    RefBlocks(p.pushed.data) + RefBlocks(p.delivered.data)
    + EventBlocks(p.events.pending) + EventBlocks(p.events.delivering)
  }

  // An event as a reader finds it.
  datatype EventRead = EventRead(offset: nat, kind: EventKind, key: Option<string>, content: Content)

  function Read(mem: Arena, e: Event<Ref>): EventRead {
    EventRead(e.offset, e.kind, e.key, ContentOf(mem, e.data, e.size))
  }

  function Reads(mem: Arena, events: seq<Event<Ref>>): (rs: seq<EventRead>)
    ensures |rs| == |events|
  {
    seq(|events|, i requires 0 <= i < |events| => Read(mem, events[i]))
  }

  // ------------------------------------------------------------ graph buffers

  // One dequeue that returned a buffer, or one queue call. `recorded` tells
  // whether the cycle noted the buffer for queueing back.
  datatype BufferOp = Take(id: nat, recorded: bool) | Give(id: nat)

  // Buffers taken and not given back.
  function Outstanding(ops: seq<BufferOp>): set<nat> {
    if ops == [] then {}
    else
      var before := Outstanding(ops[..|ops| - 1]);
      match ops[|ops| - 1]
      case Take(id, _) => before + {id}
      case Give(id) => before - {id}
  }

  // Buffers taken without a note.
  function Lost(ops: seq<BufferOp>): set<nat> {
    set i | 0 <= i < |ops| && ops[i].Take? && !ops[i].recorded :: ops[i].id
  }

  // No buffer is given back unless it is out, so none is given back twice.
  ghost predicate WellUsed(ops: seq<BufferOp>) {
    forall i :: 0 <= i < |ops| ==> (ops[i].Give? <==> ops[i].id in Outstanding(ops[..i]))
  }

  function Ids(b: Option<GraphBuffer<Ref>>): set<nat> {
    if b.Some? then {b.value.id} else {}
  }

  function GraphRefs(data: Option<Ref>, dmabuf: Option<nat>): set<nat> {
    (if data.Some? && data.value.Mapped? then {data.value.buffer} else {})
    + if dmabuf.Some? then {dmabuf.value} else {}
  }

  // -------------------------------------------------------------------- state

  // The history of one port: what happened to it, the events accepted, those of
  // them that a cycle took to show (wrote whole, on an output port), those the
  // callback could read in incoming_events, its buffer operations, and whether
  // an output push was ever accepted that does not fit.
  datatype Log = Log(
    happenings: seq<Happening>, accepted: seq<EventRead>, taken: seq<EventRead>, shown: seq<EventRead>,
    ops: seq<BufferOp>, misfit: bool)

  // A port with its memory, its entries in the cycle's two arrays, and whether
  // the running cycle has assembled and not yet finished it.
  datatype Slot = Slot(
    port: Port<Ref>, mem: Arena, buffer: PortBuffer<Ref>, dequeued: Option<GraphBuffer<Ref>>,
    active: bool, log: Log)

  datatype Lock =
    | Unlocked
    | Pushing(port: nat, bytes: seq<Byte>, pts: int, copied: nat)
    | HeldByCycle

  datatype Phase = Idle | Assembling(next: nat, staged: bool) | Calling | Finishing(next: nat)

  datatype Filter = Filter(slots: seq<Slot>, lock: Lock, phase: Phase)

  // -------------------------------------------------------------------- steps

  // `moved` and `grown` are where realloc puts the push buffer and what it then
  // holds; `block` is what malloc returns for an event's copy. None is failure.
  // `refused` numbers the incoming events for which a full array cannot grow.
  datatype Step =
    | PushBegin(port: nat, bytes: seq<Byte>, pts: int, moved: Option<nat>, grown: seq<Byte>)
    | PushCopy
    | PushEnd
    | PushEvent(port: nat, offset: nat, kind: EventKind, key: Option<string>, bytes: seq<Byte>, block: Option<nat>)
    | CycleBegin
    | AssembleNext(offered: Option<GraphBuffer<Ref>>, refused: set<nat>)
    | CallbackBegin
    | CallbackEnd
    | FinishNext
    | CycleEnd
    | StopAll

  function GrowPush(s: Slot, size: nat, block: nat, grown: seq<Byte>): Slot {
    s.(port := s.port.(pushed := s.port.pushed.(data := Some(Block(block)), capacity := size)),
       mem := Freed(s.mem, RefBlocks(s.port.pushed.data))[block := grown])
  }

  function CopyByte(s: Slot, k: nat, byte: Byte): Slot {
    if s.port.pushed.data.Some? && s.port.pushed.data.value.Block? && s.port.pushed.data.value.id in s.mem
       && k < |s.mem[s.port.pushed.data.value.id]| then
      var b := s.port.pushed.data.value.id;
      var bytes: seq<Byte> := s.mem[b][k := byte];
      s.(mem := s.mem[b := bytes])
    else s
  }

  function StagePush(s: Slot, bytes: seq<Byte>, pts: int): Slot {
    s.(port := s.port.(pushed := s.port.pushed.(size := |bytes|, pts := pts, waiting := true)),
       log := s.log.(happenings := s.log.happenings + [Pushed(bytes, pts)]))
  }

  // The pending entry for an event whose copy malloc put in `block`.
  function NewEvent(step: Step): Event<Ref>
    requires step.PushEvent?
  {
    Event(step.offset, step.kind, step.key,
          if step.bytes == [] || step.block.None? then None else Some(Block(step.block.value)), |step.bytes|)
  }

  // The size check takes the event for one that fits, as it does not.
  predicate IsMisfit(p: Port<Ref>, e: Event<Ref>) {
    IsEventOutput(p.kind) && !NoFalseFit(p.events.pending, e, p.events.room)
  }

  function AppendEvent(s: Slot, e: Event<Ref>, bytes: seq<Byte>): Slot {
    s.(port := s.port.(events := s.port.events.(pending := s.port.events.pending + [e])),
       mem := if e.data.Some? && e.data.value.Block? then s.mem[e.data.value.id := bytes] else s.mem,
       log := s.log.(accepted := s.log.accepted + [EventRead(e.offset, e.kind, e.key, Memory(bytes))],
                     misfit := s.log.misfit || IsMisfit(s.port, e)))
  }

  // The buffer operations one port's assembly performs.
  function AssembleOps(k: Kind, a: Assembled<Ref>, offered: Option<GraphBuffer<Ref>>): seq<BufferOp> {
    (if a.asked && offered.Some? then [Take(offered.value.id, Recorded(k, offered.value))] else [])
    + if a.released.Some? then [Give(a.released.value.id)] else []
  }

  // A batch of pushed events that a cycle takes, and what of it the callback
  // can read.
  function AssembleTaken(k: Kind, a: Assembled<Ref>, mem: Arena): seq<EventRead> {
    if IsEventInput(k) then Reads(mem, a.port.events.delivering) else []
  }

  function AssembleShown(k: Kind, a: Assembled<Ref>, mem: Arena): seq<EventRead> {
    if IsEventInput(k) && a.port.events.delivering != [] then Reads(mem, a.port.events.incoming) else []
  }

  function AssembleSlot(s: Slot, staged: bool, offered: Option<GraphBuffer<Ref>>, refused: set<nat>): Slot {
    var a := Assemble(s.port, staged, offered, refused);
    Slot(a.port, s.mem, a.buffer, a.dequeued, true,
         Log(s.log.happenings + [Cycled(staged, offered)], s.log.accepted,
             s.log.taken + AssembleTaken(s.port.kind, a, s.mem), s.log.shown + AssembleShown(s.port.kind, a, s.mem),
             s.log.ops + AssembleOps(s.port.kind, a, offered), s.log.misfit))
  }

  function FinishSlot(s: Slot): Slot {
    var freed := if IsEventInput(s.port.kind) then EventBlocks(s.port.events.delivering)
                 else if IsEventOutput(s.port.kind) then EventBlocks(s.port.events.pending) else multiset{};
    var written := if IsEventOutput(s.port.kind) && s.dequeued.Some? && FullSize(s.port.events.pending) <= s.port.events.room
                   then Reads(s.mem, s.port.events.pending) else [];
    s.(port := Finish(s.port), mem := Freed(s.mem, freed), dequeued := None, active := false,
       log := s.log.(taken := s.log.taken + written,
                     ops := s.log.ops + if s.dequeued.Some? then [Give(s.dequeued.value.id)] else []))
  }

  function StopSlot(s: Slot): Slot {
    s.(port := Stop(s.port),
       log := s.log.(happenings := s.log.happenings + [Stopped],
                     ops := s.log.ops + if s.port.held.buffer.Some? then [Give(s.port.held.buffer.value.id)] else []))
  }

  predicate FreshBlock(f: Filter, block: nat) {
    forall i :: 0 <= i < |f.slots| ==> block !in f.slots[i].mem
  }

  // What PipeWire can hand out: a buffer the filter does not have, whose region
  // is its own, with a 32-bit size.
  predicate CanOffer(s: Slot, offered: Option<GraphBuffer<Ref>>) {
    offered.Some? ==>
      && offered.value.id !in Outstanding(s.log.ops)
      && (offered.value.data.Some? ==> offered.value.data == Some(Mapped(offered.value.id)))
      && offered.value.maxsize < U32
  }

  predicate Enabled(f: Filter, step: Step) {
    match step
    case PushBegin(i, bytes, pts, moved, grown) =>
      && f.lock == Unlocked && i < |f.slots| && IsMediaInput(f.slots[i].port.kind)
      && var p := f.slots[i].port;
      |bytes| > p.pushed.capacity && moved.Some? ==>
        && (FreshBlock(f, moved.value) || p.pushed.data == Some(Block(moved.value)))
        && |grown| == |bytes|
        && ContentOf(f.slots[i].mem, p.pushed.data, p.pushed.capacity) == Memory(grown[..p.pushed.capacity])
    case PushCopy => f.lock.Pushing? && f.lock.copied < |f.lock.bytes|
    case PushEnd => f.lock.Pushing? && f.lock.copied == |f.lock.bytes| && f.lock.port < |f.slots|
    case PushEvent(i, _, kind, key, bytes, block) =>
      && i < |f.slots| && f.slots[i].port.kind.media == EventData && KindKeyValid(kind, key)
      && (block.Some? ==> FreshBlock(f, block.value))
      && (IsEventInput(f.slots[i].port.kind) ==> f.lock == Unlocked)
      && (IsEventOutput(f.slots[i].port.kind) ==> f.phase == Calling)
    case CycleBegin => f.phase == Idle && f.slots != []
    case AssembleNext(offered, _) =>
      f.phase.Assembling? && f.phase.next < |f.slots| && CanOffer(f.slots[f.phase.next], offered)
    case CallbackBegin => f.phase.Assembling? && f.phase.next == |f.slots|
    case CallbackEnd => f.phase == Calling
    case FinishNext => f.phase.Finishing? && f.phase.next < |f.slots|
    case CycleEnd => f.phase.Finishing? && f.phase.next == |f.slots|
    case StopAll => f.phase == Idle
  }

  function Put(f: Filter, i: nat, s: Slot): Filter
    requires i < |f.slots|
  {
    f.(slots := f.slots[i := s])
  }

  function Next(f: Filter, step: Step): (g: Filter)
    requires Enabled(f, step)
    ensures |g.slots| == |f.slots|
  {
    match step
    case PushBegin(i, bytes, pts, moved, grown) =>
      if |bytes| <= f.slots[i].port.pushed.capacity then f.(lock := Pushing(i, bytes, pts, 0))
      else if moved.None? then f
      else Put(f, i, GrowPush(f.slots[i], |bytes|, moved.value, grown)).(lock := Pushing(i, bytes, pts, 0))
    case PushCopy =>
      if f.lock.port < |f.slots| then
        Put(f, f.lock.port, CopyByte(f.slots[f.lock.port], f.lock.copied, f.lock.bytes[f.lock.copied]))
          .(lock := f.lock.(copied := f.lock.copied + 1))
      else f
    case PushEnd =>
      Put(f, f.lock.port, StagePush(f.slots[f.lock.port], f.lock.bytes, f.lock.pts)).(lock := Unlocked)
    case PushEvent(i, _, _, _, bytes, block) =>
      if bytes != [] && block.None? then f
      else if IsEventOutput(f.slots[i].port.kind)
           && PushOutput(f.slots[i].port.events.pending, NewEvent(step), f.slots[i].port.events.room).1 != Ok then f
      else Put(f, i, AppendEvent(f.slots[i], NewEvent(step), bytes))
    case CycleBegin =>
      if f.lock == Unlocked then f.(lock := HeldByCycle, phase := Assembling(0, true))
      else f.(phase := Assembling(0, false))
    case AssembleNext(offered, refused) =>
      var i := f.phase.next;
      Put(f, i, AssembleSlot(f.slots[i], f.phase.staged, offered, refused)).(phase := f.phase.(next := i + 1))
    case CallbackBegin =>
      f.(phase := Calling, lock := if f.phase.staged then Unlocked else f.lock)
    case CallbackEnd => f.(phase := Finishing(0))
    case FinishNext =>
      var i := f.phase.next;
      Put(f, i, FinishSlot(f.slots[i])).(phase := Finishing(i + 1))
    case CycleEnd => f.(phase := Idle)
    case StopAll => f.(slots := seq(|f.slots|, i requires 0 <= i < |f.slots| => StopSlot(f.slots[i])))
  }

  // A filter whose ports were just added, with hold set or not on each.
  ghost predicate IsNew(f: Filter) {
    && f.lock == Unlocked && f.phase == Idle
    && forall i :: 0 <= i < |f.slots| ==> IsNewSlot(f.slots[i])
  }

  ghost predicate IsNewSlot(s: Slot) {
    var p := s.port;
    && p == Port(p.kind, Staging(None, 0, 0, 0, false), Delivered(None, 0), EventLists([], 0, [], [], 0),
                 Held(false, None, None, 0, 0, None), None, 0)
    && s.mem == map[] && s.dequeued == None && !s.active && s.log == Log([], [], [], [], [], false)
  }

  // The state a sequence of steps leads to, if every step was possible.
  function After(f: Filter, steps: seq<Step>): Option<Filter> {
    if steps == [] then Some(f)
    else
      var before := After(f, steps[..|steps| - 1]);
      if before.Some? && Enabled(before.value, steps[|steps| - 1])
      then Some(Next(before.value, steps[|steps| - 1])) else None
  }
}
