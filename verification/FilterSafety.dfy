// What every step of FilterProtocol keeps, and what that means for each run.
module FilterSafety {
  import opened Base
  import opened Events
  import opened PortModel
  import opened PortHistory
  import opened FilterProtocol

  // ---------------------------------------------------------------- invariant

  // The push being copied into port i, and how far it has got.
  function WritingTo(lock: Lock, i: nat): Option<(seq<Byte>, nat)> {
    if lock.Pushing? && lock.port == i then Some((lock.bytes, lock.copied)) else None
  }

  // The history as the last cycle left it: pushes since then are not its concern.
  function UpToCycle(h: seq<Happening>): seq<Happening> {
    if h != [] && h[|h| - 1].Pushed? then UpToCycle(h[..|h| - 1]) else h
  }

  function FrameAt(mem: Arena, data: Option<Ref>, size: nat, pts: int, dmabuf: Option<nat>): Frame {
    Frame(ContentOf(mem, data, size), size, pts, dmabuf)
  }

  // What the callback finds when it reads a port's buffer at this moment.
  function View(s: Slot): Shown {
    Shown(FrameAt(s.mem, s.buffer.data, s.buffer.size, s.buffer.pts, s.port.currentDmabuf),
          s.buffer.isFresh, s.buffer.seqNo)
  }

  predicate BlockOk(mem: Arena, data: Option<Ref>, capacity: nat) {
    match data
    case None => capacity == 0
    case Some(Block(b)) => b in mem && |mem[b]| == capacity
    case Some(Mapped(_)) => false
  }

  // Every live block has exactly one owning pointer: nothing leaks, nothing is
  // owned twice, and no owning pointer dangles.
  predicate MemoryOk(p: Port<Ref>, mem: Arena) {
    && BlockOk(mem, p.pushed.data, p.pushed.capacity)
    && BlockOk(mem, p.delivered.data, p.delivered.capacity)
    && Blocks(p) == multiset(mem.Keys)
  }

  // A block the data thread shows is its own side of the swap.
  predicate DataThreadOwns(delivered: Option<Ref>, data: Option<Ref>) {
    RefBlocks(data) != multiset{} ==> data == delivered
  }

  ghost predicate PushOk(pushed: Staging<Ref>, mem: Arena, h: seq<Happening>, writing: Option<(seq<Byte>, nat)>) {
    var unread := Unread(h);
    && (pushed.waiting <==> unread.Some?)
    && (writing.None? && pushed.waiting ==>
          && ContentOf(mem, pushed.data, pushed.size) == Memory(unread.value.bytes)
          && pushed.size == |unread.value.bytes| && pushed.pts == unread.value.pts)
    && (writing.Some? ==>
          var (bytes, copied) := writing.value;
          && copied <= |bytes| <= pushed.capacity
          && (bytes != [] ==> ContentOf(mem, pushed.data, copied) == Memory(bytes[..copied])))
  }

  ghost predicate HoldOk(p: Port<Ref>, mem: Arena, h: seq<Happening>) {
    var newest := Newest(h, p.kind.useDmabuf);
    && p.updateSeq == Arrivals(h, p.kind.useDmabuf) % WORD
    && (p.held.some <==> p.kind.hold && newest.Some?)
    && (p.held.some ==>
          && FrameAt(mem, p.held.data, p.held.size, p.held.pts, p.held.dmabuf) == newest.value
          && DataThreadOwns(p.delivered.data, p.held.data))
  }

  ghost predicate ViewOk(s: Slot) {
    var h := UpToCycle(s.log.happenings);
    s.active ==>
      && h != [] && h[|h| - 1].Cycled?
      && View(s) == Expected(h, s.port.kind.useDmabuf, s.port.kind.hold)
      && DataThreadOwns(s.port.delivered.data, s.buffer.data)
  }

  ghost predicate MediaInputOk(s: Slot, writing: Option<(seq<Byte>, nat)>) {
    && s.port.events.pending == [] && s.port.events.delivering == []
    && PushOk(s.port.pushed, s.mem, s.log.happenings, writing)
    && HoldOk(s.port, s.mem, s.log.happenings)
    && ViewOk(s)
  }

  predicate NoMediaState(p: Port<Ref>) {
    && p.pushed.data == None && p.delivered.data == None && !p.held.some
  }

  // Accepted events are exactly the taken ones and then the pending ones, until
  // a misfit is accepted; then some may be gone.
  ghost predicate DeliveredOnce(e: EventLists<Ref>, mem: Arena, log: Log) {
    && (if log.misfit then |log.taken| + |e.pending| <= |log.accepted|
        else log.accepted == log.taken + Reads(mem, e.pending))
    && (forall i :: 0 <= i < |log.accepted| ==> log.accepted[i].content.Memory?)
  }

  ghost predicate EventInputOk(e: EventLists<Ref>, mem: Arena, active: bool, log: Log) {
    && (!active ==> e.delivering == [])
    && (e.delivering != [] ==>
          && EndsIn(log.taken, Reads(mem, e.delivering)) && EndsIn(log.shown, Reads(mem, e.incoming))
          && forall x <- e.incoming :: x in e.delivering)
  }

  predicate EndsIn(all: seq<EventRead>, last: seq<EventRead>) {
    |last| <= |all| && all[|all| - |last|..] == last
  }

  // After a misfit, events are gone, or will be when this cycle ends.
  ghost predicate Short(e: EventLists<Ref>, active: bool, log: Log) {
    |log.taken| + |e.pending| < |log.accepted| || (active && e.pending != [] && FullSize(e.pending) > e.room)
  }

  ghost predicate EventOutputOk(e: EventLists<Ref>, active: bool, hasBuffer: bool, log: Log) {
    && e.delivering == []
    && (!active ==> e.pending == [])
    && e.room < U32
    && (if log.misfit then Short(e, active, log) else Fits(e.pending, e.room))
    && (active && !hasBuffer ==> e.room == 0)
  }

  ghost predicate EventsOk(s: Slot) {
    && NoMediaState(s.port)
    && DeliveredOnce(s.port.events, s.mem, s.log)
    && (IsEventInput(s.port.kind) ==> EventInputOk(s.port.events, s.mem, s.active, s.log))
    && (IsEventOutput(s.port.kind) ==> EventOutputOk(s.port.events, s.active, s.dequeued.Some?, s.log))
    && (!IsEventOutput(s.port.kind) ==> !s.log.misfit)
  }

  // Each buffer that is out is the held one, the one to queue back at the end
  // of this cycle, or one that was never recorded - and only one of these.
  ghost predicate Accounted(ops: seq<BufferOp>, held: set<nat>, dequeued: set<nat>, keepsAll: bool) {
    && WellUsed(ops)
    && Outstanding(ops) == held + dequeued + Lost(ops)
    && held !! dequeued && held !! Lost(ops) && dequeued !! Lost(ops)
    && (keepsAll ==> Lost(ops) == {})
  }

  // What the callback can reach, and what hold can show again, is still out.
  predicate ShownIsOut(s: Slot) {
    && (!s.active ==> s.dequeued == None)
    && (!s.port.held.some ==> s.port.held.buffer == None)
    && (s.active ==> GraphRefs(s.buffer.data, s.port.currentDmabuf) <= Ids(s.port.held.buffer) + Ids(s.dequeued))
    && (s.port.held.some ==> GraphRefs(s.port.held.data, s.port.held.dmabuf) <= Ids(s.port.held.buffer))
  }

  ghost predicate BuffersOk(s: Slot) {
    && Accounted(s.log.ops, Ids(s.port.held.buffer), Ids(s.dequeued), IsMediaInput(s.port.kind))
    && ShownIsOut(s)
  }

  ghost predicate SlotOk(s: Slot, writing: Option<(seq<Byte>, nat)>) {
    && MemoryOk(s.port, s.mem) && BuffersOk(s)
    && (IsMediaInput(s.port.kind) ==> MediaInputOk(s, writing))
    && (s.port.kind.media == EventData ==> EventsOk(s))
    && (s.port.kind.media != EventData && s.port.kind.direction == Output ==>
          NoMediaState(s.port) && s.port.events.pending == [] && s.port.events.delivering == [])
  }

  predicate IsActive(phase: Phase, i: nat) {
    match phase
    case Idle => false
    case Assembling(next, _) => i < next
    case Calling => true
    case Finishing(next) => i >= next
  }

  ghost predicate SlotsOk(f: Filter) {
    forall i :: 0 <= i < |f.slots| ==>
      SlotOk(f.slots[i], WritingTo(f.lock, i)) && (f.slots[i].active <==> IsActive(f.phase, i))
  }

  ghost predicate Inv(f: Filter) {
    && (f.lock.Pushing? ==> f.lock.port < |f.slots| && IsMediaInput(f.slots[f.lock.port].port.kind))
    && (f.lock == HeldByCycle <==> f.phase.Assembling? && f.phase.staged)
    && (f.phase.Assembling? || f.phase.Finishing? ==> f.phase.next <= |f.slots|)
    && SlotsOk(f)
  }

  // ------------------------------------------------------------------- memory

  lemma FreedKeys(mem: Arena, blocks: multiset<nat>)
    requires blocks <= multiset(mem.Keys)
    ensures multiset(Freed(mem, blocks).Keys) == multiset(mem.Keys) - blocks
  {
    var kept := Freed(mem, blocks).Keys;
    forall b ensures multiset(kept)[b] == (multiset(mem.Keys) - blocks)[b] {
      assert b in blocks ==> multiset(mem.Keys)[b] == 1;
    }
  }

  lemma AddedKey(mem: Arena, b: nat, bytes: seq<Byte>)
    requires b !in mem
    ensures multiset(mem[b := bytes].Keys) == multiset(mem.Keys) + multiset{b}
  {
    assert mem[b := bytes].Keys == mem.Keys + {b};
  }

  lemma EventBlocksAppend(events: seq<Event<Ref>>, e: Event<Ref>)
    ensures EventBlocks(events + [e]) == EventBlocks(events) + RefBlocks(e.data)
  {
    assert (events + [e])[..|events|] == events;
  }

  lemma {:induction false} BlockIsCounted(events: seq<Event<Ref>>, i: nat)
    requires i < |events|
    ensures RefBlocks(events[i].data) <= EventBlocks(events)
  {
    if i < |events| - 1 {
      BlockIsCounted(events[..|events| - 1], i);
    }
  }

  // Reads depend only on the blocks the events own.
  lemma ReadsStable(mem: Arena, mem': Arena, events: seq<Event<Ref>>)
    requires forall b :: b in EventBlocks(events) ==> b in mem && b in mem' && mem[b] == mem'[b]
    ensures Reads(mem, events) == Reads(mem', events)
  {
    forall i | 0 <= i < |events| ensures Reads(mem, events)[i] == Reads(mem', events)[i] {
      BlockIsCounted(events, i);
      hide EventBlocks;
      ReadStable(mem, mem', events[i]);
    }
  }

  lemma ReadsOfSome(mem: Arena, mem': Arena, some: seq<Event<Ref>>, all: seq<Event<Ref>>)
    requires Reads(mem, all) == Reads(mem', all) && forall e <- some :: e in all
    ensures Reads(mem, some) == Reads(mem', some)
  {
    forall i | 0 <= i < |some| ensures Reads(mem, some)[i] == Reads(mem', some)[i] {
      assert some[i] in all;
      var k :| 0 <= k < |all| && all[k] == some[i];
      assert Reads(mem, all)[k] == Reads(mem', all)[k];
    }
  }

  lemma ReadStable(mem: Arena, mem': Arena, e: Event<Ref>)
    requires forall b :: b in RefBlocks(e.data) ==> b in mem && b in mem' && mem[b] == mem'[b]
    ensures Read(mem, e) == Read(mem', e)
  {
  }

  // ---------------------------------------------------------------- histories

  lemma PushedOnly(h: seq<Happening>, push: Happening, useDmabuf: bool)
    requires push.Pushed?
    ensures Unread(h + [push]) == Some(push)
    ensures Newest(h + [push], useDmabuf) == Newest(h, useDmabuf)
    ensures Arrivals(h + [push], useDmabuf) == Arrivals(h, useDmabuf)
    ensures UpToCycle(h + [push]) == UpToCycle(h)
  {
    assert (h + [push])[..|h|] == h;
  }

  lemma CycleAdded(h: seq<Happening>, cycle: Happening, useDmabuf: bool)
    requires cycle.Cycled?
    ensures UpToCycle(h + [cycle]) == h + [cycle]
    ensures ArrivalAt(h + [cycle], useDmabuf, |h|) == Arrival(h, useDmabuf, cycle)
    ensures Newest(h + [cycle], useDmabuf)
         == if Arrival(h, useDmabuf, cycle).Some? then Arrival(h, useDmabuf, cycle) else Newest(h, useDmabuf)
    ensures Arrivals(h + [cycle], useDmabuf)
         == Arrivals(h, useDmabuf) + if Arrival(h, useDmabuf, cycle).Some? then 1 else 0
    ensures Unread(h + [cycle]) == if cycle.staged then None else Unread(h)
  {
    assert (h + [cycle])[..|h|] == h;
  }

  lemma StopAdded(h: seq<Happening>, useDmabuf: bool)
    ensures Newest(h + [Stopped], useDmabuf) == None
    ensures Arrivals(h + [Stopped], useDmabuf) == Arrivals(h, useDmabuf)
    ensures Unread(h + [Stopped]) == Unread(h)
  {
    assert (h + [Stopped])[..|h|] == h;
  }

  // -------------------------------------------------------- buffer operations

  lemma OpsAppend(ops: seq<BufferOp>, op: BufferOp)
    requires WellUsed(ops) && (op.Give? <==> op.id in Outstanding(ops))
    ensures WellUsed(ops + [op])
    ensures Outstanding(ops + [op]) == if op.Take? then Outstanding(ops) + {op.id} else Outstanding(ops) - {op.id}
    ensures Lost(ops + [op]) == Lost(ops) + if op.Take? && !op.recorded then {op.id} else {}
  {
    var more := ops + [op];
    assert more[..|ops|] == ops;
    assert forall i :: 0 <= i < |ops| ==> more[..i] == ops[..i] && more[i] == ops[i];
    assert more[|ops|] == op;
    forall id ensures id in Lost(more) <==> id in Lost(ops) || (op.Take? && !op.recorded && id == op.id) {
      if id in Lost(ops) {
        var i :| 0 <= i < |ops| && ops[i].Take? && !ops[i].recorded && ops[i].id == id;
        assert more[i] == ops[i];
      }
    }
  }

  lemma TakeAccounted(ops: seq<BufferOp>, held: set<nat>, keepsAll: bool, id: nat, recorded: bool)
    requires Accounted(ops, held, {}, keepsAll) && id !in Outstanding(ops) && (keepsAll ==> recorded)
    ensures Accounted(ops + [Take(id, recorded)], held, if recorded then {id} else {}, keepsAll)
  {
    OpsAppend(ops, Take(id, recorded));
  }

  lemma GiveAccounted(ops: seq<BufferOp>, held: set<nat>, id: nat, keepsAll: bool)
    requires Accounted(ops, held, {id}, keepsAll)
    ensures Accounted(ops + [Give(id)], held, {}, keepsAll)
  {
    OpsAppend(ops, Give(id));
  }

  lemma SwapAccounted(ops: seq<BufferOp>, held: set<nat>, dequeued: set<nat>, keepsAll: bool)
    requires Accounted(ops, held, dequeued, keepsAll)
    ensures Accounted(ops, dequeued, held, keepsAll)
  {
  }

  // ---------------------------------------------------------------- one slot

  lemma NewSlotOk(s: Slot)
    requires IsNewSlot(s)
    ensures SlotOk(s, None)
  {
    assert Reads(s.mem, s.port.events.pending) == [];
  }

  // The block on the data thread's side is the same in both arenas.
  predicate SameDelivered(mem: Arena, mem': Arena, data: Option<Ref>) {
    forall b :: b in RefBlocks(data) ==> b in mem && b in mem' && mem[b] == mem'[b]
  }

  lemma ContentKept(mem: Arena, mem': Arena, delivered: Option<Ref>, data: Option<Ref>, size: nat)
    requires SameDelivered(mem, mem', delivered) && DataThreadOwns(delivered, data)
    ensures ContentOf(mem, data, size) == ContentOf(mem', data, size)
  {
    if data.Some? && data.value.Block? {
      assert data.value.id in RefBlocks(data);
    }
  }

  // Two states of a port that differ at most on the push side, and in pushes.
  predicate DataSideKept(s: Slot, t: Slot) {
    && t.port == s.port.(pushed := t.port.pushed)
    && t.buffer == s.buffer && t.active == s.active
    && SameDelivered(s.mem, t.mem, s.port.delivered.data)
    && (forall d :: Newest(t.log.happenings, d) == Newest(s.log.happenings, d)
                 && Arrivals(t.log.happenings, d) == Arrivals(s.log.happenings, d))
    && UpToCycle(t.log.happenings) == UpToCycle(s.log.happenings)
  }

  // Whatever a push does to its own side, the data thread sees nothing of it.
  lemma DataSideUnaffected(s: Slot, t: Slot)
    requires DataSideKept(s, t) && HoldOk(s.port, s.mem, s.log.happenings) && ViewOk(s)
    ensures HoldOk(t.port, t.mem, t.log.happenings) && ViewOk(t)
    ensures s.active ==> View(t) == View(s)
  {
    if s.port.held.some {
      ContentKept(s.mem, t.mem, s.port.delivered.data, s.port.held.data, s.port.held.size);
    }
    if s.active {
      ContentKept(s.mem, t.mem, s.port.delivered.data, s.buffer.data, s.buffer.size);
    }
  }

  lemma OnlyPushAndDelivered(p: Port<Ref>, mem: Arena)
    requires MemoryOk(p, mem) && p.events.pending == [] && p.events.delivering == []
    ensures multiset(mem.Keys) == RefBlocks(p.pushed.data) + RefBlocks(p.delivered.data)
    ensures forall b :: b in RefBlocks(p.delivered.data) ==> b in mem && b !in RefBlocks(p.pushed.data)
  {
    forall b | b in RefBlocks(p.delivered.data) ensures b in mem && b !in RefBlocks(p.pushed.data) {
      assert multiset(mem.Keys)[b] <= 1;
    }
  }

  lemma GrowPushMemory(s: Slot, size: nat, block: nat, grown: seq<Byte>)
    requires MemoryOk(s.port, s.mem) && s.port.events.pending == [] && s.port.events.delivering == []
    requires |grown| == size && (block !in s.mem || s.port.pushed.data == Some(Block(block)))
    ensures var t := GrowPush(s, size, block, grown);
            && MemoryOk(t.port, t.mem)
            && forall b :: b in RefBlocks(s.port.delivered.data) ==> b in s.mem && b in t.mem && t.mem[b] == s.mem[b]
  {
    var gone, left := RefBlocks(s.port.pushed.data), Freed(s.mem, RefBlocks(s.port.pushed.data));
    OnlyPushAndDelivered(s.port, s.mem);
    FreedKeys(s.mem, gone);
    assert block !in left by {
      assert multiset(left.Keys)[block] == multiset(s.mem.Keys)[block] - gone[block];
    }
    AddedKey(left, block, grown);
    KeptApart(s.mem, gone, RefBlocks(s.port.delivered.data), block, grown);
    OnlyPushAndDeliveredOwned(GrowPush(s, size, block, grown).port);
  }

  lemma KeptApart(mem: Arena, gone: multiset<nat>, kept: multiset<nat>, block: nat, bytes: seq<Byte>)
    requires forall b :: b in kept ==> b in mem && b !in gone
    requires block !in Freed(mem, gone)
    ensures var after := Freed(mem, gone)[block := bytes]; forall b :: b in kept ==> b in after && after[b] == mem[b]
  {
  }

  lemma OnlyPushAndDeliveredOwned(p: Port<Ref>)
    requires p.events.pending == [] && p.events.delivering == []
    ensures Blocks(p) == RefBlocks(p.pushed.data) + RefBlocks(p.delivered.data)
  {
  }

  lemma GrowPushOk(s: Slot, bytes: seq<Byte>, block: nat, grown: seq<Byte>)
    requires SlotOk(s, None) && IsMediaInput(s.port.kind)
    requires |bytes| > s.port.pushed.capacity && |grown| == |bytes|
    requires block !in s.mem || s.port.pushed.data == Some(Block(block))
    ensures SlotOk(GrowPush(s, |bytes|, block, grown), Some((bytes, 0)))
  {
    GrowPushMemory(s, |bytes|, block, grown);
    DataSideUnaffected(s, GrowPush(s, |bytes|, block, grown));
  }

  lemma CopyByteOk(s: Slot, bytes: seq<Byte>, copied: nat)
    requires copied < |bytes| && SlotOk(s, Some((bytes, copied))) && IsMediaInput(s.port.kind)
    ensures SlotOk(CopyByte(s, copied, bytes[copied]), Some((bytes, copied + 1)))
  {
    var t := CopyByte(s, copied, bytes[copied]);
    var b := s.port.pushed.data.value.id;
    OnlyPushAndDelivered(s.port, s.mem);
    assert t.mem.Keys == s.mem.Keys;
    assert t.mem[b][..copied + 1] == s.mem[b][..copied] + [bytes[copied]];
    DataSideUnaffected(s, t);
  }

  lemma StagePushOk(s: Slot, bytes: seq<Byte>, pts: int)
    requires SlotOk(s, Some((bytes, |bytes|))) && IsMediaInput(s.port.kind)
    ensures SlotOk(StagePush(s, bytes, pts), None)
  {
    var t := StagePush(s, bytes, pts);
    OnlyPushAndDelivered(s.port, s.mem);
    forall d {
      PushedOnly(s.log.happenings, Pushed(bytes, pts), d);
    }
    assert bytes[..|bytes|] == bytes;
    DataSideUnaffected(s, t);
  }

  // An event together with its own new copy of the caller's bytes.
  predicate IsCopy(mem: Arena, e: Event<Ref>, bytes: seq<Byte>) {
    && e.size == |bytes|
    && if bytes == [] then e.data == None
       else e.data.Some? && e.data.value.Block? && e.data.value.id !in mem
  }

  lemma AppendEventMemory(s: Slot, e: Event<Ref>, bytes: seq<Byte>)
    requires MemoryOk(s.port, s.mem) && NoMediaState(s.port) && IsCopy(s.mem, e, bytes)
    ensures var t := AppendEvent(s, e, bytes);
            && MemoryOk(t.port, t.mem)
            && forall b :: b in s.mem ==> b in t.mem && t.mem[b] == s.mem[b]
  {
    hide EventBlocks, Reads, ContentOf;
    var t := AppendEvent(s, e, bytes);
    EventBlocksAppend(s.port.events.pending, e);
    if bytes != [] {
      AddedKey(s.mem, e.data.value.id, bytes);
      assert RefBlocks(e.data) == multiset{e.data.value.id};
    } else {
      assert RefBlocks(e.data) == multiset{} && t.mem == s.mem;
    }
    assert Blocks(t.port) == Blocks(s.port) + RefBlocks(e.data);
  }

  lemma EventBlocksLive(p: Port<Ref>, mem: Arena)
    requires MemoryOk(p, mem)
    ensures forall b :: b in EventBlocks(p.events.pending) || b in EventBlocks(p.events.delivering) ==> b in mem
  {
    forall b | b in EventBlocks(p.events.pending) || b in EventBlocks(p.events.delivering) ensures b in mem {
      assert b in Blocks(p);
    }
  }

  lemma AppendEventReads(s: Slot, e: Event<Ref>, bytes: seq<Byte>)
    requires MemoryOk(s.port, s.mem) && NoMediaState(s.port) && IsCopy(s.mem, e, bytes)
    ensures var t := AppendEvent(s, e, bytes);
            && Reads(t.mem, t.port.events.pending)
               == Reads(s.mem, s.port.events.pending) + [EventRead(e.offset, e.kind, e.key, Memory(bytes))]
            && Reads(t.mem, t.port.events.delivering) == Reads(s.mem, s.port.events.delivering)
  {
    hide MemoryOk, Blocks, EventBlocks;
    var t := AppendEvent(s, e, bytes);
    AppendEventMemory(s, e, bytes);
    EventBlocksLive(s.port, s.mem);
    ReadsStable(s.mem, t.mem, s.port.events.pending);
    ReadsStable(s.mem, t.mem, s.port.events.delivering);
    assert bytes[..|bytes|] == bytes;
    assert Read(t.mem, e) == EventRead(e.offset, e.kind, e.key, Memory(bytes));
    assert Reads(t.mem, s.port.events.pending + [e]) == Reads(t.mem, s.port.events.pending) + [Read(t.mem, e)];
  }

  lemma AppendEventEventsOk(s: Slot, e: Event<Ref>, bytes: seq<Byte>)
    requires s.port.kind.media == EventData && MemoryOk(s.port, s.mem) && EventsOk(s) && IsCopy(s.mem, e, bytes)
    requires s.port.kind.direction == Output ==>
               s.active && PushOutput(s.port.events.pending, e, s.port.events.room).1 == Ok
    ensures EventsOk(AppendEvent(s, e, bytes))
  {
    hide IsCopy, MemoryOk, PushOutput, NoFalseFit;
    var t := AppendEvent(s, e, bytes);
    AppendEventReads(s, e, bytes);
    if s.port.kind.direction == Input && s.port.events.delivering != [] {
      ReadsOfSome(s.mem, t.mem, s.port.events.incoming, s.port.events.delivering);
    }
    assert DeliveredOnce(t.port.events, t.mem, t.log) by {
      assert s.log.accepted + [t.log.accepted[|s.log.accepted|]] == t.log.accepted;
    }
    if s.port.kind.direction == Output {
      AppendOutputOk(s.port.events, e, s.log, t.log, s.dequeued.Some?);
    }
  }

  lemma AppendOutputOk(lists: EventLists<Ref>, e: Event<Ref>, log: Log, after: Log, hasBuffer: bool)
    requires EventOutputOk(lists, true, hasBuffer, log) && PushOutput(lists.pending, e, lists.room).1 == Ok
    requires |after.accepted| == |log.accepted| + 1 && after.taken == log.taken
    requires after.misfit == (log.misfit || !NoFalseFit(lists.pending, e, lists.room))
    ensures EventOutputOk(lists.(pending := lists.pending + [e]), true, hasBuffer, after)
  {
    FullSizeGrows(lists.pending, e);
    if !log.misfit {
      PushKeepsFit(lists.pending, e, lists.room);
    }
  }

  lemma AppendEventOk(s: Slot, e: Event<Ref>, bytes: seq<Byte>, writing: Option<(seq<Byte>, nat)>)
    requires SlotOk(s, writing) && s.port.kind.media == EventData && IsCopy(s.mem, e, bytes)
    requires s.port.kind.direction == Output ==>
               s.active && PushOutput(s.port.events.pending, e, s.port.events.room).1 == Ok
    ensures SlotOk(AppendEvent(s, e, bytes), writing)
  {
    AppendEventMemory(s, e, bytes);
    AppendEventEventsOk(s, e, bytes);
  }

  // ---------------------------------------------------------------- assembly

  // A new arrival is the history's, and otherwise the port is untouched.
  ghost predicate ArrivesAs(a: Assembled<Ref>, gotNew: bool, p: Port<Ref>, mem: Arena, arrival: Option<Frame>) {
    && MemoryOk(a.port, mem)
    && a.port.kind == p.kind && a.port.held == p.held && a.port.updateSeq == p.updateSeq
    && (gotNew <==> arrival.Some?)
    && (gotNew ==>
          && FrameAt(mem, a.buffer.data, a.buffer.size, a.buffer.pts, a.port.currentDmabuf) == arrival.value
          && DataThreadOwns(a.port.delivered.data, a.buffer.data))
    && (!gotNew ==> a.port == p && a.buffer == NoBuffer())
  }

  predicate OwnRegion(offered: Option<GraphBuffer<Ref>>) {
    offered.Some? && offered.value.data.Some? ==> offered.value.data == Some(Mapped(offered.value.id))
  }

  lemma TakePushOk(p: Port<Ref>, mem: Arena, h: seq<Happening>, offered: Option<GraphBuffer<Ref>>)
    requires MemoryOk(p, mem) && PushOk(p.pushed, mem, h, None) && p.currentDmabuf == None && p.pushed.waiting
    ensures var (a, gotNew) := Arrive(p, true, offered);
            ArrivesAs(a, gotNew, p, mem, Arrival(h, p.kind.useDmabuf, Cycled(true, offered)))
  {
    assert Blocks(Swap(p)) == Blocks(p);
  }

  // Without a push to take, or with the lock held by one, the graph decides.
  lemma TakeBufferOk(p: Port<Ref>, mem: Arena, h: seq<Happening>, staged: bool, offered: Option<GraphBuffer<Ref>>)
    requires MemoryOk(p, mem) && p.currentDmabuf == None && OwnRegion(offered)
    requires staged ==> !p.pushed.waiting && Unread(h).None?
    ensures var (a, gotNew) := Arrive(p, staged, offered);
            && ArrivesAs(a, gotNew, p, mem, Arrival(h, p.kind.useDmabuf, Cycled(staged, offered)))
            && a.port.pushed == p.pushed
  {
  }

  lemma NextCount(n: nat)
    ensures (n % WORD + 1) % WORD == (n + 1) % WORD
  {
  }

  // The view ViewOk speaks of, for a port and its buffer entry.
  function ViewOf(p: Port<Ref>, b: PortBuffer<Ref>, mem: Arena): Shown {
    Shown(FrameAt(mem, b.data, b.size, b.pts, p.currentDmabuf), b.isFresh, b.seqNo)
  }

  // Hold turns an arrival, or the lack of one, into what the history expects.
  lemma RetainOk(p: Port<Ref>, a: Assembled<Ref>, gotNew: bool, mem: Arena, h: seq<Happening>, cycle: Happening)
    requires HoldOk(p, mem, h) && p.currentDmabuf == None && cycle.Cycled?
    requires ArrivesAs(a, gotNew, p, mem, Arrival(h, p.kind.useDmabuf, cycle))
    ensures var r := Retain(a, gotNew);
            && HoldOk(r.port, mem, h + [cycle])
            && ViewOf(r.port, r.buffer, mem) == Expected(h + [cycle], p.kind.useDmabuf, p.kind.hold)
            && DataThreadOwns(r.port.delivered.data, r.buffer.data)
            && r.port.pushed == a.port.pushed && r.port.delivered == a.port.delivered && r.port.events == a.port.events
  {
    CycleAdded(h, cycle, p.kind.useDmabuf);
    NextCount(Arrivals(h, p.kind.useDmabuf));
  }

  // The push side after the cycle's look at it.
  lemma PushSideOk(p: Port<Ref>, mem: Arena, h: seq<Happening>, staged: bool, offered: Option<GraphBuffer<Ref>>,
                   writing: Option<(seq<Byte>, nat)>)
    requires MemoryOk(p, mem) && PushOk(p.pushed, mem, h, writing) && p.currentDmabuf == None && OwnRegion(offered)
    requires staged ==> writing.None?
    ensures var (a, gotNew) := Arrive(p, staged, offered);
            && ArrivesAs(a, gotNew, p, mem, Arrival(h, p.kind.useDmabuf, Cycled(staged, offered)))
            && a.port.events == p.events
            && PushOk(a.port.pushed, mem, h + [Cycled(staged, offered)], writing)
  {
    hide MemoryOk, ArrivesAs, OwnRegion, Arrival;
    CycleAdded(h, Cycled(staged, offered), p.kind.useDmabuf);
    if staged && p.pushed.waiting {
      TakePushOk(p, mem, h, offered);
    } else {
      TakeBufferOk(p, mem, h, staged, offered);
    }
  }

  lemma ClearedDmabufOk(p: Port<Ref>, mem: Arena, h: seq<Happening>)
    requires MemoryOk(p, mem) && HoldOk(p, mem, h)
    ensures MemoryOk(p.(currentDmabuf := None), mem) && HoldOk(p.(currentDmabuf := None), mem, h)
  {
    assert Blocks(p.(currentDmabuf := None)) == Blocks(p);
  }

  lemma SameOwnersOk(p: Port<Ref>, q: Port<Ref>, mem: Arena)
    requires MemoryOk(p, mem)
    requires q.pushed == p.pushed && q.delivered == p.delivered && q.events == p.events
    ensures MemoryOk(q, mem)
  {
    assert Blocks(q) == Blocks(p);
  }

  lemma AssembleMediaInputOk(s: Slot, staged: bool, offered: Option<GraphBuffer<Ref>>, refused: set<nat>,
                             writing: Option<(seq<Byte>, nat)>)
    requires IsMediaInput(s.port.kind) && MediaInputOk(s, writing) && MemoryOk(s.port, s.mem)
    requires (staged ==> writing.None?) && OwnRegion(offered)
    ensures var t := AssembleSlot(s, staged, offered, refused); MediaInputOk(t, writing) && MemoryOk(t.port, t.mem)
  {
    hide PushOk, HoldOk, MemoryOk, Arrive, Expected, UpToCycle;
    var p, h, cycle := s.port.(currentDmabuf := None), s.log.happenings, Cycled(staged, offered);
    ClearedDmabufOk(s.port, s.mem, h);
    PushSideOk(p, s.mem, h, staged, offered, writing);
    var (a, gotNew) := Arrive(p, staged, offered);
    RetainOk(p, a, gotNew, s.mem, h, cycle);
    CycleAdded(h, cycle, p.kind.useDmabuf);
    SameOwnersOk(a.port, Retain(a, gotNew).port, s.mem);
    assert Assemble(s.port, staged, offered, refused) == Retain(a, gotNew);
  }

  // What an event input port's cycle does to its lists.
  lemma TakeEventsOk(p: Port<Ref>, staged: bool, offered: Option<GraphBuffer<Ref>>, refused: set<nat>, mem: Arena,
                     log: Log, after: Log)
    requires IsEventInput(p.kind) && !log.misfit && DeliveredOnce(p.events, mem, log) && p.events.delivering == []
    requires var a := AssembleEventInput(p, staged, offered, refused);
             after == log.(taken := log.taken + AssembleTaken(p.kind, a, mem),
                           shown := log.shown + AssembleShown(p.kind, a, mem))
    ensures var e := AssembleEventInput(p, staged, offered, refused).port.events;
            && DeliveredOnce(e, mem, after) && EventInputOk(e, mem, true, after)
            && (staged ==> e.pending == [])
            && EventBlocks(e.pending) + EventBlocks(e.delivering) == EventBlocks(p.events.pending)
  {
    hide Load, Reads;
    NoneToRead(mem);
    if staged && p.events.pending != [] {
      LoadMembers(p.events.pending, p.events.capacity, refused);
      assert after.taken == log.taken + Reads(mem, p.events.pending);
    } else {
      assert after.taken == log.taken;
    }
  }

  lemma AssembleEventInputIs(s: Slot, staged: bool, offered: Option<GraphBuffer<Ref>>, refused: set<nat>)
    requires IsEventInput(s.port.kind)
    ensures var p, t := s.port.(currentDmabuf := None), AssembleSlot(s, staged, offered, refused);
            var a := AssembleEventInput(p, staged, offered, refused);
            && t.port == a.port == p.(events := a.port.events)
            && t.mem == s.mem && t.active
            && t.log == s.log.(happenings := t.log.happenings, ops := t.log.ops,
                               taken := s.log.taken + AssembleTaken(p.kind, a, s.mem),
                               shown := s.log.shown + AssembleShown(p.kind, a, s.mem))
  {
    hide Load, Decode, Reads;
  }

  lemma AssembleEventInputOk(s: Slot, staged: bool, offered: Option<GraphBuffer<Ref>>, refused: set<nat>)
    requires IsEventInput(s.port.kind) && EventsOk(s) && MemoryOk(s.port, s.mem) && !s.active
    ensures var t := AssembleSlot(s, staged, offered, refused);
            && EventsOk(t) && MemoryOk(t.port, t.mem)
            && (staged ==> t.port.events.pending == [])
  {
    hide EventBlocks, EventOutputOk, AssembleSlot, AssembleEventInput, AssembleTaken, AssembleShown, Reads;
    var t, p := AssembleSlot(s, staged, offered, refused), s.port.(currentDmabuf := None);
    AssembleEventInputIs(s, staged, offered, refused);
    var after := t.log.(happenings := s.log.happenings, ops := s.log.ops);
    TakeEventsOk(p, staged, offered, refused, s.mem, s.log, after);
    NoneToRead(s.mem);
    assert Blocks(t.port) == Blocks(s.port);
  }

  lemma AssembleEventOutputOk(s: Slot, staged: bool, offered: Option<GraphBuffer<Ref>>, refused: set<nat>)
    requires IsEventOutput(s.port.kind) && EventsOk(s) && MemoryOk(s.port, s.mem) && !s.active
    requires offered.Some? ==> offered.value.maxsize < U32
    ensures var t := AssembleSlot(s, staged, offered, refused); EventsOk(t) && MemoryOk(t.port, t.mem)
  {
    var t, p := AssembleSlot(s, staged, offered, refused), s.port.(currentDmabuf := None);
    assert t.port == AssembleEventOutput(p, offered).port;
    assert t.log.taken == s.log.taken;
    assert Blocks(t.port) == Blocks(s.port);
  }

  lemma AssembleMediaOutputOk(s: Slot, staged: bool, offered: Option<GraphBuffer<Ref>>, refused: set<nat>)
    requires s.port.kind.direction == Output && s.port.kind.media != EventData && MemoryOk(s.port, s.mem)
    ensures var t := AssembleSlot(s, staged, offered, refused);
            MemoryOk(t.port, t.mem) && t.port == s.port.(currentDmabuf := None)
  {
    var t := AssembleSlot(s, staged, offered, refused);
    assert t.port == s.port.(currentDmabuf := None);
    assert Blocks(t.port) == Blocks(s.port);
  }

  // The buffers of a media input port: what is shown stays out.
  lemma RetainAccounted(s: Slot, a: Assembled<Ref>, gotNew: bool)
    requires IsMediaInput(s.port.kind) && BuffersOk(s) && !s.active
    requires a.port.held == s.port.held && a.port.kind == s.port.kind && a.released == None
    requires a.dequeued.Some? ==> a.dequeued.value.id !in Outstanding(s.log.ops)
    ensures var r := Retain(a, gotNew);
            Accounted(s.log.ops + (if a.dequeued.Some? then [Take(a.dequeued.value.id, true)] else [])
                      + (if r.released.Some? then [Give(r.released.value.id)] else []),
                      Ids(r.port.held.buffer), Ids(r.dequeued), true)
  {
    var ops, held := s.log.ops, s.port.held.buffer;
    var r := Retain(a, gotNew);
    assert ops + [] == ops;
    if a.dequeued.Some? {
      TakeAccounted(ops, Ids(held), true, a.dequeued.value.id, true);
      ops := ops + [Take(a.dequeued.value.id, true)];
    }
    assert Accounted(ops, Ids(held), Ids(a.dequeued), true);
    assert ops + [] == ops;
    if r.released.Some? {
      SwapAccounted(ops, Ids(held), Ids(a.dequeued), true);
      GiveAccounted(ops, Ids(a.dequeued), r.released.value.id, true);
    } else if gotNew && a.port.kind.hold {
      SwapAccounted(ops, Ids(held), Ids(a.dequeued), true);
    }
  }

  // A new arrival reaches only the buffer just dequeued.
  lemma ArriveBuffers(p: Port<Ref>, mem: Arena, staged: bool, offered: Option<GraphBuffer<Ref>>)
    requires MemoryOk(p, mem) && p.currentDmabuf == None && OwnRegion(offered)
    ensures var (a, gotNew) := Arrive(p, staged, offered);
            && a.port.held == p.held && a.port.kind == p.kind && a.released == None
            && a.dequeued == (if a.asked then offered else None)
            && GraphRefs(a.buffer.data, a.port.currentDmabuf) <= Ids(a.dequeued)
            && (!gotNew ==> a.port == p && a.buffer == NoBuffer())
  {
  }

  lemma AssembleMediaBuffersOk(s: Slot, staged: bool, offered: Option<GraphBuffer<Ref>>, refused: set<nat>)
    requires IsMediaInput(s.port.kind) && BuffersOk(s) && MemoryOk(s.port, s.mem)
    requires !s.active && CanOffer(s, offered) && (s.port.held.some ==> s.port.kind.hold)
    ensures BuffersOk(AssembleSlot(s, staged, offered, refused))
  {
    hide Accounted, EventBlocks, Arrive;
    var p := s.port.(currentDmabuf := None);
    var (a, gotNew) := Arrive(p, staged, offered);
    ArriveBuffers(p, s.mem, staged, offered);
    RetainAccounted(s, a, gotNew);
    var r := Retain(a, gotNew);
    assert Assemble(s.port, staged, offered, refused) == r && r.asked == a.asked;
    var take := if a.dequeued.Some? then [Take(a.dequeued.value.id, true)] else [];
    var give := if r.released.Some? then [Give(r.released.value.id)] else [];
    assert AssembleOps(s.port.kind, r, offered) == take + give;
    assert s.log.ops + (take + give) == s.log.ops + take + give;
  }

  lemma AssembleOtherBuffersOk(s: Slot, staged: bool, offered: Option<GraphBuffer<Ref>>, refused: set<nat>)
    requires !IsMediaInput(s.port.kind) && BuffersOk(s) && !s.port.held.some
    requires !s.active && CanOffer(s, offered)
    ensures BuffersOk(AssembleSlot(s, staged, offered, refused))
  {
    hide WellUsed, Outstanding, Lost, Decode;
    var a := Assemble(s.port, staged, offered, refused);
    assert a.port.held == s.port.held && a.port.kind == s.port.kind;
    assert a.released == None && a.port.currentDmabuf == None;
    assert a.dequeued == if a.asked && offered.Some? && offered.value.data.Some? then offered else None;
    assert a.buffer.data == None || (a.dequeued.Some? && a.buffer.data == a.dequeued.value.data);
    assert Ids(s.port.held.buffer) == {} && Ids(s.dequeued) == {};
    if a.asked && offered.Some? {
      var recorded := Recorded(s.port.kind, offered.value);
      TakeAccounted(s.log.ops, {}, false, offered.value.id, recorded);
      assert AssembleOps(s.port.kind, a, offered) == [Take(offered.value.id, recorded)];
      assert Ids(a.dequeued) == if recorded then {offered.value.id} else {};
    } else {
      assert AssembleOps(s.port.kind, a, offered) == [];
      assert s.log.ops + [] == s.log.ops;
    }
  }

  lemma AssembleOtherOk(s: Slot, staged: bool, offered: Option<GraphBuffer<Ref>>, refused: set<nat>,
                        writing: Option<(seq<Byte>, nat)>)
    requires SlotOk(s, writing) && !s.active && CanOffer(s, offered) && !IsMediaInput(s.port.kind)
    ensures SlotOk(AssembleSlot(s, staged, offered, refused), writing)
    ensures staged && IsEventInput(s.port.kind) ==> AssembleSlot(s, staged, offered, refused).port.events.pending == []
  {
    KindKept(s.port, staged, offered, refused);
    AssembleOtherBuffersOk(s, staged, offered, refused);
    if IsEventInput(s.port.kind) {
      AssembleEventInputOk(s, staged, offered, refused);
    } else if IsEventOutput(s.port.kind) {
      AssembleEventOutputOk(s, staged, offered, refused);
    } else {
      AssembleMediaOutputOk(s, staged, offered, refused);
    }
  }

  lemma KindKept(p: Port<Ref>, staged: bool, offered: Option<GraphBuffer<Ref>>, refused: set<nat>)
    ensures Assemble(p, staged, offered, refused).port.kind == p.kind
  {
  }

  lemma AssembleMediaOk(s: Slot, staged: bool, offered: Option<GraphBuffer<Ref>>, refused: set<nat>,
                        writing: Option<(seq<Byte>, nat)>)
    requires SlotOk(s, writing) && !s.active && CanOffer(s, offered) && IsMediaInput(s.port.kind)
    requires staged ==> writing.None?
    ensures SlotOk(AssembleSlot(s, staged, offered, refused), writing)
  {
    hide Assemble, Blocks, PushOk, ViewOk, Accounted;
    KindKept(s.port, staged, offered, refused);
    AssembleMediaInputOk(s, staged, offered, refused, writing);
    AssembleMediaBuffersOk(s, staged, offered, refused);
  }

  lemma AssembleSlotOk(s: Slot, staged: bool, offered: Option<GraphBuffer<Ref>>, refused: set<nat>,
                       writing: Option<(seq<Byte>, nat)>)
    requires SlotOk(s, writing) && !s.active && CanOffer(s, offered)
    requires staged ==> writing.None?
    ensures SlotOk(AssembleSlot(s, staged, offered, refused), writing)
  {
    hide SlotOk, AssembleSlot;
    if IsMediaInput(s.port.kind) {
      AssembleMediaOk(s, staged, offered, refused, writing);
    } else {
      AssembleOtherOk(s, staged, offered, refused, writing);
    }
  }

  // ------------------------------------------------------------ finish and stop

  lemma FreedEvents(p: Port<Ref>, mem: Arena, freed: seq<Event<Ref>>, kept: seq<Event<Ref>>)
    requires MemoryOk(p, mem) && NoMediaState(p)
    requires EventBlocks(freed) + EventBlocks(kept) == Blocks(p)
    ensures multiset(Freed(mem, EventBlocks(freed)).Keys) == EventBlocks(kept)
    ensures Reads(Freed(mem, EventBlocks(freed)), kept) == Reads(mem, kept)
  {
    FreedKeys(mem, EventBlocks(freed));
    var left := Freed(mem, EventBlocks(freed));
    forall b | b in EventBlocks(kept) ensures b in mem && b in left && mem[b] == left[b] {
      assert b in multiset(left.Keys);
    }
    ReadsStable(mem, left, kept);
  }

  lemma EventPortBlocks(p: Port<Ref>)
    requires NoMediaState(p)
    ensures Blocks(p) == EventBlocks(p.events.pending) + EventBlocks(p.events.delivering)
  {
  }

  lemma NoneToRead(mem: Arena)
    ensures Reads(mem, []) == [] && EventBlocks([]) == multiset{}
  {
  }

  lemma FinishInputIs(s: Slot)
    requires IsEventInput(s.port.kind)
    ensures var e := s.port.events;
            FinishSlot(s) == s.(port := s.port.(events := e.(delivering := [])),
                                mem := Freed(s.mem, EventBlocks(e.delivering)),
                                dequeued := None, active := false, log := s.log.(ops := FinishSlot(s).log.ops))
  {
    assert s.log.taken + [] == s.log.taken;
  }

  lemma FinishOutputIs(s: Slot)
    requires IsEventOutput(s.port.kind)
    ensures var e := s.port.events;
            FinishSlot(s) == s.(port := s.port.(events := e.(pending := [])), mem := Freed(s.mem, EventBlocks(e.pending)),
                                dequeued := None, active := false,
                                log := s.log.(taken := s.log.taken
                                                       + if s.dequeued.Some? && FullSize(e.pending) <= e.room
                                                         then Reads(s.mem, e.pending) else [],
                                              ops := FinishSlot(s).log.ops))
  {
  }

  lemma FinishEventInputOk(s: Slot)
    requires IsEventInput(s.port.kind) && EventsOk(s) && MemoryOk(s.port, s.mem) && s.active
    ensures EventsOk(FinishSlot(s)) && MemoryOk(FinishSlot(s).port, FinishSlot(s).mem)
  {
    hide Freed, FinishSlot, Blocks, EventBlocks, Reads;
    var e := s.port.events;
    FinishInputIs(s);
    EventPortBlocks(s.port);
    FreedEvents(s.port, s.mem, e.delivering, e.pending);
    NoneToRead(s.mem);
    EventPortBlocks(FinishSlot(s).port);
  }

  lemma FinishEventOutputOk(s: Slot)
    requires IsEventOutput(s.port.kind) && EventsOk(s) && MemoryOk(s.port, s.mem) && s.active
    ensures EventsOk(FinishSlot(s)) && MemoryOk(FinishSlot(s).port, FinishSlot(s).mem)
  {
    hide Freed, FinishSlot, Blocks, EventBlocks, Reads;
    var e := s.port.events;
    FinishOutputIs(s);
    EventPortBlocks(s.port);
    FreedEvents(s.port, s.mem, e.pending, e.delivering);
    NoneToRead(s.mem);
    NoneToRead(FinishSlot(s).mem);
    assert FullSize(e.pending) >= SEQUENCE_HEADER;
    EventPortBlocks(FinishSlot(s).port);
  }

  lemma FinishEventsOk(s: Slot)
    requires s.port.kind.media == EventData && EventsOk(s) && MemoryOk(s.port, s.mem) && s.active
    ensures EventsOk(FinishSlot(s)) && MemoryOk(FinishSlot(s).port, FinishSlot(s).mem)
  {
    hide EventsOk, MemoryOk, FinishSlot;
    if s.port.kind.direction == Input {
      FinishEventInputOk(s);
    } else {
      FinishEventOutputOk(s);
    }
  }

  lemma FinishBuffersOk(s: Slot)
    requires BuffersOk(s)
    ensures BuffersOk(FinishSlot(s))
  {
    if s.dequeued.Some? {
      GiveAccounted(s.log.ops, Ids(s.port.held.buffer), s.dequeued.value.id, IsMediaInput(s.port.kind));
    } else {
      assert s.log.ops + [] == s.log.ops;
    }
  }

  lemma FinishSlotOk(s: Slot, writing: Option<(seq<Byte>, nat)>)
    requires SlotOk(s, writing) && s.active
    ensures SlotOk(FinishSlot(s), writing)
  {
    FinishBuffersOk(s);
    if s.port.kind.media == EventData {
      FinishEventsOk(s);
    } else {
      assert Freed(s.mem, multiset{}) == s.mem;
    }
  }

  lemma StopSlotOk(s: Slot, writing: Option<(seq<Byte>, nat)>)
    requires SlotOk(s, writing) && !s.active
    ensures SlotOk(StopSlot(s), writing)
  {
    if s.port.held.buffer.Some? {
      SwapAccounted(s.log.ops, Ids(s.port.held.buffer), {}, IsMediaInput(s.port.kind));
      GiveAccounted(s.log.ops, {}, s.port.held.buffer.value.id, IsMediaInput(s.port.kind));
    } else {
      assert s.log.ops + [] == s.log.ops;
    }
    StopAdded(s.log.happenings, s.port.kind.useDmabuf);
    assert Blocks(StopSlot(s).port) == Blocks(s.port);
  }

  // -------------------------------------------------------------- every step

  lemma NewFilterOk(f: Filter)
    requires IsNew(f)
    ensures Inv(f)
  {
    forall i | 0 <= i < |f.slots| ensures SlotOk(f.slots[i], None) {
      NewSlotOk(f.slots[i]);
    }
  }

  // A step that changes port i alone keeps the invariant of the others.
  lemma OthersKept(f: Filter, g: Filter, i: nat)
    requires SlotsOk(f) && i < |f.slots| == |g.slots| && g.slots == f.slots[i := g.slots[i]]
    requires SlotOk(g.slots[i], WritingTo(g.lock, i)) && (g.slots[i].active <==> IsActive(g.phase, i))
    requires forall j: nat :: j != i ==>
               WritingTo(g.lock, j) == WritingTo(f.lock, j) && (IsActive(g.phase, j) <==> IsActive(f.phase, j))
    ensures SlotsOk(g)
  {
    hide SlotOk;
    forall j | 0 <= j < |g.slots|
      ensures SlotOk(g.slots[j], WritingTo(g.lock, j)) && (g.slots[j].active <==> IsActive(g.phase, j))
    {
      if j != i {
        assert g.slots[j] == f.slots[j];
      }
    }
  }

  lemma PushBeginOk(f: Filter, step: Step)
    requires Inv(f) && step.PushBegin? && Enabled(f, step)
    ensures Inv(Next(f, step))
  {
    var (i, g) := (step.port, Next(f, step));
    var s := f.slots[i];
    assert SlotOk(s, None);
    if |step.bytes| <= s.port.pushed.capacity {
      assert SlotOk(s, Some((step.bytes, 0))) by {
        if step.bytes != [] {
          assert ContentOf(s.mem, s.port.pushed.data, 0) == Memory([]);
          assert step.bytes[..0] == [];
        }
      }
    } else if step.moved.Some? {
      GrowPushOk(s, step.bytes, step.moved.value, step.grown);
    }
    if g != f {
      OthersKept(f, g, i);
    }
  }

  lemma PushCopyOk(f: Filter)
    requires Inv(f) && Enabled(f, PushCopy)
    ensures Inv(Next(f, PushCopy))
  {
    hide SlotOk;
    var i, g := f.lock.port, Next(f, PushCopy);
    CopyByteOk(f.slots[i], f.lock.bytes, f.lock.copied);
    OthersKept(f, g, i);
  }

  lemma PushEndOk(f: Filter)
    requires Inv(f) && Enabled(f, PushEnd)
    ensures Inv(Next(f, PushEnd))
  {
    hide SlotOk;
    var i, g := f.lock.port, Next(f, PushEnd);
    StagePushOk(f.slots[i], f.lock.bytes, f.lock.pts);
    OthersKept(f, g, i);
  }

  lemma PushEventOk(f: Filter, step: Step)
    requires Inv(f) && step.PushEvent? && Enabled(f, step)
    ensures Inv(Next(f, step))
  {
    hide SlotOk;
    var (i, g) := (step.port, Next(f, step));
    if g != f {
      AppendEventOk(f.slots[i], NewEvent(step), step.bytes, WritingTo(f.lock, i));
      OthersKept(f, g, i);
    }
  }

  lemma AssembleNextOk(f: Filter, step: Step)
    requires Inv(f) && step.AssembleNext? && Enabled(f, step)
    ensures Inv(Next(f, step))
  {
    hide SlotOk;
    var i, g := f.phase.next, Next(f, step);
    var s := AssembleSlot(f.slots[i], f.phase.staged, step.offered, step.refused);
    AssembleSlotOk(f.slots[i], f.phase.staged, step.offered, step.refused, WritingTo(f.lock, i));
    assert s.port.kind == f.slots[i].port.kind;
    OthersKept(f, g, i);
  }

  lemma FinishNextOk(f: Filter)
    requires Inv(f) && Enabled(f, FinishNext)
    ensures Inv(Next(f, FinishNext))
  {
    hide SlotOk;
    var i, g := f.phase.next, Next(f, FinishNext);
    var s := FinishSlot(f.slots[i]);
    FinishSlotOk(f.slots[i], WritingTo(f.lock, i));
    assert s.port.kind == f.slots[i].port.kind;
    OthersKept(f, g, i);
  }

  lemma StopAllOk(f: Filter)
    requires Inv(f) && Enabled(f, StopAll)
    ensures Inv(Next(f, StopAll))
  {
    hide SlotOk;
    forall j | 0 <= j < |f.slots| ensures SlotOk(StopSlot(f.slots[j]), WritingTo(f.lock, j)) {
      assert SlotOk(f.slots[j], WritingTo(f.lock, j));
      StopSlotOk(f.slots[j], WritingTo(f.lock, j));
    }
  }

  lemma CallbackOk(f: Filter, step: Step)
    requires Inv(f) && Enabled(f, step)
    requires step.CycleBegin? || step.CallbackBegin? || step.CallbackEnd? || step.CycleEnd?
    ensures Inv(Next(f, step))
  {
    hide SlotOk;
    var g := Next(f, step);
    forall j | 0 <= j < |g.slots|
      ensures SlotOk(g.slots[j], WritingTo(g.lock, j)) && (g.slots[j].active <==> IsActive(g.phase, j))
    {
      assert SlotOk(f.slots[j], WritingTo(f.lock, j));
      assert WritingTo(g.lock, j) == WritingTo(f.lock, j);
    }
  }

  lemma StepOk(f: Filter, step: Step)
    requires Inv(f) && Enabled(f, step)
    ensures Inv(Next(f, step))
  {
    hide Inv;
    match step
    case PushBegin(_, _, _, _, _) => PushBeginOk(f, step);
    case PushCopy => PushCopyOk(f);
    case PushEnd => PushEndOk(f);
    case PushEvent(_, _, _, _, _, _) => PushEventOk(f, step);
    case AssembleNext(_, _) => AssembleNextOk(f, step);
    case FinishNext => FinishNextOk(f);
    case StopAll => StopAllOk(f);
    case _ => CallbackOk(f, step);
  }

  // Whatever the interleaving of pushes, cycles and stops.
  lemma {:induction false} RunOk(f: Filter, steps: seq<Step>)
    requires IsNew(f) && After(f, steps).Some?
    ensures Inv(After(f, steps).value)
  {
    hide Inv;
    if steps == [] {
      NewFilterOk(f);
    } else {
      RunOk(f, steps[..|steps| - 1]);
      StepOk(After(f, steps[..|steps| - 1]).value, steps[|steps| - 1]);
    }
  }
}
