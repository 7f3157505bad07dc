// What a cycle hands the callback on the ports that do not take media in, and
// when it takes a buffer from the graph, in every run.
module FilterEntries {
  import opened Base
  import opened Events
  import opened PortModel
  import opened PortHistory
  import opened FilterProtocol
  import opened FilterSafety
  import opened FilterRuns

  // The last cycle of the history, if no stop came after it.
  function LastCycle(h: seq<Happening>): (c: Option<Happening>)
    ensures c.Some? ==> c.value.Cycled?
  {
    if h == [] then None
    else
      var last := h[|h| - 1];
      match last
      case Cycled(_, _) => Some(last)
      case Stopped => None
      case Pushed(_, _) => LastCycle(h[..|h| - 1])
  }

  // The buffer that cycle was given, if it has data.
  function Given(h: seq<Happening>): Option<GraphBuffer<Ref>> {
    var c := LastCycle(h);
    if c.Some? && c.value.offered.Some? && c.value.offered.value.data.Some? then c.value.offered else None
  }

  predicate IsMediaOutput(k: Kind) {
    k.media != EventData && k.direction == Output
  }

  // The step assembles port i.
  predicate Assembles(f: Filter, step: Step, i: nat) {
    step.AssembleNext? && f.phase.Assembling? && f.phase.next == i < |f.slots|
  }

  // The capacity of incoming_events when port i was assembled last, and the
  // events it could then not grow for.
  function LastRoom(start: Filter, steps: seq<Step>, i: nat): (nat, set<nat>)
    requires After(start, steps).Some?
  {
    if steps == [] then (0, {})
    else
      var n := |steps| - 1;
      var before := After(start, steps[..n]).value;
      if Assembles(before, steps[n], i) then (before.slots[i].port.events.capacity, steps[n].refused)
      else LastRoom(start, steps[..n], i)
  }

  predicate MediaOutputEntry(s: Slot, given: Option<GraphBuffer<Ref>>) {
    && s.dequeued == given
    && s.buffer == if given.Some? then PortBuffer(given.value.data, 0, given.value.maxsize, -1, false, 0) else NoBuffer()
  }

  predicate EventOutputEntry(s: Slot, given: Option<GraphBuffer<Ref>>) {
    && s.dequeued == given && s.buffer == NoBuffer()
    && s.port.events.room == if given.Some? then given.value.maxsize else 0
  }

  predicate EventInputEntry(s: Slot, given: Option<GraphBuffer<Ref>>, room: (nat, set<nat>)) {
    && s.buffer == NoBuffer()
    && if s.port.events.delivering != [] then s.dequeued == None
       else
         && s.dequeued == given
         && s.port.events.incoming == if given.Some? then Load(Decode(given.value.controls), room.0, room.1).0 else []
  }

  // What the cycle left for the callback.
  predicate EntryOk(s: Slot, room: (nat, set<nat>)) {
    var given := Given(s.log.happenings);
    && LastCycle(s.log.happenings).Some?
    && (given.Some? ==> given.value.data == Some(Mapped(given.value.id)))
    && (IsMediaOutput(s.port.kind) ==> MediaOutputEntry(s, given))
    && (IsEventOutput(s.port.kind) ==> EventOutputEntry(s, given))
    && (IsEventInput(s.port.kind) ==> EventInputEntry(s, given, room))
    && (IsMediaInput(s.port.kind) ==> s.buffer.capacity == 0)
  }

  lemma LastIsCycle(h: seq<Happening>, staged: bool, offered: Option<GraphBuffer<Ref>>)
    ensures Given(h + [Cycled(staged, offered)])
         == if offered.Some? && offered.value.data.Some? then offered else None
    ensures LastCycle(h + [Cycled(staged, offered)]).Some?
  {
  }

  lemma AssembledOutput(s: Slot, staged: bool, offered: Option<GraphBuffer<Ref>>, refused: set<nat>)
    requires s.port.kind.direction == Output
    ensures var t := AssembleSlot(s, staged, offered, refused);
            var given := if offered.Some? && offered.value.data.Some? then offered else None;
            && t.port.kind == s.port.kind
            && if t.port.kind.media == EventData then EventOutputEntry(t, given) else MediaOutputEntry(t, given)
  {
    hide AssembleEventInput, AssembleMediaInput, Reads;
  }

  lemma AssembledEventInput(s: Slot, staged: bool, offered: Option<GraphBuffer<Ref>>, refused: set<nat>)
    requires IsEventInput(s.port.kind)
    ensures var t := AssembleSlot(s, staged, offered, refused);
            && t.port.kind == s.port.kind
            && EventInputEntry(t, if offered.Some? && offered.value.data.Some? then offered else None,
                               (s.port.events.capacity, refused))
  {
    hide Load, Decode, Reads;
  }

  lemma MediaInputCapacity(p: Port<Ref>, staged: bool, offered: Option<GraphBuffer<Ref>>)
    ensures var a := AssembleMediaInput(p, staged, offered); a.buffer.capacity == 0 && a.port.kind == p.kind
  {
  }

  lemma AssembledMediaInput(s: Slot, staged: bool, offered: Option<GraphBuffer<Ref>>, refused: set<nat>)
    requires IsMediaInput(s.port.kind)
    ensures var t := AssembleSlot(s, staged, offered, refused); t.port.kind == s.port.kind && t.buffer.capacity == 0
  {
    MediaInputCapacity(s.port.(currentDmabuf := None), staged, offered);
    hide AssembleMediaInput, AssembleTaken, AssembleShown, AssembleOps;
  }

  lemma AssembledEntry(s: Slot, staged: bool, offered: Option<GraphBuffer<Ref>>, refused: set<nat>)
    requires CanOffer(s, offered)
    ensures EntryOk(AssembleSlot(s, staged, offered, refused), (s.port.events.capacity, refused))
  {
    LastIsCycle(s.log.happenings, staged, offered);
    hide Assemble, Given, LastCycle, EventOutputEntry, MediaOutputEntry, EventInputEntry;
    if s.port.kind.direction == Output {
      AssembledOutput(s, staged, offered, refused);
    } else if s.port.kind.media == EventData {
      AssembledEventInput(s, staged, offered, refused);
    } else {
      AssembledMediaInput(s, staged, offered, refused);
    }
  }

  // A step that neither assembles nor finishes port i leaves its entry alone.
  lemma EntryStays(f: Filter, step: Step, i: nat)
    requires Enabled(f, step) && i < |f.slots| && !step.StopAll?
    requires !Assembles(f, step, i) && !(step.FinishNext? && f.phase.next == i)
    ensures var s, t := f.slots[i], Next(f, step).slots[i];
            && t.active == s.active && t.buffer == s.buffer && t.dequeued == s.dequeued && t.port.kind == s.port.kind
            && t.port.events == s.port.events.(pending := t.port.events.pending)
            && LastCycle(t.log.happenings) == LastCycle(s.log.happenings)
  {
    hide AssembleSlot, FinishSlot, PushOutput, NoFalseFit;
    if step.PushEnd? && f.lock.port == i {
      PushIsNoCycle(f.slots[i].log.happenings, f.lock.bytes, f.lock.pts);
    }
  }

  lemma PushIsNoCycle(h: seq<Happening>, bytes: seq<Byte>, pts: int)
    ensures LastCycle(h + [Pushed(bytes, pts)]) == LastCycle(h)
  {
    assert (h + [Pushed(bytes, pts)])[..|h|] == h;
  }

  lemma EntryStep(f: Filter, step: Step, i: nat, room: (nat, set<nat>))
    requires Enabled(f, step) && i < |f.slots| && (step.StopAll? ==> !f.slots[i].active)
    requires f.slots[i].active ==> EntryOk(f.slots[i], room)
    ensures var e := f.slots[i].port.events;
            var t := Next(f, step).slots[i];
            t.active ==> EntryOk(t, if Assembles(f, step, i) then (e.capacity, step.refused) else room)
  {
    if Assembles(f, step, i) {
      hide AssembleSlot, EntryOk;
      AssembledEntry(f.slots[i], f.phase.staged, step.offered, step.refused);
    } else if step.FinishNext? && f.phase.next == i {
      hide EntryOk, Finish, Freed;
    } else if step.StopAll? {
      hide EntryOk;
    } else {
      EntryStays(f, step, i);
      hide Next, Load, Decode, LastCycle;
    }
  }

  lemma LastStep(start: Filter, steps: seq<Step>, f: Filter, i: nat) returns (before: Filter)
    requires Reaches(start, steps, f, i) && steps != []
    ensures var n := |steps| - 1;
            && Reaches(start, steps[..n], before, i) && Enabled(before, steps[n]) && f == Next(before, steps[n])
  {
    hide Enabled, Next, IsNew;
    before := After(start, steps[..|steps| - 1]).value;
  }

  lemma NoneActive(start: Filter, f: Filter, i: nat)
    requires Reaches(start, [], f, i)
    ensures !f.slots[i].active
  {
  }

  lemma LastRoomSnoc(start: Filter, steps: seq<Step>, before: Filter, i: nat)
    requires steps != [] && After(start, steps).Some? && After(start, steps[..|steps| - 1]) == Some(before)
    ensures var step := steps[|steps| - 1];
            LastRoom(start, steps, i)
            == if Assembles(before, step, i) then (before.slots[i].port.events.capacity, step.refused)
               else LastRoom(start, steps[..|steps| - 1], i)
  {
    hide Enabled, Next;
  }

  lemma StopsInactive(start: Filter, steps: seq<Step>, f: Filter, i: nat)
    requires Reaches(start, steps, f, i)
    ensures Enabled(f, StopAll) ==> !f.slots[i].active
  {
    hide SlotOk, After, IsNew;
    ReachedPort(start, steps, f, i);
  }

  lemma {:induction false} EntryOfRun(start: Filter, steps: seq<Step>, f: Filter, i: nat)
    requires Reaches(start, steps, f, i)
    ensures f.slots[i].active ==> EntryOk(f.slots[i], LastRoom(start, steps, i))
  {
    if steps == [] {
      NoneActive(start, f, i);
    } else {
      var n := |steps| - 1;
      var before := LastStep(start, steps, f, i);
      EntryOfRun(start, steps[..n], before, i);
      StopsInactive(start, steps[..n], before, i);
      hide EntryOk, Next, SlotOk, After, LastRoom, IsNew, Enabled;
      LastRoomSnoc(start, steps, before, i);
      EntryStep(before, steps[n], i, LastRoom(start, steps[..n], i));
    }
  }

  // ---------------------------------------------------------------- the callback

  // The callback of a media output port is handed the region of the buffer its
  // dequeue gave in this cycle, empty, and all of it; or nothing, when that gave
  // none with data.
  lemma OutputHandsRegion(start: Filter, steps: seq<Step>, f: Filter, i: nat)
    requires Reaches(start, steps, f, i) && f.phase == Calling && IsMediaOutput(f.slots[i].port.kind)
    ensures var s, cycle := f.slots[i], LastCycle(f.slots[i].log.happenings);
            && cycle.Some?
            && s.buffer.size == 0 && s.buffer.pts == -1 && !s.buffer.isFresh && s.buffer.seqNo == 0
            && if cycle.value.offered.Some? && cycle.value.offered.value.data.Some? then
                 var b := cycle.value.offered.value;
                 s.buffer.data == Some(Mapped(b.id)) && s.buffer.capacity == b.maxsize && s.dequeued == Some(b)
               else s.buffer.data == None && s.buffer.capacity == 0 && s.dequeued == None
  {
    hide LastCycle, SlotOk, LastRoom;
    EntryOfRun(start, steps, f, i);
    ReachedPort(start, steps, f, i);
  }

  // An event output port's callback may push what fits the buffer of this
  // cycle, and nothing when there is none.
  lemma OutputRoomIsBuffer(start: Filter, steps: seq<Step>, f: Filter, i: nat)
    requires Reaches(start, steps, f, i) && f.phase == Calling && IsEventOutput(f.slots[i].port.kind)
    ensures var s, cycle := f.slots[i], LastCycle(f.slots[i].log.happenings);
            && cycle.Some? && s.buffer == PortBuffer(None, 0, 0, -1, false, 0)
            && if cycle.value.offered.Some? && cycle.value.offered.value.data.Some? then
                 s.port.events.room == cycle.value.offered.value.maxsize && s.dequeued == cycle.value.offered
               else s.port.events.room == 0 && s.dequeued == None
  {
    hide LastCycle, SlotOk, LastRoom;
    EntryOfRun(start, steps, f, i);
    ReachedPort(start, steps, f, i);
  }

  // With nothing pushed to show, the callback of an event input port reads what
  // the controls of this cycle's buffer carry, in order; all of it exactly when
  // incoming_events could grow for every event; and nothing without a buffer.
  lemma GraphEventsShown(start: Filter, steps: seq<Step>, f: Filter, i: nat)
    requires Reaches(start, steps, f, i) && f.phase == Calling && IsEventInput(f.slots[i].port.kind)
    requires f.slots[i].port.events.delivering == []
    ensures var s, cycle := f.slots[i], LastCycle(f.slots[i].log.happenings);
            && cycle.Some?
            && if cycle.value.offered.Some? && cycle.value.offered.value.data.Some? then
                 var (capacity, refused) := LastRoom(start, steps, i);
                 && s.dequeued == cycle.value.offered
                 && exists events :: CarriedBy(events, cycle.value.offered.value.controls)
                                  && IsPart(s.port.events.incoming, events)
                                  && (s.port.events.incoming == events <==> !Refuses(events, capacity, refused))
               else s.dequeued == None && s.port.events.incoming == []
  {
    hide LastCycle, SlotOk, LastRoom, IsPart, Refuses, CarriedBy;
    EntryOfRun(start, steps, f, i);
    ReachedPort(start, steps, f, i);
    var given := Given(f.slots[i].log.happenings);
    if given.Some? {
      hide Load, Decode;
      var events := Decode(given.value.controls);
      DecodesExactly(events, given.value.controls);
      var (capacity, refused) := LastRoom(start, steps, i);
      LoadExactly(events, capacity, refused);
    }
  }

  // While a pushed batch is shown no buffer is taken, and input ports are handed
  // no room to write in.
  lemma InputsTakeNoRoom(start: Filter, steps: seq<Step>, f: Filter, i: nat)
    requires Reaches(start, steps, f, i) && f.phase == Calling && f.slots[i].port.kind.direction == Input
    ensures f.slots[i].buffer.capacity == 0
    ensures f.slots[i].port.events.delivering != [] ==> f.slots[i].dequeued == None
  {
    hide LastCycle, LastRoom;
    EntryOfRun(start, steps, f, i);
    ReachedPort(start, steps, f, i);
  }

  // ------------------------------------------------------------ taking buffers

  // A cycle that gets the lock finds something pushed to show.
  predicate FindsPush(s: Slot, staged: bool) {
    && staged
    && if IsEventInput(s.port.kind) then |s.log.taken| < |s.log.accepted|
       else IsMediaInput(s.port.kind) && Unread(s.log.happenings).Some?
  }

  lemma AskedExactly(s: Slot, staged: bool, offered: Option<GraphBuffer<Ref>>, refused: set<nat>,
                     writing: Option<(seq<Byte>, nat)>)
    requires SlotOk(s, writing) && !s.active
    ensures Assemble(s.port, staged, offered, refused).asked <==> !FindsPush(s, staged)
  {
    hide MemoryOk, BuffersOk, HoldOk, ViewOk, Retain, Load, Decode, Reads;
    var p := s.port.(currentDmabuf := None);
    if IsMediaInput(p.kind) {
      MediaAsked(p, staged, offered);
      assert PushOk(s.port.pushed, s.mem, s.log.happenings, writing);
    } else {
      assert EventsOk(s) || p.kind.media != EventData;
    }
  }

  lemma MediaAsked(p: Port<Ref>, staged: bool, offered: Option<GraphBuffer<Ref>>)
    ensures AssembleMediaInput(p, staged, offered).asked <==> !(staged && p.pushed.waiting)
  {
  }

  // Assembling a port takes the buffer the graph has for it exactly when there
  // is one and nothing pushed is shown in its place.
  lemma TakesBufferExactly(start: Filter, steps: seq<Step>, f: Filter, step: Step)
    requires f.phase.Assembling? && step.AssembleNext? && Enabled(f, step)
    requires Reaches(start, steps, f, f.phase.next)
    ensures var i, offered := f.phase.next, step.offered;
            var s, ops := f.slots[i], Next(f, step).slots[i].log.ops;
            && s.log.ops <= ops
            && var more := ops[|s.log.ops|..];
            if offered.Some? && !FindsPush(s, f.phase.staged) then
              more != [] && more[0].Take? && more[0].id == offered.value.id && forall k :: 1 <= k < |more| ==> more[k].Give?
            else forall k :: 0 <= k < |more| ==> more[k].Give?
  {
    hide SlotOk, After, IsNew, FindsPush, Assemble;
    var s := f.slots[f.phase.next];
    ReachedPort(start, steps, f, f.phase.next);
    AskedExactly(s, f.phase.staged, step.offered, step.refused, WritingTo(f.lock, f.phase.next));
    var a := Assemble(s.port, f.phase.staged, step.offered, step.refused);
    var more := AssembleOps(s.port.kind, a, step.offered);
    assert (s.log.ops + more)[|s.log.ops|..] == more;
  }
}
