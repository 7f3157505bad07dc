// The port and filter objects, in the program's own form: fields updated in
// place, buffers that are arrays, loops over events and ports. Each method is
// tied to the functions of PortModel, which FilterProtocol steps through.
module FilterPorts {
  import opened Base
  import opened Events
  import opened PortModel

  type Bytes = array<Byte>

  function Ptr(a: array?<Byte>): Option<Bytes> {
    if a == null then None else Some(a)
  }

  // struct pwf_filter_port
  class FilterPort {
    const media: DataType
    const direction: Direction
    const useDmabuf: bool
    var holdEnabled: bool

    var pushedData: array?<Byte>
    var pushedSize: nat
    var pushedCapacity: nat
    var pushedPts: int
    var pushedPending: bool
    var deliveredData: array?<Byte>
    var deliveredCapacity: nat

    var incomingEvents: seq<Event<Bytes>>
    var incomingCapacity: nat
    var pendingEvents: seq<Event<Bytes>>
    var deliveringEvents: seq<Event<Bytes>>
    var eventOutputCapacity: nat

    var currentDmabuf: Option<nat>
    var hasHeld: bool
    var held: Option<GraphBuffer<Bytes>>
    var heldDmabuf: Option<nat>
    var heldData: array?<Byte>
    var heldSize: nat
    var heldPts: int
    var updateSeq: nat

    function PushSide(): Staging<Bytes>
      reads this`pushedData, this`pushedSize, this`pushedCapacity, this`pushedPts, this`pushedPending
    {
      Staging(Ptr(pushedData), pushedSize, pushedCapacity, pushedPts, pushedPending)
    }

    function DeliveredSide(): Delivered<Bytes>
      reads this`deliveredData, this`deliveredCapacity
    {
      Delivered(Ptr(deliveredData), deliveredCapacity)
    }

    function EventSide(): EventLists<Bytes>
      reads this`incomingEvents, this`incomingCapacity, this`pendingEvents, this`deliveringEvents
      reads this`eventOutputCapacity
    {
      EventLists(incomingEvents, incomingCapacity, pendingEvents, deliveringEvents, eventOutputCapacity)
    }

    function HeldSide(): Held<Bytes>
      reads this`hasHeld, this`held, this`heldData, this`heldSize, this`heldPts, this`heldDmabuf
    {
      Held(hasHeld, held, Ptr(heldData), heldSize, heldPts, heldDmabuf)
    }

    function State(): Port<Bytes>
      reads this
    {
      Port(Kind(media, direction, useDmabuf, holdEnabled), PushSide(), DeliveredSide(), EventSide(), HeldSide(),
           currentDmabuf, updateSeq)
    }

    // The two sides of the push swap are different arrays of their capacities.
    predicate Valid()
      reads this
    {
      && (if pushedData == null then pushedCapacity == 0 else pushedData.Length == pushedCapacity)
      && (if deliveredData == null then deliveredCapacity == 0 else deliveredData.Length == deliveredCapacity)
      && (pushedData != null ==> pushedData != deliveredData)
    }

    // calloc, then the fields the add-port calls set.
    constructor (media: DataType, direction: Direction, useDmabuf: bool)
      ensures Valid()
      ensures State() == Port(Kind(media, direction, useDmabuf, false), Staging(None, 0, 0, 0, false),
                              Delivered(None, 0), EventLists([], 0, [], [], 0), Held(false, None, None, 0, 0, None),
                              None, 0)
    {
      this.media, this.direction, this.useDmabuf, holdEnabled := media, direction, useDmabuf, false;
      pushedData, pushedSize, pushedCapacity, pushedPts, pushedPending := null, 0, 0, 0, false;
      deliveredData, deliveredCapacity := null, 0;
      incomingEvents, incomingCapacity, pendingEvents, deliveringEvents, eventOutputCapacity := [], 0, [], [], 0;
      currentDmabuf, hasHeld, held, heldDmabuf := None, false, None, None;
      heldData, heldSize, heldPts, updateSeq := null, 0, 0, 0;
    }

    // pwf_filter_port_set_hold; `created` tells if the filter has yet to start.
    method SetHold(created: bool, enable: bool) returns (code: Code)
      modifies this`holdEnabled
      ensures code == if direction == Input && created then Ok else InvalidArg
      ensures holdEnabled == if code == Ok then enable else old(holdEnabled)
    {
      if direction != Input || !created {
        return InvalidArg;
      }
      holdEnabled := enable;
      return Ok;
    }

    // realloc of the push side to `size` bytes.
    method GrowPushed(size: nat)
      requires Valid() && size > pushedCapacity
      modifies this`pushedData, this`pushedCapacity
      ensures Valid() && fresh(pushedData) && pushedCapacity == size
      ensures old(pushedData) != null ==> pushedData[..old(pushedCapacity)] == old(pushedData)[..]
    {
      var grown := new Byte[size](_ => 0);
      for k := 0 to pushedCapacity
        invariant pushedData != null ==> grown[..k] == pushedData[..k]
        modifies grown
      {
        grown[k] := pushedData[k];
      }
      assert pushedData != null ==> pushedData[..pushedCapacity] == pushedData[..];
      pushedData, pushedCapacity := grown, size;
    }

    // pwf_filter_push_port_data under the push lock. `canGrow` is realloc's
    // success. On failure nothing changes; on success the newest push replaces
    // the staged one whole; the delivered side is never written.
    method PushPortData(data: Option<seq<Byte>>, size: nat, pts: int, canGrow: bool) returns (code: Code)
      requires Valid() && (data.Some? ==> size <= |data.value|)
      modifies this`pushedData, this`pushedCapacity, this`pushedSize, this`pushedPts, this`pushedPending, pushedData
      ensures Valid()
      ensures code == if direction != Input || media == EventData || (size > 0 && data.None?) then InvalidArg
                      else if size > old(pushedCapacity) && !canGrow then NoMemory else Ok
      ensures code != Ok ==> PushSide() == old(PushSide()) && (pushedData != null ==> pushedData[..] == old(pushedData[..]))
      ensures code == Ok ==>
                && PushSide() == Staging(Ptr(pushedData), size, pushedCapacity, pts, true)
                && pushedCapacity == (if size > old(pushedCapacity) then size else old(pushedCapacity))
                && (size > 0 ==> pushedData != null && pushedData[..size] == data.value[..size])
      ensures pushedData == old(pushedData) || fresh(pushedData)
      ensures deliveredData != null ==> deliveredData[..] == old(deliveredData[..])
    {
      if direction != Input || media == EventData || (size > 0 && data.None?) {
        return InvalidArg;
      }
      if size > pushedCapacity {
        if !canGrow {
          return NoMemory;
        }
        GrowPushed(size);
      }
      for k := 0 to size
        invariant k > 0 ==> pushedData[..k] == data.value[..k]
        modifies pushedData
      {
        pushedData[k] := data.value[k];
      }
      pushedSize, pushedPts, pushedPending := size, pts, true;
      code := Ok;
    }

    static method CopyOf(data: Option<seq<Byte>>, size: nat) returns (copy: Option<Bytes>)
      requires size > 0 ==> data.Some? && size <= |data.value|
      ensures if size == 0 then copy == None
              else copy.Some? && fresh(copy.value) && copy.value[..] == data.value[..size]
    {
      copy := None;
      if size > 0 {
        var block := new Byte[size](_ => 0);
        for k := 0 to size
          invariant block[..k] == data.value[..k]
          modifies block
        {
          block[k] := data.value[k];
        }
        copy := Some(block);
      }
    }

    // pwf_filter_port_push_event. `canCopy` is the success of the allocations.
    method PushEvent(offset: nat, kind: EventKind, key: Option<string>, data: Option<seq<Byte>>, size: nat, canCopy: bool)
      returns (code: Code)
      requires data.Some? ==> size <= |data.value|
      modifies this`pendingEvents
      ensures code != Ok ==> State() == old(State())
      ensures code == InvalidArg <==>
                || media != EventData || (size > 0 && data.None?) || !KindKeyValid(kind, key)
                || (direction == Output && canCopy
                    && EncodedSize(old(pendingEvents) + [Event<Bytes>.Event(offset, kind, key, None, size)])
                       > eventOutputCapacity)
      ensures code == Ok ==>
                && |pendingEvents| == |old(pendingEvents)| + 1
                && var e := pendingEvents[|old(pendingEvents)|];
                && State() == old(State()).(events := old(State()).events.(pending := old(pendingEvents) + [e]))
                && e == Event(offset, kind, key, e.data, size)
                && (if size == 0 then e.data == None
                    else e.data.Some? && fresh(e.data.value) && e.data.value[..] == data.value[..size])
    {
      if media != EventData || (size > 0 && data.None?) || !KindKeyValid(kind, key) {
        return InvalidArg;
      }
      if !canCopy {
        return NoMemory;
      }
      var copy := CopyOf(data, size);
      var e := Event(offset, kind, key, copy, size);
      SizeIgnoresData(pendingEvents, e, Event(offset, kind, key, None, size));
      if direction == Output && EncodedSize(pendingEvents + [e]) > eventOutputCapacity {
        return InvalidArg;
      }
      pendingEvents := pendingEvents + [e];
      code := Ok;
    }

    // pwf_filter_incoming_event_append, when a full array can grow or not.
    method AppendIncoming(e: Event<Bytes>, canGrow: bool)
      modifies this`incomingEvents, this`incomingCapacity
      ensures var full := old(|incomingEvents| == incomingCapacity);
              && incomingEvents == (if full && !canGrow then old(incomingEvents) else old(incomingEvents) + [e])
              && incomingCapacity == if !full || !canGrow then old(incomingCapacity)
                                     else if old(incomingCapacity) == 0 then 4 else 2 * old(incomingCapacity)
    {
      if |incomingEvents| == incomingCapacity {
        if !canGrow {
          return;
        }
        incomingCapacity := if incomingCapacity == 0 then 4 else incomingCapacity * 2;
      }
      incomingEvents := incomingEvents + [e];
    }

    // pwf_filter_event_load_delivering_as_incoming
    method LoadDelivering(refused: set<nat>)
      modifies this`incomingEvents, this`incomingCapacity
      ensures EventSide() == Loaded(old(EventSide()), deliveringEvents, refused)
    {
      hide Load;
      incomingEvents := [];
      NothingToLoad<Bytes>(incomingCapacity, refused);
      for i := 0 to |deliveringEvents|
        invariant (incomingEvents, incomingCapacity) == Load(deliveringEvents[..i], old(incomingCapacity), refused)
      {
        LoadNext(deliveringEvents[..i], deliveringEvents[i], old(incomingCapacity), refused);
        assert deliveringEvents[..i + 1] == deliveringEvents[..i] + [deliveringEvents[i]];
        AppendIncoming(deliveringEvents[i], i !in refused);
      }
      assert deliveringEvents[..|deliveringEvents|] == deliveringEvents;
    }

    // pwf_filter_event_decode
    method DecodeIncoming(controls: seq<Control<Bytes>>, refused: set<nat>)
      modifies this`incomingEvents, this`incomingCapacity
      ensures EventSide() == Loaded(old(EventSide()), Decode(controls), refused)
    {
      hide Load, Decode, DecodeControl;
      incomingEvents := [];
      NothingToLoad<Bytes>(incomingCapacity, refused);
      ghost var done: seq<Event<Bytes>> := [];
      var n := 0;
      for i := 0 to |controls|
        invariant done + Decode(controls[i..]) == Decode(controls) && n == |done|
        invariant (incomingEvents, incomingCapacity) == Load(done, old(incomingCapacity), refused)
      {
        var events := DecodeControl(controls[i]);
        ghost var before := done;
        DecodeNext(controls, i);
        for j := 0 to |events|
          invariant done == before + events[..j] && n == |done|
          invariant (incomingEvents, incomingCapacity) == Load(done, old(incomingCapacity), refused)
        {
          LoadNext(done, events[j], old(incomingCapacity), refused);
          AppendIncoming(events[j], n !in refused);
          done, n := done + [events[j]], n + 1;
        }
        assert events[..|events|] == events;
        Associative(before, events, Decode(controls[i + 1..]));
      }
      DecodeNone(controls);
      assert done + [] == done;
    }

    method AssembleEvent(staged: bool, offered: Option<GraphBuffer<Bytes>>, refused: set<nat>)
      returns (dequeued: Option<GraphBuffer<Bytes>>, asked: bool)
      requires media == EventData && currentDmabuf == None
      modifies this`incomingEvents, this`incomingCapacity, this`pendingEvents, this`deliveringEvents
      modifies this`eventOutputCapacity
      ensures var a := if direction == Input then AssembleEventInput(old(State()), staged, offered, refused)
                       else AssembleEventOutput(old(State()), offered);
              EventSide() == a.port.events && (dequeued, asked) == (a.dequeued, a.asked)
    {
      dequeued, asked := None, false;
      if direction == Input {
        if staged && |pendingEvents| > 0 {
          deliveringEvents, pendingEvents := pendingEvents, [];
        }
        if |deliveringEvents| > 0 {
          LoadDelivering(refused);
        } else {
          asked := true;
          if offered.Some? && offered.value.data.Some? {
            DecodeIncoming(offered.value.controls, refused);
            dequeued := offered;
          } else {
            incomingEvents := [];
          }
        }
      } else {
        pendingEvents := [];
        asked := true;
        if offered.Some? && offered.value.data.Some? {
          eventOutputCapacity := offered.value.maxsize;
          dequeued := offered;
        } else {
          eventOutputCapacity := 0;
        }
      }
    }

    // New data for a media input port, from a staged push or the graph.
    method TakeNewData(staged: bool, offered: Option<GraphBuffer<Bytes>>)
      returns (buffer: PortBuffer<Bytes>, dequeued: Option<GraphBuffer<Bytes>>, asked: bool, gotNew: bool)
      requires Valid() && currentDmabuf == None
      modifies this`pushedData, this`pushedCapacity, this`pushedPending, this`deliveredData, this`deliveredCapacity,
               this`currentDmabuf
      ensures Valid()
      ensures var (a, g) := Arrive(old(State()), staged, offered);
              && PushSide() == a.port.pushed && DeliveredSide() == a.port.delivered && currentDmabuf == a.port.currentDmabuf
              && (buffer, dequeued, asked, gotNew) == (a.buffer, a.dequeued, a.asked, g)
    {
      buffer, dequeued, asked, gotNew := NoBuffer(), None, false, false;
      if staged && pushedPending {
        var data, capacity := pushedData, pushedCapacity;
        pushedData, pushedCapacity := deliveredData, deliveredCapacity;
        deliveredData, deliveredCapacity := data, capacity;
        buffer := buffer.(data := Ptr(data), size := pushedSize, pts := pushedPts);
        pushedPending := false;
        gotNew := true;
      } else {
        dequeued, asked := offered, true;
        if offered.Some? && Present(useDmabuf, offered.value) {
          buffer := buffer.(pts := PtsOf(offered.value));
          if useDmabuf {
            currentDmabuf := Some(offered.value.id);
          } else {
            buffer := buffer.(data := offered.value.data, size := SizeOf(offered.value));
          }
          gotNew := true;
        }
      }
    }

    // Numbers what arrived and, with hold, retains it in place of the last.
    method RetainNew(arrived: PortBuffer<Bytes>, taken: Option<GraphBuffer<Bytes>>)
      returns (buffer: PortBuffer<Bytes>, dequeued: Option<GraphBuffer<Bytes>>, released: Option<GraphBuffer<Bytes>>)
      modifies this`updateSeq, this`held, this`hasHeld, this`heldData, this`heldSize, this`heldPts, this`heldDmabuf
      ensures updateSeq == NextSeq(old(updateSeq))
      ensures HeldSide() == if holdEnabled then Held(true, taken, arrived.data, arrived.size, arrived.pts, currentDmabuf)
                            else old(HeldSide())
      ensures buffer == arrived.(isFresh := true, seqNo := updateSeq)
      ensures dequeued == if holdEnabled then None else taken
      ensures released == if holdEnabled then old(HeldSide()).buffer else None
    {
      hide NextSeq;
      updateSeq := NextSeq(updateSeq);
      buffer, dequeued, released := arrived.(isFresh := true, seqNo := updateSeq), taken, None;
      if holdEnabled {
        released := held;
        held, dequeued := taken, None;
        hasHeld := true;
        heldData := if arrived.data.None? then null else arrived.data.value;
        heldSize, heldPts, heldDmabuf := arrived.size, arrived.pts, currentDmabuf;
      }
    }

    // With no new data: shows again what is held, if anything.
    method ShowHeld(arrived: PortBuffer<Bytes>) returns (buffer: PortBuffer<Bytes>)
      modifies this`currentDmabuf
      ensures (buffer, currentDmabuf)
           == var held := HeldSide();
              if holdEnabled && held.some
              then (arrived.(data := held.data, size := held.size, pts := held.pts, seqNo := updateSeq), held.dmabuf)
              else (arrived.(seqNo := updateSeq), old(currentDmabuf))
    {
      if holdEnabled && hasHeld {
        buffer := arrived.(data := Ptr(heldData), size := heldSize, pts := heldPts, seqNo := updateSeq);
        currentDmabuf := heldDmabuf;
      } else {
        buffer := arrived.(seqNo := updateSeq);
      }
    }

    method AssembleMedia(staged: bool, offered: Option<GraphBuffer<Bytes>>)
      returns (buffer: PortBuffer<Bytes>, dequeued: Option<GraphBuffer<Bytes>>,
               released: Option<GraphBuffer<Bytes>>, asked: bool)
      requires Valid() && currentDmabuf == None
      modifies this
      ensures Valid()
      ensures Assembled(State(), buffer, dequeued, released, asked) == AssembleMediaInput(old(State()), staged, offered)
    {
      hide Arrive, NextSeq, Retain, PushSide, DeliveredSide, EventSide, HeldSide;
      ghost var before := State();
      var gotNew: bool;
      buffer, dequeued, asked, gotNew := TakeNewData(staged, offered);
      released := None;
      ArriveKeeps(before, staged, offered);
      ghost var arrived := Arrive(before, staged, offered).0;
      assert State() == arrived.port;
      if gotNew {
        RetainNewIs(arrived.port, buffer, dequeued, asked);
        buffer, dequeued, released := RetainNew(buffer, dequeued);
      } else {
        RetainOldIs(arrived.port, buffer, dequeued, asked);
        buffer := ShowHeld(buffer);
      }
    }

    // One pass of the cycle's first loop.
    method AssemblePort(staged: bool, offered: Option<GraphBuffer<Bytes>>, refused: set<nat>) returns (a: Assembled<Bytes>)
      requires Valid()
      modifies this
      ensures Valid()
      ensures a == Assemble(old(State()), staged, offered, refused) && a.port == State()
    {
      hide AssembleEventInput, AssembleEventOutput, AssembleMediaInput, PushSide, DeliveredSide, EventSide, HeldSide;
      currentDmabuf := None;
      var buffer, dequeued, released, asked := NoBuffer(), None, None, true;
      if media == EventData {
        AssembleEventKeeps(State(), staged, offered, refused);
        dequeued, asked := AssembleEvent(staged, offered, refused);
      } else if direction == Input {
        buffer, dequeued, released, asked := AssembleMedia(staged, offered);
      } else if offered.Some? && offered.value.data.Some? {
        buffer := buffer.(data := offered.value.data, capacity := offered.value.maxsize);
        dequeued := offered;
      }
      a := Assembled(State(), buffer, dequeued, released, asked);
    }

    // One pass of the loop after the callback: what the chunk of the buffer
    // queued back then says, when this port writes one.
    method FinishPort(buffer: PortBuffer<Bytes>, dequeued: Option<GraphBuffer<Bytes>>) returns (published: Option<nat>)
      modifies this`pendingEvents, this`deliveringEvents
      ensures State() == Finish(old(State())) && (old(Valid()) ==> Valid())
      ensures published == if dequeued.None? then None else ChunkSize(old(State()), buffer)
    {
      published := None;
      if media == EventData {
        if direction == Input {
          deliveringEvents := [];
        } else {
          if dequeued.Some? {
            published := Some(EncodedSize(pendingEvents));
          }
          pendingEvents := [];
        }
      } else if dequeued.Some? && direction == Output {
        published := Some(buffer.size % U32);
      }
    }

    // Gives up the held buffer, and what it showed.
    method ReleaseHeld() returns (queued: Option<GraphBuffer<Bytes>>)
      modifies this`held, this`hasHeld, this`heldData, this`heldDmabuf
      ensures HeldSide() == old(HeldSide()).(some := false, buffer := None, data := None, dmabuf := None)
      ensures queued == old(held)
    {
      queued := held;
      held, hasHeld, heldData, heldDmabuf := None, false, null, None;
    }

    // The per-port part of pwf_filter_stop.
    method StopPort() returns (queued: Option<GraphBuffer<Bytes>>)
      modifies this`held, this`hasHeld, this`heldData, this`heldDmabuf, this`currentDmabuf
      ensures State() == Stop(old(State())) && (old(Valid()) ==> Valid())
      ensures queued == old(State()).held.buffer
    {
      queued := ReleaseHeld();
      currentDmabuf := None;
    }
  }

  lemma NothingToLoad<P>(capacity: nat, refused: set<nat>)
    ensures Load<P>([], capacity, refused) == ([], capacity)
  {
  }

  lemma DecodeNext<P>(controls: seq<Control<P>>, i: nat)
    requires i < |controls|
    ensures Decode(controls[i..]) == DecodeControl(controls[i]) + Decode(controls[i + 1..])
  {
    assert controls[i..][1..] == controls[i + 1..];
  }

  lemma DecodeNone<P>(controls: seq<Control<P>>)
    ensures Decode(controls[|controls|..]) == []
  {
  }

  lemma LoadNext<P>(events: seq<Event<P>>, e: Event<P>, capacity: nat, refused: set<nat>)
    ensures var (got, room) := Load(events, capacity, refused);
            Load(events + [e], capacity, refused)
            == if |got| < room then (got + [e], room)
               else if |events| in refused then (got, room)
               else (got + [e], if room == 0 then 4 else 2 * room)
  {
    assert (events + [e])[..|events|] == events;
  }

  lemma AssembleEventKeeps<P>(p: Port<P>, staged: bool, offered: Option<GraphBuffer<P>>, refused: set<nat>)
    ensures var a := AssembleEventInput(p, staged, offered, refused);
            a == Assembled(p.(events := a.port.events), NoBuffer(), a.dequeued, None, a.asked)
    ensures var a := AssembleEventOutput(p, offered);
            a == Assembled(p.(events := a.port.events), NoBuffer(), a.dequeued, None, a.asked)
  {
  }

  lemma ArriveKeeps<P>(p: Port<P>, staged: bool, offered: Option<GraphBuffer<P>>)
    ensures var a := Arrive(p, staged, offered).0;
            && a.port == p.(pushed := a.port.pushed, delivered := a.port.delivered, currentDmabuf := a.port.currentDmabuf)
            && a.released == None
  {
  }

  lemma RetainNewIs<P>(p: Port<P>, b: PortBuffer<P>, taken: Option<GraphBuffer<P>>, asked: bool)
    ensures Retain(Assembled(p, b, taken, None, asked), true)
         == Assembled(
              p.(updateSeq := NextSeq(p.updateSeq),
                 held := if p.kind.hold then Held(true, taken, b.data, b.size, b.pts, p.currentDmabuf) else p.held),
              b.(isFresh := true, seqNo := NextSeq(p.updateSeq)),
              if p.kind.hold then None else taken, if p.kind.hold then p.held.buffer else None, asked)
  {
  }

  lemma RetainOldIs<P>(p: Port<P>, b: PortBuffer<P>, taken: Option<GraphBuffer<P>>, asked: bool)
    ensures Retain(Assembled(p, b, taken, None, asked), false)
         == if p.kind.hold && p.held.some then
              Assembled(p.(currentDmabuf := p.held.dmabuf),
                        b.(data := p.held.data, size := p.held.size, pts := p.held.pts, seqNo := p.updateSeq),
                        taken, None, asked)
            else Assembled(p, b.(seqNo := p.updateSeq), taken, None, asked)
  {
  }

  lemma {:induction false} SizeIgnoresData<P>(events: seq<Event<P>>, e: Event<P>, f: Event<P>)
    requires e.kind == f.kind && e.key == f.key && e.size == f.size
    ensures EncodedSize(events + [e]) == EncodedSize(events + [f])
  {
    assert (events + [e])[..|events|] == events == (events + [f])[..|events|];
  }

  // ------------------------------------------------------------------- filter

  const STACK_PORTS: nat := 8

  // struct pwf_filter, as far as the cycle uses it. pushLocked tells whether
  // an application thread holds the push lock.
  class Filter {
    var ports: seq<FilterPort>
    var pushLocked: bool

    ghost predicate Valid()
      reads this, ports
    {
      && (forall i, j :: 0 <= i < j < |ports| ==> ports[i] != ports[j])
      && (forall i :: 0 <= i < |ports| ==> ports[i].Valid())
    }

    ghost function States(): (states: seq<Port<Bytes>>)
      reads this, ports
      ensures |states| == |ports|
    {
      seq(|ports|, i requires 0 <= i < |ports| reads this, ports => ports[i].State())
    }

    constructor ()
      ensures Valid() && ports == [] && !pushLocked
    {
      ports, pushLocked := [], false;
    }

    // pwf_filter_add_port_to_list, when the list can grow.
    method AddPort(port: FilterPort)
      requires Valid() && port.Valid() && port !in ports
      modifies this`ports
      ensures Valid() && ports == old(ports) + [port]
    {
      ports := ports + [port];
    }

    // pwf_filter_on_process up to the callback. `offered[i]` is what dequeuing
    // from port i would return, `refused[i]` the incoming events its array
    // cannot grow for, `arraysMade` the success of the allocations that more
    // than eight ports need. A filter without ports, or the arrays, does not
    // run its cycle.
    method BeginCycle(offered: seq<Option<GraphBuffer<Bytes>>>, refused: seq<set<nat>>, arraysMade: bool)
      returns (ran: bool, entries: seq<Assembled<Bytes>>)
      requires Valid() && |offered| == |refused| == |ports|
      modifies ports
      ensures Valid() && ran == (ports != [] && (|ports| <= STACK_PORTS || arraysMade))
      ensures !ran ==> entries == [] && forall i :: 0 <= i < |ports| ==> States()[i] == old(States())[i]
      ensures ran ==> |entries| == |ports|
      ensures ran ==>
                forall i :: 0 <= i < |ports| ==>
                  && entries[i] == Assemble(old(States())[i], !pushLocked, offered[i], refused[i])
                  && States()[i] == entries[i].port
    {
      hide Assemble, FilterPort.State, FilterPort.Valid;
      if ports == [] || (|ports| > STACK_PORTS && !arraysMade) {
        return false, [];
      }
      var staged := !pushLocked;
      ran, entries := true, [];
      for i := 0 to |ports|
        invariant Valid() && |entries| == i
        invariant forall j :: 0 <= j < i ==>
                    && entries[j] == Assemble(old(States())[j], staged, offered[j], refused[j])
                    && ports[j].State() == entries[j].port
        invariant forall j :: i <= j < |ports| ==> ports[j].State() == old(States())[j]
      {
        var a := ports[i].AssemblePort(staged, offered[i], refused[i]);
        entries := entries + [a];
      }
    }

    // pwf_filter_on_process after the callback: `queued` are the buffers given
    // back, in port order, with the chunk size written for output ports.
    method EndCycle(buffers: seq<PortBuffer<Bytes>>, dequeued: seq<Option<GraphBuffer<Bytes>>>)
      returns (queued: seq<(GraphBuffer<Bytes>, Option<nat>)>)
      requires Valid() && |buffers| == |dequeued| == |ports|
      modifies ports
      ensures Valid()
      ensures forall i :: 0 <= i < |ports| ==> States()[i] == Finish(old(States())[i])
      ensures InOrder(queued, Chunked(old(States()), buffers, dequeued))
    {
      hide Finish, ChunkSize, FilterPort.State, FilterPort.Valid;
      queued := [];
      ghost var before := States();
      hide InOrder;
      NothingChunked(before, buffers, dequeued);
      for i := 0 to |ports|
        invariant Valid()
        invariant forall j :: 0 <= j < i ==> ports[j].State() == Finish(before[j])
        invariant forall j :: i <= j < |ports| ==> ports[j].State() == before[j]
        invariant InOrder(queued, Chunked(before[..i], buffers[..i], dequeued[..i]))
      {
        var size := ports[i].FinishPort(buffers[i], dequeued[i]);
        ChunkedNext(before, buffers, dequeued, i, queued);
        assert queued + [] == queued;
        if dequeued[i].Some? {
          queued := queued + [(dequeued[i].value, size)];
        }
      }
      assert before[..|ports|] == before && buffers[..|ports|] == buffers && dequeued[..|ports|] == dequeued;
    }

    // The part of pwf_filter_stop that runs once processing is paused.
    method ReturnHeldBuffers() returns (queued: seq<GraphBuffer<Bytes>>)
      requires Valid()
      modifies ports
      ensures Valid()
      ensures forall i :: 0 <= i < |ports| ==> States()[i] == Stop(old(States())[i])
      ensures InOrder(queued, HeldOf(old(States())))
    {
      hide Stop, FilterPort.State, FilterPort.Valid, InOrder;
      queued := [];
      ghost var before := States();
      NothingHeld(before);
      for i := 0 to |ports|
        invariant Valid()
        invariant forall j :: 0 <= j < i ==> ports[j].State() == Stop(before[j])
        invariant forall j :: i <= j < |ports| ==> ports[j].State() == before[j]
        invariant InOrder(queued, HeldOf(before[..i]))
      {
        var b := ports[i].StopPort();
        HeldNext(before, i, queued);
        assert queued + [] == queued;
        if b.Some? {
          queued := queued + [b.value];
        }
      }
      assert HeldOf(before[..|ports|]) == HeldOf(before);
    }
  }

  // What FinishPort publishes for one port.
  function ChunkSize<P>(p: Port<P>, buffer: PortBuffer<P>): Option<nat> {
    if p.kind.direction == Input then None
    else if p.kind.media == EventData then Some(EncodedSize(p.events.pending))
    else Some(buffer.size % U32)
  }

  // The buffer each port has for the second loop to queue, if any, and what is
  // written to its chunk.
  function Chunked<P>(states: seq<Port<P>>, buffers: seq<PortBuffer<P>>, dequeued: seq<Option<GraphBuffer<P>>>)
    : (c: seq<Option<(GraphBuffer<P>, Option<nat>)>>)
    requires |states| == |buffers| == |dequeued|
    ensures |c| == |states|
  {
    seq(|states|, i requires 0 <= i < |states| =>
      if dequeued[i].None? then None else Some((dequeued[i].value, ChunkSize(states[i], buffers[i]))))
  }

  lemma NothingChunked<P>(states: seq<Port<P>>, buffers: seq<PortBuffer<P>>, dequeued: seq<Option<GraphBuffer<P>>>)
    requires |states| == |buffers| == |dequeued|
    ensures InOrder([], Chunked(states[..0], buffers[..0], dequeued[..0]))
  {
  }

  lemma ChunkedNext<P>(states: seq<Port<P>>, buffers: seq<PortBuffer<P>>, dequeued: seq<Option<GraphBuffer<P>>>, i: nat,
                       queued: seq<(GraphBuffer<P>, Option<nat>)>)
    requires |states| == |buffers| == |dequeued| && i < |states|
    requires InOrder(queued, Chunked(states[..i], buffers[..i], dequeued[..i]))
    ensures InOrder(queued + if dequeued[i].None? then [] else [(dequeued[i].value, ChunkSize(states[i], buffers[i]))],
                    Chunked(states[..i + 1], buffers[..i + 1], dequeued[..i + 1]))
  {
    hide InOrder, ChunkSize;
    var before := Chunked(states[..i], buffers[..i], dequeued[..i]);
    var after := Chunked(states[..i + 1], buffers[..i + 1], dequeued[..i + 1]);
    InOrderSnoc(queued, before, after[i]);
    assert before + [after[i]] == after;
  }

  // The buffer each port holds, if any.
  function HeldOf<P>(states: seq<Port<P>>): (held: seq<Option<GraphBuffer<P>>>)
    ensures |held| == |states|
  {
    seq(|states|, i requires 0 <= i < |states| => states[i].held.buffer)
  }

  lemma NothingHeld<P>(states: seq<Port<P>>)
    ensures InOrder([], HeldOf(states[..0]))
  {
  }

  lemma HeldNext<P>(states: seq<Port<P>>, i: nat, queued: seq<GraphBuffer<P>>)
    requires i < |states| && InOrder(queued, HeldOf(states[..i]))
    ensures InOrder(queued + Listed(states[i].held.buffer), HeldOf(states[..i + 1]))
  {
    hide InOrder;
    InOrderSnoc(queued, HeldOf(states[..i]), states[i].held.buffer);
    assert HeldOf(states[..i]) + [states[i].held.buffer] == HeldOf(states[..i + 1]);
  }

  // A chunk is given its size truly when that is below 2^32, and otherwise less
  // multiples of it: what the callback reported on a media output port, and the
  // bytes its events take on an event output port. Input ports write none.
  lemma ChunkSays<P>(p: Port<P>, buffer: PortBuffer<P>)
    ensures var size := if p.kind.media == EventData then FullSize(p.events.pending) else buffer.size;
            if p.kind.direction == Input then ChunkSize(p, buffer) == None
            else ChunkSize(p, buffer) == Some(size % U32) && (ChunkSize(p, buffer) == Some(size) <==> size < U32)
  {
    EncodedIsFullModulo(p.events.pending);
  }
}
