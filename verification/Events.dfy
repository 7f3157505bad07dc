// Timed events and their control sequence (src/pwf_filter_event.c).
module Events {
  import opened Base

  datatype EventKind = Midi | Osc | Property | Unknown

  // struct pwf_event and struct pwf_filter_pending_event. P is the type of a
  // non-NULL data pointer.
  datatype Event<+P> = Event(offset: nat, kind: EventKind, key: Option<string>, data: Option<P>, size: nat)

  // What a reader of an event gets, with the bytes in place of the pointer.
  datatype EventValue = EventValue(offset: nat, kind: EventKind, key: Option<string>, bytes: seq<Byte>)

  // ---------------------------------------------------------------- vocabulary

  datatype PropId = VolumeId | MuteId | ChannelVolumesId | OtherId(code: nat)

  const PROPERTIES: seq<(string, PropId)> :=
    [("volume", VolumeId), ("mute", MuteId), ("channelVolumes", ChannelVolumesId)]

  function FindByName(name: string, from: nat := 0): (id: Option<PropId>)
    requires from <= |PROPERTIES|
    decreases |PROPERTIES| - from
  {
    if from == |PROPERTIES| then None
    else if PROPERTIES[from].0 == name then Some(PROPERTIES[from].1)
    else FindByName(name, from + 1)
  }

  function FindById(id: PropId, from: nat := 0): (name: Option<string>)
    requires from <= |PROPERTIES|
    decreases |PROPERTIES| - from
  {
    if from == |PROPERTIES| then None
    else if PROPERTIES[from].1 == id then Some(PROPERTIES[from].0)
    else FindById(id, from + 1)
  }

  // Both lookups know exactly the pairs of the vocabulary, and are so inverse.
  lemma LookupsAreInverse(name: string, id: PropId)
    ensures FindByName(name) == Some(id) <==> (name, id) in PROPERTIES
    ensures FindById(id) == Some(name) <==> (name, id) in PROPERTIES
  {
    assert PROPERTIES[0] == ("volume", VolumeId);
    assert PROPERTIES[1] == ("mute", MuteId);
    assert PROPERTIES[2] == ("channelVolumes", ChannelVolumesId);
    assert forall n: string :: FindByName(n) == if n == "volume" then Some(VolumeId) else FindByName(n, 1);
    assert forall n: string :: FindByName(n, 1) == if n == "mute" then Some(MuteId) else FindByName(n, 2);
    assert forall n: string :: FindByName(n, 2) == if n == "channelVolumes" then Some(ChannelVolumesId) else FindByName(n, 3);
    assert FindById(id) == if id == VolumeId then Some("volume") else FindById(id, 1);
    assert FindById(id, 1) == if id == MuteId then Some("mute") else FindById(id, 2);
    assert FindById(id, 2) == if id == ChannelVolumesId then Some("channelVolumes") else FindById(id, 3);
    assert |"volume"| == 6 && |"mute"| == 4 && |"channelVolumes"| == 14;
  }

  predicate KindKeyValid(kind: EventKind, key: Option<string>) {
    match kind
    case Property => key.Some? && FindByName(key.value).Some?
    case Midi | Osc => key.None?
    case Unknown => false
  }

  // -------------------------------------------------------------------- codec

  datatype PodKind = BytesPod | PropsObject | OtherPod

  datatype Prop<+P> = Prop(id: PropId, data: P, size: nat)

  // One value in a control sequence. The body pointer of a pod is never NULL.
  datatype Pod<+P> = Pod(kind: PodKind, body: P, size: nat, props: seq<Prop<P>>)

  datatype ControlType = MidiControl | OscControl | PropertiesControl | OtherControl(code: nat)

  datatype Control<+P> = Control(offset: nat, ctype: ControlType, value: Pod<P>)

  function DecodeProps<P>(offset: nat, props: seq<Prop<P>>): (events: seq<Event<P>>) {
    if props == [] then []
    else
      var p := props[0];
      var name := FindById(p.id);
      (if name.None? then [] else [Event(offset, Property, name, Some(p.data), p.size)])
      + DecodeProps(offset, props[1..])
  }

  function DecodeControl<P>(c: Control<P>): (events: seq<Event<P>>) {
    match c.ctype
    case MidiControl | OscControl =>
      if c.value.kind != BytesPod then []
      else [Event(c.offset, if c.ctype == MidiControl then Midi else Osc, None, Some(c.value.body), c.value.size)]
    case PropertiesControl =>
      if c.value.kind != PropsObject then [] else DecodeProps(c.offset, c.value.props)
    case OtherControl(_) =>
      [Event(c.offset, Unknown, None, Some(c.value.body), c.value.size)]
  }

  // pwf_filter_event_decode, on the controls the buffer's memory parses into.
  function Decode<P>(controls: seq<Control<P>>): (events: seq<Event<P>>) {
    if controls == [] then [] else DecodeControl(controls[0]) + Decode(controls[1..])
  }

  // The event that is a control's whole value.
  function Whole<P>(c: Control<P>, kind: EventKind): Event<P> {
    Event(c.offset, kind, None, Some(c.value.body), c.value.size)
  }

  // The event that one property of an object is, if it is of the vocabulary.
  function OfProp<P>(offset: nat, p: Prop<P>): Option<Event<P>> {
    match FindById(p.id)
    case Some(name) => Some(Event(offset, Property, Some(name), Some(p.data), p.size))
    case None => None
  }

  // The events a control carries: its bytes, the properties of its object that
  // are known, or a value of another type as it is.
  ghost predicate Carries<P>(c: Control<P>, events: seq<Event<P>>) {
    match c.ctype
    case MidiControl => events == if c.value.kind == BytesPod then [Whole(c, Midi)] else []
    case OscControl => events == if c.value.kind == BytesPod then [Whole(c, Osc)] else []
    case OtherControl(_) => events == [Whole(c, Unknown)]
    case PropertiesControl =>
      if c.value.kind == PropsObject then InOrder(events, OfProps(c.offset, c.value.props)) else events == []
  }

  function OfProps<P>(offset: nat, props: seq<Prop<P>>): (events: seq<Option<Event<P>>>)
    ensures |events| == |props|
  {
    seq(|props|, i requires 0 <= i < |props| => OfProp(offset, props[i]))
  }

  ghost predicate CarriedBy<P(!new)>(events: seq<Event<P>>, controls: seq<Control<P>>) {
    exists parts :: Parts(parts, controls) && events == Flatten(parts)
  }

  ghost predicate Parts<P>(parts: seq<seq<Event<P>>>, controls: seq<Control<P>>) {
    |parts| == |controls| && forall i :: 0 <= i < |parts| ==> Carries(controls[i], parts[i])
  }

  lemma PropsStep<P>(offset: nat, props: seq<Prop<P>>)
    requires props != []
    ensures DecodeProps(offset, props) == Listed(OfProp(offset, props[0])) + DecodeProps(offset, props[1..])
    ensures OfProps(offset, props) == [OfProp(offset, props[0])] + OfProps(offset, props[1..])
  {
    assert DecodeProps(offset, props) == Listed(OfProp(offset, props[0])) + DecodeProps(offset, props[1..]);
    hide OfProp, DecodeProps;
  }

  lemma {:induction false} PropsInOrder<P>(offset: nat, props: seq<Prop<P>>)
    ensures InOrder(DecodeProps(offset, props), OfProps(offset, props))
  {
    if props != [] {
      hide InOrder, OfProp, DecodeProps, OfProps, Listed;
      PropsStep(offset, props);
      PropsInOrder(offset, props[1..]);
      OneInOrder(OfProp(offset, props[0]));
      InOrderJoin(Listed(OfProp(offset, props[0])), [OfProp(offset, props[0])],
                  DecodeProps(offset, props[1..]), OfProps(offset, props[1..]));
    }
  }

  lemma CarriesExactly<P>(c: Control<P>, events: seq<Event<P>>)
    ensures Carries(c, events) <==> events == DecodeControl(c)
  {
    if c.ctype == PropertiesControl && c.value.kind == PropsObject {
      hide InOrder;
      PropsInOrder(c.offset, c.value.props);
      if Carries(c, events) {
        InOrderIsUnique(events, DecodeControl(c), OfProps(c.offset, c.value.props));
      }
    }
  }

  lemma {:induction false} PartsAreDecoded<P>(parts: seq<seq<Event<P>>>, controls: seq<Control<P>>)
    requires Parts(parts, controls)
    ensures Flatten(parts) == Decode(controls)
  {
    if controls != [] {
      hide Carries, DecodeControl;
      CarriesExactly(controls[0], parts[0]);
      PartsAreDecoded(parts[1..], controls[1..]);
    }
  }

  // Decoding gives the events that the controls carry, one control after the
  // other, and those only.
  lemma DecodesExactly<P(!new)>(events: seq<Event<P>>, controls: seq<Control<P>>)
    ensures events == Decode(controls) <==> CarriedBy(events, controls)
  {
    hide Carries, DecodeControl, Flatten, Decode;
    var parts := seq(|controls|, i requires 0 <= i < |controls| => DecodeControl(controls[i]));
    forall i | 0 <= i < |parts| ensures Carries(controls[i], parts[i]) {
      CarriesExactly(controls[i], parts[i]);
    }
    PartsAreDecoded(parts, controls);
    if CarriedBy(events, controls) {
      var those :| Parts(those, controls) && events == Flatten(those);
      PartsAreDecoded(those, controls);
    }
  }

  // A pushed event owns a copy of exactly `size` bytes, or no memory when empty.
  predicate Owned(e: Event<seq<Byte>>) {
    && KindKeyValid(e.kind, e.key)
    && e.size == |BytesOf(e)|
  }

  function BytesOf(e: Event<seq<Byte>>): seq<Byte> {
    if e.data.None? then [] else e.data.value
  }

  function ValueOf(e: Event<seq<Byte>>): EventValue {
    EventValue(e.offset, e.kind, e.key, BytesOf(e))
  }

  function ValuesOf(events: seq<Event<seq<Byte>>>): (values: seq<EventValue>)
    ensures |values| == |events|
    ensures forall i :: 0 <= i < |events| ==> values[i] == ValueOf(events[i])
  {
    seq(|events|, i requires 0 <= i < |events| => ValueOf(events[i]))
  }

  // Sizes go to the builder as uint32_t.
  const U32: nat := 0x1_0000_0000

  function EncodeEvent(e: Event<seq<Byte>>): (controls: seq<Control<seq<Byte>>>)
    requires e.size == |BytesOf(e)|
  {
    var written := BytesOf(e)[..e.size % U32];
    match e.kind
    case Midi => [Control(e.offset, MidiControl, Pod(BytesPod, written, |written|, []))]
    case Osc => [Control(e.offset, OscControl, Pod(BytesPod, written, |written|, []))]
    case Property =>
      var id := if e.key.None? then None else FindByName(e.key.value);
      if id.None? then []
      else [Control(e.offset, PropertiesControl, Pod(PropsObject, [], 0, [Prop(id.value, written, |written|)]))]
    case Unknown => []
  }

  ghost predicate AllOwned(events: seq<Event<seq<Byte>>>) {
    forall i :: 0 <= i < |events| ==> Owned(events[i])
  }

  // pwf_filter_event_encode with a buffer large enough for the result.
  function Encode(events: seq<Event<seq<Byte>>>): (controls: seq<Control<seq<Byte>>>)
    requires AllOwned(events)
  {
    if events == [] then [] else EncodeEvent(events[0]) + Encode(events[1..])
  }

  // What the wire carries of an accepted event.
  function Written(v: EventValue): EventValue {
    v.(bytes := v.bytes[..|v.bytes| % U32])
  }

  lemma DecodeOneEncoded(e: Event<seq<Byte>>)
    requires Owned(e)
    ensures |EncodeEvent(e)| == 1
    ensures ValuesOf(DecodeControl(EncodeEvent(e)[0])) == [Written(ValueOf(e))]
  {
    var c := EncodeEvent(e)[0];
    if e.kind == Property {
      var id := FindByName(e.key.value).value;
      LookupsAreInverse(e.key.value, id);
      assert c.value.props[1..] == [];
      assert DecodeProps(c.offset, c.value.props[1..]) == [];
      assert DecodeControl(c) == [Event(e.offset, Property, e.key, Some(c.value.props[0].data), c.value.props[0].size)];
    }
  }

  // Decoding what was encoded gives every event back in order, each one with
  // the bytes the 32-bit size cast left of it.
  lemma {:induction false} DecodeEncoded(events: seq<Event<seq<Byte>>>)
    requires AllOwned(events)
    ensures |Decode(Encode(events))| == |events|
    ensures forall i :: 0 <= i < |events| ==> ValuesOf(Decode(Encode(events)))[i] == Written(ValueOf(events[i]))
  {
    if events != [] {
      DecodeOneEncoded(events[0]);
      DecodeEncoded(events[1..]);
      var first := EncodeEvent(events[0]);
      assert (first + Encode(events[1..]))[0] == first[0];
      assert (first + Encode(events[1..]))[1..] == Encode(events[1..]);
      var d := Decode(Encode(events));
      assert d == DecodeControl(first[0]) + Decode(Encode(events[1..]));
      assert |ValuesOf(DecodeControl(first[0]))| == 1;
      forall i | 0 <= i < |events| ensures ValuesOf(d)[i] == Written(ValueOf(events[i])) {
        if i > 0 {
          assert d[i] == Decode(Encode(events[1..]))[i - 1];
          assert events[1..][i - 1] == events[i];
          assert ValuesOf(Decode(Encode(events[1..])))[i - 1] == Written(ValueOf(events[1..][i - 1]));
        } else {
          assert d[0] == DecodeControl(first[0])[0];
          assert ValuesOf(DecodeControl(first[0]))[0] == Written(ValueOf(events[0]));
        }
      }
    }
  }

  lemma CastKeeps(v: EventValue)
    ensures Written(v) == v <==> |v.bytes| < U32
  {
    if |v.bytes| < U32 {
      assert |v.bytes| % U32 == |v.bytes|;
    } else {
      assert |Written(v).bytes| == |v.bytes| % U32 < U32;
    }
  }

  // The round trip is lossless exactly when no event has 2^32 bytes or more.
  lemma RoundTripExactly(events: seq<Event<seq<Byte>>>)
    requires AllOwned(events)
    ensures ValuesOf(Decode(Encode(events))) == ValuesOf(events) <==> forall i :: 0 <= i < |events| ==> events[i].size < U32
  {
    DecodeEncoded(events);
    var got := ValuesOf(Decode(Encode(events)));
    if forall i :: 0 <= i < |events| ==> events[i].size < U32 {
      forall i | 0 <= i < |events| ensures got[i] == ValuesOf(events)[i] {
        CastKeeps(ValueOf(events[i]));
      }
      assert got == ValuesOf(events);
    } else {
      var i :| 0 <= i < |events| && events[i].size >= U32;
      CastKeeps(ValueOf(events[i]));
      assert ValuesOf(events)[i] == ValueOf(events[i]);
    }
  }

  // ------------------------------------------------------------- encoded size

  function Pad8(n: nat): nat { (n + 7) / 8 * 8 }

  // A body is padded to a multiple of eight bytes, the next one.
  lemma PadsToEight(n: nat)
    ensures Pad8(n) % 8 == 0 && n <= Pad8(n) < n + 8
  {
  }

  // Bytes one event takes in the sequence when its body has `body` bytes: the
  // control's offset and type, the pod headers, and the padded body.
  function ControlSize<P>(e: Event<P>, body: nat): nat {
    match e.kind
    case Midi | Osc => 8 + 8 + Pad8(body)
    case Property =>
      if e.key.Some? && FindByName(e.key.value).Some? then 8 + 16 + 8 + 8 + Pad8(body) else 0
    case Unknown => 0
  }

  const SEQUENCE_HEADER: nat := 16

  // Bytes needed to encode the events whole.
  function FullSize<P>(events: seq<Event<P>>): (size: nat)
    ensures size >= SEQUENCE_HEADER
  {
    if events == [] then SEQUENCE_HEADER
    else
      var n := |events| - 1;
      FullSize(events[..n]) + ControlSize(events[n], events[n].size)
  }

  // The same with each body cast to uint32_t first, as the code does.
  function CastSize<P>(events: seq<Event<P>>): (size: nat) {
    if events == [] then SEQUENCE_HEADER
    else
      var n := |events| - 1;
      CastSize(events[..n]) + ControlSize(events[n], events[n].size % U32)
  }

  // What the dry run reports: the builder's offset is a uint32_t as well.
  function EncodedSize<P>(events: seq<Event<P>>): (size: nat)
    ensures size < U32
  {
    CastSize(events) % U32
  }

  lemma PaddedCast(n: nat)
    ensures Pad8(n) == Pad8(n % U32) + n / U32 * U32
  {
    var q, r := n / U32, n % U32;
    assert n + 7 == 8 * (q * 0x2000_0000) + (r + 7);
    assert (n + 7) / 8 == q * 0x2000_0000 + (r + 7) / 8;
  }

  // The casts lose whole multiples of 2^32.
  lemma {:induction false} CastLoses<P>(events: seq<Event<P>>) returns (lost: nat)
    ensures FullSize(events) == CastSize(events) + lost * U32
  {
    if events == [] {
      lost := 0;
    } else {
      var n := |events| - 1;
      var e := events[n];
      lost := CastLoses(events[..n]);
      PaddedCast(e.size);
      if ControlSize(e, e.size) != 0 {
        lost := lost + e.size / U32;
      }
    }
  }

  lemma {:induction false} ModShift(a: nat, q: nat)
    ensures (a + q * U32) % U32 == a % U32
    decreases q
  {
    if q > 0 {
      ModShift(a, q - 1);
      assert a + q * U32 == (a + (q - 1) * U32) + U32;
    }
  }

  // The dry run reports the whole size, less multiples of 2^32.
  lemma EncodedIsFullModulo<P>(events: seq<Event<P>>)
    ensures EncodedSize(events) == FullSize(events) % U32
  {
    var lost := CastLoses(events);
    ModShift(CastSize(events), lost);
  }

  // The bytes of a control sequence as it is laid out: a header, and for each
  // control its offset and type, and a pod; a pod is a header and a padded body,
  // and an object's body its type and id, and a key, flags and a pod for each
  // property.
  function PodSize(body: nat): nat { 8 + Pad8(body) }

  function PropsSize<P>(props: seq<Prop<P>>): nat {
    if props == [] then 8 else PropsSize(props[..|props| - 1]) + 8 + PodSize(props[|props| - 1].size)
  }

  function WireSize<P>(controls: seq<Control<P>>): nat {
    if controls == [] then SEQUENCE_HEADER
    else
      var v := controls[0].value;
      8 + PodSize(if v.kind == PropsObject then PropsSize(v.props) else v.size) + WireSize(controls[1..])
  }

  lemma OneWireSize(e: Event<seq<Byte>>)
    requires Owned(e) && e.size < U32
    ensures WireSize(EncodeEvent(e)) == SEQUENCE_HEADER + ControlSize(e, e.size)
  {
    hide Pad8;
    var c := EncodeEvent(e)[0];
    if e.kind == Property {
      var id := FindByName(e.key.value).value;
      assert c.value.props[..0] == [];
      assert PropsSize(c.value.props) == 8 + 8 + PodSize(e.size);
      PadsSum(e.size);
    }
    assert EncodeEvent(e)[1..] == [];
  }

  lemma PadsSum(n: nat)
    ensures Pad8(24 + Pad8(n)) == 24 + Pad8(n)
  {
  }

  lemma {:induction false} FullSizeFront<P>(events: seq<Event<P>>)
    requires events != []
    ensures FullSize(events) == ControlSize(events[0], events[0].size) + FullSize(events[1..])
  {
    var n := |events| - 1;
    if n > 0 {
      hide ControlSize;
      FullSizeFront(events[..n]);
      assert events[1..][..n - 1] == events[..n][1..];
    } else {
      assert events[..0] == events[1..] == [];
    }
  }

  // The full size is what the encoded sequence takes.
  lemma {:induction false} FullSizeIsWire(events: seq<Event<seq<Byte>>>)
    requires AllOwned(events) && forall i :: 0 <= i < |events| ==> events[i].size < U32
    ensures FullSize(events) == WireSize(Encode(events))
  {
    if events != [] {
      hide ControlSize, EncodeEvent;
      FullSizeFront(events);
      FullSizeIsWire(events[1..]);
      OneWireSize(events[0]);
      OneEncoded(events[0]);
      var first := EncodeEvent(events[0]);
      assert (first + Encode(events[1..]))[1..] == Encode(events[1..]);
      assert first[1..] == [];
    }
  }

  lemma OneEncoded(e: Event<seq<Byte>>)
    requires Owned(e)
    ensures |EncodeEvent(e)| == 1
  {
    DecodeOneEncoded(e);
  }

  // ------------------------------------------------------- output event pushes

  // pwf_filter_port_push_event on an output port, with the copy made.
  function PushOutput<P>(pending: seq<Event<P>>, e: Event<P>, capacity: nat): (r: (seq<Event<P>>, Code)) {
    if EncodedSize(pending + [e]) > capacity then (pending, InvalidArg) else (pending + [e], Ok)
  }

  // The encoding with one more event does not wrap to a size that fits.
  predicate NoFalseFit<P>(pending: seq<Event<P>>, e: Event<P>, capacity: nat) {
    FullSize(pending + [e]) < U32 || FullSize(pending + [e]) % U32 > capacity
  }

  // A push is answered rightly - accepted exactly when the events then encode
  // whole into the buffer - if and only if the size does not wrap to one that
  // fits.
  lemma PushAnsweredRightly<P>(pending: seq<Event<P>>, e: Event<P>, capacity: nat)
    requires capacity < U32
    ensures (PushOutput(pending, e, capacity).1 == Ok <==> FullSize(pending + [e]) <= capacity)
       <==> NoFalseFit(pending, e, capacity)
  {
    EncodedIsFullModulo(pending + [e]);
    var full := FullSize(pending + [e]);
    if full < U32 {
      assert full % U32 == full;
    }
  }

  lemma FullSizeGrows<P>(pending: seq<Event<P>>, e: Event<P>)
    ensures FullSize(pending + [e]) >= FullSize(pending)
  {
    assert (pending + [e])[..|pending|] == pending;
  }

  // As it does not for events that stay clear of 4 GiB.
  lemma SmallPushIsNoFalseFit<P>(pending: seq<Event<P>>, e: Event<P>, capacity: nat)
    requires capacity < U32 && Fits(pending, capacity) && capacity + 64 + e.size < U32
    ensures NoFalseFit(pending, e, capacity)
  {
    assert (pending + [e])[..|pending|] == pending;
    assert ControlSize(e, e.size) <= 47 + e.size;
  }

  // The wrap is reachable: one event can be accepted into a buffer of 64 bytes
  // that its encoding exceeds by 4 GiB.
  lemma OversizedEventAccepted<P>(bytes: P)
    ensures var e := Event(0, Midi, None, Some(bytes), U32 - 16);
            PushOutput([], e, 64).1 == Ok && FullSize([e]) == U32 + 16
  {
    var e := Event(0, Midi, None, Some(bytes), U32 - 16);
    assert [] + [e] == [e];
    assert [e][..0] == [];
    EncodedIsFullModulo([e]);
    assert FullSize([e]) == SEQUENCE_HEADER + ControlSize(e, e.size);
  }

  // All the pushes of one callback on an output port.
  function PushAll<P>(pushes: seq<Event<P>>, capacity: nat): (pending: seq<Event<P>>) {
    if pushes == [] then []
    else
      var n := |pushes| - 1;
      PushOutput(PushAll(pushes[..n], capacity), pushes[n], capacity).0
  }

  // Which pushes of the callback were accepted, in order.
  function Accepted<P>(pushes: seq<Event<P>>, capacity: nat): (accepted: seq<Event<P>>) {
    if pushes == [] then []
    else
      var n := |pushes| - 1;
      Accepted(pushes[..n], capacity)
      + if PushOutput(PushAll(pushes[..n], capacity), pushes[n], capacity).1 == Ok then [pushes[n]] else []
  }

  ghost predicate Fits<P>(pending: seq<Event<P>>, capacity: nat) {
    pending != [] ==> EncodedSize(pending) == FullSize(pending) <= capacity
  }

  // A push keeps the list within the buffer exactly when it is answered rightly.
  lemma PushKeepsFit<P>(pending: seq<Event<P>>, e: Event<P>, capacity: nat)
    requires capacity < U32 && Fits(pending, capacity)
    ensures Fits(PushOutput(pending, e, capacity).0, capacity) <==> NoFalseFit(pending, e, capacity)
  {
    EncodedIsFullModulo(pending + [e]);
    var full := FullSize(pending + [e]);
    if full < U32 {
      assert full % U32 == full;
    }
  }

  // An accepted output event is never truncated: when no size wraps to one
  // that fits, the list is the accepted pushes in order, and all of it encodes
  // whole into the cycle's buffer.
  lemma {:induction false} AcceptedEventsFit<P>(pushes: seq<Event<P>>, capacity: nat)
    requires capacity < U32
    requires forall i :: 0 <= i < |pushes| ==> NoFalseFit(PushAll(pushes[..i], capacity), pushes[i], capacity)
    ensures PushAll(pushes, capacity) == Accepted(pushes, capacity)
    ensures Fits(PushAll(pushes, capacity), capacity)
  {
    if pushes != [] {
      var n := |pushes| - 1;
      forall i | 0 <= i < n ensures NoFalseFit(PushAll(pushes[..n][..i], capacity), pushes[..n][i], capacity) {
        assert pushes[..n][..i] == pushes[..i];
      }
      AcceptedEventsFit(pushes[..n], capacity);
      PushKeepsFit(PushAll(pushes[..n], capacity), pushes[n], capacity);
    }
  }
}
