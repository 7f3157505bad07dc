// The cache of the graph's nodes and ports (src/pwf_pw_core.c), and the choice
// of a target's port (src/pwf_filter_port_link.c).
module Registry {
  import opened Base
  import opened Text

  datatype Direction = Input | Output

  // struct pwf_pw_node_entry
  datatype NodeEntry = NodeEntry(
    id: nat, name: string, serial: nat, mediaClass: Option<string>, description: Option<string>)

  // struct pwf_pw_port_entry
  datatype PortEntry = PortEntry(id: nat, nodeId: nat, name: string, direction: Direction, ordinal: nat)

  // The properties of an announced global.
  datatype Global =
    | NodeGlobal(name: Option<string>, serial: Option<string>, mediaClass: Option<string>, description: Option<string>)
    | PortGlobal(portName: Option<string>, nodeId: Option<string>, direction: Option<string>, ordinal: Option<string>)
    | OtherGlobal

  // What the allocations for a new entry come to: the array cannot grow, or
  // the name cannot be copied, or the entry is stored, a node's with the copies
  // of its media class and description that could be made. Growing a full
  // array moves it or not.
  datatype Allocation = NoRoom | NoName(moves: bool) | Stored(moves: bool, mediaClass: bool, description: bool)

  datatype Event = Added(id: nat, global: Global, alloc: Allocation) | Removed(id: nat)

  // What an announcement can leave in the cache.
  function Kept(g: Global, alloc: Allocation): Global {
    if !alloc.Stored? then OtherGlobal
    else if !g.NodeGlobal? then g
    else
      g.(mediaClass := if alloc.mediaClass then g.mediaClass else None,
         description := if alloc.description then g.description else None)
  }

  datatype Cache = Cache(nodes: seq<NodeEntry>, ports: seq<PortEntry>)

  function NodeOf(id: nat, g: Global): Option<NodeEntry> {
    if g.NodeGlobal? && g.name.Some? then
      Some(NodeEntry(id, g.name.value, if g.serial.Some? then StrToULL(g.serial.value) else 0,
                     g.mediaClass, g.description))
    else None
  }

  function PortOf(id: nat, g: Global): Option<PortEntry> {
    if g.PortGlobal? && g.portName.Some? && g.nodeId.Some? then
      Some(PortEntry(id, StrToU32(g.nodeId.value), g.portName.value,
                     if g.direction == Some("out") then Output else Input,
                     if g.ordinal.Some? then StrToU32(g.ordinal.value) else 0))
    else None
  }

  function NodeId(e: NodeEntry): nat { e.id }

  function PortId(e: PortEntry): nat { e.id }

  // The index of the first entry with this id, or |s|.
  function IndexOf<T>(s: seq<T>, key: T -> nat, id: nat, from: nat := 0): (i: nat)
    requires from <= |s|
    ensures from <= i <= |s| && (i < |s| ==> key(s[i]) == id)
    ensures forall k :: from <= k < i ==> key(s[k]) != id
    decreases |s| - from
  {
    if from == |s| || key(s[from]) == id then from else IndexOf(s, key, id, from + 1)
  }

  // Entry i is overwritten by the last one.
  function SwapRemove<T>(s: seq<T>, i: nat): (r: seq<T>)
    requires i < |s|
    ensures |r| == |s| - 1
  {
    s[i := s[|s| - 1]][..|s| - 1]
  }

  function Without<T>(s: seq<T>, key: T -> nat, id: nat): (r: seq<T>) {
    var i := IndexOf(s, key, id);
    if i < |s| then SwapRemove(s, i) else s
  }

  function Apply(c: Cache, ev: Event): Cache {
    match ev
    case Added(id, g, alloc) =>
      Cache(c.nodes + Listed(NodeOf(id, Kept(g, alloc))), c.ports + Listed(PortOf(id, Kept(g, alloc))))
    case Removed(id) => Cache(Without(c.nodes, NodeId, id), Without(c.ports, PortId, id))
  }

  function ApplyAll(c: Cache, events: seq<Event>): Cache {
    if events == [] then c else Apply(ApplyAll(c, events[..|events| - 1]), events[|events| - 1])
  }

  // --------------------------------------------------------------- port memory

  // The array of cached ports as memory: the entries in use, what removals
  // left behind them, its capacity, and which block it is.
  datatype PortTable = PortTable(ports: seq<PortEntry>, stale: seq<PortEntry>, capacity: nat, block: nat)

  // A pointer to an entry.
  datatype PortRef = PortRef(block: nat, slot: nat)

  // The id read through a pointer; None when its block is gone.
  function IdAt(t: PortTable, r: PortRef): Option<nat> {
    var slots := t.ports + t.stale;
    if r.block == t.block && r.slot < |slots| then Some(slots[r.slot].id) else None
  }

  function Grown(t: PortTable, moves: bool): PortTable {
    if |t.ports| != t.capacity then t
    else
      t.(capacity := if t.capacity == 0 then 32 else 2 * t.capacity, block := if moves then t.block + 1 else t.block)
  }

  function TableAfter(t: PortTable, ev: Event): PortTable {
    match ev
    case Added(id, g, alloc) =>
      var e := PortOf(id, g);
      if e.None? || alloc.NoRoom? then t
      else
        var r := Grown(t, alloc.moves);
        if alloc.NoName? then r
        else r.(ports := t.ports + [e.value], stale := if t.stale == [] then [] else t.stale[1..])
    case Removed(id) =>
      var j := IndexOf(t.ports, PortId, id);
      if j == |t.ports| then t
      else t.(ports := SwapRemove(t.ports, j), stale := [t.ports[|t.ports| - 1]] + t.stale)
  }

  function TableAll(t: PortTable, events: seq<Event>): PortTable {
    if events == [] then t else TableAfter(TableAll(t, events[..|events| - 1]), events[|events| - 1])
  }

  // The pointers are to these entries, in use.
  ghost predicate Refer(t: PortTable, refs: seq<PortRef>, entries: seq<PortEntry>) {
    && |refs| == |entries|
    && forall k :: 0 <= k < |refs| ==>
         refs[k].block == t.block && refs[k].slot < |t.ports| && t.ports[refs[k].slot] == entries[k]
  }

  // ------------------------------------------------------------------- lookups

  function NodeNamed(nodes: seq<NodeEntry>, name: string, from: nat := 0): (id: nat)
    requires from <= |nodes|
    decreases |nodes| - from
  {
    if from == |nodes| then 0
    else if nodes[from].name == name then nodes[from].id
    else NodeNamed(nodes, name, from + 1)
  }

  function NodeWithSerial(nodes: seq<NodeEntry>, serial: nat, from: nat := 0): (id: nat)
    requires from <= |nodes|
    decreases |nodes| - from
  {
    if from == |nodes| || serial == 0 then 0
    else if nodes[from].serial == serial then nodes[from].id
    else NodeWithSerial(nodes, serial, from + 1)
  }

  predicate IsOn(e: PortEntry, nodeId: nat, direction: Direction) {
    e.nodeId == nodeId && e.direction == direction
  }

  function PortNamed(ports: seq<PortEntry>, nodeId: nat, name: string, direction: Direction, from: nat := 0): (id: nat)
    requires from <= |ports|
    decreases |ports| - from
  {
    if from == |ports| then 0
    else if IsOn(ports[from], nodeId, direction) && ports[from].name == name then ports[from].id
    else PortNamed(ports, nodeId, name, direction, from + 1)
  }

  // ------------------------------------------------------------------- listing

  // A node's ports in one direction, in cache order.
  function Matches(ports: seq<PortEntry>, nodeId: nat, direction: Direction): (m: seq<PortEntry>)
    ensures |m| <= |ports|
  {
    if ports == [] then []
    else
      var n := |ports| - 1;
      Matches(ports[..n], nodeId, direction) + if IsOn(ports[n], nodeId, direction) then [ports[n]] else []
  }

  // Insertion from the right, past everything with a greater ordinal.
  function Insert(s: seq<PortEntry>, e: PortEntry): (r: seq<PortEntry>)
    ensures |r| == |s| + 1
  {
    if s == [] || s[|s| - 1].ordinal <= e.ordinal then s + [e]
    else Insert(s[..|s| - 1], e) + [s[|s| - 1]]
  }

  function SortByOrdinal(s: seq<PortEntry>): (r: seq<PortEntry>)
    ensures |r| == |s|
  {
    if s == [] then [] else Insert(SortByOrdinal(s[..|s| - 1]), s[|s| - 1])
  }

  // What pwf_pw_registry_list_ports puts in `out`.
  function Listing(ports: seq<PortEntry>, nodeId: nat, direction: Direction, max: nat): (r: seq<PortEntry>)
    ensures |r| == Min(max, |Matches(ports, nodeId, direction)|)
  {
    var m := Matches(ports, nodeId, direction);
    SortByOrdinal(m[..Min(max, |m|)])
  }

  lemma {:induction false} InsertAt(s: seq<PortEntry>, e: PortEntry, at: nat)
    requires at <= |s| && (at > 0 ==> s[at - 1].ordinal <= e.ordinal)
    requires forall k :: at <= k < |s| ==> s[k].ordinal > e.ordinal
    ensures Insert(s, e) == s[..at] + [e] + s[at..]
  {
    var n := |s|;
    if at == n {
      assert s[..at] + [e] + s[at..] == s + [e];
    } else {
      InsertAt(s[..n - 1], e, at);
      assert s[..n - 1][..at] == s[..at];
      assert s[at..] == s[..n - 1][at..] + [s[n - 1]];
    }
  }

  // What shifting the pointers to greater entries up by one, and storing one
  // to `e` in the gap, makes of an array that points to `s`.
  lemma Shifted(t: PortTable, s: seq<PortEntry>, was: seq<PortRef>, r: PortRef, at: nat, refs: seq<PortRef>)
    requires Refer(t, was, s) && r.block == t.block && r.slot < |t.ports|
    requires at <= |s| && |refs| == |s| + 1 && refs[at] == r
    requires at > 0 ==> s[at - 1].ordinal <= t.ports[r.slot].ordinal
    requires forall k :: 0 <= k < at ==> refs[k] == was[k]
    requires forall k :: at < k < |refs| ==> refs[k] == was[k - 1]
    requires forall k :: at <= k < |s| ==> s[k].ordinal > t.ports[r.slot].ordinal
    ensures Refer(t, refs, Insert(s, t.ports[r.slot]))
  {
    hide Insert;
    InsertAt(s, t.ports[r.slot], at);
  }

  // One more port in the cache changes a listing by one insertion, if it
  // matches and there is room, or not at all.
  lemma ListingStep(ports: seq<PortEntry>, e: PortEntry, nodeId: nat, direction: Direction, max: nat)
    ensures var m := Matches(ports, nodeId, direction);
            && Matches(ports + [e], nodeId, direction) == m + (if IsOn(e, nodeId, direction) then [e] else [])
            && Listing(ports + [e], nodeId, direction, max)
            == if IsOn(e, nodeId, direction) && |m| < max then Insert(Listing(ports, nodeId, direction, max), e)
               else Listing(ports, nodeId, direction, max)
  {
    var m, grown := Matches(ports, nodeId, direction), Matches(ports + [e], nodeId, direction);
    assert (ports + [e])[..|ports|] == ports;
    assert grown == m + if IsOn(e, nodeId, direction) then [e] else [];
    hide Matches, IsOn, Insert;
    var n := Min(max, |m|);
    if IsOn(e, nodeId, direction) && |m| < max {
      assert m[..n] == m && grown[..|m| + 1] == grown && grown[..|m|] == m;
    } else {
      assert grown[..Min(max, |grown|)] == m[..n];
    }
  }

  lemma NothingListed(t: PortTable, nodeId: nat, direction: Direction, max: nat)
    ensures Matches([], nodeId, direction) == [] && Refer(t, [], Listing([], nodeId, direction, max))
  {
  }

  // ------------------------------------------------------------ choosing a port

  const MAX_TARGET_PORTS: nat := 64
  const TARGET_PORT_ATTEMPTS: nat := 10

  // One core round-trip: the events handled meanwhile, and whether it ended
  // in time.
  datatype Round = Round(events: seq<Event>, inTime: bool)

  // pwf_pick_target_port. A round-trip not described fails at once.
  function PickAfter(c: Cache, nodeId: nat, rounds: seq<Round>, attempts: nat): (r: (nat, Cache))
    decreases attempts
  {
    if attempts == 0 then (0, c)
    else
      var outs := Listing(c.ports, nodeId, Output, MAX_TARGET_PORTS);
      if outs != [] then (outs[0].id, c)
      else if rounds == [] then (0, c)
      else
        var after := ApplyAll(c, rounds[0].events);
        if rounds[0].inTime then PickAfter(after, nodeId, rounds[1..], attempts - 1) else (0, after)
  }

  lemma PickStep(c: Cache, nodeId: nat, rounds: seq<Round>, attempt: nat)
    requires attempt < TARGET_PORT_ATTEMPTS && attempt <= |rounds|
    ensures var outs, picked := Listing(c.ports, nodeId, Output, MAX_TARGET_PORTS),
                                PickAfter(c, nodeId, rounds[attempt..], TARGET_PORT_ATTEMPTS - attempt);
            if outs != [] then picked == (outs[0].id, c)
            else if attempt == |rounds| then picked == (0, c)
            else
              var after := ApplyAll(c, rounds[attempt].events);
              picked == if rounds[attempt].inTime
                        then PickAfter(after, nodeId, rounds[attempt + 1..], TARGET_PORT_ATTEMPTS - (attempt + 1))
                        else (0, after)
  {
    hide Listing, ApplyAll;
    if attempt < |rounds| {
      assert rounds[attempt..][1..] == rounds[attempt + 1..];
    }
  }

  lemma PickNone(c: Cache, nodeId: nat, rounds: seq<Round>)
    ensures PickAfter(c, nodeId, rounds, 0) == (0, c)
  {
  }

  // struct pwf_pw_registry
  class GraphRegistry {
    var nodes: seq<NodeEntry>
    var ports: seq<PortEntry>
    var stalePorts: seq<PortEntry>
    var portsCapacity: nat
    var portsBlock: nat

    function Contents(): Cache
      reads this
    {
      Cache(nodes, ports)
    }

    function Memory(): PortTable
      reads this
    {
      PortTable(ports, stalePorts, portsCapacity, portsBlock)
    }

    constructor ()
      ensures Contents() == Cache([], []) && Memory() == PortTable([], [], 0, 0)
    {
      nodes, ports, stalePorts, portsCapacity, portsBlock := [], [], [], 0, 0;
    }

    // pwf_pw_registry_add_node
    method AddNode(id: nat, g: Global, alloc: Allocation)
      requires g.NodeGlobal?
      modifies this`nodes
      ensures nodes == old(nodes) + Listed(NodeOf(id, Kept(g, alloc)))
    {
      if g.name.Some? && alloc.Stored? {
        var n := if g.serial.Some? then StrToULL(g.serial.value) else 0;
        var c := if g.mediaClass.Some? && alloc.mediaClass then g.mediaClass else None;
        var d := if g.description.Some? && alloc.description then g.description else None;
        nodes := nodes + [NodeEntry(id, g.name.value, n, c, d)];
      }
    }

    // pwf_pw_registry_add_port; a cached port wakes whoever waits for it.
    method AddPort(id: nat, g: Global, alloc: Allocation) returns (added: Option<nat>)
      requires g.PortGlobal?
      modifies this`ports, this`stalePorts, this`portsCapacity, this`portsBlock
      ensures Memory() == TableAfter(old(Memory()), Added(id, g, alloc))
      ensures ports == old(ports) + Listed(PortOf(id, Kept(g, alloc)))
      ensures added == var e := PortOf(id, Kept(g, alloc)); if e.Some? then Some(e.value.nodeId) else None
    {
      hide StrToU32;
      if g.portName.None? || g.nodeId.None? || alloc.NoRoom? {
        return None;
      }
      if |ports| == portsCapacity {
        portsCapacity := if portsCapacity == 0 then 32 else 2 * portsCapacity;
        portsBlock := if alloc.moves then portsBlock + 1 else portsBlock;
      }
      if alloc.NoName? {
        return None;
      }
      var d := if g.direction.Some? && g.direction.value == "out" then Output else Input;
      var n := if g.ordinal.Some? then StrToU32(g.ordinal.value) else 0;
      var e := PortEntry(id, StrToU32(g.nodeId.value), g.portName.value, d, n);
      ports := ports + [e];
      stalePorts := if stalePorts == [] then [] else stalePorts[1..];
      return Some(e.nodeId);
    }

    // pwf_pw_registry_on_global
    method OnGlobal(id: nat, g: Global, alloc: Allocation) returns (portAdded: Option<nat>)
      modifies this
      ensures Contents() == Apply(old(Contents()), Added(id, g, alloc))
      ensures Memory() == TableAfter(old(Memory()), Added(id, g, alloc))
      ensures portAdded == var e := PortOf(id, Kept(g, alloc)); if e.Some? then Some(e.value.nodeId) else None
    {
      portAdded := None;
      match g
      case NodeGlobal(_, _, _, _) => AddNode(id, g, alloc);
      case PortGlobal(_, _, _, _) => portAdded := AddPort(id, g, alloc);
      case OtherGlobal =>
    }

    // pwf_pw_registry_on_global_remove
    method OnGlobalRemove(id: nat) returns (wasNode: bool)
      modifies this
      ensures Contents() == Apply(old(Contents()), Removed(id))
      ensures Memory() == TableAfter(old(Memory()), Removed(id))
      ensures wasNode <==> exists e :: e in old(nodes) && e.id == id
    {
      wasNode := false;
      for i := 0 to |nodes|
        invariant !wasNode && nodes == old(nodes) && Memory() == old(Memory())
        invariant forall k :: 0 <= k < i ==> nodes[k].id != id
      {
        if nodes[i].id == id {
          assert IndexOf(nodes, NodeId, id) == i;
          assert nodes[i] in old(nodes);
          nodes := SwapRemove(nodes, i);
          wasNode := true;
          break;
        }
      }
      for i := 0 to |ports|
        invariant Memory() == old(Memory())
        invariant forall k :: 0 <= k < i ==> ports[k].id != id
      {
        if ports[i].id == id {
          assert IndexOf(ports, PortId, id) == i;
          stalePorts := [ports[|ports| - 1]] + stalePorts;
          ports := SwapRemove(ports, i);
          break;
        }
      }
    }

    method FindNodeByName(name: string) returns (id: nat)
      ensures id == NodeNamed(nodes, name)
    {
      for i := 0 to |nodes|
        invariant NodeNamed(nodes, name) == NodeNamed(nodes, name, i)
      {
        if nodes[i].name == name {
          return nodes[i].id;
        }
      }
      return 0;
    }

    method FindNodeBySerial(serial: nat) returns (id: nat)
      ensures id == NodeWithSerial(nodes, serial)
    {
      if serial == 0 {
        return 0;
      }
      for i := 0 to |nodes|
        invariant NodeWithSerial(nodes, serial) == NodeWithSerial(nodes, serial, i)
      {
        if nodes[i].serial == serial {
          return nodes[i].id;
        }
      }
      return 0;
    }

    method FindPort(nodeId: nat, name: string, direction: Direction) returns (id: nat)
      ensures id == PortNamed(ports, nodeId, name, direction)
    {
      for i := 0 to |ports|
        invariant PortNamed(ports, nodeId, name, direction) == PortNamed(ports, nodeId, name, direction, i)
      {
        if IsOn(ports[i], nodeId, direction) && ports[i].name == name {
          return ports[i].id;
        }
      }
      return 0;
    }

    // Inserts a pointer into the first n of `out`, sorted ones to `s`.
    method InsertSorted(out: array<PortRef>, n: nat, slot: nat, ghost s: seq<PortEntry>)
      requires n < out.Length && slot < |ports| && Refer(Memory(), out[..n], s)
      modifies out
      ensures Refer(Memory(), out[..n + 1], Insert(s, ports[slot]))
      ensures forall k :: n < k < out.Length ==> out[k] == old(out[k])
    {
      hide Insert;
      ghost var was := out[..];
      var at := n;
      while at > 0 && ports[out[at - 1].slot].ordinal > ports[slot].ordinal
        invariant 0 <= at <= n
        invariant forall k :: 0 <= k < at || n < k < out.Length ==> out[k] == was[k]
        invariant forall k :: at < k <= n ==> out[k] == was[k - 1]
        invariant forall k :: at <= k < n ==> s[k].ordinal > ports[slot].ordinal
      {
        assert out[at - 1] == was[..n][at - 1];
        out[at] := out[at - 1];
        at := at - 1;
      }
      out[at] := PortRef(portsBlock, slot);
      assert at > 0 ==> out[at - 1] == was[..n][at - 1];
      Shifted(Memory(), s, was[..n], out[at], at, out[..n + 1]);
    }

    // pwf_pw_registry_list_ports: counts every match, and sorts pointers to
    // the first `max` of them into `out`.
    method ListPorts(nodeId: nat, direction: Direction, out: array?<PortRef>, max: nat) returns (found: nat)
      requires out != null ==> max <= out.Length
      modifies out
      ensures found == |Matches(ports, nodeId, direction)|
      ensures out != null ==>
                && Refer(Memory(), out[..Min(max, found)], Listing(ports, nodeId, direction, max))
                && forall k :: Min(max, found) <= k < out.Length ==> out[k] == old(out[k])
    {
      hide Matches, Listing, Insert, Refer;
      NothingListed(Memory(), nodeId, direction, max);
      found := 0;
      for i := 0 to |ports|
        invariant found == |Matches(ports[..i], nodeId, direction)|
        invariant out != null ==>
                    && Refer(Memory(), out[..Min(max, found)], Listing(ports[..i], nodeId, direction, max))
                    && forall k :: Min(max, found) <= k < out.Length ==> out[k] == old(out[k])
      {
        assert ports[..i + 1] == ports[..i] + [ports[i]];
        ListingStep(ports[..i], ports[i], nodeId, direction, max);
        if IsOn(ports[i], nodeId, direction) {
          found := found + 1;
          if out != null && found <= max {
            InsertSorted(out, found - 1, i, Listing(ports[..i], nodeId, direction, max));
          }
        }
      }
      assert ports[..|ports|] == ports;
    }

    // Handles the events of one turn of the loop.
    method HandleEvents(events: seq<Event>)
      modifies this
      ensures Contents() == ApplyAll(old(Contents()), events) && Memory() == TableAll(old(Memory()), events)
    {
      hide Apply, TableAfter;
      for i := 0 to |events|
        invariant Contents() == ApplyAll(old(Contents()), events[..i])
        invariant Memory() == TableAll(old(Memory()), events[..i])
      {
        assert events[..i + 1][..i] == events[..i];
        HandleEvent(events[i]);
      }
      assert events[..|events|] == events;
    }

    method HandleEvent(ev: Event)
      modifies this
      ensures Contents() == Apply(old(Contents()), ev) && Memory() == TableAfter(old(Memory()), ev)
    {
      match ev
      case Added(id, g, alloc) => var _ := OnGlobal(id, g, alloc);
      case Removed(id) => var _ := OnGlobalRemove(id);
    }

    // pwf_pw_registry_sync: what is handled before a timeout stays handled.
    method Sync(round: Round) returns (ok: bool)
      modifies this
      ensures ok == round.inTime && Contents() == ApplyAll(old(Contents()), round.events)
      ensures Memory() == TableAll(old(Memory()), round.events)
    {
      HandleEvents(round.events);
      return round.inTime;
    }

    method PickTargetPort(nodeId: nat, rounds: seq<Round>) returns (id: nat)
      modifies this
      ensures (id, Contents()) == PickAfter(old(Contents()), nodeId, rounds, TARGET_PORT_ATTEMPTS)
    {
      hide PickAfter, Listing, ApplyAll, Matches, TableAll;
      assert rounds[0..] == rounds;
      var outs := new PortRef[MAX_TARGET_PORTS](_ => PortRef(0, 0));
      for attempt := 0 to TARGET_PORT_ATTEMPTS
        invariant attempt <= |rounds|
        invariant PickAfter(old(Contents()), nodeId, rounds, TARGET_PORT_ATTEMPTS)
               == PickAfter(Contents(), nodeId, rounds[attempt..], TARGET_PORT_ATTEMPTS - attempt)
        modifies this, outs
      {
        PickStep(Contents(), nodeId, rounds, attempt);
        var n := ListPorts(nodeId, Output, outs, MAX_TARGET_PORTS);
        if n > 0 {
          assert outs[0] == outs[..Min(MAX_TARGET_PORTS, n)][0];
          return ports[outs[0].slot].id;
        }
        if attempt == |rounds| {
          return 0;
        }
        var ok := Sync(rounds[attempt]);
        if !ok {
          return 0;
        }
      }
      PickNone(Contents(), nodeId, rounds[TARGET_PORT_ATTEMPTS..]);
      return 0;
    }
  }
}
