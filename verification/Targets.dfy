// Target strings: how they are listed (src/pwf_stream_routing.c), and how they
// resolve to nodes and ports (also src/pwf_filter_port_link.c).
module Targets {
  import opened Base
  import opened Text
  import opened Registry
  import opened RegistryHistory

  // pwf_stream_resolve_target
  function Resolve(nodes: seq<NodeEntry>, target: string): nat {
    if AllDigits(target) then NodeWithSerial(nodes, StrToULL(target)) else NodeNamed(nodes, target)
  }

  // strrchr
  function LastColon(s: string): (r: Option<nat>)
    ensures r.None? ==> ':' !in s
    ensures r.Some? ==> r.value < |s| && s[r.value] == ':' && ':' !in s[r.value + 1..]
  {
    if s == "" then None
    else if s[|s| - 1] == ':' then Some(|s| - 1)
    else
      var r := LastColon(s[..|s| - 1]);
      assert r.Some? ==> s[r.value + 1..] == s[..|s| - 1][r.value + 1..] + [s[|s| - 1]];
      assert s == s[..|s| - 1] + [s[|s| - 1]];
      r
  }

  // sizeof(node_part)
  const NODE_PART: nat := 256

  // pwf_resolve_target_node: the node, and the port part if there is one.
  function ResolveNode(nodes: seq<NodeEntry>, target: string): (nat, Option<string>) {
    var whole := Resolve(nodes, target);
    if whole != 0 then (whole, None)
    else
      var sep := LastColon(target);
      if sep.None? || sep.value == 0 || sep.value + 1 == |target| || sep.value >= NODE_PART then (0, None)
      else
        var id := Resolve(nodes, target[..sep.value]);
        if id == 0 then (0, None) else (id, Some(target[sep.value + 1..]))
  }

  // struct pwf_target_info
  datatype TargetInfo = TargetInfo(name: string, serial: string, description: string)

  // snprintf of "%s" into `size` bytes
  function Truncated(s: string, size: nat): (t: string)
    requires size > 0
    ensures |t| < size && t <= s && (|s| < size ==> t == s)
  {
    s[..Min(|s|, size - 1)]
  }

  function InfoOf(e: NodeEntry): TargetInfo {
    TargetInfo(Truncated(e.name, 256), Truncated(Decimal(e.serial), 32),
               Truncated(if e.description.Some? then e.description.value else "", 256))
  }

  // What a complete target list shows for one media class, in cache order.
  function Infos(nodes: seq<NodeEntry>, mediaClass: string): (infos: seq<TargetInfo>) {
    if nodes == [] then []
    else
      var n := |nodes| - 1;
      Infos(nodes[..n], mediaClass) + if nodes[n].mediaClass == Some(mediaClass) then [InfoOf(nodes[n])] else []
  }

  lemma InfosStep(nodes: seq<NodeEntry>, e: NodeEntry, mediaClass: string)
    ensures Infos(nodes + [e], mediaClass)
         == Infos(nodes, mediaClass) + if e.mediaClass == Some(mediaClass) then [InfoOf(e)] else []
  {
    assert (nodes + [e])[..|nodes|] == nodes;
  }

  function OfClass(nodes: seq<NodeEntry>, mediaClass: string): (infos: seq<Option<TargetInfo>>)
    ensures |infos| == |nodes|
  {
    seq(|nodes|, i requires 0 <= i < |nodes| =>
      if nodes[i].mediaClass == Some(mediaClass) then Some(InfoOf(nodes[i])) else None)
  }

  // A list has an entry for each node of the class, and for no other, in cache
  // order.
  lemma {:induction false} ListsClassInOrder(nodes: seq<NodeEntry>, mediaClass: string)
    ensures InOrder(Infos(nodes, mediaClass), OfClass(nodes, mediaClass))
  {
    if nodes != [] {
      hide InOrder, InfoOf, Listed, Infos, OfClass;
      var n := |nodes| - 1;
      ListsClassInOrder(nodes[..n], mediaClass);
      ClassStep(nodes, mediaClass);
      InOrderSnoc(Infos(nodes[..n], mediaClass), OfClass(nodes[..n], mediaClass), OfClass(nodes, mediaClass)[n]);
    }
  }

  lemma ClassStep(nodes: seq<NodeEntry>, mediaClass: string)
    requires nodes != []
    ensures var n := |nodes| - 1;
            && OfClass(nodes, mediaClass) == OfClass(nodes[..n], mediaClass) + [OfClass(nodes, mediaClass)[n]]
            && Infos(nodes, mediaClass) == Infos(nodes[..n], mediaClass) + Listed(OfClass(nodes, mediaClass)[n])
  {
    hide InfoOf;
  }

  // An entry shows as much of the name and of the description as its fields
  // hold, and the serial in full.
  lemma InfoShows(e: NodeEntry)
    requires e.serial < WORD
    ensures var info, description := InfoOf(e), if e.description.Some? then e.description.value else "";
            && info.name <= e.name && |info.name| == Min(|e.name|, 255)
            && info.description <= description && |info.description| == Min(|description|, 255)
            && AllDigits(info.serial) && StrToULL(info.serial) == e.serial
  {
    hide StrToULL;
    SerialFits(e.serial);
    DecimalRoundTrip(e.serial);
  }

  lemma EmptyInfos(mediaClass: string)
    ensures Infos([], mediaClass) == []
  {
  }

  method ResolveTarget(reg: GraphRegistry, target: string) returns (id: nat)
    ensures id == Resolve(reg.nodes, target)
  {
    var digits := IsAllDigits(target);
    if digits {
      id := reg.FindNodeBySerial(StrToULL(target));
    } else {
      id := reg.FindNodeByName(target);
    }
  }

  method ResolveTargetNode(reg: GraphRegistry, target: string) returns (id: nat, portName: Option<string>)
    ensures (id, portName) == ResolveNode(reg.nodes, target)
  {
    portName := None;
    id := ResolveTarget(reg, target);
    if id != 0 {
      return;
    }
    var sep := LastColon(target);
    if sep.None? || sep.value == 0 || sep.value + 1 == |target| || sep.value >= NODE_PART {
      return;
    }
    id := ResolveTarget(reg, target[..sep.value]);
    if id != 0 {
      portName := Some(target[sep.value + 1..]);
    }
  }

  // pwf_resolve_target: the node, and the output port to link from, 0 leaving
  // the choice to the core.
  method ResolveTargetPort(reg: GraphRegistry, target: string, rounds: seq<Round>)
    returns (node: nat, port: nat)
    modifies reg
    ensures var (id, name) := ResolveNode(old(reg.nodes), target);
            if id == 0 then node == port == 0 && reg.Contents() == old(reg.Contents())
            else if name.None? then
              && node == id
              && (port, reg.Contents()) == PickAfter(old(reg.Contents()), id, rounds, TARGET_PORT_ATTEMPTS)
            else
              && port == PortNamed(reg.ports, id, name.value, Registry.Output)
              && node == (if port == 0 then 0 else id) && reg.Contents() == old(reg.Contents())
  {
    hide ResolveNode, PickAfter, PortNamed;
    var name;
    node, name := ResolveTargetNode(reg, target);
    port := 0;
    if node == 0 {
      return;
    }
    if name.None? {
      port := reg.PickTargetPort(node, rounds);
      return;
    }
    port := reg.FindPort(node, name.value, Registry.Output);
    if port == 0 {
      node := 0;
    }
  }

  // The listing loop of pwf_stream_get_target_list.
  method ListTargets(reg: GraphRegistry, mediaClass: string, out: array?<TargetInfo>, outLen: nat) returns (found: nat)
    requires out != null ==> outLen <= out.Length
    modifies out
    ensures found == |Infos(reg.nodes, mediaClass)|
    ensures out != null ==>
              var n := Min(found, outLen);
              out[..n] == Infos(reg.nodes, mediaClass)[..n] && out[n..] == old(out[n..])
  {
    hide Infos, InfoOf;
    EmptyInfos(mediaClass);
    found := 0;
    for i := 0 to |reg.nodes|
      invariant found == |Infos(reg.nodes[..i], mediaClass)|
      invariant out != null ==>
                  && (forall k :: 0 <= k < Min(found, outLen) ==> out[k] == Infos(reg.nodes[..i], mediaClass)[k])
                  && forall k :: Min(found, outLen) <= k < out.Length ==> out[k] == old(out[k])
    {
      var e := reg.nodes[i];
      assert reg.nodes[..i + 1] == reg.nodes[..i] + [e];
      InfosStep(reg.nodes[..i], e, mediaClass);
      if e.mediaClass == Some(mediaClass) {
        if out != null && found < outLen {
          out[found] := InfoOf(e);
        }
        found := found + 1;
      }
    }
    assert reg.nodes[..|reg.nodes|] == reg.nodes;
  }

  // --------------------------------------------------------------- round trips

  ghost predicate DistinctNodeIds(nodes: seq<NodeEntry>) {
    && (forall i :: 0 <= i < |nodes| ==> nodes[i].id != 0)
    && forall i, j :: 0 <= i < j < |nodes| ==> nodes[i].id != nodes[j].id
  }

  lemma {:induction false} NamedIsFirst(nodes: seq<NodeEntry>, i: nat, name: string, from: nat)
    requires DistinctNodeIds(nodes) && from <= i < |nodes|
    ensures NodeNamed(nodes, name, from) == nodes[i].id
       <==> nodes[i].name == name && forall k :: from <= k < i ==> nodes[k].name != name
    decreases i - from
  {
    if from < i {
      NamedIsFirst(nodes, i, name, from + 1);
    } else if nodes[i].name != name {
      NamedIsLater(nodes, i, name, i + 1);
    }
  }

  lemma {:induction false} NamedIsLater(nodes: seq<NodeEntry>, i: nat, name: string, from: nat)
    requires DistinctNodeIds(nodes) && i < from <= |nodes|
    ensures NodeNamed(nodes, name, from) != nodes[i].id
    decreases |nodes| - from
  {
    if from < |nodes| {
      NamedIsLater(nodes, i, name, from + 1);
    }
  }

  lemma {:induction false} SerialIsFirst(nodes: seq<NodeEntry>, i: nat, serial: nat, from: nat)
    requires DistinctNodeIds(nodes) && from <= i < |nodes|
    ensures NodeWithSerial(nodes, serial, from) == nodes[i].id
       <==> serial != 0 && nodes[i].serial == serial && forall k :: from <= k < i ==> nodes[k].serial != serial
    decreases i - from
  {
    if from < i {
      SerialIsFirst(nodes, i, serial, from + 1);
    } else if nodes[i].serial != serial {
      SerialIsLater(nodes, i, serial, i + 1);
    }
  }

  lemma {:induction false} SerialIsLater(nodes: seq<NodeEntry>, i: nat, serial: nat, from: nat)
    requires DistinctNodeIds(nodes) && i < from <= |nodes|
    ensures NodeWithSerial(nodes, serial, from) != nodes[i].id
    decreases |nodes| - from
  {
    if from < |nodes| {
      SerialIsLater(nodes, i, serial, from + 1);
    }
  }

  // A listed serial resolves back to its node exactly when the node has one
  // and no node before it in the cache shares it.
  lemma ListedSerialResolves(nodes: seq<NodeEntry>, i: nat)
    requires DistinctNodeIds(nodes) && i < |nodes| && nodes[i].serial < WORD
    ensures Resolve(nodes, InfoOf(nodes[i]).serial) == nodes[i].id
       <==> nodes[i].serial != 0 && forall k :: 0 <= k < i ==> nodes[k].serial != nodes[i].serial
  {
    DecimalRoundTrip(nodes[i].serial);
    SerialFits(nodes[i].serial);
    SerialIsFirst(nodes, i, nodes[i].serial, 0);
  }

  // A listed name that is not all digits resolves back exactly when it was
  // not cut short and no node before it in the cache shares it.
  lemma ListedNameResolves(nodes: seq<NodeEntry>, i: nat)
    requires DistinctNodeIds(nodes) && i < |nodes| && !AllDigits(InfoOf(nodes[i]).name)
    ensures Resolve(nodes, InfoOf(nodes[i]).name) == nodes[i].id
       <==> |nodes[i].name| < 256 && forall k :: 0 <= k < i ==> nodes[k].name != nodes[i].name
  {
    NamedIsFirst(nodes, i, InfoOf(nodes[i]).name, 0);
  }

  // An all-digit name is taken for a serial: it resolves to its own node
  // exactly when that node has this serial and is the first to.
  lemma ListedDigitsAreSerial(nodes: seq<NodeEntry>, i: nat)
    requires DistinctNodeIds(nodes) && i < |nodes| && AllDigits(InfoOf(nodes[i]).name)
    ensures Resolve(nodes, InfoOf(nodes[i]).name) == nodes[i].id
       <==> && nodes[i].serial != 0 && nodes[i].serial == StrToULL(InfoOf(nodes[i]).name)
            && forall k :: 0 <= k < i ==> nodes[k].serial != nodes[i].serial
  {
    SerialIsFirst(nodes, i, StrToULL(InfoOf(nodes[i]).name), 0);
  }

  // Such a name can reach another node, or none.
  lemma DigitNameMisses()
    ensures var e := NodeEntry(7, "42", 100, None, None);
            && Resolve([e], "42") == 0 && Resolve([e, NodeEntry(8, "b", 42, None, None)], "42") == 8
  {
    assert Decimal(42) == "42" by {
      assert Decimal(42) == Decimal(4) + [DigitChar(2)];
      assert DigitChar(4) == '4' && DigitChar(2) == '2';
    }
    DecimalRoundTrip(42);
  }

  lemma {:induction false} LastColonOf(n: string, p: string)
    ensures var sep := LastColon(n + ":" + p);
            sep.Some? && sep.value >= |n| && (sep.value == |n| <==> ':' !in p)
  {
    var t, m := n + ":" + p, |p| - 1;
    if p == "" {
      assert t[|t| - 1] == ':';
    } else if p[m] != ':' {
      assert t[..|t| - 1] == n + ":" + p[..m];
      assert p == p[..m] + [p[m]];
      LastColonOf(n, p[..m]);
    }
  }

  // "n:p" splits into exactly n and p when, and only when, p is a non-empty
  // part without a colon, n is a target of its own that fits the buffer, and
  // no node is named "n:p". A colon in n does not matter.
  lemma NodePortSplits(nodes: seq<NodeEntry>, n: string, p: string)
    ensures ResolveNode(nodes, n + ":" + p) == (Resolve(nodes, n), Some(p))
       <==> && n != "" && |n| < NODE_PART && p != "" && ':' !in p
            && Resolve(nodes, n) != 0 && NodeNamed(nodes, n + ":" + p) == 0
  {
    hide LastColon, NodeNamed, NodeWithSerial, Resolve;
    var t := n + ":" + p;
    ColonIsName(nodes, t, |n|);
    LastColonOf(n, p);
    var sep := LastColon(t).value;
    if ':' in p {
      assert |t[sep + 1..]| < |p|;
    } else {
      assert t[..|n|] == n && t[|n| + 1..] == p;
    }
  }

  lemma ColonIsName(nodes: seq<NodeEntry>, t: string, at: nat)
    requires at < |t| && t[at] == ':'
    ensures Resolve(nodes, t) == NodeNamed(nodes, t)
  {
    assert !IsDigit(t[at]);
  }

  // The cache's nodes have distinct ids in every history, and non-zero ones
  // when id 0, the core's, is never announced as something else.
  lemma CachedIdsAreDistinct(events: seq<Event>)
    requires WellFormed(events) && forall ev <- events :: ev.Added? ==> ev.id != 0
    ensures DistinctNodeIds(CacheAfter(events).nodes) && forall e <- CacheAfter(events).nodes :: e.serial < WORD
  {
    hide CacheAfter;
    CacheIsLive(events);
    ZeroIsNotLive(events);
    var nodes := CacheAfter(events).nodes;
    forall i | 0 <= i < |nodes| ensures nodes[i].id != 0 {
      assert nodes[i] in nodes;
    }
  }

  lemma {:induction false} ZeroIsNotLive(events: seq<Event>)
    requires forall ev <- events :: ev.Added? ==> ev.id != 0
    ensures 0 !in Live(events)
  {
    if events != [] {
      ZeroIsNotLive(events[..|events| - 1]);
      assert events[|events| - 1] in events;
    }
  }
}
