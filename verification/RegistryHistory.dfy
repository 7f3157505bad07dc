// What the cache holds after any history of the graph, and what of it a port
// listing forgets.
module RegistryHistory {
  import opened Base
  import opened Registry
  import opened Text

  // --------------------------------------------------------- the live globals

  // The live globals, with what the cache could store of each.
  function Live(events: seq<Event>): map<nat, Global> {
    if events == [] then map[]
    else
      var before := Live(events[..|events| - 1]);
      match events[|events| - 1]
      case Added(id, g, alloc) => before[id := Kept(g, alloc)]
      case Removed(id) => before - {id}
  }

  // The server does not announce an id again while it is live.
  ghost predicate WellFormed(events: seq<Event>) {
    events != [] ==>
      var n := |events| - 1;
      WellFormed(events[..n]) && (events[n].Added? ==> events[n].id !in Live(events[..n]))
  }

  // An announcement of which everything is stored.
  const STORED := Stored(false, true, true)

  function CacheAfter(events: seq<Event>): Cache {
    ApplyAll(Cache([], []), events)
  }

  // `s` is a permutation of the entries that `of` makes of the live globals.
  ghost predicate Lists<T(!new)>(s: seq<T>, key: T -> nat, of: (nat, Global) -> Option<T>, live: map<nat, Global>) {
    && (forall i, j :: 0 <= i < j < |s| ==> key(s[i]) != key(s[j]))
    && (forall e <- s :: key(e) in live && of(key(e), live[key(e)]) == Some(e))
    && (forall id <- live :: of(id, live[id]).Some? ==> of(id, live[id]).value in s)
  }

  ghost predicate Keyed<T(!new)>(key: T -> nat, of: (nat, Global) -> Option<T>) {
    forall id, g :: of(id, g).Some? ==> key(of(id, g).value) == id
  }

  lemma AddKeeps<T(!new)>(s: seq<T>, key: T -> nat, of: (nat, Global) -> Option<T>, live: map<nat, Global>,
                          id: nat, g: Global)
    requires Keyed(key, of) && Lists(s, key, of, live) && id !in live
    ensures Lists(s + Listed(of(id, g)), key, of, live[id := g])
  {
    var r := s + Listed(of(id, g));
    forall e | e in r ensures key(e) in live[id := g] && of(key(e), live[id := g][key(e)]) == Some(e) {
      if e in s {
        assert key(e) in live;
      }
    }
    var after := live[id := g];
    forall k | k in after && of(k, after[k]).Some? ensures of(k, after[k]).value in r {
      if k == id {
        assert r[|s|] == of(k, g).value;
      }
    }
  }

  lemma WithoutMembers<T(!new)>(s: seq<T>, key: T -> nat, id: nat)
    requires forall i, j :: 0 <= i < j < |s| ==> key(s[i]) != key(s[j])
    ensures var r := Without(s, key, id);
            && (forall i, j :: 0 <= i < j < |r| ==> key(r[i]) != key(r[j]))
            && (forall e :: e in r <==> e in s && key(e) != id)
  {
    var r, i, n := Without(s, key, id), IndexOf(s, key, id), |s| - 1;
    if i < |s| {
      assert forall k :: 0 <= k < n ==> r[k] == if k == i then s[n] else s[k];
      forall e | e in s && key(e) != id ensures e in r {
        var k :| 0 <= k < |s| && s[k] == e;
        assert r[if k == n then i else k] == e;
      }
    }
  }

  lemma RemoveKeeps<T(!new)>(s: seq<T>, key: T -> nat, of: (nat, Global) -> Option<T>, live: map<nat, Global>, id: nat)
    requires Keyed(key, of) && Lists(s, key, of, live)
    ensures Lists(Without(s, key, id), key, of, live - {id})
  {
    hide Without;
    WithoutMembers(s, key, id);
  }

  // After any history, the cache holds exactly the live named nodes and ports,
  // each once, in some order.
  lemma {:induction false} CacheIsLive(events: seq<Event>)
    requires WellFormed(events)
    ensures Lists(CacheAfter(events).nodes, NodeId, NodeOf, Live(events))
    ensures Lists(CacheAfter(events).ports, PortId, PortOf, Live(events))
  {
    if events != [] {
      var n := |events| - 1;
      var c, live := CacheAfter(events[..n]), Live(events[..n]);
      CacheIsLive(events[..n]);
      hide Lists, Without, NodeOf, PortOf;
      assert Keyed(NodeId, NodeOf) && Keyed(PortId, PortOf) by { EntriesAreKeyed(); }
      match events[n]
      case Added(id, g, alloc) =>
        AddKeeps(c.nodes, NodeId, NodeOf, live, id, Kept(g, alloc));
        AddKeeps(c.ports, PortId, PortOf, live, id, Kept(g, alloc));
      case Removed(id) =>
        RemoveKeeps(c.nodes, NodeId, NodeOf, live, id);
        RemoveKeeps(c.ports, PortId, PortOf, live, id);
    }
  }

  lemma EntriesAreKeyed()
    ensures Keyed(NodeId, NodeOf) && Keyed(PortId, PortOf)
  {
  }

  // --------------------------------------------------------- what entries say

  // A node's entry says what was announced, as far as it could be stored: a
  // printed serial is read back, and is 0 without one.
  lemma NodeIsAsAnnounced(id: nat, g: Global, alloc: Allocation, serial: nat)
    requires serial < WORD
    ensures var o := NodeOf(id, Kept(g, alloc));
            && (o.Some? <==> alloc.Stored? && g.NodeGlobal? && g.name.Some?)
            && (o.Some? ==>
                  var e := o.value;
                  && e.id == id && Some(e.name) == g.name
                  && (g.serial == None ==> e.serial == 0)
                  && (g.serial == Some(Decimal(serial)) ==> e.serial == serial)
                  && e.mediaClass == (if alloc.mediaClass then g.mediaClass else None)
                  && e.description == (if alloc.description then g.description else None))
  {
    hide StrToULL, SkipSpaces, Decimal;
    DecimalRoundTrip(serial);
  }

  // So does a port's, an input unless announced as "out", and of ordinal 0
  // without one.
  lemma PortIsAsAnnounced(id: nat, g: Global, alloc: Allocation, node: nat, ordinal: nat)
    requires node < 0x1_0000_0000 && ordinal < 0x1_0000_0000
    ensures var o := PortOf(id, Kept(g, alloc));
            && (o.Some? <==> alloc.Stored? && g.PortGlobal? && g.portName.Some? && g.nodeId.Some?)
            && (o.Some? ==>
                  var e := o.value;
                  && e.id == id && Some(e.name) == g.portName
                  && (e.direction == Output <==> g.direction == Some("out"))
                  && (g.nodeId == Some(Decimal(node)) ==> e.nodeId == node)
                  && (g.ordinal == None ==> e.ordinal == 0)
                  && (g.ordinal == Some(Decimal(ordinal)) ==> e.ordinal == ordinal))
  {
    hide StrToULL, SkipSpaces, Decimal;
    DecimalRoundTrip(node);
    DecimalRoundTrip(ordinal);
  }

  // The port array always has room for what it holds: it is doubled from 32 on
  // when it is full, and never shrinks.
  ghost predicate Roomy(t: PortTable) {
    |t.ports| <= t.capacity && (t.capacity == 0 || exists k: nat :: t.capacity == 32 * Power2(k))
  }

  function Power2(k: nat): nat {
    if k == 0 then 1 else 2 * Power2(k - 1)
  }

  lemma RoomyStep(t: PortTable, ev: Event)
    requires Roomy(t)
    ensures Roomy(TableAfter(t, ev)) && TableAfter(t, ev).capacity >= t.capacity
  {
    if t.capacity == 0 {
      assert 32 == 32 * Power2(0);
    } else {
      var k: nat :| t.capacity == 32 * Power2(k);
      assert 2 * t.capacity == 32 * Power2(k + 1);
    }
  }

  lemma {:induction false} TableHasRoom(events: seq<Event>)
    ensures Roomy(TableAll(PortTable([], [], 0, 0), events))
  {
    if events != [] {
      hide Roomy, TableAfter;
      TableHasRoom(events[..|events| - 1]);
      RoomyStep(TableAll(PortTable([], [], 0, 0), events[..|events| - 1]), events[|events| - 1]);
    } else {
      assert Roomy(PortTable([], [], 0, 0));
    }
  }

  // The port array's entries in use are the cached ports.
  lemma {:induction false} TableIsCache(t: PortTable, c: Cache, events: seq<Event>)
    requires t.ports == c.ports
    ensures TableAll(t, events).ports == ApplyAll(c, events).ports
  {
    if events != [] {
      TableIsCache(t, c, events[..|events| - 1]);
      hide PortOf, SwapRemove;
    }
  }

  // ------------------------------------------------------------- while waiting

  // The cache after the first n of the batches of events.
  function CacheAt(c: Cache, batches: seq<seq<Event>>, n: nat): Cache
    requires n <= |batches|
  {
    ApplyAll(c, Flatten(batches[..n]))
  }

  lemma {:induction false} ApplyJoin(c: Cache, a: seq<Event>, b: seq<Event>)
    ensures ApplyAll(c, a + b) == ApplyAll(ApplyAll(c, a), b)
  {
    if b == [] {
      assert a + b == a;
    } else {
      hide Apply;
      var n := |b| - 1;
      ApplyJoin(c, a, b[..n]);
      Regroup(a, b);
      assert (a + b)[..|a| + n] == a + b[..n];
    }
  }

  lemma CacheAtStep(c: Cache, batches: seq<seq<Event>>, n: nat)
    requires 0 < n <= |batches|
    ensures CacheAt(c, batches, n) == CacheAt(ApplyAll(c, batches[0]), batches[1..], n - 1)
  {
    hide ApplyAll;
    assert batches[..n][0] == batches[0] && batches[..n][1..] == batches[1..][..n - 1];
    ApplyJoin(c, batches[0], Flatten(batches[1..][..n - 1]));
  }

  lemma CacheAtStart(c: Cache, batches: seq<seq<Event>>)
    ensures CacheAt(c, batches, 0) == c
  {
  }

  // The places of a node's ports in one direction.
  function PortsOn(ports: seq<PortEntry>, nodeId: nat, direction: Direction): set<nat> {
    set i | 0 <= i < |ports| && IsOn(ports[i], nodeId, direction)
  }

  lemma {:induction false} MatchesAreCounted(ports: seq<PortEntry>, nodeId: nat, direction: Direction)
    ensures |Matches(ports, nodeId, direction)| == |PortsOn(ports, nodeId, direction)|
  {
    if ports == [] {
      assert PortsOn(ports, nodeId, direction) == {};
    } else {
      var n := |ports| - 1;
      MatchesAreCounted(ports[..n], nodeId, direction);
      hide IsOn;
      var before := PortsOn(ports[..n], nodeId, direction);
      if IsOn(ports[n], nodeId, direction) {
        assert PortsOn(ports, nodeId, direction) == before + {n};
      } else {
        assert PortsOn(ports, nodeId, direction) == before;
      }
    }
  }

  // ------------------------------------------------------------ stable sorting

  ghost predicate Sorted(s: seq<PortEntry>) {
    forall i, j :: 0 <= i < j < |s| ==> s[i].ordinal <= s[j].ordinal
  }

  // The entries with one ordinal, in order.
  function OfOrdinal(s: seq<PortEntry>, k: nat): (r: seq<PortEntry>)
    ensures forall e :: e in r <==> e in s && e.ordinal == k
  {
    if s == [] then []
    else
      var n := |s| - 1;
      OfOrdinal(s[..n], k) + if s[n].ordinal == k then [s[n]] else []
  }

  ghost predicate SameByOrdinal(r: seq<PortEntry>, t: seq<PortEntry>) {
    forall k: nat :: OfOrdinal(r, k) == OfOrdinal(t, k)
  }

  // `r` is `s`, sorted by ordinal, entries of equal ordinal keeping their order.
  ghost predicate StablySorted(r: seq<PortEntry>, s: seq<PortEntry>) {
    Sorted(r) && SameByOrdinal(r, s)
  }

  lemma OfOrdinalSnoc(s: seq<PortEntry>, e: PortEntry, k: nat)
    ensures OfOrdinal(s + [e], k) == OfOrdinal(s, k) + if e.ordinal == k then [e] else []
  {
    assert (s + [e])[..|s|] == s;
  }

  lemma SortedSnoc(s: seq<PortEntry>, e: PortEntry)
    requires Sorted(s) && forall x <- s :: x.ordinal <= e.ordinal
    ensures Sorted(s + [e])
  {
  }

  lemma SortedPrefix(s: seq<PortEntry>)
    requires Sorted(s) && s != []
    ensures Sorted(s[..|s| - 1]) && forall x <- s :: x.ordinal <= s[|s| - 1].ordinal
  {
  }

  lemma InsertMembers(s: seq<PortEntry>, e: PortEntry)
    ensures forall x :: x in Insert(s, e) ==> x in s || x == e
  {
  }

  lemma {:induction false} InsertIsStable(s: seq<PortEntry>, e: PortEntry)
    requires Sorted(s)
    ensures StablySorted(Insert(s, e), s + [e])
  {
    hide OfOrdinal, Sorted;
    var n := |s| - 1;
    if s != [] {
      SortedPrefix(s);
    }
    if s == [] || s[n].ordinal <= e.ordinal {
      SortedSnoc(s, e);
    } else {
      var t, last := s[..n], s[n];
      InsertIsStable(t, e);
      InsertMembers(t, e);
      SortedSnoc(Insert(t, e), last);
      forall k: nat ensures OfOrdinal(Insert(s, e), k) == OfOrdinal(s + [e], k) {
        assert t + [last] == s;
        assert OfOrdinal(Insert(t, e), k) == OfOrdinal(t + [e], k);
        OfOrdinalSnoc(Insert(t, e), last, k);
        OfOrdinalSnoc(t, e, k);
        OfOrdinalSnoc(t, last, k);
        OfOrdinalSnoc(s, e, k);
      }
    }
  }

  lemma {:induction false} SortIsStable(s: seq<PortEntry>)
    ensures StablySorted(SortByOrdinal(s), s)
  {
    if s != [] {
      hide OfOrdinal;
      var n := |s| - 1;
      var t := SortByOrdinal(s[..n]);
      SortIsStable(s[..n]);
      InsertIsStable(t, s[n]);
      assert s[..n] + [s[n]] == s;
      forall k: nat ensures OfOrdinal(SortByOrdinal(s), k) == OfOrdinal(s, k) {
        assert OfOrdinal(Insert(t, s[n]), k) == OfOrdinal(t + [s[n]], k);
        OfOrdinalSnoc(t, s[n], k);
        OfOrdinalSnoc(s[..n], s[n], k);
      }
    }
  }

  // Both lists end in the same entry, and agree before it.
  lemma SameEnds(r: seq<PortEntry>, t: seq<PortEntry>)
    requires Sorted(r) && Sorted(t) && SameByOrdinal(r, t) && r != []
    ensures t != [] && r[|r| - 1] == t[|t| - 1] && SameByOrdinal(r[..|r| - 1], t[..|t| - 1])
  {
    hide OfOrdinal;
    assert r[|r| - 1] in OfOrdinal(t, r[|r| - 1].ordinal);
    var x, y, a, b := r[|r| - 1], t[|t| - 1], r[..|r| - 1], t[..|t| - 1];
    assert a + [x] == r && b + [y] == t;
    assert y in OfOrdinal(r, y.ordinal);
    assert x.ordinal == y.ordinal;
    OfOrdinalSnoc(a, x, x.ordinal);
    OfOrdinalSnoc(b, y, x.ordinal);
    var same := OfOrdinal(r, x.ordinal);
    assert same[|same| - 1] == x == y;
    forall k: nat ensures OfOrdinal(a, k) == OfOrdinal(b, k) {
      OfOrdinalSnoc(a, x, k);
      OfOrdinalSnoc(b, y, k);
      assert OfOrdinal(r, k) == OfOrdinal(t, k);
      if k == x.ordinal {
        assert OfOrdinal(a, k) == same[..|same| - 1] == OfOrdinal(b, k);
      } else {
        assert OfOrdinal(a, k) == OfOrdinal(r, k) && OfOrdinal(b, k) == OfOrdinal(t, k);
      }
    }
  }

  lemma {:induction false} StableSortIsUnique(r: seq<PortEntry>, t: seq<PortEntry>)
    requires Sorted(r) && Sorted(t) && SameByOrdinal(r, t)
    ensures r == t
  {
    if r == [] {
      assert t == [] || t[0] in OfOrdinal(t, t[0].ordinal);
      assert t == [] || OfOrdinal(t, t[0].ordinal) == OfOrdinal(r, t[0].ordinal);
    } else {
      hide OfOrdinal, SameByOrdinal;
      SameEnds(r, t);
      StableSortIsUnique(r[..|r| - 1], t[..|t| - 1]);
      assert r == r[..|r| - 1] + [r[|r| - 1]];
    }
  }

  // A listing is the stable sort by ordinal of the first `max` matches, and
  // nothing else is.
  lemma ListingIsStableSort(ports: seq<PortEntry>, nodeId: nat, direction: Direction, max: nat, r: seq<PortEntry>)
    ensures r == Listing(ports, nodeId, direction, max)
       <==> StablySorted(r, Matches(ports, nodeId, direction)[..Min(max, |Matches(ports, nodeId, direction)|)])
  {
    hide OfOrdinal, SortByOrdinal, Matches;
    var m := Matches(ports, nodeId, direction);
    var first := m[..Min(max, |m|)];
    SortIsStable(first);
    if StablySorted(r, first) {
      StableSortIsUnique(r, SortByOrdinal(first));
    }
  }

  ghost predicate DistinctIds(s: seq<PortEntry>) {
    forall i, j :: 0 <= i < j < |s| ==> s[i].id != s[j].id
  }

  lemma {:induction false} MatchesMembers(ports: seq<PortEntry>, nodeId: nat, direction: Direction)
    ensures forall e :: e in Matches(ports, nodeId, direction) <==> e in ports && IsOn(e, nodeId, direction)
    ensures DistinctIds(ports) ==> DistinctIds(Matches(ports, nodeId, direction))
  {
    if ports != [] {
      var n := |ports| - 1;
      MatchesMembers(ports[..n], nodeId, direction);
      hide IsOn;
      assert ports == ports[..n] + [ports[n]];
      if DistinctIds(ports) {
        var before := Matches(ports[..n], nodeId, direction);
        forall e | e in before ensures e.id != ports[n].id {
          assert e in ports[..n];
        }
      }
    }
  }

  lemma SortedMembers(s: seq<PortEntry>)
    ensures forall e :: e in SortByOrdinal(s) <==> e in s
  {
    SortIsStable(s);
    var r := SortByOrdinal(s);
    forall e ensures e in r <==> e in s {
      assert e in OfOrdinal(r, e.ordinal) <==> e in OfOrdinal(s, e.ordinal);
    }
  }

  // --------------------------------------------------------------- forgetting

  // The live ports of a node, by id.
  function LivePorts(live: map<nat, Global>, nodeId: nat, direction: Direction): set<nat> {
    set id | id in live && PortOf(id, live[id]).Some? && IsOn(PortOf(id, live[id]).value, nodeId, direction)
  }

  function EntryOf(live: map<nat, Global>, id: nat): PortEntry
    requires id in live && PortOf(id, live[id]).Some?
  {
    PortOf(id, live[id]).value
  }

  ghost predicate DistinctOrdinals(live: map<nat, Global>, nodeId: nat, direction: Direction) {
    forall a, b :: a in LivePorts(live, nodeId, direction) && b in LivePorts(live, nodeId, direction) && a != b ==>
      EntryOf(live, a).ordinal != EntryOf(live, b).ordinal
  }

  ghost predicate Reaches(events: seq<Event>, live: map<nat, Global>) {
    WellFormed(events) && Live(events) == live
  }

  function ListingAfter(events: seq<Event>, nodeId: nat, direction: Direction, max: nat): seq<PortEntry> {
    Listing(CacheAfter(events).ports, nodeId, direction, max)
  }

  function MatchesAfter(events: seq<Event>, nodeId: nat, direction: Direction): seq<PortEntry> {
    Matches(CacheAfter(events).ports, nodeId, direction)
  }

  // The matches are the live ports, each once.
  lemma MatchesAreLive(events: seq<Event>, live: map<nat, Global>, nodeId: nat, direction: Direction)
    requires Reaches(events, live)
    ensures var m := MatchesAfter(events, nodeId, direction);
            && DistinctIds(m) && |m| == |LivePorts(live, nodeId, direction)|
            && (forall e <- m :: e.id in LivePorts(live, nodeId, direction) && e == EntryOf(live, e.id))
            && (forall id <- LivePorts(live, nodeId, direction) :: EntryOf(live, id) in m)
  {
    hide Matches, CacheAfter, PortOf;
    CacheIsLive(events);
    var m, ids := MatchesAfter(events, nodeId, direction), LivePorts(live, nodeId, direction);
    MatchesMembers(CacheAfter(events).ports, nodeId, direction);
    EntriesAreKeyed();
    Cardinality(m, ids);
  }

  lemma {:induction false} Cardinality(m: seq<PortEntry>, ids: set<nat>)
    requires DistinctIds(m) && (forall e <- m :: e.id in ids) && forall id <- ids :: exists e <- m :: e.id == id
    ensures |m| == |ids|
  {
    if m == [] {
      assert ids == {};
    } else {
      var n := |m| - 1;
      assert m == m[..n] + [m[n]];
      forall id | id in ids - {m[n].id} ensures exists e <- m[..n] :: e.id == id {
        var e :| e in m && e.id == id;
        assert e in m[..n];
      }
      Cardinality(m[..n], ids - {m[n].id});
    }
  }

  lemma {:induction false} AtMostOne(m: seq<PortEntry>, k: nat)
    requires forall i, j :: 0 <= i < j < |m| ==> m[i].ordinal != m[j].ordinal
    ensures |OfOrdinal(m, k)| <= 1
  {
    if m != [] {
      var n := |m| - 1;
      AtMostOne(m[..n], k);
      var before := OfOrdinal(m[..n], k);
      assert before == [] || before[0] in m[..n];
    }
  }

  lemma MatchesDistinct(events: seq<Event>, live: map<nat, Global>, nodeId: nat, direction: Direction)
    requires Reaches(events, live) && DistinctOrdinals(live, nodeId, direction)
    ensures var m := MatchesAfter(events, nodeId, direction);
            forall i, j :: 0 <= i < j < |m| ==> m[i].ordinal != m[j].ordinal
  {
    hide Matches, CacheAfter, PortOf, LivePorts, WellFormed, Live;
    MatchesAreLive(events, live, nodeId, direction);
    var m := MatchesAfter(events, nodeId, direction);
    forall i, j | 0 <= i < j < |m| ensures m[i].ordinal != m[j].ordinal {
      assert m[i] in m && m[j] in m;
    }
  }

  // Two histories that leave the same globals live list a node's ports alike
  // when all of them are considered.
  lemma SameListing(g: seq<Event>, h: seq<Event>, live: map<nat, Global>, nodeId: nat, direction: Direction, max: nat)
    requires Reaches(g, live) && Reaches(h, live) && DistinctOrdinals(live, nodeId, direction)
    requires |LivePorts(live, nodeId, direction)| <= max
    ensures ListingAfter(g, nodeId, direction, max) == ListingAfter(h, nodeId, direction, max)
  {
    hide Matches, CacheAfter, PortOf, LivePorts, OfOrdinal, DistinctOrdinals, SortByOrdinal, Sorted, Reaches;
    var m, n := MatchesAfter(g, nodeId, direction), MatchesAfter(h, nodeId, direction);
    MatchesAreLive(g, live, nodeId, direction);
    MatchesAreLive(h, live, nodeId, direction);
    MatchesDistinct(g, live, nodeId, direction);
    MatchesDistinct(h, live, nodeId, direction);
    assert forall e :: e in m <==> e in n;
    forall k: nat ensures OfOrdinal(m, k) == OfOrdinal(n, k) {
      AtMostOne(m, k);
      AtMostOne(n, k);
      SameShort(m, n, k);
    }
    SortIsStable(m);
    SortIsStable(n);
    assert m[..|m|] == m && n[..|n|] == n;
    StableSortIsUnique(SortByOrdinal(m), SortByOrdinal(n));
  }

  lemma SameShort(m: seq<PortEntry>, n: seq<PortEntry>, k: nat)
    requires (forall e :: e in m <==> e in n) && |OfOrdinal(m, k)| <= 1 && |OfOrdinal(n, k)| <= 1
    ensures OfOrdinal(m, k) == OfOrdinal(n, k)
  {
    hide OfOrdinal;
    var a, b := OfOrdinal(m, k), OfOrdinal(n, k);
    assert a == [] || a[0] in m;
    assert b == [] || b[0] in n;
    if a != [] {
      assert a[0] in b;
    }
  }

  lemma AnnounceOne(before: seq<Event>, id: nat, g: Global, nodeId: nat, direction: Direction)
    requires WellFormed(before) && id !in Live(before)
    ensures var h := before + [Added(id, g, STORED)];
            && WellFormed(h) && Live(h) == Live(before)[id := g]
            && MatchesAfter(h, nodeId, direction)
            == MatchesAfter(before, nodeId, direction) + Matches(Listed(PortOf(id, g)), nodeId, direction)
  {
    var h := before + [Added(id, g, STORED)];
    assert h[..|before|] == before;
    hide Matches, PortOf, NodeOf;
    MatchesGrow(CacheAfter(before).ports, Listed(PortOf(id, g)), nodeId, direction);
  }

  // Announces the globals of `rest` after `base`.
  lemma {:induction false} Announce(base: seq<Event>, live: map<nat, Global>, rest: set<nat>, nodeId: nat,
                                    direction: Direction)
    returns (h: seq<Event>)
    requires WellFormed(base) && rest <= live.Keys && Live(base).Keys !! rest
    ensures WellFormed(h) && Live(h) == Live(base) + (map id | id in rest :: live[id])
    ensures MatchesAfter(base, nodeId, direction) <= MatchesAfter(h, nodeId, direction)
  {
    hide WellFormed, Live, MatchesAfter, Matches;
    if rest == {} {
      h := base;
      assert Live(base) + (map id | id in rest :: live[id]) == Live(base);
    } else {
      var id :| id in rest;
      var before := Announce(base, live, rest - {id}, nodeId, direction);
      h := before + [Added(id, live[id], STORED)];
      AnnounceOne(before, id, live[id], nodeId, direction);
      assert Live(h) == Live(base) + (map k | k in rest :: live[k]);
    }
  }

  lemma MatchesGrow(ports: seq<PortEntry>, more: seq<PortEntry>, nodeId: nat, direction: Direction)
    requires |more| <= 1
    ensures Matches(ports + more, nodeId, direction)
         == Matches(ports, nodeId, direction) + Matches(more, nodeId, direction)
  {
    if more == [] {
      assert ports + more == ports;
    } else {
      assert (ports + more)[..|ports|] == ports && more[..0] == [];
    }
  }

  lemma {:induction false} LowestOrdinal(live: map<nat, Global>, ids: set<nat>) returns (low: nat)
    requires ids != {} && forall id <- ids :: id in live && PortOf(id, live[id]).Some?
    ensures low in ids && forall id <- ids :: EntryOf(live, low).ordinal <= EntryOf(live, id).ordinal
  {
    var id :| id in ids;
    if ids == {id} {
      low := id;
    } else {
      low := LowestOrdinal(live, ids - {id});
      if EntryOf(live, id).ordinal < EntryOf(live, low).ordinal {
        low := id;
      }
    }
  }

  // The globals announced with one port first.
  lemma PortFirst(live: map<nat, Global>, id: nat, nodeId: nat, direction: Direction) returns (g: seq<Event>)
    requires id in LivePorts(live, nodeId, direction)
    ensures Reaches(g, live)
    ensures var m := MatchesAfter(g, nodeId, direction); m != [] && m[0] == EntryOf(live, id)
  {
    hide WellFormed, Live, MatchesAfter, Matches, PortOf;
    EmptyHistory(nodeId, direction);
    MatchesOne(EntryOf(live, id), nodeId, direction);
    AnnounceOne([], id, live[id], nodeId, direction);
    assert [] + [Added(id, live[id], STORED)] == [Added(id, live[id], STORED)];
    g := Announce([Added(id, live[id], STORED)], live, live.Keys - {id}, nodeId, direction);
    assert Live(g) == live;
  }

  // And with it last.
  lemma PortLast(live: map<nat, Global>, id: nat, nodeId: nat, direction: Direction) returns (h: seq<Event>)
    requires id in LivePorts(live, nodeId, direction)
    ensures Reaches(h, live)
    ensures var n := MatchesAfter(h, nodeId, direction); n != [] && n[|n| - 1] == EntryOf(live, id)
  {
    hide WellFormed, Live, MatchesAfter, Matches, PortOf;
    EmptyHistory(nodeId, direction);
    MatchesOne(EntryOf(live, id), nodeId, direction);
    var before := Announce([], live, live.Keys - {id}, nodeId, direction);
    AnnounceOne(before, id, live[id], nodeId, direction);
    h := before + [Added(id, live[id], STORED)];
    assert Live(h) == live;
  }

  lemma EmptyHistory(nodeId: nat, direction: Direction)
    ensures WellFormed([]) && Live([]) == map[] && MatchesAfter([], nodeId, direction) == []
  {
  }

  lemma MatchesOne(e: PortEntry, nodeId: nat, direction: Direction)
    requires IsOn(e, nodeId, direction)
    ensures Matches([e], nodeId, direction) == [e]
  {
    assert [e][..0] == [];
  }

  lemma {:induction false} FirstOfOrdinal(s: seq<PortEntry>)
    requires s != []
    ensures var k := s[0].ordinal; OfOrdinal(s, k) != [] && OfOrdinal(s, k)[0] == s[0]
  {
    if |s| > 1 {
      FirstOfOrdinal(s[..|s| - 1]);
    } else {
      assert OfOrdinal(s[..0], s[0].ordinal) == [];
    }
  }

  // Nothing gets before a first entry that is of lowest ordinal.
  lemma LowestStaysFirst(s: seq<PortEntry>)
    requires s != [] && forall e <- s :: s[0].ordinal <= e.ordinal
    ensures SortByOrdinal(s)[0] == s[0]
  {
    hide OfOrdinal, SortByOrdinal;
    var r := SortByOrdinal(s);
    SortIsStable(s);
    SortedMembers(s);
    FirstOfOrdinal(s);
    FirstOfOrdinal(r);
    assert s[0] in r && r[0] in s;
    assert r[0].ordinal == s[0].ordinal;
  }

  // `id` is a live port of the node with lowest ordinal.
  ghost predicate Lowest(live: map<nat, Global>, nodeId: nat, direction: Direction, id: nat) {
    && id in LivePorts(live, nodeId, direction)
    && forall k <- LivePorts(live, nodeId, direction) :: EntryOf(live, id).ordinal <= EntryOf(live, k).ordinal
  }

  ghost predicate OneLowest(live: map<nat, Global>, nodeId: nat, direction: Direction) {
    forall a, b :: Lowest(live, nodeId, direction, a) && Lowest(live, nodeId, direction, b) ==> a == b
  }

  // Announced first, such a port heads the listing; announced last of more
  // than are considered, it is not listed at all.
  lemma HeadsListing(events: seq<Event>, live: map<nat, Global>, nodeId: nat, direction: Direction, max: nat, low: nat)
    requires Reaches(events, live) && Lowest(live, nodeId, direction, low) && max > 0
    requires var m := MatchesAfter(events, nodeId, direction); m != [] && m[0] == EntryOf(live, low)
    ensures var a := ListingAfter(events, nodeId, direction, max); a != [] && a[0] == EntryOf(live, low)
  {
    hide Reaches, LivePorts, Matches, CacheAfter, PortOf, SortByOrdinal;
    MatchesAreLive(events, live, nodeId, direction);
    var m := MatchesAfter(events, nodeId, direction);
    var first := m[..Min(max, |m|)];
    forall e <- first ensures first[0].ordinal <= e.ordinal {
      assert e in m;
    }
    LowestStaysFirst(first);
  }

  lemma NotListed(events: seq<Event>, live: map<nat, Global>, nodeId: nat, direction: Direction, max: nat, last: nat)
    requires Reaches(events, live) && last in LivePorts(live, nodeId, direction)
    requires 0 < max < |LivePorts(live, nodeId, direction)|
    requires var n := MatchesAfter(events, nodeId, direction); n != [] && n[|n| - 1] == EntryOf(live, last)
    ensures var b := ListingAfter(events, nodeId, direction, max); b != [] && forall e <- b :: e.id != last
  {
    hide Reaches, LivePorts, Matches, CacheAfter, PortOf, SortByOrdinal;
    EntriesAreKeyed();
    MatchesAreLive(events, live, nodeId, direction);
    SortedMembers(MatchesAfter(events, nodeId, direction)[..max]);
  }

  // With more ports than are considered, some histories list a port of lowest
  // ordinal first and others not at all.
  lemma ListingsDiffer(live: map<nat, Global>, nodeId: nat, direction: Direction, max: nat)
    returns (g: seq<Event>, h: seq<Event>)
    requires 0 < max < |LivePorts(live, nodeId, direction)|
    ensures Reaches(g, live) && Reaches(h, live)
    ensures var a, b := ListingAfter(g, nodeId, direction, max), ListingAfter(h, nodeId, direction, max);
            a != [] && b != [] && Lowest(live, nodeId, direction, a[0].id) && forall e <- b :: e.id != a[0].id
  {
    hide Reaches, ListingAfter, MatchesAfter, PortOf;
    var low := LowestOrdinal(live, LivePorts(live, nodeId, direction));
    g := PortFirst(live, low, nodeId, direction);
    h := PortLast(live, low, nodeId, direction);
    HeadsListing(g, live, nodeId, direction, max, low);
    NotListed(h, live, nodeId, direction, max, low);
    assert EntryOf(live, low).id == low by { EntriesAreKeyed(); }
  }

  // With two ports of one ordinal, either can come first of the two.
  lemma TiesDiffer(live: map<nat, Global>, nodeId: nat, direction: Direction, max: nat, a: nat, b: nat)
    returns (g: seq<Event>, h: seq<Event>)
    requires a in LivePorts(live, nodeId, direction) && b in LivePorts(live, nodeId, direction)
    requires a != b && EntryOf(live, a).ordinal == EntryOf(live, b).ordinal
    requires |LivePorts(live, nodeId, direction)| <= max
    ensures Reaches(g, live) && Reaches(h, live)
    ensures ListingAfter(g, nodeId, direction, max) != ListingAfter(h, nodeId, direction, max)
  {
    hide Reaches, MatchesAfter, ListingAfter, PortOf, OfOrdinal;
    g := PortFirst(live, a, nodeId, direction);
    h := PortFirst(live, b, nodeId, direction);
    FirstIsFirstOfItsOrdinal(g, live, nodeId, direction, max);
    FirstIsFirstOfItsOrdinal(h, live, nodeId, direction, max);
    assert EntryOf(live, a).id == a && EntryOf(live, b).id == b by { EntriesAreKeyed(); }
  }

  lemma FirstIsFirstOfItsOrdinal(events: seq<Event>, live: map<nat, Global>, nodeId: nat, direction: Direction, max: nat)
    requires Reaches(events, live) && |LivePorts(live, nodeId, direction)| <= max
    requires MatchesAfter(events, nodeId, direction) != []
    ensures var first := MatchesAfter(events, nodeId, direction)[0];
            var same := OfOrdinal(ListingAfter(events, nodeId, direction, max), first.ordinal);
            same != [] && same[0] == first
  {
    hide Reaches, LivePorts, Matches, CacheAfter, PortOf, SortByOrdinal, OfOrdinal;
    MatchesAreLive(events, live, nodeId, direction);
    var m := MatchesAfter(events, nodeId, direction);
    assert m[..|m|] == m;
    SortIsStable(m);
    FirstOfOrdinal(m);
  }

  // A listing depends only on what is live, and not on the order in which it
  // came, exactly when all of the node's ports are considered and no two have
  // the same ordinal.
  lemma ListingForgetsHistory(live: map<nat, Global>, nodeId: nat, direction: Direction, max: nat)
    requires max > 0
    ensures (forall g, h :: Reaches(g, live) && Reaches(h, live) ==>
               ListingAfter(g, nodeId, direction, max) == ListingAfter(h, nodeId, direction, max))
       <==> |LivePorts(live, nodeId, direction)| <= max && DistinctOrdinals(live, nodeId, direction)
  {
    hide Reaches, ListingAfter, PortOf;
    if |LivePorts(live, nodeId, direction)| > max {
      var g, h := ListingsDiffer(live, nodeId, direction, max);
    } else if DistinctOrdinals(live, nodeId, direction) {
      forall g, h | Reaches(g, live) && Reaches(h, live)
        ensures ListingAfter(g, nodeId, direction, max) == ListingAfter(h, nodeId, direction, max)
      {
        SameListing(g, h, live, nodeId, direction, max);
      }
    } else {
      var a, b :| a in LivePorts(live, nodeId, direction) && b in LivePorts(live, nodeId, direction) && a != b
                  && EntryOf(live, a).ordinal == EntryOf(live, b).ordinal;
      var g, h := TiesDiffer(live, nodeId, direction, max, a, b);
    }
  }

  // The port id linked to when the target's ports are cached already.
  function Picked(events: seq<Event>, nodeId: nat): nat {
    PickAfter(CacheAfter(events), nodeId, [], TARGET_PORT_ATTEMPTS).0
  }

  // Every consumer naming the same node picks the same output port, whatever
  // order the graph came up in, exactly when the node has at most 64 and no two
  // of them have the lowest ordinal.
  lemma PickForgetsHistory(live: map<nat, Global>, nodeId: nat)
    ensures (forall g, h :: Reaches(g, live) && Reaches(h, live) ==> Picked(g, nodeId) == Picked(h, nodeId))
       <==> |LivePorts(live, nodeId, Output)| <= MAX_TARGET_PORTS && OneLowest(live, nodeId, Output)
  {
    hide Reaches, ListingAfter, LivePorts, Picked, Lowest;
    if |LivePorts(live, nodeId, Output)| > MAX_TARGET_PORTS {
      var g, h := ListingsDiffer(live, nodeId, Output, MAX_TARGET_PORTS);
      PickedIsFirst(g, nodeId);
      PickedIsFirst(h, nodeId);
    } else if OneLowest(live, nodeId, Output) {
      forall g, h | Reaches(g, live) && Reaches(h, live) ensures Picked(g, nodeId) == Picked(h, nodeId) {
        PickedLowest(g, live, nodeId);
        PickedLowest(h, live, nodeId);
      }
    } else {
      var a, b :| Lowest(live, nodeId, Output, a) && Lowest(live, nodeId, Output, b) && a != b;
      var g := FirstIsPicked(live, nodeId, a);
      var h := FirstIsPicked(live, nodeId, b);
    }
  }

  // Any output of lowest ordinal is picked after some history.
  lemma FirstIsPicked(live: map<nat, Global>, nodeId: nat, low: nat) returns (g: seq<Event>)
    requires Lowest(live, nodeId, Output, low)
    ensures Reaches(g, live) && Picked(g, nodeId) == low
  {
    hide Reaches, ListingAfter, MatchesAfter, Picked, PortOf;
    g := PortFirst(live, low, nodeId, Output);
    HeadsListing(g, live, nodeId, Output, MAX_TARGET_PORTS, low);
    PickedIsFirst(g, nodeId);
    assert EntryOf(live, low).id == low by { EntriesAreKeyed(); }
  }

  lemma PickedLowest(events: seq<Event>, live: map<nat, Global>, nodeId: nat)
    requires Reaches(events, live) && |LivePorts(live, nodeId, Output)| <= MAX_TARGET_PORTS
    ensures if LivePorts(live, nodeId, Output) == {} then Picked(events, nodeId) == 0
            else Lowest(live, nodeId, Output, Picked(events, nodeId))
  {
    hide Reaches, Matches, CacheAfter, LivePorts, PortOf, SortByOrdinal, Picked;
    if LivePorts(live, nodeId, Output) != {} {
      PickIsLowest(events, live, nodeId);
    } else {
      MatchesAreLive(events, live, nodeId, Output);
      PickedIsFirst(events, nodeId);
    }
  }

  // The port picked is one of lowest ordinal among all the node's outputs.
  lemma PickIsLowest(events: seq<Event>, live: map<nat, Global>, nodeId: nat)
    requires Reaches(events, live) && 0 < |LivePorts(live, nodeId, Output)| <= MAX_TARGET_PORTS
    ensures Lowest(live, nodeId, Output, Picked(events, nodeId))
  {
    hide Reaches, Matches, CacheAfter, PortOf, OfOrdinal, SortByOrdinal, Picked;
    MatchesAreLive(events, live, nodeId, Output);
    PickedIsFirst(events, nodeId);
    var m := MatchesAfter(events, nodeId, Output);
    assert m[..|m|] == m;
    SortIsStable(m);
    SortedMembers(m);
    var outs := SortByOrdinal(m);
    assert outs[0] in m;
    forall k <- LivePorts(live, nodeId, Output) ensures outs[0].ordinal <= EntryOf(live, k).ordinal {
      assert EntryOf(live, k) in outs;
    }
  }

  lemma PickedIsFirst(events: seq<Event>, nodeId: nat)
    ensures var outs := ListingAfter(events, nodeId, Output, MAX_TARGET_PORTS);
            Picked(events, nodeId) == if outs == [] then 0 else outs[0].id
  {
    hide Listing, CacheAfter;
  }
}
