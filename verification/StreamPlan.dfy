// What a stream's links join, whatever order the graph came up in.
module StreamPlans {
  import opened Base
  import opened Text
  import opened Registry
  import opened RegistryHistory
  import opened Targets
  import opened StreamLinks
  import opened PortSlots

  // When a stream is linked, every port of its own is wanted in one link, the
  // port i-th by ordinal with the target's port i-th by ordinal, data flowing
  // from an output to an input.
  lemma PairsByOrdinal(c: Cache, target: string, ownNode: nat, ownDir: Direction)
    requires PlanFor(c, target, ownNode, ownDir).Connect?
    ensures var Connect(w, own, peer) := PlanFor(c, target, ownNode, ownDir);
            && StablySorted(own, Matches(c.ports, ownNode, ownDir))
            && StablySorted(peer, Matches(c.ports, w.target, Opposite(ownDir)))
            && 0 < |own| <= |peer| && w.target == Resolve(c.nodes, target) != 0
            && forall i :: 0 <= i < |own| ==>
                 && IsOn(own[i], ownNode, ownDir) && IsOn(peer[i], w.target, Opposite(ownDir))
                 && Wanted(own, peer, w)[i]
                 == if ownDir == Output then Ends(ownNode, Some(own[i].id), w.target, Some(peer[i].id))
                    else Ends(w.target, Some(peer[i].id), ownNode, Some(own[i].id))
  {
    hide Matches, SortByOrdinal, OfOrdinal, Resolve, Listing;
    WholeListing(c, ownNode, ownDir);
    WholeListing(c, Resolve(c.nodes, target), Opposite(ownDir));
  }

  lemma WholeListing(c: Cache, node: nat, dir: Direction)
    requires |Matches(c.ports, node, dir)| <= MAX_CHANNELS
    ensures StablySorted(Listing(c.ports, node, dir, MAX_CHANNELS), Matches(c.ports, node, dir))
    ensures forall e <- Listing(c.ports, node, dir, MAX_CHANNELS) :: IsOn(e, node, dir)
  {
    hide Matches, SortByOrdinal, OfOrdinal;
    var m := Matches(c.ports, node, dir);
    assert m[..|m|] == m;
    SortIsStable(m);
    SortedMembers(m);
    MatchesMembers(c.ports, node, dir);
  }

  predicate Answers(e: NodeEntry, target: string) {
    if AllDigits(target) then e.serial != 0 && e.serial == StrToULL(target) else e.name == target
  }

  lemma {:induction false} NamedIsOne(nodes: seq<NodeEntry>, name: string, from: nat)
    requires from <= |nodes|
    ensures (NodeNamed(nodes, name, from) == 0 && forall i :: from <= i < |nodes| ==> nodes[i].name != name)
         || exists i :: from <= i < |nodes| && nodes[i].name == name && NodeNamed(nodes, name, from) == nodes[i].id
    decreases |nodes| - from
  {
    if from < |nodes| {
      NamedIsOne(nodes, name, from + 1);
    }
  }

  lemma {:induction false} SerialIsOne(nodes: seq<NodeEntry>, serial: nat, from: nat)
    requires from <= |nodes| && serial != 0
    ensures (NodeWithSerial(nodes, serial, from) == 0 && forall i :: from <= i < |nodes| ==> nodes[i].serial != serial)
         || exists i :: from <= i < |nodes| && nodes[i].serial == serial && NodeWithSerial(nodes, serial, from) == nodes[i].id
    decreases |nodes| - from
  {
    if from < |nodes| {
      SerialIsOne(nodes, serial, from + 1);
    }
  }

  // A target resolves to a node that answers to it, or to 0 when none does.
  lemma ResolvesToAnswer(nodes: seq<NodeEntry>, target: string)
    ensures (Resolve(nodes, target) == 0 && forall e <- nodes :: !Answers(e, target))
         || exists e <- nodes :: Answers(e, target) && Resolve(nodes, target) == e.id
  {
    if !AllDigits(target) {
      NamedIsOne(nodes, target, 0);
    } else if StrToULL(target) != 0 {
      SerialIsOne(nodes, StrToULL(target), 0);
    }
    if exists i :: 0 <= i < |nodes| && Answers(nodes[i], target) && Resolve(nodes, target) == nodes[i].id {
      var i :| 0 <= i < |nodes| && Answers(nodes[i], target) && Resolve(nodes, target) == nodes[i].id;
      assert nodes[i] in nodes;
    }
  }

  predicate LiveAnswer(live: map<nat, Global>, id: nat, target: string) {
    id in live && NodeOf(id, live[id]).Some? && Answers(NodeOf(id, live[id]).value, target)
  }

  // At most one live node answers to the target.
  ghost predicate Unambiguous(live: map<nat, Global>, target: string) {
    forall a, b :: LiveAnswer(live, a, target) && LiveAnswer(live, b, target) ==> a == b
  }

  lemma SameNodes(g: seq<Event>, h: seq<Event>, live: map<nat, Global>)
    requires Reaches(g, live) && Reaches(h, live)
    ensures forall e :: e in CacheAfter(g).nodes <==> e in CacheAfter(h).nodes
    ensures forall e <- CacheAfter(g).nodes :: e.id in live && NodeOf(e.id, live[e.id]) == Some(e)
  {
    hide CacheAfter, NodeOf;
    CacheIsLive(g);
    CacheIsLive(h);
  }

  lemma ResolveForgetsHistory(g: seq<Event>, h: seq<Event>, live: map<nat, Global>, target: string)
    requires Reaches(g, live) && Reaches(h, live) && Unambiguous(live, target)
    ensures Resolve(CacheAfter(g).nodes, target) == Resolve(CacheAfter(h).nodes, target)
  {
    hide CacheAfter, Resolve, Reaches, Answers, NodeOf;
    SameNodes(g, h, live);
    ResolvesToAnswer(CacheAfter(g).nodes, target);
    ResolvesToAnswer(CacheAfter(h).nodes, target);
    forall e <- CacheAfter(g).nodes | Answers(e, target) ensures LiveAnswer(live, e.id, target) {
    }
  }

  lemma SameCount(g: seq<Event>, h: seq<Event>, live: map<nat, Global>, node: nat, dir: Direction)
    requires Reaches(g, live) && Reaches(h, live)
    ensures |Matches(CacheAfter(g).ports, node, dir)| == |Matches(CacheAfter(h).ports, node, dir)|
         == |LivePorts(live, node, dir)|
  {
    hide Matches, CacheAfter, LivePorts, PortOf;
    MatchesAreLive(g, live, node, dir);
    MatchesAreLive(h, live, node, dir);
  }

  // The wiring depends on what is live only: any two histories that reach the
  // same live graph give the same channel pairs, or the same refusal.
  lemma PlanForgetsHistory(g: seq<Event>, h: seq<Event>, live: map<nat, Global>, target: string, ownNode: nat,
                           ownDir: Direction)
    requires Reaches(g, live) && Reaches(h, live) && Unambiguous(live, target)
    requires DistinctOrdinals(live, ownNode, ownDir)
    requires DistinctOrdinals(live, Resolve(CacheAfter(g).nodes, target), Opposite(ownDir))
    ensures PlanFor(CacheAfter(g), target, ownNode, ownDir) == PlanFor(CacheAfter(h), target, ownNode, ownDir)
  {
    hide Matches, CacheAfter, LivePorts, Resolve, Reaches, Unambiguous, DistinctOrdinals, Listing;
    ResolveForgetsHistory(g, h, live, target);
    var t, c, d := Resolve(CacheAfter(g).nodes, target), CacheAfter(g), CacheAfter(h);
    SameCount(g, h, live, ownNode, ownDir);
    SameCount(g, h, live, t, Opposite(ownDir));
    if |LivePorts(live, ownNode, ownDir)| <= MAX_CHANNELS && |LivePorts(live, t, Opposite(ownDir))| <= MAX_CHANNELS {
      SameListing(g, h, live, ownNode, ownDir, MAX_CHANNELS);
      SameListing(g, h, live, t, Opposite(ownDir), MAX_CHANNELS);
    }
  }

  // ------------------------------------------------------------ when links are made

  // Links are planned exactly when the target resolves and offers at least as
  // many ports as the stream has, which has some, neither more than 64. A
  // surplus is no error.
  lemma PlansExactly(c: Cache, target: string, ownNode: nat, ownDir: Direction)
    ensures var plan, node := PlanFor(c, target, ownNode, ownDir), Resolve(c.nodes, target);
            var nOwn := |PortsOn(c.ports, ownNode, ownDir)|;
            var nPeer := |PortsOn(c.ports, node, if ownDir == Output then Input else Output)|;
            && (plan == Refused(NotFound) <==> node == 0)
            && (plan.Connect? <==> node != 0 && 0 < nOwn <= nPeer <= 64)
            && (plan.Connect? || plan == Refused(NotFound) || plan == Refused(InvalidArg))
  {
    hide Matches, Listing, Resolve;
    MatchesAreCounted(c.ports, ownNode, ownDir);
    MatchesAreCounted(c.ports, Resolve(c.nodes, target), Opposite(ownDir));
  }

  function WakeEvents(wakes: seq<OwnWake>): (batches: seq<seq<Event>>)
    ensures |batches| == |wakes|
  {
    seq(|wakes|, i requires 0 <= i < |wakes| => wakes[i].events)
  }

  // After n wakes the stream's node is known, and has enough ports cached.
  predicate Ready(c: Cache, node: Option<nat>, expected: nat, dir: Direction, wakes: seq<OwnWake>, n: nat)
    requires n <= |wakes|
  {
    var known := if n == 0 then node else wakes[n - 1].node;
    known.Some? && |PortsOn(CacheAt(c, WakeEvents(wakes), n).ports, known.value, dir)| >= expected
  }

  // That was first so after n, none of which came too late.
  predicate ReadyFirst(c: Cache, node: Option<nat>, expected: nat, dir: Direction, wakes: seq<OwnWake>, n: nat) {
    && n <= |wakes| && Ready(c, node, expected, dir, wakes, n)
    && forall k :: 0 <= k < n ==> !wakes[k].timedOut && !Ready(c, node, expected, dir, wakes, k)
  }

  lemma ReadyStep(c: Cache, node: Option<nat>, expected: nat, dir: Direction, wakes: seq<OwnWake>, n: nat)
    requires wakes != [] && 0 < n <= |wakes|
    ensures var after, batches := ApplyAll(c, wakes[0].events), WakeEvents(wakes[1..]);
            && CacheAt(c, WakeEvents(wakes), n) == CacheAt(after, batches, n - 1)
            && (Ready(c, node, expected, dir, wakes, n) <==> Ready(after, wakes[0].node, expected, dir, wakes[1..], n - 1))
  {
    hide CacheAt, ApplyAll, PortsOn;
    assert WakeEvents(wakes)[1..] == WakeEvents(wakes[1..]);
    CacheAtStep(c, WakeEvents(wakes), n);
  }

  lemma ReadyFirstStep(c: Cache, node: Option<nat>, expected: nat, dir: Direction, wakes: seq<OwnWake>, n: nat)
    requires wakes != [] && 0 < n && !wakes[0].timedOut && !Ready(c, node, expected, dir, wakes, 0)
    ensures var after := ApplyAll(c, wakes[0].events);
            (ReadyFirst(c, node, expected, dir, wakes, n)
             <==> ReadyFirst(after, wakes[0].node, expected, dir, wakes[1..], n - 1))
  {
    hide Ready, ApplyAll;
    var after := ApplyAll(c, wakes[0].events);
    forall k | 0 < k <= |wakes|
      ensures Ready(c, node, expected, dir, wakes, k) <==> Ready(after, wakes[0].node, expected, dir, wakes[1..], k - 1)
      ensures k < |wakes| ==> wakes[k] == wakes[1..][k - 1]
    {
      ReadyStep(c, node, expected, dir, wakes, k);
    }
    if ReadyFirst(c, node, expected, dir, wakes, n) {
      forall k | 0 <= k < n - 1
        ensures !wakes[1..][k].timedOut && !Ready(after, wakes[0].node, expected, dir, wakes[1..], k)
      {
        assert !wakes[k + 1].timedOut && !Ready(c, node, expected, dir, wakes, k + 1);
      }
    }
  }

  // The wait for the stream's own ports ends well exactly when they are all
  // cached before its deadline, and then as soon as they are.
  lemma {:induction false} OwnPortsExactly(c: Cache, node: Option<nat>, expected: nat, dir: Direction, wakes: seq<OwnWake>)
    ensures var (own, after) := OwnNode(c, node, expected, dir, wakes);
            && (own.Some? <==> exists n: nat :: ReadyFirst(c, node, expected, dir, wakes, n))
            && forall n: nat :: ReadyFirst(c, node, expected, dir, wakes, n) ==>
                 after == CacheAt(c, WakeEvents(wakes), n) && own == if n == 0 then node else wakes[n - 1].node
    decreases wakes
  {
    hide CacheAt, ApplyAll, Matches;
    CacheAtStart(c, WakeEvents(wakes));
    if node.Some? {
      MatchesAreCounted(c.ports, node.value, dir);
    }
    if Ready(c, node, expected, dir, wakes, 0) {
      assert ReadyFirst(c, node, expected, dir, wakes, 0);
    } else if wakes != [] && !wakes[0].timedOut {
      var after := ApplyAll(c, wakes[0].events);
      OwnPortsExactly(after, wakes[0].node, expected, dir, wakes[1..]);
      hide Ready, PortsOn;
      forall n: nat | ReadyFirst(c, node, expected, dir, wakes, n)
        ensures n > 0 && ReadyFirst(after, wakes[0].node, expected, dir, wakes[1..], n - 1)
        ensures CacheAt(c, WakeEvents(wakes), n) == CacheAt(after, WakeEvents(wakes[1..]), n - 1)
      {
        ReadyFirstStep(c, node, expected, dir, wakes, n);
        ReadyStep(c, node, expected, dir, wakes, n);
      }
      if n: nat :| ReadyFirst(after, wakes[0].node, expected, dir, wakes[1..], n) {
        ReadyFirstStep(c, node, expected, dir, wakes, n + 1);
        assert ReadyFirst(c, node, expected, dir, wakes, n + 1);
      }
    }
  }

  // What a call is refused for before anything is looked up, the first that
  // applies.
  lemma RefusesExactly(s: Stream, target: Option<string>, env: CallEnv)
    ensures var code := s.Refusal(target, env);
            var named := target.Some? && target.value != "";
            var free, runs := !s.autoconnect && !s.hasLinks, s.state == Running && s.hasPwStream;
            && (code == Some(InCallback) <==> named && env.inCallback)
            && (code == Some(InvalidArg) <==> !named || (!env.inCallback && !free))
            && (code == Some(NotConfigured) <==> named && !env.inCallback && free && !runs)
            && (code == Some(Timeout) <==> named && !env.inCallback && free && runs && env.binding == BindTimedOut)
            && (code == Some(ConnectFailed) <==> named && !env.inCallback && free && runs && env.binding == BindFailed)
            && (code == None <==> named && !env.inCallback && free && runs && env.binding == Bound)
  {
  }

  // A call that is not refused plans its links in the first cache that has all
  // the stream's ports, and times out without one; memory can still fail it.
  lemma DecidesExactly(s: Stream, c: Cache, target: Option<string>, env: CallEnv)
    requires target.Some? && target.value != "" && !env.inCallback && !s.autoconnect && !s.hasLinks
    requires s.state == Running && s.hasPwStream && env.binding == Bound
    ensures (forall n: nat :: !ReadyFirst(c, env.node, s.expected, s.ownDir, env.ownWakes, n)) ==>
              s.Decision(c, target, env) == Refused(Timeout)
    ensures forall n: nat :: ReadyFirst(c, env.node, s.expected, s.ownDir, env.ownWakes, n) ==>
              var own := if n == 0 then env.node else env.ownWakes[n - 1].node;
              own.Some?
              && var plan := PlanFor(CacheAt(c, WakeEvents(env.ownWakes), n), target.value, own.value, s.ownDir);
                 if plan.Connect? && !(env.setMade && env.linksMade) then s.Decision(c, target, env) == Refused(NoMemory)
                 else s.Decision(c, target, env) == plan
  {
    OwnPortsExactly(c, env.node, s.expected, s.ownDir, env.ownWakes);
    hide OwnNode, PlanFor, CacheAt, PortsOn, ReadyFirst;
    var own := OwnNode(c, env.node, s.expected, s.ownDir, env.ownWakes).0;
    if own.Some? {
      var n: nat :| ReadyFirst(c, env.node, s.expected, s.ownDir, env.ownWakes, n);
    } else {
      assert s.Decision(c, target, env) == Refused(Timeout);
    }
  }

  // ------------------------------------------------------- what is really wired

  // Nothing handled before request i has disturbed the slots of its two ports.
  predicate Undisturbed(t: PortTable, script: nat -> LinkScript, own: seq<PortRef>, peer: seq<PortRef>, i: nat)
    requires i < |own| <= |peer|
  {
    !DisturbedBy(t, EventsBefore(script, i), own[i].slot) && !DisturbedBy(t, EventsBefore(script, i), peer[i].slot)
  }

  // The id is one cached port's, and not announced again.
  ghost predicate Settled(t: PortTable, events: seq<Event>, id: nat) {
    Once(t.ports, id) && forall ev <- events :: ev.Added? ==> ev.id != id
  }

  // That is so of every listed port, until it is linked.
  ghost predicate AllSettled(t: PortTable, script: nat -> LinkScript, ownPorts: seq<PortEntry>, peerPorts: seq<PortEntry>)
    requires |ownPorts| <= |peerPorts|
  {
    forall i :: 0 <= i < |ownPorts| ==>
      Settled(t, EventsBefore(script, i), ownPorts[i].id) && Settled(t, EventsBefore(script, i), peerPorts[i].id)
  }

  lemma {:induction false} LiveIsNotAnnounced(history: seq<Event>, events: seq<Event>, id: nat)
    requires WellFormed(history + events) && id in Live(history) && Removed(id) !in events
    ensures id in Live(history + events)
    ensures forall ev <- events :: ev.Added? ==> ev.id != id
  {
    if events == [] {
      assert history + events == history;
    } else {
      var n, m := |events| - 1, |history|;
      var all := history + events;
      assert all[..m + n] == history + events[..n] && all[|all| - 1] == events[n];
      LastSplit(events);
      LiveIsNotAnnounced(history, events[..n], id);
    }
  }

  lemma CachedOnce(history: seq<Event>, id: nat)
    requires WellFormed(history)
    ensures Once(CacheAfter(history).ports, id)
    ensures forall e <- CacheAfter(history).ports :: e.id in Live(history)
  {
    hide CacheAfter, Live, WellFormed, PortOf;
    CacheIsLive(history);
  }

  // In a graph where no id is announced while it is live, that is so of every
  // port that does not go before it is linked.
  lemma LiveAreSettled(t: PortTable, history: seq<Event>, script: nat -> LinkScript, own: seq<PortRef>,
                       peer: seq<PortRef>, ownPorts: seq<PortEntry>, peerPorts: seq<PortEntry>)
    requires |own| <= |peer| && Refer(t, own, ownPorts) && Refer(t, peer, peerPorts)
    requires t.ports == CacheAfter(history).ports && WellFormed(history)
    requires forall i :: 0 <= i < |own| ==>
               && WellFormed(history + EventsBefore(script, i))
               && Removed(ownPorts[i].id) !in EventsBefore(script, i)
               && Removed(peerPorts[i].id) !in EventsBefore(script, i)
    ensures AllSettled(t, script, ownPorts, peerPorts)
  {
    hide EventsBefore, CacheAfter, Live, WellFormed, Once;
    forall i | 0 <= i < |own|
      ensures Settled(t, EventsBefore(script, i), ownPorts[i].id) && Settled(t, EventsBefore(script, i), peerPorts[i].id)
    {
      assert t.ports[own[i].slot] in t.ports && t.ports[peer[i].slot] in t.ports;
      CachedOnce(history, ownPorts[i].id);
      CachedOnce(history, peerPorts[i].id);
      LiveIsNotAnnounced(history, EventsBefore(script, i), ownPorts[i].id);
      LiveIsNotAnnounced(history, EventsBefore(script, i), peerPorts[i].id);
    }
  }

  lemma RequestExactly(t: PortTable, script: nat -> LinkScript, own: seq<PortRef>, peer: seq<PortRef>,
                       ownPorts: seq<PortEntry>, peerPorts: seq<PortEntry>, w: Wiring, i: nat)
    requires i < |own| <= |peer| && Refer(t, own, ownPorts) && Refer(t, peer, peerPorts)
    requires Settled(t, EventsBefore(script, i), ownPorts[i].id) && Settled(t, EventsBefore(script, i), peerPorts[i].id)
    ensures Request(t, script, own, peer, w, i) == Wanted(ownPorts, peerPorts, w)[i] <==> Undisturbed(t, script, own, peer, i)
  {
    hide DisturbedBy, EventsBefore, IdAt;
    var events := EventsBefore(script, i);
    PointerHoldsExactly(t, events, own[i].slot);
    PointerHoldsExactly(t, events, peer[i].slot);
  }

  // The links asked for are the ones wanted exactly when no event handled since
  // the ports were listed has moved the cache's array, or written another entry
  // into the slot of a port yet to be linked.
  lemma WiredAsWantedExactly(t: PortTable, script: nat -> LinkScript, own: seq<PortRef>, peer: seq<PortRef>,
                             ownPorts: seq<PortEntry>, peerPorts: seq<PortEntry>, w: Wiring)
    requires |own| <= |peer| && Refer(t, own, ownPorts) && Refer(t, peer, peerPorts)
    requires AllSettled(t, script, ownPorts, peerPorts)
    ensures Requests(t, script, own, peer, w) == Wanted(ownPorts, peerPorts, w)
       <==> forall i :: 0 <= i < |own| ==> Undisturbed(t, script, own, peer, i)
  {
    hide Request, Refer, Settled, Undisturbed, EndsOf;
    SameLength(t, own, ownPorts);
    SameLength(t, peer, peerPorts);
    var requests, wanted := Requests(t, script, own, peer, w), Wanted(ownPorts, peerPorts, w);
    forall i | 0 <= i < |own| ensures requests[i] == wanted[i] <==> Undisturbed(t, script, own, peer, i) {
      RequestExactly(t, script, own, peer, ownPorts, peerPorts, w, i);
    }
    if requests == wanted {
      assert forall i :: 0 <= i < |own| ==> requests[i] == wanted[i];
    } else {
      assert !forall i :: 0 <= i < |own| ==> requests[i] == wanted[i];
    }
  }

  lemma SameLength(t: PortTable, refs: seq<PortRef>, entries: seq<PortEntry>)
    requires Refer(t, refs, entries)
    ensures |refs| == |entries|
  {
  }

  // As long as none has, that is so whatever ids are announced.
  lemma UndisturbedIsWired(t: PortTable, script: nat -> LinkScript, own: seq<PortRef>, peer: seq<PortRef>,
                           ownPorts: seq<PortEntry>, peerPorts: seq<PortEntry>, w: Wiring)
    requires |own| <= |peer| && Refer(t, own, ownPorts) && Refer(t, peer, peerPorts)
    requires forall i :: 0 <= i < |own| ==> Undisturbed(t, script, own, peer, i)
    ensures Requests(t, script, own, peer, w) == Wanted(ownPorts, peerPorts, w)
  {
    hide EventsBefore, DisturbedBy, TableAll;
    forall i | 0 <= i < |own| ensures Request(t, script, own, peer, w, i) == Wanted(ownPorts, peerPorts, w)[i] {
      assert Undisturbed(t, script, own, peer, i);
      UndisturbedHolds(t, EventsBefore(script, i), own[i].slot);
      UndisturbedHolds(t, EventsBefore(script, i), peer[i].slot);
    }
  }

  // So a graph in which no port goes, and the ports that come fit the array,
  // while the call runs, is wired as wanted.
  lemma QuietGraphIsWiredAsWanted(t: PortTable, script: nat -> LinkScript, own: seq<PortRef>, peer: seq<PortRef>,
                                  ownPorts: seq<PortEntry>, peerPorts: seq<PortEntry>, w: Wiring)
    requires |own| <= |peer| && Refer(t, own, ownPorts) && Refer(t, peer, peerPorts)
    requires forall i :: 0 <= i < |own| ==> |t.ports| + |EventsBefore(script, i)| <= t.capacity
    requires forall i, k :: 0 <= i < |own| && 0 <= k < |EventsBefore(script, i)| ==>
               !TakesPort(TableAll(t, EventsBefore(script, i)[..k]), EventsBefore(script, i)[k])
    ensures Requests(t, script, own, peer, w) == Wanted(ownPorts, peerPorts, w)
  {
    hide EventsBefore, TakesPort, TableAll;
    forall i | 0 <= i < |own| ensures Undisturbed(t, script, own, peer, i) {
      QuietIsUndisturbed(t, EventsBefore(script, i), own[i].slot);
      QuietIsUndisturbed(t, EventsBefore(script, i), peer[i].slot);
    }
    UndisturbedIsWired(t, script, own, peer, ownPorts, peerPorts, w);
  }

  // The script of a link that comes up in its first wait, after these notices.
  function UpAfter(notices: seq<Notice>, i: nat): LinkScript {
    LinkScript(true, true, [], [Wake(notices + [Info(i, true, Active)], false)])
  }

  lemma UpAfterIsOk(notices: seq<Notice>, i: nat)
    requires !Reports(notices, i, {Error})
    ensures Outcome(UpAfter(notices, i), i) == Ok
    ensures During(UpAfter(notices, i), i) == Handled(UpAfter(notices, i), i) == notices + [Info(i, true, Active)]
  {
    var all, wakes := notices + [Info(i, true, Active)], UpAfter(notices, i).wakes;
    assert all[|notices|] == Info(i, true, Active);
    ReportsSnoc(all, i, {Error});
    assert all[..|notices|] == notices;
    assert Reports(all, i, {Active, Paused});
    ToldFlags(NEW_LINK, i, all);
    var told := ToldAll(NEW_LINK, i, all);
    assert Waited(NEW_LINK, i, wakes).1 == Waited(told, i, wakes[1..]).1;
    assert Heard(NEW_LINK, i, wakes) == all + Heard(told, i, wakes[1..]) == all;
    assert [] + all == all;
  }

  // Ports 12 and 13 of node 1 wired to ports 10 and 11 of node 2, beside an
  // unrelated port 5. While the first link is awaited port 5 goes, and another
  // unrelated port, 20, comes.
  const OWN_PORTS := [PortEntry(12, 1, "o0", Output, 0), PortEntry(13, 1, "o1", Output, 1)]
  const PEER_PORTS := [PortEntry(10, 2, "p0", Input, 0), PortEntry(11, 2, "p1", Input, 1)]
  const TABLE := PortTable([PortEntry(5, 9, "x", Input, 0)] + PEER_PORTS + OWN_PORTS, [], 32, 0)
  const WIRING := Wiring(1, 2, Output)
  const GOES := Removed(5)
  const COMES := Added(20, PortGlobal(Some("y"), Some("9"), None, None), STORED)

  function SwapScript(i: nat): LinkScript {
    UpAfter(if i == 0 then [Graph(GOES), Graph(COMES)] else [], i)
  }

  lemma SwapEvents()
    ensures FirstFailure(SwapScript, 0, 2) == Ok
    ensures EventsBefore(SwapScript, 0) == [] && EventsBefore(SwapScript, 1) == [GOES, COMES]
  {
    var swap := [Graph(GOES), Graph(COMES)];
    UpAfterIsOk(swap, 0);
    UpAfterIsOk([], 1);
    assert FirstFailure(SwapScript, 0, 2) == FirstFailure(SwapScript, 1, 2) == FirstFailure(SwapScript, 2, 2);
    assert Past(SwapScript, 0) + SwapScript(0).before == [];
    var all := swap + [Info(0, true, Active)];
    assert Past(SwapScript, 1) + SwapScript(1).before == all by {
      assert Past(SwapScript, 1) == [] + Handled(SwapScript(0), 0);
    }
    assert all[..2] == swap && swap[..1] == [Graph(GOES)] && swap[..1][..0] == [];
    assert GraphEvents([Graph(GOES)]) == [GOES];
    assert GraphEvents(swap) == [GOES] + [COMES];
    assert GraphEvents(all) == GraphEvents(swap) + [];
  }

  lemma SwapTable()
    ensures IdAt(TableAll(TABLE, [GOES, COMES]), PortRef(0, 4)) == Some(20)
    ensures IdAt(TableAll(TABLE, [GOES, COMES]), PortRef(0, 2)) == Some(11)
  {
    var events := [GOES, COMES];
    assert events[..1] == [GOES] && events[..1][..0] == [];
    assert IndexOf(TABLE.ports, PortId, 5) == 0;
    var after := TableAfter(TABLE, GOES);
    assert TableAll(TABLE, events[..1]) == after;
    assert |after.ports| == 4 && after.ports[2] == PEER_PORTS[1];
  }

  const OWN_REFS := [PortRef(0, 3), PortRef(0, 4)]
  const PEER_REFS := [PortRef(0, 1), PortRef(0, 2)]

  lemma SwapIsListed()
    ensures Refer(TABLE, OWN_REFS, OWN_PORTS) && Refer(TABLE, PEER_REFS, PEER_PORTS)
  {
  }

  lemma SwapIsSettled()
    ensures AllSettled(TABLE, SwapScript, OWN_PORTS, PEER_PORTS)
  {
    hide EventsBefore, FirstFailure, SwapScript;
    SwapEvents();
    forall i | 0 <= i < 2
      ensures Settled(TABLE, EventsBefore(SwapScript, i), OWN_PORTS[i].id)
      ensures Settled(TABLE, EventsBefore(SwapScript, i), PEER_PORTS[i].id)
    {
    }
  }

  // The second link is then asked for with the newcomer's id, and the call
  // returns OK all the same.
  lemma SecondLinkMisdirected()
    ensures Refer(TABLE, OWN_REFS, OWN_PORTS) && Refer(TABLE, PEER_REFS, PEER_PORTS)
    ensures AllSettled(TABLE, SwapScript, OWN_PORTS, PEER_PORTS) && FirstFailure(SwapScript, 0, 2) == Ok
    ensures Wanted(OWN_PORTS, PEER_PORTS, WIRING)[1] == Ends(1, Some(13), 2, Some(11))
    ensures Requests(TABLE, SwapScript, OWN_REFS, PEER_REFS, WIRING)[1] == Ends(1, Some(20), 2, Some(11))
  {
    hide EventsBefore, TableAll, FirstFailure, SwapScript, IdAt, Settled, Refer;
    SwapIsListed();
    SwapIsSettled();
    SwapEvents();
    SwapTable();
  }

  // ---------------------------------------------------------- what is really up

  // When the call returns OK, every link's last word is that it is up exactly
  // when each word that one is down, handled from its own request on, was
  // followed by one that it is up again.
  lemma AllUpExactly(s: Stream, target: nat, requests: seq<Ends>, base: seq<Ends>, script: nat -> LinkScript)
    requires s.Linked(target, requests, base, script) && FirstFailure(script, 0, |requests|) == Ok
    ensures (forall i :: 0 <= i < |s.links| ==> s.links[i].standing)
       <==> forall k :: 0 <= k < |requests| ==> Answered(Since(script, k, |requests|), k)
  {
    hide Outcome, FirstFailure, LinkAfter, Since, Answered;
    FirstFailureIsFirst(script, 0, |requests|);
    var n := |requests|;
    forall k | 0 <= k < n ensures s.links[k].standing <==> Answered(Since(script, k, n), k) {
      LinkAfterExactly(script, k, n);
    }
    if forall i :: 0 <= i < n ==> s.links[i].standing {
      assert forall k :: 0 <= k < n ==> Answered(Since(script, k, n), k);
    } else {
      var k :| 0 <= k < n && !s.links[k].standing;
      assert !Answered(Since(script, k, n), k);
    }
  }

  // The flags the program keeps say less: a link is flagged lost exactly when
  // an error of it was handled while a later one was requested.
  lemma FlaggedExactly(s: Stream, target: nat, requests: seq<Ends>, base: seq<Ends>, script: nat -> LinkScript)
    requires s.Linked(target, requests, base, script) && FirstFailure(script, 0, |requests|) == Ok
    ensures forall i :: 0 <= i < |s.links| ==>
              s.links[i].seenActive
              && (s.links[i].lost <==> exists j :: i < j < |requests| && Reports(Handled(script(j), j), i, {Error}))
  {
    hide Outcome, FirstFailure, LinkAfter, Reports, Handled;
    FirstFailureIsFirst(script, 0, |requests|);
    forall k | 0 <= k < |requests|
      ensures s.links[k].seenActive && (s.links[k].lost <==> LostLater(script, k, |requests|))
    {
      LinkAfterExactly(script, k, |requests|);
    }
  }

  // The cases that break it. The first link fails, or is gone, while the second
  // is awaited, and OK is returned over it.
  function LosingScript(word: LinkState): nat -> LinkScript {
    (i: nat) => UpAfter(if i == 1 then [Info(0, true, word)] else [], i)
  }

  lemma LostLinkGoesUnseen(word: LinkState)
    requires word in DOWN
    ensures FirstFailure(LosingScript(word), 0, 2) == Ok
    ensures var l := LinkAfter(LosingScript(word), 0, 2); !l.standing && (l.lost <==> word == Error)
  {
    var script, infos := LosingScript(word), [Info(0, true, Active), Info(0, true, word), Info(1, true, Active)];
    hide LosingScript;
    LosingScriptHears(word);
    ToldTwo(NEW_LINK, 0, infos[0], infos[1]);
    assert infos[..2] == [infos[0], infos[1]];
    assert FirstFailure(script, 0, 2) == FirstFailure(script, 1, 2) == FirstFailure(script, 2, 2);
  }

  lemma LosingScriptHears(word: LinkState)
    ensures var script := LosingScript(word);
            && Outcome(script(0), 0) == Outcome(script(1), 1) == Ok
            && Since(script, 0, 2) == [Info(0, true, Active), Info(0, true, word), Info(1, true, Active)]
  {
    hide Outcome, During, Handled;
    var script := LosingScript(word);
    UpAfterIsOk([], 0);
    UpAfterIsOk([Info(0, true, word)], 1);
    assert script(0) == UpAfter([], 0) && script(1) == UpAfter([Info(0, true, word)], 1);
    assert Since(script, 0, 1) == [Info(0, true, Active)];
    assert Since(script, 0, 2) == [Info(0, true, Active)] + ([Info(0, true, word)] + [Info(1, true, Active)]);
  }

  lemma ToldTwo(l: Link, i: nat, a: Notice, b: Notice)
    ensures ToldAll(l, i, [a, b]) == Told(Told(l, i, a), i, b)
  {
    assert [a, b][..1] == [a] && [a][..0] == [];
    assert ToldAll(l, i, [a]) == Told(ToldAll(l, i, []), i, a);
  }

  // A single link is gone again within the wake that saw it come up.
  function GoneScript(i: nat): LinkScript {
    LinkScript(true, true, [], [Wake([Info(i, true, Active), Info(i, true, Unlinked)], false)])
  }

  lemma LinkGoneAtReturn()
    ensures FirstFailure(GoneScript, 0, 1) == Ok && !LinkAfter(GoneScript, 0, 1).standing
  {
    var infos := [Info(0, true, Active), Info(0, true, Unlinked)];
    var wakes := [Wake(infos, false)];
    var told := ToldAll(NEW_LINK, 0, infos);
    ToldTwo(NEW_LINK, 0, infos[0], infos[1]);
    assert Waited(NEW_LINK, 0, wakes) == Waited(told, 0, wakes[1..]);
    assert Heard(NEW_LINK, 0, wakes) == infos + [];
    assert FirstFailure(GoneScript, 0, 1) == FirstFailure(GoneScript, 1, 1);
  }
}
