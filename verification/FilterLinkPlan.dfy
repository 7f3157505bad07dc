// What a filter port's link is asked to join, told from the caches that the
// call's lookups see.
module FilterLinkPlans {
  import opened Base
  import opened Registry
  import opened RegistryHistory
  import opened Targets
  import opened FilterLinks
  import StreamPlans

  // ------------------------------------------------------------------ by name

  // The first port so named has this id, and that is none of the core's.
  ghost predicate IsNamed(ports: seq<PortEntry>, node: nat, name: string, dir: Direction, id: nat) {
    exists i :: 0 <= i < |ports| && IsFirstNamed(ports, node, name, dir, i) && ports[i].id == id != 0
  }

  predicate IsFirstNamed(ports: seq<PortEntry>, node: nat, name: string, dir: Direction, i: nat)
    requires i < |ports|
  {
    && IsOn(ports[i], node, dir) && ports[i].name == name
    && forall k :: 0 <= k < i ==> !(IsOn(ports[k], node, dir) && ports[k].name == name)
  }

  lemma {:induction false} NamedFrom(ports: seq<PortEntry>, node: nat, name: string, dir: Direction, from: nat)
    returns (i: nat)
    requires from <= |ports| && forall k :: 0 <= k < from ==> !(IsOn(ports[k], node, dir) && ports[k].name == name)
    ensures i <= |ports| && (i < |ports| ==> IsFirstNamed(ports, node, name, dir, i))
    ensures PortNamed(ports, node, name, dir, from) == if i < |ports| then ports[i].id else 0
    ensures i == |ports| ==> forall k :: 0 <= k < |ports| ==> !(IsOn(ports[k], node, dir) && ports[k].name == name)
    decreases |ports| - from
  {
    if from == |ports| || (IsOn(ports[from], node, dir) && ports[from].name == name) {
      i := from;
    } else {
      i := NamedFrom(ports, node, name, dir, from + 1);
    }
  }

  // A port is found by name exactly when a first one so named is cached, with
  // another id than 0.
  lemma NamedExactly(ports: seq<PortEntry>, node: nat, name: string, dir: Direction, id: nat)
    requires id != 0
    ensures PortNamed(ports, node, name, dir) == id <==> IsNamed(ports, node, name, dir, id)
  {
    var i := NamedFrom(ports, node, name, dir, 0);
  }

  lemma NamedIsNotZero(ports: seq<PortEntry>, node: nat, name: string, dir: Direction)
    ensures !IsNamed(ports, node, name, dir, 0)
  {
  }

  // ----------------------------------------------------------- the target's port

  function RoundEvents(rounds: seq<Round>): (batches: seq<seq<Event>>)
    ensures |batches| == |rounds|
  {
    seq(|rounds|, i requires 0 <= i < |rounds| => rounds[i].events)
  }

  ghost predicate HasOutput(c: Cache, node: nat) {
    exists e <- c.ports :: IsOn(e, node, Output)
  }

  // The lookup numbered n is the first to find an output of the node, after
  // round-trips that all ended in time.
  ghost predicate PicksAt(c: Cache, node: nat, rounds: seq<Round>, attempts: nat, n: nat) {
    && n < attempts && n <= |rounds|
    && HasOutput(CacheAt(c, RoundEvents(rounds), n), node)
    && forall k :: 0 <= k < n ==> !HasOutput(CacheAt(c, RoundEvents(rounds), k), node) && rounds[k].inTime
  }

  // The id of an output of the node, none of those considered being of lower
  // ordinal.
  ghost predicate IsLowestOutput(c: Cache, node: nat, id: nat) {
    var considered := Matches(c.ports, node, Output)[..Min(MAX_TARGET_PORTS, |Matches(c.ports, node, Output)|)];
    exists e <- c.ports :: IsOn(e, node, Output) && e.id == id && forall q <- considered :: e.ordinal <= q.ordinal
  }

  lemma ListingHeads(c: Cache, node: nat)
    ensures var outs := Listing(c.ports, node, Output, MAX_TARGET_PORTS);
            && (outs != [] <==> HasOutput(c, node))
            && (outs != [] ==> IsLowestOutput(c, node, outs[0].id))
  {
    hide Matches, SortByOrdinal, OfOrdinal;
    var m, outs := Matches(c.ports, node, Output), Listing(c.ports, node, Output, MAX_TARGET_PORTS);
    var considered := m[..Min(MAX_TARGET_PORTS, |m|)];
    MatchesMembers(c.ports, node, Output);
    SortIsStable(considered);
    SortedMembers(considered);
    if outs != [] {
      assert outs[0] in considered && outs[0] in m;
    }
    if HasOutput(c, node) {
      var e :| e in c.ports && IsOn(e, node, Output);
      assert e in m;
    }
  }

  lemma PicksAtStep(c: Cache, node: nat, rounds: seq<Round>, attempts: nat, n: nat)
    requires attempts > 0 && n > 0 && rounds != [] && rounds[0].inTime && !HasOutput(c, node)
    ensures PicksAt(c, node, rounds, attempts, n)
       <==> PicksAt(ApplyAll(c, rounds[0].events), node, rounds[1..], attempts - 1, n - 1)
  {
    hide HasOutput, CacheAt, ApplyAll;
    var batches, after := RoundEvents(rounds), ApplyAll(c, rounds[0].events);
    assert batches[1..] == RoundEvents(rounds[1..]);
    CacheAtStart(c, batches);
    forall k | 0 < k <= |rounds| ensures CacheAt(c, batches, k) == CacheAt(after, RoundEvents(rounds[1..]), k - 1) {
      CacheAtStep(c, batches, k);
    }
    if PicksAt(after, node, rounds[1..], attempts - 1, n - 1) {
      forall k | 0 <= k < n ensures !HasOutput(CacheAt(c, batches, k), node) && rounds[k].inTime {
        if k > 0 {
          assert rounds[1..][k - 1] == rounds[k];
        }
      }
    }
    if PicksAt(c, node, rounds, attempts, n) {
      forall k | 0 <= k < n - 1
        ensures !HasOutput(CacheAt(after, RoundEvents(rounds[1..]), k), node) && rounds[1..][k].inTime
      {
        assert rounds[k + 1].inTime && !HasOutput(CacheAt(c, batches, k + 1), node);
      }
    }
  }

  // The port picked is one of lowest ordinal in the first cache to have an
  // output of the node; without such a cache none is.
  lemma {:induction false} PickedExactly(c: Cache, node: nat, rounds: seq<Round>, attempts: nat)
    ensures forall n: nat :: PicksAt(c, node, rounds, attempts, n) ==>
              var (id, after) := PickAfter(c, node, rounds, attempts);
              after == CacheAt(c, RoundEvents(rounds), n) && IsLowestOutput(after, node, id)
    ensures (forall n: nat :: !PicksAt(c, node, rounds, attempts, n)) ==> PickAfter(c, node, rounds, attempts).0 == 0
    decreases attempts
  {
    hide HasOutput, IsLowestOutput, Listing, ApplyAll, CacheAt;
    CacheAtStart(c, RoundEvents(rounds));
    ListingHeads(c, node);
    if attempts > 0 {
      if HasOutput(c, node) {
        assert PicksAt(c, node, rounds, attempts, 0);
      } else if rounds != [] && rounds[0].inTime {
        var after, left := ApplyAll(c, rounds[0].events), attempts - 1;
        PickedExactly(after, node, rounds[1..], left);
        assert RoundEvents(rounds)[1..] == RoundEvents(rounds[1..]);
        forall n: nat | PicksAt(c, node, rounds, attempts, n)
          ensures n > 0 && PicksAt(after, node, rounds[1..], left, n - 1)
        {
          PicksAtStep(c, node, rounds, attempts, n);
        }
        if n: nat :| PicksAt(after, node, rounds[1..], left, n) {
          PicksAtStep(c, node, rounds, attempts, n + 1);
          assert PicksAt(c, node, rounds, attempts, n + 1);
        }
        forall n | 0 < n <= |rounds|
          ensures CacheAt(c, RoundEvents(rounds), n) == CacheAt(after, RoundEvents(rounds[1..]), n - 1)
        {
          CacheAtStep(c, RoundEvents(rounds), n);
        }
      }
    }
  }

  // ----------------------------------------------------------------- the own port

  function TryEvents(tries: seq<OwnTry>): (batches: seq<seq<Event>>)
    ensures |batches| == |tries|
  {
    seq(|tries|, i requires 0 <= i < |tries| => tries[i].round.events)
  }

  // With the filter's node known, its input of this name is cached.
  ghost predicate Owns(c: Cache, name: string, t: OwnTry, id: nat) {
    t.node.Some? && IsNamed(c.ports, t.node.value, name, Input, id)
  }

  // The try numbered n is the first to find the own port, after round-trips
  // that all ended in time.
  ghost predicate OwnAt(c: Cache, name: string, tries: seq<OwnTry>, attempts: nat, n: nat, id: nat) {
    && n < attempts && n < |tries|
    && Owns(CacheAt(c, TryEvents(tries), n), name, tries[n], id)
    && forall k :: 0 <= k < n ==> NotYet(c, name, tries, k)
  }

  ghost predicate NotYet(c: Cache, name: string, tries: seq<OwnTry>, k: nat)
    requires k < |tries|
  {
    tries[k].round.inTime && forall id: nat :: !Owns(CacheAt(c, TryEvents(tries), k), name, tries[k], id)
  }

  lemma TryFinds(c: Cache, name: string, t: OwnTry)
    ensures var id := if t.node.Some? then PortNamed(c.ports, t.node.value, name, Input) else 0;
            if id != 0 then Owns(c, name, t, id) && forall q: nat :: Owns(c, name, t, q) ==> q == id
            else forall q: nat :: !Owns(c, name, t, q)
  {
    if t.node.Some? {
      var i := NamedFrom(c.ports, t.node.value, name, Input, 0);
    }
  }

  lemma OwnAtStep(c: Cache, name: string, tries: seq<OwnTry>, attempts: nat, n: nat, id: nat)
    requires attempts > 0 && n > 0 && tries != [] && NotYet(c, name, tries, 0)
    ensures OwnAt(c, name, tries, attempts, n, id)
       <==> OwnAt(ApplyAll(c, tries[0].round.events), name, tries[1..], attempts - 1, n - 1, id)
  {
    hide Owns, CacheAt, ApplyAll;
    var batches, after := TryEvents(tries), ApplyAll(c, tries[0].round.events);
    assert batches[1..] == TryEvents(tries[1..]);
    forall k | 0 < k < |tries|
      ensures CacheAt(c, batches, k) == CacheAt(after, TryEvents(tries[1..]), k - 1)
      ensures tries[k] == tries[1..][k - 1] && NotYet(c, name, tries, k) == NotYet(after, name, tries[1..], k - 1)
    {
      CacheAtStep(c, batches, k);
    }
    if OwnAt(c, name, tries, attempts, n, id) {
      forall k | 0 <= k < n - 1 ensures NotYet(after, name, tries[1..], k) {
        assert NotYet(c, name, tries, k + 1);
      }
    }
  }

  // The own port found is the filter's cached input of that name, at the first
  // try that could know it.
  lemma {:induction false} OwnPortExactly(c: Cache, name: string, tries: seq<OwnTry>, attempts: nat, id: nat)
    requires id != 0
    ensures OwnPortAfter(c, name, tries, attempts).0 == id <==> exists n: nat :: OwnAt(c, name, tries, attempts, n, id)
    decreases attempts
  {
    hide Owns, ApplyAll, CacheAt, PortNamed;
    if attempts > 0 && tries != [] {
      CacheAtStart(c, TryEvents(tries));
      TryFinds(c, name, tries[0]);
      var first := if tries[0].node.Some? then PortNamed(c.ports, tries[0].node.value, name, Input) else 0;
      if first != 0 {
        assert first == id ==> OwnAt(c, name, tries, attempts, 0, id);
        assert forall n: nat :: OwnAt(c, name, tries, attempts, n, id) && n > 0 ==> NotYet(c, name, tries, 0);
      } else if !tries[0].round.inTime {
        assert forall n: nat :: OwnAt(c, name, tries, attempts, n, id) && n > 0 ==> NotYet(c, name, tries, 0);
      } else {
        var after, left := ApplyAll(c, tries[0].round.events), attempts - 1;
        OwnPortExactly(after, name, tries[1..], left, id);
        forall n: nat | OwnAt(c, name, tries, attempts, n, id)
          ensures n > 0 && OwnAt(after, name, tries[1..], left, n - 1, id)
        {
          OwnAtStep(c, name, tries, attempts, n, id);
        }
        if n: nat :| OwnAt(after, name, tries[1..], left, n, id) {
          OwnAtStep(c, name, tries, attempts, n + 1, id);
          assert OwnAt(c, name, tries, attempts, n + 1, id);
        }
      }
    }
  }

  // --------------------------------------------------------------------- the link

  // No node answers to the whole target; one does to what comes before the last
  // colon, if that fits its buffer, and the port is named after it.
  predicate Splits(nodes: seq<NodeEntry>, target: string, node: nat, port: string) {
    && Resolve(nodes, target) == 0
    && port != "" && ':' !in port && |port| + 1 < |target|
    && var n := target[..|target| - |port| - 1];
    target == n + ":" + port && |n| < NODE_PART && Resolve(nodes, n) == node != 0
  }

  lemma SplitsExactly(nodes: seq<NodeEntry>, target: string)
    ensures var (id, port) := ResolveNode(nodes, target);
            && (if port.None? then id == Resolve(nodes, target) else Resolve(nodes, target) == 0)
            && forall n, p :: Splits(nodes, target, n, p) <==> port == Some(p) && id == n
  {
    hide Resolve;
    var sep := LastColon(target);
    var (id, port) := ResolveNode(nodes, target);
    if port.Some? {
      assert target == target[..sep.value] + ":" + port.value;
    }
    forall n, p | Splits(nodes, target, n, p) ensures port == Some(p) && id == n {
      SplitsAtLast(target, target[..|target| - |p| - 1], p);
    }
  }

  lemma SplitsAtLast(target: string, n: string, p: string)
    requires target == n + ":" + p && ':' !in p
    ensures LastColon(target) == Some(|n|)
  {
    LastColonOf(n, p);
  }

  // What the link may take its media from, when the target is found.
  ghost predicate LeadsTo(c: Cache, target: string, rounds: seq<Round>, node: nat, port: Option<nat>) {
    if Resolve(c.nodes, target) != 0 then
      && node == Resolve(c.nodes, target)
      && (forall n: nat :: PicksAt(c, node, rounds, TARGET_PORT_ATTEMPTS, n) ==>
            IsLowestOutput(CacheAt(c, RoundEvents(rounds), n), node, if port.Some? then port.value else 0))
      && (port.Some? ==> exists n: nat :: PicksAt(c, node, rounds, TARGET_PORT_ATTEMPTS, n))
    else
      exists p :: Splits(c.nodes, target, node, p) && port.Some? && IsNamed(c.ports, node, p, Output, port.value)
  }

  // The cache by the time the target is looked up.
  ghost predicate IsLater(c: Cache, rounds: seq<Round>, after: Cache) {
    exists n: nat :: n <= |rounds| && after == CacheAt(c, RoundEvents(rounds), n)
  }

  lemma {:induction false} PicksLater(c: Cache, node: nat, rounds: seq<Round>, attempts: nat)
    ensures IsLater(c, rounds, PickAfter(c, node, rounds, attempts).1)
    decreases attempts
  {
    hide Listing, ApplyAll, CacheAt;
    CacheAtStart(c, RoundEvents(rounds));
    assert CacheAt(c, RoundEvents(rounds), 0) == c;
    if attempts > 0 && Listing(c.ports, node, Output, MAX_TARGET_PORTS) == [] && rounds != [] {
      var after, batches := ApplyAll(c, rounds[0].events), RoundEvents(rounds);
      assert batches[1..] == RoundEvents(rounds[1..]);
      CacheAtStart(after, batches[1..]);
      CacheAtStep(c, batches, 1);
      if rounds[0].inTime {
        PicksLater(after, node, rounds[1..], attempts - 1);
        var later := PickAfter(after, node, rounds[1..], attempts - 1).1;
        var n: nat :| n <= |rounds| - 1 && later == CacheAt(after, RoundEvents(rounds[1..]), n);
        CacheAtStep(c, batches, n + 1);
      }
    }
  }

  lemma TargetExactly(c: Cache, target: string, rounds: seq<Round>)
    ensures var ((node, port), after) := TargetAfter(c, target, rounds);
            && IsLater(c, rounds, after)
            && (node != 0 ==> LeadsTo(c, target, rounds, node, if port == 0 then None else Some(port)))
            && (node == 0 ==>
                  && Resolve(c.nodes, target) == 0
                  && forall n, p, id :: Splits(c.nodes, target, n, p) ==> !IsNamed(c.ports, n, p, Output, id))
  {
    hide Resolve, PickAfter, PortNamed, Splits, IsNamed, PicksAt, CacheAt, IsLowestOutput;
    SplitsExactly(c.nodes, target);
    CacheAtStart(c, RoundEvents(rounds));
    var (id, name) := ResolveNode(c.nodes, target);
    if id != 0 && name.None? {
      PickedExactly(c, id, rounds, TARGET_PORT_ATTEMPTS);
      PicksLater(c, id, rounds, TARGET_PORT_ATTEMPTS);
    } else if id != 0 {
      forall port | port != 0
        ensures PortNamed(c.ports, id, name.value, Output) == port <==> IsNamed(c.ports, id, name.value, Output, port)
      {
        NamedExactly(c.ports, id, name.value, Output, port);
      }
      NamedIsNotZero(c.ports, id, name.value, Output);
      assert Splits(c.nodes, target, id, name.value);
    }
  }

  // A link is asked for exactly when the target is found and the own port is
  // known or found in time. It then takes its media from the target, into the
  // filter's own node and port.
  lemma JoinsTargetExactly(c: Cache, target: string, env: CallEnv, name: string, known: nat)
    returns (after: Cache)
    ensures IsLater(c, env.rounds, after)
    ensures var (found, own) := LookUp(c, target, env, name, known);
            && (found.Found? ==>
                  && LeadsTo(c, target, env.rounds, found.ends.outNode, found.ends.outPort)
                  && found.ends.inNode == env.ownNode && found.ends.inPort == own != 0
                  && if known != 0 then own == known
                     else exists n: nat :: OwnAt(after, name, env.ownTries, OWN_PORT_ATTEMPTS, n, own))
            && (found == Missing(NotFound) ==>
                  && Resolve(c.nodes, target) == 0 && own == known
                  && forall n, p, id :: Splits(c.nodes, target, n, p) ==> !IsNamed(c.ports, n, p, Output, id))
            && (found == Missing(ConnectFailed) ==>
                  known == 0 && forall n: nat, id: nat :: !OwnAt(after, name, env.ownTries, OWN_PORT_ATTEMPTS, n, id))
            && (found.Found? || found == Missing(NotFound) || found == Missing(ConnectFailed))
  {
    hide Resolve, Splits, IsNamed, LeadsTo, IsLater, OwnAt, TargetAfter, OwnPortAfter;
    TargetExactly(c, target, env.rounds);
    after := TargetAfter(c, target, env.rounds).1;
    var own := OwnPortAfter(after, name, env.ownTries, OWN_PORT_ATTEMPTS).0;
    if own != 0 {
      OwnPortExactly(after, name, env.ownTries, OWN_PORT_ATTEMPTS, own);
    }
    forall n: nat, id: nat | OwnAt(after, name, env.ownTries, OWN_PORT_ATTEMPTS, n, id) ensures own == id != 0 {
      if id == 0 {
        NotOwnZero(after, name, env.ownTries, n);
      } else {
        OwnPortExactly(after, name, env.ownTries, OWN_PORT_ATTEMPTS, id);
      }
    }
  }

  lemma NotOwnZero(c: Cache, name: string, tries: seq<OwnTry>, n: nat)
    ensures !OwnAt(c, name, tries, OWN_PORT_ATTEMPTS, n, 0)
  {
  }

  // The own port is an input of the filter's node with the port's name, when
  // the node has the id the link is made with as soon as it has one.
  lemma OwnPortIsOwn(c: Cache, env: CallEnv, name: string, n: nat, id: nat)
    requires OwnAt(c, name, env.ownTries, OWN_PORT_ATTEMPTS, n, id)
    requires forall t <- env.ownTries :: t.node.Some? ==> t.node.value == env.ownNode
    ensures var now := CacheAt(c, TryEvents(env.ownTries), n);
            exists e <- now.ports :: IsOn(e, env.ownNode, Input) && e.name == name && e.id == id
  {
    var now := CacheAt(c, TryEvents(env.ownTries), n);
    hide CacheAt;
    assert env.ownTries[n] in env.ownTries;
    var i :| 0 <= i < |now.ports| && IsFirstNamed(now.ports, env.ownNode, name, Input, i) && now.ports[i].id == id;
    assert now.ports[i] in now.ports;
  }

  // What a call is refused for before anything is looked up, the first that
  // applies.
  lemma RefusesExactly(state: FilterState, p: PortLink, target: Option<string>, env: CallEnv)
    ensures var code := Refusal(state, p, target, env);
            var named := target.Some? && target.value != "" && p.input;
            var free, runs := p.proxy.None?, state == Running;
            && (code == Some(InCallback) <==> named && env.inCallback)
            && (code == Some(InvalidArg) <==> !named || (!env.inCallback && !free))
            && (code == Some(NotConfigured) <==> named && !env.inCallback && free && !runs)
            && (code == Some(Timeout) <==> named && !env.inCallback && free && runs && env.binding == BindTimedOut)
            && (code == Some(ConnectFailed) <==> named && !env.inCallback && free && runs && env.binding == BindFailed)
            && (code == None <==> named && !env.inCallback && free && runs && env.binding == Bound)
  {
  }
}
