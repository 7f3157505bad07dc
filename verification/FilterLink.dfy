// A filter port's link, and telling the application once that its source is
// gone (src/pwf_filter_port_link.c, src/pwf_filter.c).
module FilterLinks {
  import opened Base
  import opened Registry
  import opened Targets

  datatype FilterState = Created | Running | Stopped

  datatype LinkState = Error | Unlinked | Init | Negotiating | Allocating | Paused | Active

  // The link fields of struct pwf_filter_port, the pending pwf_link_wait, and
  // the record of the proxies made for the port (numbered in order) and of
  // their destructions.
  datatype PortLink = PortLink(
    input: bool, proxy: Option<nat>, wait: Option<Pending>, seenActive: bool, lost: bool, lossReported: bool,
    made: nat, destroyed: seq<nat>)

  // struct pwf_link_wait
  datatype Pending = Pending(done: bool, result: Code)

  // What happens to a port on PipeWire's loop, or under its lock: a link-info
  // event, a format set or cleared, or its link released by a stop or an
  // unlink, from a callback or another thread.
  datatype PortEvent = Info(changed: bool, state: LinkState) | Format(isSet: bool) | Taken

  // pwf_filter_claim_source_loss
  function Claim(state: FilterState, p: PortLink): (PortLink, bool) {
    if state != Running || p.lossReported then (p, false) else (p.(lossReported := true), true)
  }

  // pwf_filter_link_on_info; the flag tells if a loss is reported.
  function OnInfo(state: FilterState, p: PortLink, changed: bool, st: LinkState): (PortLink, bool) {
    if p.proxy.None? || !changed then (p, false)
    else if st == Paused || st == Active then
      (p.(seenActive := true, wait := if p.wait.Some? then Some(Pending(true, Ok)) else None), false)
    else if st != Error && st != Unlinked then (p, false)
    else if p.wait.Some? then (p.(wait := Some(Pending(true, InvalidFormat))), false)
    else if !p.seenActive then (p, false)
    else Claim(state, p.(seenActive := false, lost := true))
  }

  // pwf_filter_on_param_changed
  function OnFormat(state: FilterState, p: PortLink, isSet: bool): (PortLink, bool) {
    if isSet then (p.(lossReported := false), false)
    else if !p.input then (p, false)
    else Claim(state, p)
  }

  // pwf_filter_port_link_release
  function Release(p: PortLink): PortLink {
    var q := p.(seenActive := false, lost := false);
    if p.proxy.None? then q
    else q.(proxy := None, lossReported := true, destroyed := p.destroyed + [p.proxy.value])
  }

  function Handle(state: FilterState, p: PortLink, e: PortEvent): (r: (PortLink, bool))
    ensures r.0.made == p.made && r.0.input == p.input && r.0.wait.Some? == p.wait.Some?
    ensures !e.Taken? ==> r.0.proxy == p.proxy && r.0.destroyed == p.destroyed
  {
    match e
    case Info(changed, st) => OnInfo(state, p, changed, st)
    case Format(isSet) => OnFormat(state, p, isSet)
    case Taken => (Release(p), false)
  }

  // The two ends of a link attempt: the proxy is made, the wait is over.
  function Begin(p: PortLink): PortLink {
    p.(proxy := Some(p.made), made := p.made + 1, seenActive := false, lost := false,
       wait := Some(Pending(false, ConnectFailed)))
  }

  function ResultOf(p: PortLink, timedOut: bool): Code {
    if p.wait.None? || timedOut || !p.wait.value.done then Timeout else p.wait.value.result
  }

  function End(p: PortLink, timedOut: bool): PortLink {
    var q := p.(wait := None);
    if ResultOf(p, timedOut) != Ok then Release(q) else q
  }

  // One return of the timed wait: the events handled meanwhile, and whether
  // the deadline had passed.
  datatype Wake = Wake(events: seq<PortEvent>, timedOut: bool)

  function HandleAll(state: FilterState, p: PortLink, events: seq<PortEvent>): (r: PortLink)
    ensures r.made == p.made && r.input == p.input && r.wait.Some? == p.wait.Some?
  {
    if events == [] then p
    else Handle(state, HandleAll(state, p, events[..|events| - 1]), events[|events| - 1]).0
  }

  // The waiting loop; the flag tells if the deadline ended it. When no wake is
  // left the deadline has passed.
  function Waited(state: FilterState, p: PortLink, wakes: seq<Wake>): (r: (PortLink, bool))
    requires p.wait.Some?
    ensures r.0.made == p.made && r.0.input == p.input && r.0.wait.Some?
    ensures !r.1 ==> r.0.wait.value.done
    decreases wakes
  {
    if p.wait.value.done then (p, false)
    else if wakes == [] then (p, true)
    else
      var told := HandleAll(state, p, wakes[0].events);
      if wakes[0].timedOut then (told, true) else Waited(state, told, wakes[1..])
  }

  // What that wait handles.
  function WhileWaiting(state: FilterState, p: PortLink, wakes: seq<Wake>): seq<PortEvent>
    requires p.wait.Some?
    decreases wakes
  {
    if p.wait.value.done || wakes == [] then []
    else
      wakes[0].events
      + if wakes[0].timedOut then [] else WhileWaiting(state, HandleAll(state, p, wakes[0].events), wakes[1..])
  }

  predicate TakenIn(events: seq<PortEvent>) {
    exists k :: 0 <= k < |events| && events[k].Taken?
  }

  // At most one proxy is live, and every other one was destroyed once, in
  // order.
  predicate Conserved(p: PortLink) {
    match p.proxy
    case None => p.destroyed == Range(p.made)
    case Some(k) => p.made == k + 1 && p.destroyed == Range(k)
  }

  function Range(n: nat): (s: seq<nat>)
    ensures |s| == n && forall i :: 0 <= i < n ==> s[i] == i
  {
    seq(n, i => i)
  }

  // Proxy `id` is being waited for, or was taken away meanwhile; a decided wait
  // ends in Ok only over a link that came up.
  ghost predicate Attempting(p: PortLink, id: nat, taken: bool) {
    && p.wait.Some? && p.made == id + 1 && Conserved(p)
    && if taken then p.proxy.None? && !p.seenActive && !p.lost
       else p.proxy == Some(id) && (p.wait.value.done && p.wait.value.result == Ok ==> p.seenActive)
  }

  lemma HandleAttempting(state: FilterState, p: PortLink, e: PortEvent, id: nat, taken: bool)
    requires Attempting(p, id, taken)
    ensures Attempting(Handle(state, p, e).0, id, taken || e.Taken?)
  {
  }

  lemma {:induction false} HandlingAttempting(state: FilterState, p: PortLink, events: seq<PortEvent>, id: nat, taken: bool)
    requires Attempting(p, id, taken)
    ensures Attempting(HandleAll(state, p, events), id, taken || TakenIn(events))
  {
    if events != [] {
      var n := |events| - 1;
      HandlingAttempting(state, p, events[..n], id, taken);
      HandleAttempting(state, HandleAll(state, p, events[..n]), events[n], id, taken || TakenIn(events[..n]));
      TakenSnoc(events[..n], events[n]);
      assert events[..n] + [events[n]] == events;
    }
  }

  lemma TakenSnoc(events: seq<PortEvent>, e: PortEvent)
    ensures TakenIn(events + [e]) <==> TakenIn(events) || e.Taken?
  {
    TakenJoin(events, [e]);
    assert [e][0] == e;
  }

  lemma TakenJoin(a: seq<PortEvent>, b: seq<PortEvent>)
    ensures TakenIn(a + b) <==> TakenIn(a) || TakenIn(b)
  {
    var r := a + b;
    if k :| 0 <= k < |a| && a[k].Taken? {
      assert r[k].Taken?;
    }
    if k :| 0 <= k < |b| && b[k].Taken? {
      assert r[|a| + k].Taken?;
    }
    if k :| 0 <= k < |r| && r[k].Taken? {
      assert if k < |a| then a[k].Taken? else b[k - |a|].Taken?;
    }
  }

  lemma {:induction false} WaitingAttempting(state: FilterState, p: PortLink, wakes: seq<Wake>, id: nat, taken: bool)
    requires Attempting(p, id, taken)
    ensures Attempting(Waited(state, p, wakes).0, id, taken || TakenIn(WhileWaiting(state, p, wakes)))
    decreases wakes
  {
    if !p.wait.value.done && wakes != [] {
      hide HandleAll, Attempting, TakenIn;
      var told, now := HandleAll(state, p, wakes[0].events), taken || TakenIn(wakes[0].events);
      HandlingAttempting(state, p, wakes[0].events, id, taken);
      if wakes[0].timedOut {
        assert WhileWaiting(state, p, wakes) == wakes[0].events;
      } else {
        WaitingAttempting(state, told, wakes[1..], id, now);
        TakenJoin(wakes[0].events, WhileWaiting(state, told, wakes[1..]));
      }
    } else {
      assert !TakenIn([]);
    }
  }

  // A link attempt leaves no partial state, whatever happens during it: the
  // port keeps the new proxy, on a link that came up, exactly when the call
  // succeeds and nothing has taken the link away meanwhile; in every other case
  // the proxy is destroyed and the link fields are clear.
  lemma AttemptIsWhole(state: FilterState, p: PortLink, wakes: seq<Wake>)
    requires p.proxy.None? && p.wait.None? && Conserved(p)
    ensures var (q, timedOut) := Waited(state, Begin(p), wakes);
            var r, code := End(q, timedOut), ResultOf(q, timedOut);
            && r.wait.None? && r.made == p.made + 1 && Conserved(r)
            && if code == Ok && !TakenIn(WhileWaiting(state, Begin(p), wakes)) then r.proxy == Some(p.made) && r.seenActive
               else r.proxy.None? && !r.seenActive && !r.lost && r.destroyed == p.destroyed + [p.made]
  {
    hide Waited, TakenIn, WhileWaiting;
    WaitingAttempting(state, Begin(p), wakes, p.made, false);
    assert Range(p.made) + [p.made] == Range(p.made + 1);
  }

  // ---------------------------------------------------- when an attempt succeeds

  predicate Ups(e: PortEvent) {
    e.Info? && e.changed && (e.state == Active || e.state == Paused)
  }

  predicate Downs(e: PortEvent) {
    e.Info? && e.changed && (e.state == Error || e.state == Unlinked)
  }

  // The last deciding event of the list, if any, is that the link is up.
  predicate EndsUp(events: seq<PortEvent>) {
    exists k :: 0 <= k < |events| && Ups(events[k]) && forall j :: k < j < |events| ==> !Downs(events[j])
  }

  predicate Decides(events: seq<PortEvent>) {
    exists k :: 0 <= k < |events| && (Ups(events[k]) || Downs(events[k]))
  }

  lemma HandleOne(state: FilterState, p: PortLink, e: PortEvent)
    requires p.wait.Some?
    ensures Handle(state, p, e).0.wait
         == if p.proxy.None? then p.wait
            else if Ups(e) then Some(Pending(true, Ok))
            else if Downs(e) then Some(Pending(true, InvalidFormat)) else p.wait
    ensures Handle(state, p, e).0.proxy == if e.Taken? then None else p.proxy
  {
  }

  // Once the link is taken away, the call hears no more of it.
  function UpToTaken(events: seq<PortEvent>): seq<PortEvent> {
    if events == [] then []
    else
      var n := |events| - 1;
      UpToTaken(events[..n]) + if TakenIn(events) then [] else [events[n]]
  }

  lemma {:induction false} Decision(state: FilterState, p: PortLink, events: seq<PortEvent>)
    requires p.proxy.Some? && p.wait.Some? && !p.wait.value.done
    ensures var q := HandleAll(state, p, events);
            && q.wait.Some? && (q.proxy.None? <==> TakenIn(events)) && (q.proxy.Some? ==> q.proxy == p.proxy)
            && (q.wait.value.done <==> Decides(UpToTaken(events)))
            && (q.wait.value.done ==> (q.wait.value.result == Ok <==> EndsUp(UpToTaken(events))))
  {
    if events != [] {
      var n := |events| - 1;
      Decision(state, p, events[..n]);
      hide Decides, EndsUp, Handle, Ups, Downs, TakenIn;
      assert events[..n] + [events[n]] == events;
      TakenSnoc(events[..n], events[n]);
      DecidesSnoc(UpToTaken(events[..n]), events[n]);
      HandleOne(state, HandleAll(state, p, events[..n]), events[n]);
      assert UpToTaken(events[..n]) + [] == UpToTaken(events[..n]);
      assert events[n].Taken? ==> !Ups(events[n]) && !Downs(events[n]) by { TakenIsNoWord(events[n]); }
    } else {
      assert !TakenIn(events) && !Decides(UpToTaken(events));
    }
  }

  lemma TakenIsNoWord(e: PortEvent)
    ensures e.Taken? ==> !Ups(e) && !Downs(e)
  {
  }

  lemma DecidesSnoc(events: seq<PortEvent>, e: PortEvent)
    ensures Decides(events + [e]) <==> Decides(events) || Ups(e) || Downs(e)
    ensures EndsUp(events + [e]) <==> Ups(e) || (EndsUp(events) && !Downs(e))
  {
    var r := events + [e];
    assert r[|events|] == e && forall j :: 0 <= j < |events| ==> r[j] == events[j];
    if Decides(events) {
      var k :| 0 <= k < |events| && (Ups(events[k]) || Downs(events[k]));
      assert r[k] == events[k];
    }
    if EndsUp(events) && !Downs(e) {
      var k :| 0 <= k < |events| && Ups(events[k]) && forall j :: k < j < |events| ==> !Downs(events[j]);
      assert Ups(r[k]);
    }
    if EndsUp(r) && !Ups(e) {
      var k :| 0 <= k < |r| && Ups(r[k]) && forall j :: k < j < |r| ==> !Downs(r[j]);
      assert Ups(events[k]) && !Downs(r[|events|]);
      assert forall j :: k < j < |events| ==> !Downs(events[j]) by {
        forall j | k < j < |events| ensures !Downs(events[j]) {
          assert !Downs(r[j]);
        }
      }
    }
  }

  // The attempt is decided in wake n, in time, and the link was not taken away
  // before.
  predicate DecidedAt(wakes: seq<Wake>, n: nat)
    requires n < |wakes|
  {
    && Decides(UpToTaken(wakes[n].events))
    && (forall k :: 0 <= k < n ==> !Decides(UpToTaken(wakes[k].events)) && !TakenIn(wakes[k].events))
    && forall k :: 0 <= k <= n ==> !wakes[k].timedOut
  }

  // A call whose link was taken away before a decision waits until the
  // deadline.
  lemma {:induction false} TakenTimesOut(state: FilterState, p: PortLink, wakes: seq<Wake>)
    requires p.proxy.None? && p.wait.Some? && !p.wait.value.done
    ensures Waited(state, p, wakes).1
    decreases wakes
  {
    if wakes != [] {
      TakenHearsNothing(state, p, wakes[0].events);
      if !wakes[0].timedOut {
        TakenTimesOut(state, HandleAll(state, p, wakes[0].events), wakes[1..]);
      }
    }
  }

  lemma {:induction false} TakenHearsNothing(state: FilterState, p: PortLink, events: seq<PortEvent>)
    requires p.proxy.None? && p.wait.Some?
    ensures HandleAll(state, p, events).proxy.None? && HandleAll(state, p, events).wait == p.wait
  {
    if events != [] {
      var n := |events| - 1;
      TakenHearsNothing(state, p, events[..n]);
      HandleOne(state, HandleAll(state, p, events[..n]), events[n]);
    }
  }

  // An attempt is decided by the first wait that brings a decision, if that is
  // in time: it succeeds when the last word in it, before the link is taken away
  // if it is, is that the link is up, and fails for its format when it is not.
  // Otherwise it times out.
  lemma {:induction false} AttemptEndsExactly(state: FilterState, p: PortLink, wakes: seq<Wake>)
    requires p.proxy.Some? && p.wait.Some? && !p.wait.value.done
    ensures var (q, timedOut) := Waited(state, p, wakes);
            var code := ResultOf(q, timedOut);
            && (code == Timeout <==> forall n :: 0 <= n < |wakes| ==> !DecidedAt(wakes, n))
            && forall n :: 0 <= n < |wakes| && DecidedAt(wakes, n) ==>
                 code == if EndsUp(UpToTaken(wakes[n].events)) then Ok else InvalidFormat
    decreases wakes
  {
    if wakes != [] {
      hide Decides, EndsUp, HandleAll, UpToTaken, TakenIn;
      Decision(state, p, wakes[0].events);
      var told := HandleAll(state, p, wakes[0].events);
      if wakes[0].timedOut {
        assert forall n :: 0 <= n < |wakes| ==> !DecidedAt(wakes, n);
      } else if told.wait.value.done {
        DecisionIsWord(state, p, wakes[0].events);
        assert DecidedAt(wakes, 0);
        assert forall n :: 0 < n < |wakes| ==> !DecidedAt(wakes, n);
      } else if told.proxy.None? {
        TakenTimesOut(state, told, wakes[1..]);
        assert forall n :: 0 <= n < |wakes| ==> !DecidedAt(wakes, n);
      } else {
        AttemptEndsExactly(state, told, wakes[1..]);
        DecidedAtTail(wakes);
      }
    }
  }

  lemma {:induction false} DecisionIsWord(state: FilterState, p: PortLink, events: seq<PortEvent>)
    requires p.wait.Some? && (p.wait.value.done ==> p.wait.value.result == Ok || p.wait.value.result == InvalidFormat)
    ensures var w := HandleAll(state, p, events).wait;
            w.Some? && (w.value.done ==> w.value.result == Ok || w.value.result == InvalidFormat)
  {
    if events != [] {
      var n := |events| - 1;
      DecisionIsWord(state, p, events[..n]);
      HandleOne(state, HandleAll(state, p, events[..n]), events[n]);
      hide Handle, Ups, Downs;
    }
  }

  lemma DecidedAtTail(wakes: seq<Wake>)
    requires wakes != [] && !wakes[0].timedOut
    requires !Decides(UpToTaken(wakes[0].events)) && !TakenIn(wakes[0].events)
    ensures var tail := wakes[1..];
            && !DecidedAt(wakes, 0)
            && forall n :: 0 <= n < |tail| ==> tail[n] == wakes[n + 1] && DecidedAt(tail, n) == DecidedAt(wakes, n + 1)
  {
    hide Decides, UpToTaken, TakenIn;
    var tail := wakes[1..];
    assert forall k :: 0 <= k < |tail| ==> tail[k] == wakes[k + 1];
    forall n | 0 <= n < |tail| ensures DecidedAt(tail, n) == DecidedAt(wakes, n + 1) {
      if DecidedAt(tail, n) {
        forall k | 0 <= k <= n + 1
          ensures !wakes[k].timedOut
          ensures k <= n ==> !Decides(UpToTaken(wakes[k].events)) && !TakenIn(wakes[k].events)
        {
          if k > 0 {
            assert tail[k - 1] == wakes[k];
          }
        }
      }
    }
  }

  // ------------------------------------------------------------------- objects

  datatype Binding = Bound | BindTimedOut | BindFailed

  // One try at finding the own port: the filter's node id by then, and the
  // round-trip after it.
  datatype OwnTry = OwnTry(node: Option<nat>, round: Round)

  const OWN_PORT_ATTEMPTS: nat := 100

  // pwf_resolve_own_port_id, once the id is not known. A try not described
  // fails.
  function OwnPortAfter(c: Cache, name: string, tries: seq<OwnTry>, attempts: nat): (nat, Cache)
    decreases attempts
  {
    if attempts == 0 || tries == [] then (0, c)
    else
      var id := if tries[0].node.Some? then PortNamed(c.ports, tries[0].node.value, name, Input) else 0;
      if id != 0 then (id, c)
      else
        var after := ApplyAll(c, tries[0].round.events);
        if tries[0].round.inTime then OwnPortAfter(after, name, tries[1..], attempts - 1) else (0, after)
  }

  lemma OwnPortStep(c: Cache, name: string, tries: seq<OwnTry>, n: nat)
    requires n < OWN_PORT_ATTEMPTS && n <= |tries|
    ensures var found := OwnPortAfter(c, name, tries[n..], OWN_PORT_ATTEMPTS - n);
            if n == |tries| then found == (0, c)
            else
              var id := if tries[n].node.Some? then PortNamed(c.ports, tries[n].node.value, name, Input) else 0;
              if id != 0 then found == (id, c)
              else
                var after := ApplyAll(c, tries[n].round.events);
                found == if tries[n].round.inTime
                         then OwnPortAfter(after, name, tries[n + 1..], OWN_PORT_ATTEMPTS - (n + 1)) else (0, after)
  {
    hide ApplyAll, PortNamed;
    if n < |tries| {
      assert tries[n..][1..] == tries[n + 1..];
    }
  }

  lemma NoTriesLeft(c: Cache, name: string, tries: seq<OwnTry>)
    ensures OwnPortAfter(c, name, tries, 0) == (0, c)
  {
  }

  // The environment of one pwf_filter_port_link call: the round-trips of its
  // two lookups, what the port hears meanwhile, the filter's node id, what its
  // requests come to, and the waits.
  datatype CallEnv = CallEnv(
    inCallback: bool, binding: Binding, rounds: seq<Round>, ownTries: seq<OwnTry>, early: seq<PortEvent>,
    ownNode: nat, propsMade: bool, proxyMade: bool, wakes: seq<Wake>)

  // The checks before the lookups, in order.
  function Refusal(state: FilterState, p: PortLink, target: Option<string>, env: CallEnv): Option<Code> {
    if target.None? || target.value == "" || !p.input then Some(InvalidArg)
    else if env.inCallback then Some(InCallback)
    else if p.proxy.Some? then Some(InvalidArg)
    else if state != Running then Some(NotConfigured)
    else if env.binding == BindTimedOut then Some(Timeout)
    else if env.binding == BindFailed then Some(ConnectFailed)
    else None
  }

  // What a link is to join; the core chooses an output port not named.
  datatype Ends = Ends(outNode: nat, outPort: Option<nat>, inNode: nat, inPort: nat)

  // pwf_resolve_target: the node and the port, both 0 when a named port is
  // missing.
  function TargetAfter(c: Cache, target: string, rounds: seq<Round>): ((nat, nat), Cache) {
    var (id, name) := ResolveNode(c.nodes, target);
    if id == 0 then ((0, 0), c)
    else if name.None? then
      var (port, after) := PickAfter(c, id, rounds, TARGET_PORT_ATTEMPTS);
      ((id, port), after)
    else
      var port := PortNamed(c.ports, id, name.value, Output);
      ((if port == 0 then 0 else id, port), c)
  }

  datatype Lookup = Missing(code: Code) | Found(ends: Ends)

  // What the lookups make of the call, when the own port's id is `known` or 0.
  function LookUp(c: Cache, target: string, env: CallEnv, name: string, known: nat): (r: (Lookup, nat)) {
    var ((node, port), c1) := TargetAfter(c, target, env.rounds);
    if node == 0 then (Missing(NotFound), known)
    else
      var own := if known != 0 then known else OwnPortAfter(c1, name, env.ownTries, OWN_PORT_ATTEMPTS).0;
      if own == 0 then (Missing(ConnectFailed), own)
      else (Found(Ends(node, if port == 0 then None else Some(port), env.ownNode, own)), own)
  }

  // The link fields of struct pwf_filter_port, with the record of what its
  // links were asked to join.
  class LinkPort {
    const input: bool
    const name: string
    var ownGlobalId: nat
    var asked: seq<Ends>
    var proxy: Option<nat>
    var wait: Option<Pending>
    var seenActive: bool
    var lost: bool
    var lossReported: bool
    var made: nat
    var destroyed: seq<nat>

    function State(): PortLink
      reads this
    {
      PortLink(input, proxy, wait, seenActive, lost, lossReported, made, destroyed)
    }

    constructor (input: bool, name: string)
      ensures this.name == name && ownGlobalId == 0 && asked == []
      ensures State() == PortLink(input, None, None, false, false, false, 0, [])
    {
      this.input, this.name, ownGlobalId, asked := input, name, 0, [];
      proxy, wait, seenActive, lost, lossReported := None, None, false, false, false;
      made, destroyed := 0, [];
    }

    method ClaimSourceLoss(state: FilterState) returns (claimed: bool)
      modifies this`proxy, this`wait, this`seenActive, this`lost, this`lossReported, this`made, this`destroyed
      ensures (State(), claimed) == Claim(state, old(State()))
    {
      if state != Running || lossReported {
        return false;
      }
      lossReported := true;
      return true;
    }

    method OnLinkInfo(state: FilterState, changed: bool, st: LinkState) returns (reported: bool)
      modifies this`proxy, this`wait, this`seenActive, this`lost, this`lossReported, this`made, this`destroyed
      ensures (State(), reported) == OnInfo(state, old(State()), changed, st)
    {
      if proxy.None? || !changed {
        return false;
      }
      if st == Paused || st == Active {
        seenActive := true;
        if wait.Some? {
          wait := Some(Pending(true, Ok));
        }
        return false;
      }
      if st != Error && st != Unlinked {
        return false;
      }
      if wait.Some? {
        wait := Some(Pending(true, InvalidFormat));
        return false;
      }
      if !seenActive {
        return false;
      }
      seenActive, lost := false, true;
      reported := ClaimSourceLoss(state);
    }

    method OnParamChanged(state: FilterState, isSet: bool) returns (reported: bool)
      modifies this`proxy, this`wait, this`seenActive, this`lost, this`lossReported, this`made, this`destroyed
      ensures (State(), reported) == OnFormat(state, old(State()), isSet)
    {
      if isSet {
        lossReported := false;
        return false;
      }
      if !input {
        return false;
      }
      reported := ClaimSourceLoss(state);
    }

    method ReleaseLink()
      modifies this`proxy, this`wait, this`seenActive, this`lost, this`lossReported, this`made, this`destroyed
      ensures State() == Release(old(State()))
    {
      if proxy.Some? {
        destroyed := destroyed + [proxy.value];
        proxy := None;
        lossReported := true;
      }
      seenActive, lost := false, false;
    }

    method HandleEvents(state: FilterState, events: seq<PortEvent>)
      modifies this`proxy, this`wait, this`seenActive, this`lost, this`lossReported, this`made, this`destroyed
      ensures State() == HandleAll(state, old(State()), events)
    {
      for k := 0 to |events|
        invariant State() == HandleAll(state, old(State()), events[..k])
      {
        assert events[..k + 1][..k] == events[..k];
        match events[k] {
          case Info(changed, st) => var _ := OnLinkInfo(state, changed, st);
          case Format(isSet) => var _ := OnParamChanged(state, isSet);
          case Taken => ReleaseLink();
        }
      }
      assert events[..|events|] == events;
    }

    // The wait for the negotiation of the link just requested.
    method AwaitLink(state: FilterState, wakes: seq<Wake>) returns (timedOut: bool)
      requires wait.Some?
      modifies this`proxy, this`wait, this`seenActive, this`lost, this`lossReported, this`made, this`destroyed
      ensures (State(), timedOut) == Waited(state, old(State()), wakes)
    {
      hide HandleAll;
      var n := 0;
      while !wait.value.done
        invariant n <= |wakes| && wait.Some?
        invariant Waited(state, old(State()), wakes) == Waited(state, State(), wakes[n..])
        decreases |wakes| - n
      {
        if n == |wakes| {
          return true;
        }
        assert wakes[n..][1..] == wakes[n + 1..];
        HandleEvents(state, wakes[n].events);
        if wakes[n].timedOut {
          return true;
        }
        n := n + 1;
      }
      return false;
    }

    // pwf_resolve_own_port_id
    method ResolveOwnPort(reg: GraphRegistry, tries: seq<OwnTry>) returns (id: nat)
      modifies this`ownGlobalId, reg
      ensures id == ownGlobalId
      ensures if old(ownGlobalId) != 0 then ownGlobalId == old(ownGlobalId) && reg.Contents() == old(reg.Contents())
              else (ownGlobalId, reg.Contents()) == OwnPortAfter(old(reg.Contents()), name, tries, OWN_PORT_ATTEMPTS)
    {
      hide OwnPortAfter, ApplyAll, PortNamed, TableAll;
      if ownGlobalId != 0 {
        return ownGlobalId;
      }
      assert tries[0..] == tries;
      for n := 0 to OWN_PORT_ATTEMPTS
        invariant n <= |tries| && ownGlobalId == 0
        invariant OwnPortAfter(old(reg.Contents()), name, tries, OWN_PORT_ATTEMPTS)
               == OwnPortAfter(reg.Contents(), name, tries[n..], OWN_PORT_ATTEMPTS - n)
      {
        OwnPortStep(reg.Contents(), name, tries, n);
        if n == |tries| {
          return 0;
        }
        if tries[n].node.Some? {
          ownGlobalId := reg.FindPort(tries[n].node.value, name, Input);
          if ownGlobalId != 0 {
            return ownGlobalId;
          }
        }
        var ok := reg.Sync(tries[n].round);
        if !ok {
          return 0;
        }
      }
      NoTriesLeft(reg.Contents(), name, tries[OWN_PORT_ATTEMPTS..]);
      return 0;
    }

    // pwf_filter_port_link
    method LinkTo(reg: GraphRegistry, state: FilterState, target: Option<string>, env: CallEnv) returns (res: Code)
      requires wait.None?
      modifies this, reg
      ensures wait.None?
      ensures match Refusal(state, old(State()), target, env)
              case Some(code) =>
                && res == code && State() == old(State()) && asked == old(asked)
                && ownGlobalId == old(ownGlobalId) && reg.Contents() == old(reg.Contents())
              case None =>
                var (found, own) := LookUp(old(reg.Contents()), target.value, env, name, old(ownGlobalId));
                var p := HandleAll(state, old(State()), env.early);
                && ownGlobalId == own
                && if found.Found? && env.propsMade && env.proxyMade then
                     var (q, timedOut) := Waited(state, Begin(p), env.wakes);
                     res == ResultOf(q, timedOut) && State() == End(q, timedOut) && asked == old(asked) + [found.ends]
                   else
                     && State() == p && asked == old(asked)
                     && res == if found.Missing? then found.code else if !env.propsMade then NoMemory else ConnectFailed
    {
      hide Waited, HandleAll, ResultOf, End, Begin, ResolveNode, PickAfter, PortNamed, OwnPortAfter;
      if target.None? || target.value == "" || !input {
        return InvalidArg;
      }
      if env.inCallback {
        return InCallback;
      }
      if proxy.Some? {
        return InvalidArg;
      }
      if state != Running {
        return NotConfigured;
      }
      if env.binding != Bound {
        return if env.binding == BindTimedOut then Timeout else ConnectFailed;
      }
      HandleEvents(state, env.early);
      var node, port := ResolveTargetPort(reg, target.value, env.rounds);
      if node == 0 {
        return NotFound;
      }
      var own := ResolveOwnPort(reg, env.ownTries);
      if own == 0 {
        return ConnectFailed;
      }
      if !env.propsMade {
        return NoMemory;
      }
      var ends := Ends(node, if port == 0 then None else Some(port), env.ownNode, own);
      if !env.proxyMade {
        return ConnectFailed;
      }
      asked := asked + [ends];
      res := Attempt(state, env.wakes);
    }

    // From the moment the proxy exists.
    method Attempt(state: FilterState, wakes: seq<Wake>) returns (res: Code)
      modifies this`proxy, this`wait, this`seenActive, this`lost, this`lossReported, this`made, this`destroyed
      ensures wait.None?
      ensures var (q, timedOut) := Waited(state, Begin(old(State())), wakes);
              res == ResultOf(q, timedOut) && State() == End(q, timedOut)
    {
      hide Waited, ResultOf, End;
      proxy, made, seenActive, lost := Some(made), made + 1, false, false;
      wait := Some(Pending(false, ConnectFailed));
      var timedOut := AwaitLink(state, wakes);
      res := EndWait(timedOut);
    }

    method EndWait(timedOut: bool) returns (res: Code)
      requires wait.Some?
      modifies this`proxy, this`wait, this`seenActive, this`lost, this`lossReported, this`made, this`destroyed
      ensures wait.None?
      ensures res == ResultOf(old(State()), timedOut) && State() == End(old(State()), timedOut)
    {
      if timedOut {
        wait := Some(wait.value.(result := Timeout));
      }
      res := if wait.value.done then wait.value.result else Timeout;
      wait := None;
      if res != Ok {
        ReleaseLink();
      }
    }

    // pwf_filter_port_unlink
    method Unlink(inCallback: bool) returns (res: Code)
      modifies this`proxy, this`wait, this`seenActive, this`lost, this`lossReported, this`made, this`destroyed
      ensures res == if !input then InvalidArg else if inCallback then InCallback
                     else if old(proxy).None? then NotConfigured else Ok
      ensures State() == if res == Ok then Release(old(State())) else old(State())
    {
      if !input {
        return InvalidArg;
      }
      if inCallback {
        return InCallback;
      }
      if proxy.None? {
        return NotConfigured;
      }
      ReleaseLink();
      return Ok;
    }
  }

  // An event and the port it is for; one return of a draining stop's wait.
  datatype Heard = Heard(port: nat, e: PortEvent)

  datatype DrainWake = DrainWake(heard: seq<Heard>, drained: bool, timedOut: bool)

  function WhileDraining(wakes: seq<DrainWake>): seq<Heard> {
    if wakes == [] then []
    else wakes[0].heard + if wakes[0].drained || wakes[0].timedOut then [] else WhileDraining(wakes[1..])
  }

  function ForPort(heard: seq<Heard>, i: nat): seq<PortEvent> {
    if heard == [] then []
    else
      var n := |heard| - 1;
      ForPort(heard[..n], i) + if heard[n].port == i then [heard[n].e] else []
  }

  function PortsHeard(heard: seq<Heard>, i: nat): (events: seq<Option<PortEvent>>)
    ensures |events| == |heard|
  {
    seq(|heard|, k requires 0 <= k < |heard| => if heard[k].port == i then Some(heard[k].e) else None)
  }

  // A port hears all that is for it, and that only, in order.
  lemma {:induction false} ForPortInOrder(heard: seq<Heard>, i: nat)
    ensures InOrder(ForPort(heard, i), PortsHeard(heard, i))
  {
    if heard != [] {
      hide InOrder, Listed, ForPort, PortsHeard;
      var n := |heard| - 1;
      ForPortInOrder(heard[..n], i);
      PortHeardStep(heard, i);
      InOrderSnoc(ForPort(heard[..n], i), PortsHeard(heard[..n], i), PortsHeard(heard, i)[n]);
    }
  }

  lemma PortHeardStep(heard: seq<Heard>, i: nat)
    requires heard != []
    ensures var n := |heard| - 1;
            && PortsHeard(heard, i) == PortsHeard(heard[..n], i) + [PortsHeard(heard, i)[n]]
            && ForPort(heard, i) == ForPort(heard[..n], i) + Listed(PortsHeard(heard, i)[n])
  {
  }

  function HeardIn(wakes: seq<DrainWake>): (batches: seq<seq<Heard>>)
    ensures |batches| == |wakes|
  {
    seq(|wakes|, k requires 0 <= k < |wakes| => wakes[k].heard)
  }

  // A draining stop handles everything up to the wake that says the graph has
  // drained, or comes too late.
  lemma {:induction false} DrainsExactly(wakes: seq<DrainWake>, n: nat)
    requires n <= |wakes| && forall k :: 0 <= k < n ==> !wakes[k].drained && !wakes[k].timedOut
    requires n < |wakes| ==> wakes[n].drained || wakes[n].timedOut
    ensures WhileDraining(wakes) == Flatten(HeardIn(wakes[..Min(n + 1, |wakes|)]))
  {
    if wakes != [] {
      var m := Min(n + 1, |wakes|);
      assert HeardIn(wakes[..m])[1..] == HeardIn(wakes[1..][..m - 1]);
      if n > 0 {
        DrainsExactly(wakes[1..], n - 1);
        assert Min(n, |wakes[1..]|) == m - 1;
      } else {
        assert HeardIn(wakes[1..][..m - 1]) == [];
      }
    }
  }

  lemma DrainStep(wakes: seq<DrainWake>, n: nat)
    requires n <= |wakes|
    ensures WhileDraining(wakes[n..])
         == if n == |wakes| then []
            else
              wakes[n].heard
              + if wakes[n].drained || wakes[n].timedOut then [] else WhileDraining(wakes[n + 1..])
  {
    if n < |wakes| {
      assert wakes[n..][1..] == wakes[n + 1..];
    }
  }

  lemma ForPortSnoc(heard: seq<Heard>, k: nat)
    requires k < |heard|
    ensures forall i: nat :: ForPort(heard[..k + 1], i)
                          == if heard[k].port == i then ForPort(heard[..k], i) + [heard[k].e] else ForPort(heard[..k], i)
  {
    assert heard[..k + 1][..k] == heard[..k];
  }

  lemma {:induction false} ForPortJoin(a: seq<Heard>, b: seq<Heard>, i: nat)
    ensures ForPort(a + b, i) == ForPort(a, i) + ForPort(b, i)
  {
    if b == [] {
      assert a + b == a;
    } else {
      var n := |b| - 1;
      ForPortJoin(a, b[..n], i);
      assert (a + b)[..|a| + n] == a + b[..n];
    }
  }

  lemma {:induction false} HandleJoin(state: FilterState, p: PortLink, a: seq<PortEvent>, b: seq<PortEvent>)
    ensures HandleAll(state, HandleAll(state, p, a), b) == HandleAll(state, p, a + b)
  {
    if b == [] {
      assert a + b == a;
    } else {
      hide Handle;
      var n := |b| - 1;
      HandleJoin(state, p, a, b[..n]);
      assert (a + b)[..|a| + n] == a + b[..n];
    }
  }

  lemma HandleTwice(state: FilterState, p: PortLink, a: seq<Heard>, b: seq<Heard>, i: nat)
    ensures HandleAll(state, HandleAll(state, p, ForPort(a, i)), ForPort(b, i)) == HandleAll(state, p, ForPort(a + b, i))
  {
    ForPortJoin(a, b, i);
    HandleJoin(state, p, ForPort(a, i), ForPort(b, i));
  }

  lemma HandleMore(state: FilterState, p: PortLink, events: seq<PortEvent>, e: PortEvent)
    ensures HandleAll(state, HandleAll(state, p, events), [e]) == HandleAll(state, p, events + [e])
  {
    HandleJoin(state, p, events, [e]);
  }

  // Every port's state after these events.
  function AllHeard(state: FilterState, was: seq<PortLink>, heard: seq<Heard>): (r: seq<PortLink>)
    ensures |r| == |was|
  {
    seq(|was|, i requires 0 <= i < |was| => HandleAll(state, was[i], ForPort(heard, i)))
  }

  lemma NoneHeard(state: FilterState, was: seq<PortLink>)
    ensures AllHeard(state, was, []) == was
  {
  }

  lemma HeardTwice(state: FilterState, was: seq<PortLink>, a: seq<Heard>, b: seq<Heard>)
    ensures AllHeard(state, AllHeard(state, was, a), b) == AllHeard(state, was, a + b)
  {
    hide HandleAll, ForPort;
    forall i | 0 <= i < |was| {
      HandleTwice(state, was[i], a, b, i);
    }
  }

  // The state and the ports of struct pwf_filter.
  class LinkFilter {
    var state: FilterState
    var ports: seq<LinkPort>

    ghost predicate Valid()
      reads this
    {
      forall i, j :: 0 <= i < j < |ports| ==> ports[i] != ports[j]
    }

    constructor ()
      ensures Valid() && state == Created && ports == []
    {
      state, ports := Created, [];
    }

    // pwf_filter_add_port_to_list
    method AddPort(p: LinkPort)
      requires Valid() && p !in ports
      modifies this`ports
      ensures Valid() && ports == old(ports) + [p]
    {
      ports := ports + [p];
    }

    // pwf_filter_start; `connected` is how the first connection ends.
    method Start(inCallback: bool, connected: bool) returns (res: Code)
      modifies this`state
      ensures res == if inCallback then InCallback else if ports == [] then NotConfigured
                     else if old(state) == Created && !connected then ConnectFailed else Ok
      ensures state == if res == Ok then Running else old(state)
    {
      if inCallback {
        return InCallback;
      }
      if ports == [] {
        return NotConfigured;
      }
      if state == Created && !connected {
        return ConnectFailed;
      }
      state := Running;
      return Ok;
    }

    // pwf_filter_release_all_links
    method ReleaseAllLinks()
      requires Valid()
      modifies ports
      ensures forall i :: 0 <= i < |ports| ==> ports[i].State() == Release(old(ports[i].State()))
    {
      for k := 0 to |ports|
        invariant forall i :: 0 <= i < k ==> ports[i].State() == Release(old(ports[i].State()))
        invariant forall i :: k <= i < |ports| ==> ports[i].State() == old(ports[i].State())
      {
        ports[k].ReleaseLink();
      }
    }

    ghost function States(): (states: seq<PortLink>)
      reads this, ports
      ensures |states| == |ports| && forall i :: 0 <= i < |ports| ==> states[i] == ports[i].State()
    {
      seq(|ports|, i requires 0 <= i < |ports| reads this, ports => ports[i].State())
    }

    // What the loop does while this thread does not hold it.
    method HandleHeard(heard: seq<Heard>)
      requires Valid()
      modifies ports
      ensures States() == AllHeard(state, old(States()), heard)
    {
      ghost var was := States();
      NoneHeard(state, was);
      hide HandleAll, ForPort;
      for k := 0 to |heard|
        invariant forall i :: 0 <= i < |ports| ==> ports[i].State() == AllHeard(state, was, heard[..k])[i]
      {
        ForPortSnoc(heard, k);
        var at, e := heard[k].port, heard[k].e;
        if at < |ports| {
          HandleMore(state, was[at], ForPort(heard[..k], at), e);
          ports[at].HandleEvents(state, [e]);
        }
      }
      assert heard[..|heard|] == heard;
    }

    // The wait of a draining stop.
    method Drain(wakes: seq<DrainWake>)
      requires Valid()
      modifies ports
      ensures States() == AllHeard(state, old(States()), WhileDraining(wakes))
    {
      ghost var was := States();
      ghost var done: seq<Heard> := [];
      NoneHeard(state, was);
      hide AllHeard, WhileDraining;
      var drained := false;
      var n := 0;
      assert wakes[0..] == wakes;
      while !drained
        invariant n <= |wakes| && done + (if drained then [] else WhileDraining(wakes[n..])) == WhileDraining(wakes)
        invariant States() == AllHeard(state, was, done)
        decreases |wakes| - n, !drained
      {
        DrainStep(wakes, n);
        if n == |wakes| {
          assert done == WhileDraining(wakes);
          break;
        }
        var wake := wakes[n];
        HeardTwice(state, was, done, wake.heard);
        HandleHeard(wake.heard);
        Associative(done, wake.heard, if wake.drained || wake.timedOut then [] else WhileDraining(wakes[n + 1..]));
        done := done + wake.heard;
        n := n + 1;
        drained := wake.drained;
        if wake.timedOut && !drained {
          assert done == WhileDraining(wakes);
          break;
        }
      }
      assert done == WhileDraining(wakes);
    }

    // pwf_filter_stop, for the links: the state is set before they go. A
    // draining stop first waits, for as long as `drain` says.
    method Stop(inCallback: bool, drain: Option<seq<DrainWake>>) returns (res: Code)
      requires Valid()
      modifies this`state, ports
      ensures res == if inCallback then InCallback else Ok
      ensures if res == Ok && old(state) == Running
              then
                && state == Stopped
                && var heard := if drain.Some? then WhileDraining(drain.value) else [];
                   forall i :: 0 <= i < |ports| ==> States()[i] == Release(AllHeard(Running, old(States()), heard)[i])
              else state == old(state) && States() == old(States())
    {
      NoneHeard(state, States());
      hide AllHeard, Release;
      if inCallback {
        return InCallback;
      }
      if state != Running {
        return Ok;
      }
      if drain.Some? {
        Drain(drain.value);
      }
      state := Stopped;
      ReleaseAllLinks();
      return Ok;
    }
  }
}
