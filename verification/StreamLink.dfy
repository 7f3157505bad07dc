// Wiring a stream to a target, one link per channel, all or nothing
// (src/pwf_stream_routing.c).
module StreamLinks {
  import opened Base
  import opened Registry
  import opened Targets

  datatype StreamState = Created | Running | Stopped

  datatype LinkState = Error | Unlinked | Init | Negotiating | Allocating | Paused | Active

  // What the loop handles: an info event of a link, with whether its state
  // changed, and the state; or a registry event.
  datatype Notice = Info(link: nat, changed: bool, state: LinkState) | Graph(event: Event)

  // One return of the timed wait: what was handled meanwhile, and whether the
  // deadline had passed.
  datatype Wake = Wake(notices: seq<Notice>, timedOut: bool)

  // What happens to one link request: whether the properties and the proxy
  // could be made, what is handled before its port ids are read, and the waits.
  datatype LinkScript = LinkScript(propsMade: bool, proxyMade: bool, before: seq<Notice>, wakes: seq<Wake>)

  // struct pwf_stream_link, with a record that the program does not keep:
  // whether the last word on the link is that it is up.
  datatype Link = Link(proxy: Option<nat>, seenActive: bool, lost: bool, standing: bool)

  const UP := {Active, Paused}
  const DOWN := {Error, Unlinked}

  // What a link proxy was asked to join. No port id stands for what reading a
  // freed array gives.
  datatype Ends = Ends(outNode: nat, outPort: Option<nat>, inNode: nat, inPort: Option<nat>)

  // ------------------------------------------------------------- negotiation

  // pwf_stream_link_on_info, for link i. The program ignores Unlinked.
  function Told(l: Link, i: nat, info: Notice): Link {
    if !info.Info? || info.link != i || l.proxy.None? || !info.changed then l
    else if info.state == Active || info.state == Paused then l.(seenActive := true, standing := true)
    else if info.state == Error then l.(lost := true, standing := false)
    else if info.state == Unlinked then l.(standing := false)
    else l
  }

  function ToldAll(l: Link, i: nat, infos: seq<Notice>): (r: Link)
    ensures r.proxy == l.proxy && (l.seenActive ==> r.seenActive) && (l.lost ==> r.lost)
  {
    if infos == [] then l else Told(ToldAll(l, i, infos[..|infos| - 1]), i, infos[|infos| - 1])
  }

  // The waiting loop of pwf_stream_link_one, as link i sees it. When no wake
  // is left the deadline has passed.
  function Waited(l: Link, i: nat, wakes: seq<Wake>): (r: (Link, Code))
    ensures r.0.proxy == l.proxy && (r.1 == Ok ==> r.0.seenActive && !r.0.lost)
    decreases wakes
  {
    if l.lost then (l, InvalidFormat)
    else if l.seenActive then (l, Ok)
    else if wakes == [] then (l, Timeout)
    else
      var told := ToldAll(l, i, wakes[0].notices);
      if wakes[0].timedOut then (told, if told.lost then InvalidFormat else Timeout)
      else Waited(told, i, wakes[1..])
  }

  // What that wait handles.
  function Heard(l: Link, i: nat, wakes: seq<Wake>): seq<Notice>
    decreases wakes
  {
    if l.lost || l.seenActive || wakes == [] then []
    else
      var told := ToldAll(l, i, wakes[0].notices);
      wakes[0].notices + if wakes[0].timedOut then [] else Heard(told, i, wakes[1..])
  }

  const NEW_LINK := Link(Some(0), false, false, false)

  // What is handled while link i is requested, and from before it on.
  function During(script: LinkScript, i: nat): seq<Notice> {
    if script.propsMade && script.proxyMade then Heard(NEW_LINK, i, script.wakes) else []
  }

  function Handled(script: LinkScript, i: nat): seq<Notice> {
    script.before + During(script, i)
  }

  // All that is handled in the requests before link i's.
  function Past(script: nat -> LinkScript, i: nat): seq<Notice> {
    if i == 0 then [] else Past(script, i - 1) + Handled(script(i - 1), i - 1)
  }

  // All that is handled in the first n requests from when link k is made on.
  function Since(script: nat -> LinkScript, k: nat, n: nat): seq<Notice>
    requires k < n
  {
    if n == k + 1 then During(script(k), k) else Since(script, k, n - 1) + Handled(script(n - 1), n - 1)
  }

  // What link k is like, its proxy apart, after the first n requests.
  function LinkAfter(script: nat -> LinkScript, k: nat, n: nat): Link
    requires k < n
  {
    ToldAll(NEW_LINK, k, Since(script, k, n))
  }

  function Outcome(script: LinkScript, i: nat): Code {
    if !script.propsMade then NoMemory
    else if !script.proxyMade then ConnectFailed
    else Waited(NEW_LINK, i, script.wakes).1
  }

  // One pass of the waiting loop.
  lemma WaitEnds(l: Link, i: nat, wakes: seq<Wake>, n: nat)
    requires n <= |wakes|
    ensures wakes[0..] == wakes
    ensures if l.lost || l.seenActive || n == |wakes| then
              && Heard(l, i, wakes[n..]) == []
              && Waited(l, i, wakes[n..]) == (l, if l.lost then InvalidFormat else if l.seenActive then Ok else Timeout)
            else
              var told, rest := ToldAll(l, i, wakes[n].notices), wakes[n + 1..];
              if wakes[n].timedOut then
                && Heard(l, i, wakes[n..]) == wakes[n].notices
                && Waited(l, i, wakes[n..]) == (told, if told.lost then InvalidFormat else Timeout)
              else
                && Heard(l, i, wakes[n..]) == wakes[n].notices + Heard(told, i, rest)
                && Waited(l, i, wakes[n..]) == Waited(told, i, rest)
  {
    hide ToldAll;
    if n < |wakes| {
      assert wakes[n..][1..] == wakes[n + 1..];
    }
  }

  // Which proxy it is does not matter to the wait.
  lemma {:induction false} ToldIgnoresId(l: Link, p: nat, i: nat, infos: seq<Notice>)
    requires l.proxy.Some?
    ensures ToldAll(l.(proxy := Some(p)), i, infos) == ToldAll(l, i, infos).(proxy := Some(p))
  {
    if infos != [] {
      ToldIgnoresId(l, p, i, infos[..|infos| - 1]);
    }
  }

  lemma {:induction false} WaitIgnoresId(l: Link, p: nat, i: nat, wakes: seq<Wake>)
    requires l.proxy.Some?
    ensures Waited(l.(proxy := Some(p)), i, wakes).1 == Waited(l, i, wakes).1
    ensures Heard(l.(proxy := Some(p)), i, wakes) == Heard(l, i, wakes)
    decreases wakes
  {
    if wakes != [] {
      ToldIgnoresId(l, p, i, wakes[0].notices);
      WaitIgnoresId(ToldAll(l, i, wakes[0].notices), p, i, wakes[1..]);
    }
  }

  // The wait leaves the link as what it handles does.
  lemma {:induction false} WaitedIsTold(l: Link, i: nat, wakes: seq<Wake>)
    ensures Waited(l, i, wakes).0 == ToldAll(l, i, Heard(l, i, wakes))
    decreases wakes
  {
    if !l.lost && !l.seenActive && wakes != [] {
      var more := wakes[0].notices;
      var told := ToldAll(l, i, more);
      hide ToldAll;
      if wakes[0].timedOut {
        assert more + [] == more;
      } else {
        WaitedIsTold(told, i, wakes[1..]);
        ToldJoin(l, i, more, Heard(told, i, wakes[1..]));
      }
    } else {
      NothingTold(l, i);
    }
  }

  lemma NothingTold(l: Link, i: nat)
    ensures ToldAll(l, i, []) == l
  {
  }

  predicate Says(n: Notice, i: nat, states: set<LinkState>) {
    n.Info? && n.link == i && n.changed && n.state in states
  }

  predicate Reports(infos: seq<Notice>, i: nat, states: set<LinkState>) {
    exists k :: 0 <= k < |infos| && Says(infos[k], i, states)
  }

  lemma {:induction false} ToldFlags(l: Link, i: nat, infos: seq<Notice>)
    requires l.proxy.Some?
    ensures ToldAll(l, i, infos).seenActive <==> l.seenActive || Reports(infos, i, {Active, Paused})
    ensures ToldAll(l, i, infos).lost <==> l.lost || Reports(infos, i, {Error})
  {
    if infos != [] {
      ToldFlags(l, i, infos[..|infos| - 1]);
      ReportsSnoc(infos, i, {Active, Paused});
      ReportsSnoc(infos, i, {Error});
    }
  }

  // Every word that link i is down is followed by one that it is up.
  predicate Answered(infos: seq<Notice>, i: nat) {
    forall a :: 0 <= a < |infos| && Says(infos[a], i, DOWN) ==> exists b :: a < b < |infos| && Says(infos[b], i, UP)
  }

  lemma AnsweredSnoc(infos: seq<Notice>, i: nat)
    requires infos != []
    ensures var n := |infos| - 1;
            Answered(infos, i) <==> Says(infos[n], i, UP) || (Answered(infos[..n], i) && !Says(infos[n], i, DOWN))
  {
    var n, before := |infos| - 1, infos[..|infos| - 1];
    assert Says(infos[n], i, UP) ==> !Says(infos[n], i, DOWN);
    hide Says;
    forall k | 0 <= k < n ensures before[k] == infos[k] {
    }
    if Answered(infos, i) && !Says(infos[n], i, UP) {
      forall a | 0 <= a < n && Says(before[a], i, DOWN) ensures exists b :: a < b < n && Says(before[b], i, UP) {
        var b :| a < b < |infos| && Says(infos[b], i, UP);
        assert Says(before[b], i, UP);
      }
    } else if Answered(before, i) {
      forall a | 0 <= a < n && Says(infos[a], i, DOWN) ensures exists b :: a < b < |infos| && Says(infos[b], i, UP) {
        var b :| a < b < n && Says(before[b], i, UP);
        assert Says(infos[b], i, UP);
      }
    }
  }

  // The last word is up exactly when there is one and none that the link is
  // down goes unanswered.
  lemma {:induction false} ToldStanding(l: Link, i: nat, infos: seq<Notice>)
    requires l.proxy.Some?
    ensures ToldAll(l, i, infos).standing <==> (l.standing || Reports(infos, i, UP)) && Answered(infos, i)
  {
    if infos != [] {
      hide Reports, Answered;
      ToldStanding(l, i, infos[..|infos| - 1]);
      ReportsSnoc(infos, i, UP);
      AnsweredSnoc(infos, i);
    }
  }

  lemma ReportsSnoc(infos: seq<Notice>, i: nat, states: set<LinkState>)
    requires infos != []
    ensures var n := |infos| - 1;
            Reports(infos, i, states) <==>
            Reports(infos[..n], i, states) || Says(infos[n], i, states)
  {
    var n := |infos| - 1;
    if Reports(infos[..n], i, states) {
      var k :| 0 <= k < n && Says(infos[..n][k], i, states);
      assert infos[k] == infos[..n][k];
    }
    if Reports(infos, i, states) {
      var k :| 0 <= k < |infos| && Says(infos[k], i, states);
      assert k < n ==> infos[..n][k] == infos[k];
    }
  }

  lemma {:induction false} ReportsJoin(a: seq<Notice>, b: seq<Notice>, i: nat, states: set<LinkState>)
    ensures Reports(a + b, i, states) <==> Reports(a, i, states) || Reports(b, i, states)
  {
    if b == [] {
      assert a + b == a;
    } else {
      var n := |b| - 1;
      ReportsJoin(a, b[..n], i, states);
      assert (a + b)[..|a| + n] == a + b[..n];
      ReportsSnoc(a + b, i, states);
      ReportsSnoc(b, i, states);
    }
  }

  lemma {:induction false} ToldJoin(l: Link, i: nat, a: seq<Notice>, b: seq<Notice>)
    ensures ToldAll(ToldAll(l, i, a), i, b) == ToldAll(l, i, a + b)
  {
    if b == [] {
      assert a + b == a;
    } else {
      var n := |b| - 1;
      ToldJoin(l, i, a, b[..n]);
      assert (a + b)[..|a| + n] == a + b[..n];
    }
  }

  // The link came up in wake n, in time, and no error reached it by then.
  predicate UpAt(i: nat, wakes: seq<Wake>, n: nat)
    requires n < |wakes|
  {
    && Reports(wakes[n].notices, i, {Active, Paused})
    && forall k :: 0 <= k <= n ==> !wakes[k].timedOut && !Reports(wakes[k].notices, i, {Error})
  }

  // A wait succeeds exactly when the link came up before the deadline and
  // before, and not together with, its first error.
  lemma {:induction false} WaitSucceedsExactly(l: Link, i: nat, wakes: seq<Wake>)
    requires l.proxy.Some? && !l.seenActive && !l.lost
    ensures Waited(l, i, wakes).1 == Ok <==> exists n :: 0 <= n < |wakes| && UpAt(i, wakes, n)
    decreases wakes
  {
    if wakes != [] {
      hide Reports, ToldAll;
      ToldFlags(l, i, wakes[0].notices);
      var told := ToldAll(l, i, wakes[0].notices);
      if wakes[0].timedOut || told.lost {
        assert forall n :: 0 <= n < |wakes| ==> !UpAt(i, wakes, n);
      } else if told.seenActive {
        assert UpAt(i, wakes, 0);
      } else {
        WaitSucceedsExactly(told, i, wakes[1..]);
        forall n | 0 <= n < |wakes| - 1 ensures UpAt(i, wakes[1..], n) == UpAt(i, wakes, n + 1) {
          UpAtTail(i, wakes, n);
        }
        if exists n :: 0 <= n < |wakes| && UpAt(i, wakes, n) {
          var n :| 0 <= n < |wakes| && UpAt(i, wakes, n);
          assert UpAt(i, wakes[1..], n - 1);
        }
      }
    }
  }

  // What the first n wakes bring.
  function Brought(wakes: seq<Wake>): (batches: seq<seq<Notice>>)
    ensures |batches| == |wakes|
  {
    seq(|wakes|, k requires 0 <= k < |wakes| => wakes[k].notices)
  }

  // The wake ends the wait for link i.
  predicate EndsWait(w: Wake, i: nat) {
    w.timedOut || Reports(w.notices, i, {Active, Paused, Error})
  }

  // A wait handles all that comes up to the wake that ends it. It fails for the
  // link's format exactly when there was an error in that, and otherwise for
  // time when it was not up, or too late.
  lemma {:induction false} WaitEndsExactly(l: Link, i: nat, wakes: seq<Wake>, n: nat)
    requires l.proxy.Some? && !l.seenActive && !l.lost
    requires n <= |wakes| && (forall k :: 0 <= k < n ==> !EndsWait(wakes[k], i)) && (n < |wakes| ==> EndsWait(wakes[n], i))
    ensures Heard(l, i, wakes) == Flatten(Brought(wakes[..Min(n + 1, |wakes|)]))
    ensures Waited(l, i, wakes).1
         == if n == |wakes| then Timeout
            else if Reports(wakes[n].notices, i, {Error}) then InvalidFormat
            else if wakes[n].timedOut then Timeout else Ok
    decreases wakes
  {
    if wakes != [] {
      var m := Min(n + 1, |wakes|);
      assert Brought(wakes[..m])[1..] == Brought(wakes[1..][..m - 1]);
      ToldFlags(l, i, wakes[0].notices);
      ReportsEither(wakes[0].notices, i);
      hide Reports, ToldAll;
      var told := ToldAll(l, i, wakes[0].notices);
      if n > 0 {
        WaitEndsExactly(told, i, wakes[1..], n - 1);
        assert Min(n, |wakes[1..]|) == m - 1;
      } else {
        assert Brought(wakes[1..][..m - 1]) == [];
        assert wakes[0].notices + [] == wakes[0].notices;
      }
    }
  }

  lemma ReportsEither(infos: seq<Notice>, i: nat)
    ensures Reports(infos, i, {Active, Paused, Error})
       <==> Reports(infos, i, {Active, Paused}) || Reports(infos, i, {Error})
  {
  }

  lemma UpAtTail(i: nat, wakes: seq<Wake>, n: nat)
    requires n + 1 < |wakes| && !wakes[0].timedOut && !Reports(wakes[0].notices, i, {Error})
    ensures UpAt(i, wakes[1..], n) == UpAt(i, wakes, n + 1)
  {
    hide Reports;
    if UpAt(i, wakes[1..], n) {
      forall k | 0 <= k <= n + 1 ensures !wakes[k].timedOut && !Reports(wakes[k].notices, i, {Error}) {
        if k > 0 {
          assert wakes[1..][k - 1] == wakes[k];
        }
      }
    }
    if UpAt(i, wakes, n + 1) {
      assert forall k :: 0 <= k <= n ==> wakes[1..][k] == wakes[k + 1];
    }
  }

  // A request fails for memory or the connection before it waits.
  lemma OutcomeExactly(script: LinkScript, i: nat)
    ensures (Outcome(script, i) == NoMemory <==> !script.propsMade)
    ensures (Outcome(script, i) == ConnectFailed <==> script.propsMade && !script.proxyMade)
    ensures script.propsMade && script.proxyMade ==> Outcome(script, i) == Waited(NEW_LINK, i, script.wakes).1
  {
    if script.propsMade && script.proxyMade {
      WaitCodes(NEW_LINK, i, script.wakes);
    }
  }

  lemma {:induction false} WaitCodes(l: Link, i: nat, wakes: seq<Wake>)
    ensures Waited(l, i, wakes).1 in {Ok, Timeout, InvalidFormat}
    decreases wakes
  {
    if wakes != [] {
      WaitCodes(ToldAll(l, i, wakes[0].notices), i, wakes[1..]);
    }
  }

  // The outcome of requesting the links from i on in turn, up to the first
  // that fails.
  function FirstFailure(script: nat -> LinkScript, i: nat, n: nat): Code
    requires i <= n
    decreases n - i
  {
    if i == n then Ok
    else if Outcome(script(i), i) != Ok then Outcome(script(i), i)
    else FirstFailure(script, i + 1, n)
  }

  // All the links come up, or the code is that of one that does not and
  // before which all did.
  lemma {:induction false} FirstFailureIsFirst(script: nat -> LinkScript, i: nat, n: nat)
    requires i <= n
    ensures FirstFailure(script, i, n) == Ok <==> forall k :: i <= k < n ==> Outcome(script(k), k) == Ok
    ensures FirstFailure(script, i, n) != Ok ==>
              exists k :: i <= k < n && Outcome(script(k), k) == FirstFailure(script, i, n)
                       && forall j :: i <= j < k ==> Outcome(script(j), j) == Ok
    decreases n - i
  {
    hide Outcome;
    if i < n && Outcome(script(i), i) == Ok {
      FirstFailureIsFirst(script, i + 1, n);
    }
  }

  // -------------------------------------------------------------------- plan

  const MAX_CHANNELS: nat := 64

  // pwf_stream_pair_ports
  function PairPorts(nStream: nat, nTarget: nat): (r: (nat, nat)) {
    if nStream == 0 || nTarget < nStream then (0, 0) else (nStream, nTarget - nStream)
  }

  function Opposite(d: Direction): Direction {
    if d == Output then Input else Output
  }

  // Which nodes are wired, and which way data flows between them.
  datatype Wiring = Wiring(ownNode: nat, target: nat, ownDir: Direction)

  function EndsOf(own: Option<nat>, peer: Option<nat>, w: Wiring): Ends {
    if w.ownDir == Output then Ends(w.ownNode, own, w.target, peer) else Ends(w.target, peer, w.ownNode, own)
  }

  // The links wanted: the i-th own port with the i-th of the target's.
  function Wanted(own: seq<PortEntry>, peer: seq<PortEntry>, w: Wiring): (r: seq<Ends>)
    requires |own| <= |peer|
    ensures |r| == |own|
  {
    seq(|own|, i requires 0 <= i < |own| => EndsOf(Some(own[i].id), Some(peer[i].id), w))
  }

  function GraphEvents(notices: seq<Notice>): seq<Event> {
    if notices == [] then []
    else
      var n := |notices| - 1;
      GraphEvents(notices[..n]) + if notices[n].Graph? then [notices[n].event] else []
  }

  function GraphOf(notices: seq<Notice>): (events: seq<Option<Event>>)
    ensures |events| == |notices|
  {
    seq(|notices|, i requires 0 <= i < |notices| => if notices[i].Graph? then Some(notices[i].event) else None)
  }

  lemma {:induction false} GraphEventsInOrder(notices: seq<Notice>)
    ensures InOrder(GraphEvents(notices), GraphOf(notices))
  {
    if notices != [] {
      hide InOrder, Listed, GraphEvents, GraphOf;
      var n := |notices| - 1;
      GraphEventsInOrder(notices[..n]);
      GraphStep(notices);
      InOrderSnoc(GraphEvents(notices[..n]), GraphOf(notices[..n]), GraphOf(notices)[n]);
    }
  }

  lemma GraphStep(notices: seq<Notice>)
    requires notices != []
    ensures var n := |notices| - 1;
            && GraphOf(notices) == GraphOf(notices[..n]) + [GraphOf(notices)[n]]
            && GraphEvents(notices) == GraphEvents(notices[..n]) + Listed(GraphOf(notices)[n])
  {
    hide GraphEvents;
    var n := |notices| - 1;
    GraphLast(notices);
    var before, after := GraphOf(notices[..n]), GraphOf(notices);
    assert after[..n] == before;
    LastSplit(after);
  }

  lemma GraphLast(notices: seq<Notice>)
    requires notices != []
    ensures var n := |notices| - 1;
            GraphEvents(notices) == GraphEvents(notices[..n]) + if notices[n].Graph? then [notices[n].event] else []
  {
  }

  // The registry events handled, since the ports were listed, when request i
  // reads their ids.
  function EventsBefore(script: nat -> LinkScript, i: nat): seq<Event> {
    GraphEvents(Past(script, i) + script(i).before)
  }

  // The links really asked for: ids are read through the pointers listed, each
  // when its request is made.
  function Request(t: PortTable, script: nat -> LinkScript, own: seq<PortRef>, peer: seq<PortRef>, w: Wiring, i: nat): Ends
    requires i < |own| <= |peer|
  {
    var now := TableAll(t, EventsBefore(script, i));
    EndsOf(IdAt(now, own[i]), IdAt(now, peer[i]), w)
  }

  function Requests(t: PortTable, script: nat -> LinkScript, own: seq<PortRef>, peer: seq<PortRef>, w: Wiring)
    : (r: seq<Ends>)
    requires |own| <= |peer|
    ensures |r| == |own|
  {
    seq(|own|, i requires 0 <= i < |own| => Request(t, script, own, peer, w, i))
  }

  // Link k, made and up, has failed again while a later one was requested.
  predicate LostLater(script: nat -> LinkScript, k: nat, n: nat) {
    exists j :: k < j < n && Reports(Handled(script(j), j), k, {Error})
  }

  lemma LostLaterSnoc(script: nat -> LinkScript, k: nat, i: nat)
    ensures LostLater(script, k, i + 1) <==> LostLater(script, k, i) || (k < i && Reports(Handled(script(i), i), k, {Error}))
  {
    hide Reports, Handled;
  }

  lemma {:induction false} ErrorsSince(script: nat -> LinkScript, k: nat, n: nat)
    requires k < n
    ensures Reports(Since(script, k, n), k, {Error})
       <==> Reports(During(script(k), k), k, {Error}) || LostLater(script, k, n)
    decreases n
  {
    hide Reports, During;
    LostLaterSnoc(script, k, n - 1);
    if n > k + 1 {
      ErrorsSince(script, k, n - 1);
      ReportsJoin(Since(script, k, n - 1), Handled(script(n - 1), n - 1), k, {Error});
    } else {
      assert !LostLater(script, k, k);
    }
  }

  lemma {:induction false} UpSince(script: nat -> LinkScript, k: nat, n: nat)
    requires k < n && Reports(During(script(k), k), k, UP)
    ensures Reports(Since(script, k, n), k, UP)
    decreases n
  {
    hide Reports, During;
    if n > k + 1 {
      UpSince(script, k, n - 1);
      ReportsJoin(Since(script, k, n - 1), Handled(script(n - 1), n - 1), k, UP);
    }
  }

  // A link that came up when requested: whether it is flagged lost after n
  // requests, and whether it is still up.
  lemma LinkAfterExactly(script: nat -> LinkScript, k: nat, n: nat)
    requires k < n && Outcome(script(k), k) == Ok
    ensures var l := LinkAfter(script, k, n);
            && l.seenActive && (l.lost <==> LostLater(script, k, n))
            && (l.standing <==> Answered(Since(script, k, n), k))
  {
    hide Reports, Answered, ToldAll, LostLater, Heard;
    var during := During(script(k), k);
    WaitedIsTold(NEW_LINK, k, script(k).wakes);
    ToldFlags(NEW_LINK, k, during);
    ErrorsSince(script, k, n);
    UpSince(script, k, n);
    ToldFlags(NEW_LINK, k, Since(script, k, n));
    ToldStanding(NEW_LINK, k, Since(script, k, n));
  }

  lemma {:induction false} EventsJoin(a: seq<Notice>, b: seq<Notice>)
    ensures GraphEvents(a + b) == GraphEvents(a) + GraphEvents(b)
  {
    if b == [] {
      assert a + b == a;
    } else {
      var n := |b| - 1;
      EventsJoin(a, b[..n]);
      assert (a + b)[..|a| + n] == a + b[..n];
    }
  }

  lemma {:induction false} TableJoin(t: PortTable, a: seq<Event>, b: seq<Event>)
    ensures TableAll(t, a + b) == TableAll(TableAll(t, a), b)
  {
    if b == [] {
      assert a + b == a;
    } else {
      hide TableAfter, TableAll;
      var n := |b| - 1;
      TableJoin(t, a, b[..n]);
      Regroup(a, b);
      TableStep(t, a + b[..n], b[n]);
      TableStep(TableAll(t, a), b[..n], b[n]);
    }
  }

  lemma NoticesJoin(t: PortTable, a: seq<Notice>, b: seq<Notice>)
    ensures TableAll(t, GraphEvents(a + b)) == TableAll(TableAll(t, GraphEvents(a)), GraphEvents(b))
  {
    hide TableAll, GraphEvents;
    EventsJoin(a, b);
    TableJoin(t, GraphEvents(a), GraphEvents(b));
  }

  // What pwf_stream_link decides: a refusal, or the ports to join, by ordinal.
  datatype Plan = Refused(code: Code) | Connect(wiring: Wiring, own: seq<PortEntry>, peer: seq<PortEntry>)

  // The decision from the registry, once the own node is known.
  function PlanFor(c: Cache, target: string, ownNode: nat, ownDir: Direction): (p: Plan)
    ensures p.Connect? ==> 0 < |p.own| <= |p.peer|
  {
    var t := Resolve(c.nodes, target);
    if t == 0 then Refused(NotFound)
    else
      var own := Listing(c.ports, ownNode, ownDir, MAX_CHANNELS);
      var peer := Listing(c.ports, t, Opposite(ownDir), MAX_CHANNELS);
      var nOwn, nPeer := |Matches(c.ports, ownNode, ownDir)|, |Matches(c.ports, t, Opposite(ownDir))|;
      if nOwn > MAX_CHANNELS || nPeer > MAX_CHANNELS || PairPorts(nOwn, nPeer).0 == 0 then Refused(InvalidArg)
      else Connect(Wiring(ownNode, t, ownDir), own, peer)
  }

  // One return of the wait for our own ports: the node id known by then, and
  // the registry events handled.
  datatype OwnWake = OwnWake(node: Option<nat>, events: seq<Event>, timedOut: bool)

  // pwf_stream_await_own_ports
  function OwnNode(c: Cache, node: Option<nat>, expected: nat, dir: Direction, wakes: seq<OwnWake>): (Option<nat>, Cache)
    decreases wakes
  {
    if node.Some? && |Matches(c.ports, node.value, dir)| >= expected then (node, c)
    else if wakes == [] then (None, c)
    else
      var after := ApplyAll(c, wakes[0].events);
      if wakes[0].timedOut then (None, after) else OwnNode(after, wakes[0].node, expected, dir, wakes[1..])
  }

  datatype Binding = Bound | BindTimedOut | BindFailed

  // The environment of one call.
  datatype CallEnv = CallEnv(
    inCallback: bool, binding: Binding, node: Option<nat>, ownWakes: seq<OwnWake>,
    setMade: bool, linksMade: bool, script: nat -> LinkScript)

  // -------------------------------------------------------------------- stream

  function Proxies(links: seq<Link>): seq<nat> {
    if links == [] then []
    else
      var l := links[|links| - 1];
      Proxies(links[..|links| - 1]) + if l.proxy.Some? then [l.proxy.value] else []
  }

  function Range(base: nat, n: nat): (s: seq<nat>)
    ensures |s| == n && forall i :: 0 <= i < n ==> s[i] == base + i
  {
    seq(n, i => base + i)
  }

  lemma {:induction false} ProxiesInRange(links: seq<Link>, base: nat, n: nat)
    requires n <= |links| && forall k :: 0 <= k < n ==> links[k].proxy == Some(base + k)
    requires forall k :: n <= k < |links| ==> links[k].proxy.None?
    ensures Proxies(links) == Range(base, n)
  {
    if links != [] {
      var m := |links| - 1;
      ProxiesInRange(links[..m], base, if n > m then m else n);
    }
  }

  lemma NothingHandled(t: PortTable)
    ensures TableAll(t, GraphEvents([])) == t
    ensures forall l: Link, i: nat :: ToldAll(l, i, []) == l
  {
  }

  lemma TableStep(t: PortTable, events: seq<Event>, ev: Event)
    ensures TableAll(t, events + [ev]) == TableAfter(TableAll(t, events), ev)
  {
    assert (events + [ev])[..|events|] == events;
  }

  lemma {:induction false} NoneAdded(links: seq<Link>, n: nat)
    requires n <= |links| && forall i :: n <= i < |links| ==> links[i].proxy.None?
    ensures Proxies(links[..n]) == Proxies(links)
  {
    if n < |links| {
      var m := |links| - 1;
      NoneAdded(links[..m], n);
      assert links[..m][..n] == links[..n];
    } else {
      assert links[..n] == links;
    }
  }

  lemma NoProxies()
    ensures Proxies([]) == []
  {
  }

  lemma RangesJoin(n: nat, m: nat)
    ensures Range(0, n) + Range(n, m) == Range(0, n + m)
    ensures multiset(Range(0, n)) + multiset(Range(n, m)) == multiset(Range(0, n + m))
  {
    assert multiset(Range(0, n) + Range(n, m)) == multiset(Range(0, n)) + multiset(Range(n, m));
  }

  // The linking part of struct pwf_stream, with the record of every proxy the
  // core made (proxy p is the p-th) and of every destruction, in order.
  class Stream {
    const ownDir: Direction
    const expected: nat
    var autoconnect: bool
    var state: StreamState
    var hasPwStream: bool
    var hasLinks: bool
    var targetNode: nat
    var links: seq<Link>
    var nLinks: nat
    var created: seq<Ends>
    var destroyed: seq<nat>
    var losses: nat

    // Every proxy made is either in the link set or destroyed, and once.
    ghost predicate Valid()
      reads this
    {
      && nLinks <= |links|
      && (!hasLinks ==> links == [])
      && (forall i :: nLinks <= i < |links| ==> links[i].proxy.None?)
      && Conserved()
    }

    ghost predicate Conserved()
      reads this
    {
      multiset(destroyed) + multiset(Proxies(links)) == multiset(Range(0, |created|))
    }

    constructor (ownDir: Direction, expected: nat)
      ensures Valid() && !hasLinks && created == [] && destroyed == []
    {
      this.ownDir, this.expected := ownDir, expected;
      autoconnect, state, hasPwStream := true, Created, false;
      hasLinks, targetNode, links, nLinks := false, 0, [], 0;
      created, destroyed, losses := [], [], 0;
    }

    method OnInfo(info: Notice)
      requires info.Info?
      modifies this`links
      ensures |links| == |old(links)|
      ensures forall i :: 0 <= i < |links| ==> links[i] == Told(old(links[i]), i, info)
    {
      if info.link < |links| && links[info.link].proxy.Some? && info.changed {
        var l := links[info.link];
        if info.state == Active || info.state == Paused {
          links := links[info.link := l.(seenActive := true, standing := true)];
        } else if info.state == Error {
          links := links[info.link := l.(lost := true, standing := false)];
        } else if info.state == Unlinked {
          links := links[info.link := l.(standing := false)];
        }
      }
    }

    // What the loop does while this thread does not hold it.
    method HandleAll(reg: GraphRegistry, notices: seq<Notice>)
      modifies this`links, reg
      ensures |links| == |old(links)|
      ensures forall i :: 0 <= i < |links| ==> links[i] == ToldAll(old(links[i]), i, notices)
      ensures reg.Memory() == TableAll(old(reg.Memory()), GraphEvents(notices))
    {
      hide TableAfter, Apply;
      for k := 0 to |notices|
        invariant |links| == |old(links)|
        invariant forall i :: 0 <= i < |links| ==> links[i] == ToldAll(old(links[i]), i, notices[..k])
        invariant reg.Memory() == TableAll(old(reg.Memory()), GraphEvents(notices[..k]))
      {
        var notice := notices[k];
        assert notices[..k + 1][..k] == notices[..k];
        if notice.Info? {
          OnInfo(notice);
          assert GraphEvents(notices[..k + 1]) == GraphEvents(notices[..k]);
        } else {
          reg.HandleEvent(notice.event);
          TableStep(old(reg.Memory()), GraphEvents(notices[..k]), notice.event);
        }
      }
      assert notices[..|notices|] == notices;
    }

    // The loop that waits for link i.
    method Wait(reg: GraphRegistry, i: nat, wakes: seq<Wake>) returns (res: Code)
      requires i < |links|
      modifies this`links, reg
      ensures |links| == |old(links)|
      ensures (links[i], res) == Waited(old(links[i]), i, wakes)
      ensures forall k :: 0 <= k < |links| && k != i ==>
                links[k] == ToldAll(old(links[k]), k, Heard(old(links[i]), i, wakes))
      ensures reg.Memory() == TableAll(old(reg.Memory()), GraphEvents(Heard(old(links[i]), i, wakes)))
    {
      hide TableAll, GraphEvents, Waited, Heard, ToldAll;
      WaitEnds(links[i], i, wakes, 0);
      ghost var was, table, all := links, reg.Memory(), Heard(links[i], i, wakes);
      ghost var done: seq<Notice> := [];
      NothingHandled(table);
      res := Ok;
      var n := 0;
      while !links[i].seenActive && !links[i].lost
        invariant n <= |wakes| && |links| == |was| && res == Ok
        invariant Waited(was[i], i, wakes) == Waited(links[i], i, wakes[n..])
        invariant done + Heard(links[i], i, wakes[n..]) == all
        invariant forall k :: 0 <= k < |links| && k != i ==> links[k] == ToldAll(was[k], k, done)
        invariant reg.Memory() == TableAll(table, GraphEvents(done))
        decreases |wakes| - n
      {
        WaitEnds(links[i], i, wakes, n);
        if n == |wakes| {
          assert done == all;
          return Timeout;
        }
        var more := wakes[n].notices;
        ghost var l := links[i];
        forall k | 0 <= k < |links| && k != i ensures ToldAll(links[k], k, more) == ToldAll(was[k], k, done + more) {
          ToldJoin(was[k], k, done, more);
        }
        NoticesJoin(table, done, more);
        HandleAll(reg, more);
        done := done + more;
        if wakes[n].timedOut {
          res := Timeout;
          assert done == all;
          break;
        }
        assert all == done + Heard(ToldAll(l, i, more), i, wakes[n + 1..]);
        n := n + 1;
      }
      if res == Ok {
        WaitEnds(links[i], i, wakes, n);
        assert done == all;
      }
      if links[i].lost {
        res := InvalidFormat;
      }
    }

    // pwf_stream_link_one
    method LinkOne(reg: GraphRegistry, i: nat, ends: Ends, script: LinkScript) returns (res: Code)
      requires i < |links| && links[i].proxy.None?
      modifies this`links, this`created, reg
      ensures res == Outcome(script, i) && |links| == |old(links)|
      ensures created == old(created) + if script.propsMade && script.proxyMade then [ends] else []
      ensures links[i].proxy == if |created| > |old(created)| then Some(|old(created)|) else None
      ensures |created| > |old(created)| ==>
                links[i] == ToldAll(NEW_LINK, i, During(script, i)).(proxy := Some(|old(created)|))
      ensures res == Ok ==> links[i].seenActive && !links[i].lost && |created| > |old(created)|
      ensures forall k :: 0 <= k < |links| && k != i ==> links[k] == ToldAll(old(links[k]), k, During(script, i))
      ensures reg.Memory() == TableAll(old(reg.Memory()), GraphEvents(During(script, i)))
    {
      hide TableAll, GraphEvents, Waited, Heard, ToldAll;
      NothingHandled(reg.Memory());
      if !script.propsMade {
        return NoMemory;
      }
      links := links[i := Link(None, false, false, false)];
      if !script.proxyMade {
        return ConnectFailed;
      }
      var proxy := |created|;
      created := created + [ends];
      links := links[i := links[i].(proxy := Some(proxy))];
      ghost var l := links[i];
      WaitIgnoresId(NEW_LINK, proxy, i, script.wakes);
      WaitedIsTold(l, i, script.wakes);
      ToldIgnoresId(NEW_LINK, proxy, i, During(script, i));
      res := Wait(reg, i, script.wakes);
    }

    // Whenever nothing is linked, every proxy ever made is destroyed, once.
    lemma AllDestroyedOnce()
      requires Valid() && !hasLinks
      ensures multiset(destroyed) == multiset(Range(0, |created|))
    {
      NoProxies();
    }

    // pwf_stream_release_links
    method ReleaseLinks()
      requires nLinks <= |links| && forall i :: nLinks <= i < |links| ==> links[i].proxy.None?
      modifies this`hasLinks, this`links, this`nLinks, this`destroyed
      ensures !hasLinks && links == [] && nLinks == 0
      ensures destroyed == old(destroyed) + if old(hasLinks) then Proxies(old(links)) else []
    {
      var released, n := links, nLinks;
      var had := hasLinks;
      hasLinks, links, nLinks := false, [], 0;
      if !had {
        return;
      }
      for i := 0 to n
        invariant !hasLinks && links == [] && nLinks == 0
        invariant destroyed == old(destroyed) + Proxies(released[..i])
      {
        assert released[..i + 1][..i] == released[..i];
        if released[i].proxy.Some? {
          destroyed := destroyed + [released[i].proxy.value];
        }
      }
      NoneAdded(released, n);
    }

    // pwf_stream_await_own_ports
    method AwaitOwnPorts(reg: GraphRegistry, node: Option<nat>, wakes: seq<OwnWake>) returns (own: Option<nat>)
      modifies reg
      ensures (own, reg.Contents()) == OwnNode(old(reg.Contents()), node, expected, ownDir, wakes)
      ensures own.Some? ==> |Matches(reg.ports, own.value, ownDir)| >= expected
    {
      hide Matches, ApplyAll, TableAll;
      own := node;
      var n := 0;
      while true
        invariant n <= |wakes|
        invariant OwnNode(old(reg.Contents()), node, expected, ownDir, wakes)
               == OwnNode(reg.Contents(), own, expected, ownDir, wakes[n..])
        decreases |wakes| - n
      {
        if own.Some? {
          var found := reg.ListPorts(own.value, ownDir, null, 0);
          if found >= expected {
            return;
          }
        }
        if n == |wakes| {
          return None;
        }
        assert wakes[n..][1..] == wakes[n + 1..];
        reg.HandleEvents(wakes[n].events);
        if wakes[n].timedOut {
          return None;
        }
        own := wakes[n].node;
        n := n + 1;
      }
    }

    // The argument and state checks of pwf_stream_link, in order.
    function Refusal(target: Option<string>, env: CallEnv): Option<Code>
      reads this
    {
      if target.None? || target.value == "" then Some(InvalidArg)
      else if env.inCallback then Some(InCallback)
      else if autoconnect || hasLinks then Some(InvalidArg)
      else if state != Running || !hasPwStream then Some(NotConfigured)
      else if env.binding == BindTimedOut then Some(Timeout)
      else if env.binding == BindFailed then Some(ConnectFailed)
      else None
    }

    // Everything pwf_stream_link decides before it asks for the first link.
    function Decision(c: Cache, target: Option<string>, env: CallEnv): Plan
      reads this
    {
      if Refusal(target, env).Some? then Refused(Refusal(target, env).value)
      else
        var (own, after) := OwnNode(c, env.node, expected, ownDir, env.ownWakes);
        if own.None? then Refused(Timeout)
        else
          var plan := PlanFor(after, target.value, own.value, ownDir);
          if plan.Connect? && (!env.setMade || !env.linksMade) then Refused(NoMemory) else plan
    }

    // One link per request, made in order, each as everything handled since
    // has left it.
    ghost predicate Linked(target: nat, requests: seq<Ends>, base: seq<Ends>, script: nat -> LinkScript)
      reads this
    {
      && hasLinks && targetNode == target && nLinks == |links| == |requests|
      && created == base + requests
      && forall i :: 0 <= i < |requests| ==>
           links[i] == LinkAfter(script, i, |requests|).(proxy := Some(|base| + i))
    }

    // Nothing linked, and what was made for it destroyed again, once each.
    ghost predicate Undone(requests: seq<Ends>, base: seq<Ends>, gone: seq<nat>)
      reads this
    {
      && !hasLinks && links == []
      && exists k :: 0 <= k <= |requests| && created == base + requests[..k] && destroyed == gone + Range(|base|, k)
    }

    // The first i requests are made.
    ghost predicate Making(target: nat, requests: seq<Ends>, base: seq<Ends>, script: nat -> LinkScript, i: nat)
      requires i <= |requests|
      reads this
    {
      && hasLinks && targetNode == target && nLinks == i && |links| == |requests|
      && created == base + requests[..i]
      && (forall k :: 0 <= k < i ==> links[k] == LinkAfter(script, k, i).(proxy := Some(|base| + k)))
      && forall k :: i <= k < |links| ==> links[k].proxy.None?
    }

    // An earlier link after one more request.
    lemma LinkAfterSnoc(script: nat -> LinkScript, k: nat, i: nat, p: nat)
      requires k < i
      ensures var l := LinkAfter(script, k, i).(proxy := Some(p));
              ToldAll(ToldAll(l, k, script(i).before), k, During(script(i), i))
              == LinkAfter(script, k, i + 1).(proxy := Some(p))
    {
      hide ToldAll, During;
      ToldIgnoresId(LinkAfter(script, k, i), p, k, Handled(script(i), i));
      ToldJoin(LinkAfter(script, k, i).(proxy := Some(p)), k, script(i).before, During(script(i), i));
      ToldJoin(NEW_LINK, k, Since(script, k, i), Handled(script(i), i));
    }

    method LinkNext(reg: GraphRegistry, ghost t: PortTable, w: Wiring, own: seq<PortRef>, peer: seq<PortRef>,
                    ghost base: seq<Ends>, i: nat, script: nat -> LinkScript)
      returns (res: Code)
      requires i < |own| <= |peer| && Making(w.target, Requests(t, script, own, peer, w), base, script, i)
      requires reg.Memory() == TableAll(t, GraphEvents(Past(script, i)))
      modifies this`hasLinks, this`links, this`nLinks, this`created, this`destroyed, reg
      ensures res == Outcome(script(i), i)
      ensures res == Ok ==>
                && Making(w.target, Requests(t, script, own, peer, w), base, script, i + 1)
                && destroyed == old(destroyed)
                && reg.Memory() == TableAll(t, GraphEvents(Past(script, i + 1)))
      ensures res != Ok ==> Undone(Requests(t, script, own, peer, w), base, old(destroyed)) && nLinks == 0
    {
      hide Outcome, Proxies, TableAll, GraphEvents, IdAt, During, ToldAll;
      var s := script(i);
      ghost var was, requests := links, Requests(t, script, own, peer, w);
      NoticesJoin(t, Past(script, i), s.before);
      HandleAll(reg, s.before);
      var now := reg.Memory();
      var ends := EndsOf(IdAt(now, own[i]), IdAt(now, peer[i]), w);
      assert ends == requests[i];
      res := LinkOne(reg, i, ends, s);
      nLinks := i + 1;
      var made := if links[i].proxy.Some? then i + 1 else i;
      assert created == base + requests[..made] by {
        assert base + requests[..i] + [requests[i]] == base + requests[..i + 1];
      }
      if res != Ok {
        ProxiesInRange(links, |base|, made);
        ReleaseLinks();
        assert destroyed == old(destroyed) + Range(|base|, made);
      } else {
        forall k | 0 <= k <= i ensures links[k] == LinkAfter(script, k, i + 1).(proxy := Some(|base| + k)) {
          if k < i {
            LinkAfterSnoc(script, k, i, |base| + k);
          }
        }
        NoticesJoin(t, Past(script, i) + s.before, During(s, i));
        assert Past(script, i + 1) == (Past(script, i) + s.before) + During(s, i);
      }
    }

    method LinkAll(reg: GraphRegistry, w: Wiring, own: seq<PortRef>, peer: seq<PortRef>, script: nat -> LinkScript)
      returns (res: Code)
      requires Valid() && !hasLinks && 0 < |own| <= |peer|
      modifies this`hasLinks, this`targetNode, this`links, this`nLinks, this`created, this`destroyed, reg
      ensures Valid() && res == FirstFailure(script, 0, |own|)
      ensures var requests := Requests(old(reg.Memory()), script, own, peer, w);
              if res == Ok then Linked(w.target, requests, old(created), script) && destroyed == old(destroyed)
              else Undone(requests, old(created), old(destroyed))
    {
      hide Outcome, Proxies, TableAll, GraphEvents, Requests, LinkAfter, Linked, Undone;
      ghost var t, base, gone := reg.Memory(), created, destroyed;
      ghost var requests := Requests(t, script, own, peer, w);
      assert multiset(gone) == multiset(Range(0, |base|)) by { NoProxies(); }
      NothingHandled(t);
      hasLinks, targetNode, nLinks := true, w.target, 0;
      links := seq(|own|, _ => Link(None, false, false, false));
      assert Making(w.target, requests, base, script, 0);
      hide Making;
      for i := 0 to |own|
        invariant Making(w.target, requests, base, script, i) && destroyed == gone
        invariant reg.Memory() == TableAll(t, GraphEvents(Past(script, i)))
        invariant FirstFailure(script, 0, |own|) == FirstFailure(script, i, |own|)
      {
        res := LinkNext(reg, t, w, own, peer, base, i, script);
        if res != Ok {
          UndoneConserves(requests, base, gone);
          return;
        }
      }
      res := Ok;
      MadeAll(w.target, requests, base, script);
    }

    lemma MadeAll(target: nat, requests: seq<Ends>, base: seq<Ends>, script: nat -> LinkScript)
      requires Making(target, requests, base, script, |requests|)
      requires multiset(destroyed) == multiset(Range(0, |base|))
      ensures Linked(target, requests, base, script) && Valid()
    {
      hide LinkAfter;
      assert requests[..|requests|] == requests;
      ProxiesInRange(links, |base|, |requests|);
      RangesJoin(|base|, |requests|);
    }

    lemma UndoneConserves(requests: seq<Ends>, base: seq<Ends>, gone: seq<nat>)
      requires Undone(requests, base, gone) && multiset(gone) == multiset(Range(0, |base|)) && nLinks == 0
      ensures Valid()
    {
      var k :| 0 <= k <= |requests| && created == base + requests[..k] && destroyed == gone + Range(|base|, k);
      NoProxies();
      RangesJoin(|base|, k);
      assert multiset(gone + Range(|base|, k)) == multiset(gone) + multiset(Range(|base|, k));
    }

    // pwf_stream_link. `listed` is the port cache when the ports are listed,
    // `own` and `peer` the pointers into it.
    method LinkTo(reg: GraphRegistry, target: Option<string>, env: CallEnv)
      returns (res: Code, ghost listed: PortTable, ghost own: seq<PortRef>, ghost peer: seq<PortRef>)
      requires Valid()
      modifies this`hasLinks, this`targetNode, this`links, this`nLinks, this`created, this`destroyed, reg
      ensures Valid()
      ensures match old(Decision(reg.Contents(), target, env))
              case Refused(code) =>
                && res == code && created == old(created) && destroyed == old(destroyed)
                && hasLinks == old(hasLinks) && links == old(links)
              case Connect(w, ownPorts, peerPorts) =>
                && Refer(listed, own, ownPorts) && Refer(listed, peer, peerPorts) && |own| <= |peer|
                && listed.ports == OwnNode(old(reg.Contents()), env.node, expected, ownDir, env.ownWakes).1.ports
                && res == FirstFailure(env.script, 0, |own|)
                && var requests := Requests(listed, env.script, own, peer, w);
                   if res == Ok then Linked(w.target, requests, old(created), env.script) && destroyed == old(destroyed)
                   else Undone(requests, old(created), old(destroyed))
    {
      hide Matches, Listing, Resolve, FirstFailure, OwnNode, Linked, Undone, Requests, Refer;
      own, peer, listed := [], [], reg.Memory();
      if target.None? || target.value == "" {
        res := InvalidArg;
        return;
      }
      if env.inCallback {
        res := InCallback;
        return;
      }
      if autoconnect {
        res := InvalidArg;
        return;
      }
      if hasLinks {
        res := InvalidArg;
        return;
      }
      if state != Running || !hasPwStream {
        res := NotConfigured;
        return;
      }
      if env.binding != Bound {
        res := if env.binding == BindTimedOut then Timeout else ConnectFailed;
        return;
      }
      var ownNode := AwaitOwnPorts(reg, env.node, env.ownWakes);
      listed := reg.Memory();
      if ownNode.None? {
        res := Timeout;
        return;
      }
      var node := ResolveTarget(reg, target.value);
      if node == 0 {
        res := NotFound;
        return;
      }
      var ownPorts := new PortRef[MAX_CHANNELS](_ => PortRef(0, 0));
      var peerPorts := new PortRef[MAX_CHANNELS](_ => PortRef(0, 0));
      var nOwn := reg.ListPorts(ownNode.value, ownDir, ownPorts, MAX_CHANNELS);
      var nPeer := reg.ListPorts(node, Opposite(ownDir), peerPorts, MAX_CHANNELS);
      if nOwn > MAX_CHANNELS || nPeer > MAX_CHANNELS {
        res := InvalidArg;
        return;
      }
      var (pairs, _) := PairPorts(nOwn, nPeer);
      if pairs == 0 {
        res := InvalidArg;
        return;
      }
      if !env.setMade || !env.linksMade {
        res := NoMemory;
        return;
      }
      own, peer := ownPorts[..pairs], peerPorts[..nPeer];
      res := LinkAll(reg, Wiring(ownNode.value, node, ownDir), ownPorts[..pairs], peerPorts[..nPeer], env.script);
    }

    // pwf_stream_unlink
    method Unlink(inCallback: bool) returns (res: Code)
      requires Valid()
      modifies this`hasLinks, this`links, this`nLinks, this`destroyed
      ensures Valid()
      ensures res == if inCallback then InCallback else if !old(hasLinks) then NotConfigured else Ok
      ensures if res == Ok then !hasLinks && destroyed == old(destroyed) + Proxies(old(links))
              else hasLinks == old(hasLinks) && links == old(links) && destroyed == old(destroyed)
    {
      if inCallback {
        return InCallback;
      }
      if !hasLinks {
        return NotConfigured;
      }
      ReleaseLinks();
      return Ok;
    }

    // pwf_stream_on_node_removed, when no pwf_stream_link is waiting.
    method OnNodeRemoved(id: nat)
      requires Valid()
      modifies this`hasLinks, this`links, this`nLinks, this`destroyed, this`losses
      ensures Valid()
      ensures if old(hasLinks) && old(targetNode) == id
              then !hasLinks && destroyed == old(destroyed) + Proxies(old(links)) && losses == old(losses) + 1
              else hasLinks == old(hasLinks) && links == old(links) && destroyed == old(destroyed) && losses == old(losses)
    {
      if !hasLinks || targetNode != id {
        return;
      }
      ReleaseLinks();
      losses := losses + 1;
    }
  }
}
