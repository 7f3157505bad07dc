// Every run of a filter's ports, calls and loop events interleaved in any way:
// when the loss of a source is reported.
module FilterLinkRuns {
  import opened Base
  import opened FilterLinks

  datatype NoteKind = Reported | Released | Negotiated

  // What happened to a port, and the filter's state then: its source was
  // reported lost, its link proxy was released, or a format was negotiated.
  datatype Note = Note(kind: NoteKind, port: nat, state: FilterState)

  // `releasing` is a stop that has yet to release the links.
  datatype System = System(state: FilterState, ports: seq<PortLink>, releasing: bool, log: seq<Note>)

  datatype Step =
    | Hear(port: nat, e: PortEvent)
    | AddPort(input: bool)
    | StartFilter(connected: bool)
    | StopHalt
    | StopRelease
    | LinkBegin(port: nat)
    | LinkEnd(port: nat, timedOut: bool)
    | Unlink(port: nat)

  const START := System(Created, [], false, [])

  predicate Enabled(s: System, step: Step) {
    match step
    case Hear(i, e) => i < |s.ports| && !e.Taken?
    case AddPort(_) => true
    case StartFilter(_) => true
    case StopHalt => s.state == Running
    case StopRelease => s.releasing
    case LinkBegin(i) => i < |s.ports| && s.ports[i].input && s.ports[i].proxy.None? && s.ports[i].wait.None?
    case LinkEnd(i, timedOut) => i < |s.ports| && s.ports[i].wait.Some? && (timedOut || s.ports[i].wait.value.done)
    case Unlink(i) => i < |s.ports| && s.ports[i].input && s.ports[i].proxy.Some?
  }

  function ReleaseNotes(ports: seq<PortLink>, state: FilterState): seq<Note> {
    if ports == [] then []
    else
      var n := |ports| - 1;
      ReleaseNotes(ports[..n], state) + if ports[n].proxy.Some? then [Note(Released, n, state)] else []
  }

  function ReleaseAll(ports: seq<PortLink>): (r: seq<PortLink>)
    ensures |r| == |ports|
  {
    seq(|ports|, i requires 0 <= i < |ports| => Release(ports[i]))
  }

  function WithPort(s: System, i: nat, p: PortLink, notes: seq<Note>): System
    requires i < |s.ports|
  {
    s.(ports := s.ports[i := p], log := s.log + notes)
  }

  function Next(s: System, step: Step): System
    requires Enabled(s, step)
  {
    match step
    case Hear(i, e) =>
      var (p, reported) := Handle(s.state, s.ports[i], e);
      WithPort(s, i, p, if e.Format? && e.isSet then [Note(Negotiated, i, s.state)]
                        else if reported then [Note(Reported, i, s.state)] else [])
    case AddPort(input) => s.(ports := s.ports + [PortLink(input, None, None, false, false, false, 0, [])])
    case StartFilter(connected) =>
      if s.ports == [] || (s.state == Created && !connected) then s else s.(state := Running)
    case StopHalt => s.(state := Stopped, releasing := true)
    case StopRelease => s.(ports := ReleaseAll(s.ports), releasing := false, log := s.log + ReleaseNotes(s.ports, s.state))
    case LinkBegin(i) => WithPort(s, i, Begin(s.ports[i]), [])
    case LinkEnd(i, timedOut) =>
      var p := s.ports[i];
      WithPort(s, i, End(p, timedOut),
               if ResultOf(p, timedOut) != Ok && p.proxy.Some? then [Note(Released, i, s.state)] else [])
    case Unlink(i) => WithPort(s, i, Release(s.ports[i]), [Note(Released, i, s.state)])
  }

  function After(steps: seq<Step>): Option<System> {
    if steps == [] then Some(START)
    else
      var before := After(steps[..|steps| - 1]);
      if before.Some? && Enabled(before.value, steps[|steps| - 1])
      then Some(Next(before.value, steps[|steps| - 1])) else None
  }

  // ----------------------------------------------------------------- history

  predicate NegotiatedAfter(log: seq<Note>, i: nat, k: nat) {
    exists j :: k < j < |log| && log[j].kind == Negotiated && log[j].port == i
  }

  // A report or a release of port i, at k, with no format negotiated since.
  predicate StandsAt(log: seq<Note>, i: nat, k: nat)
    requires k < |log|
  {
    log[k].port == i && log[k].kind != Negotiated && !NegotiatedAfter(log, i, k)
  }

  predicate Silenced(log: seq<Note>, i: nat) {
    exists k :: 0 <= k < |log| && StandsAt(log, i, k)
  }

  // Between a report, or a release, of a port and a later report of it, a
  // format was negotiated; and reports are made while running.
  ghost predicate OncePerFormat(log: seq<Note>) {
    && (forall k :: 0 <= k < |log| && log[k].kind == Reported ==> log[k].state == Running)
    && forall k, j :: 0 <= k < j < |log| && log[k].port == log[j].port && log[k].kind != Negotiated && log[j].kind == Reported ==>
         exists m :: k < m < j && log[m].kind == Negotiated && log[m].port == log[j].port
  }

  ghost predicate Inv(s: System) {
    && (forall k :: 0 <= k < |s.log| ==> s.log[k].port < |s.ports|)
    && (forall i :: 0 <= i < |s.ports| ==> s.ports[i].lossReported == Silenced(s.log, i) && Conserved(s.ports[i]))
    && OncePerFormat(s.log)
  }

  lemma SilencedSnoc(log: seq<Note>, n: Note, i: nat)
    ensures Silenced(log + [n], i)
         == if n.port != i then Silenced(log, i) else n.kind != Negotiated
  {
    var r := log + [n];
    forall k | 0 <= k < |log| ensures r[k] == log[k] && NegotiatedAfter(r, i, k)
         == (NegotiatedAfter(log, i, k) || (n.port == i && n.kind == Negotiated)) {
      if NegotiatedAfter(log, i, k) {
        var j :| k < j < |log| && log[j].kind == Negotiated && log[j].port == i;
        assert r[j] == log[j];
      }
      if n.port == i && n.kind == Negotiated {
        assert r[|log|] == n;
      }
    }
    assert !NegotiatedAfter(r, i, |log|);
    assert r[|log|] == n;
    if n.port == i && n.kind != Negotiated {
      assert StandsAt(r, i, |log|);
    }
    if n.port != i && Silenced(log, i) {
      var k :| 0 <= k < |log| && StandsAt(log, i, k);
      assert StandsAt(r, i, k);
    }
    if n.port != i && Silenced(r, i) {
      var k :| 0 <= k < |r| && StandsAt(r, i, k);
      assert StandsAt(log, i, k);
    }
  }

  lemma OnceSnoc(log: seq<Note>, n: Note)
    requires OncePerFormat(log) && (n.kind == Reported ==> n.state == Running && !Silenced(log, n.port))
    ensures OncePerFormat(log + [n])
  {
    var r := log + [n];
    forall k, j | 0 <= k < j < |r| && r[k].port == r[j].port && r[k].kind != Negotiated && r[j].kind == Reported
      ensures exists m :: k < m < j && r[m].kind == Negotiated && r[m].port == r[j].port
    {
      if j < |log| {
        var m :| k < m < j && log[m].kind == Negotiated && log[m].port == log[j].port;
        assert r[m] == log[m];
      } else {
        assert !StandsAt(log, n.port, k);
        var m :| k < m < |log| && log[m].kind == Negotiated && log[m].port == n.port;
        assert r[m] == log[m];
      }
    }
  }

  // One note about one port, or none, while that port changes.
  lemma PortStepOk(s: System, i: nat, p: PortLink, notes: seq<Note>)
    requires Inv(s) && i < |s.ports| && Conserved(p)
    requires notes == [] ==> p.lossReported == s.ports[i].lossReported
    requires notes != [] ==>
               && |notes| == 1 && notes[0].port == i && p.lossReported == (notes[0].kind != Negotiated)
               && (notes[0].kind == Reported ==> notes[0].state == Running && !s.ports[i].lossReported)
    ensures Inv(WithPort(s, i, p, notes))
  {
    hide Silenced, OncePerFormat, Conserved;
    if notes == [] {
      assert s.log + notes == s.log;
    } else {
      assert notes == [notes[0]];
      OnceSnoc(s.log, notes[0]);
      forall k: nat
        ensures Silenced(s.log + notes, k) == if k == i then notes[0].kind != Negotiated else Silenced(s.log, k)
      {
        SilencedSnoc(s.log, notes[0], k);
      }
    }
  }

  lemma {:induction false} ReleaseAllOk(log: seq<Note>, ports: seq<PortLink>, state: FilterState)
    requires OncePerFormat(log)
    ensures var r := log + ReleaseNotes(ports, state);
            && OncePerFormat(r)
            && forall i: nat :: Silenced(r, i) == (Silenced(log, i) || (i < |ports| && ports[i].proxy.Some?))
    ensures forall n <- ReleaseNotes(ports, state) :: n.kind == Released && n.port < |ports|
  {
    hide Silenced, OncePerFormat;
    if ports == [] {
      assert log + [] == log;
    } else {
      var n := |ports| - 1;
      ReleaseAllOk(log, ports[..n], state);
      var before, note := log + ReleaseNotes(ports[..n], state), Note(Released, n, state);
      if ports[n].proxy.Some? {
        assert log + ReleaseNotes(ports, state) == before + [note];
        OnceSnoc(before, note);
        forall i: nat ensures Silenced(before + [note], i) == (Silenced(before, i) || i == n) {
          SilencedSnoc(before, note, i);
        }
      } else {
        assert log + ReleaseNotes(ports, state) == before;
      }
    }
  }

  lemma AddPortOk(s: System, input: bool)
    requires Inv(s)
    ensures Inv(Next(s, AddPort(input)))
  {
    var n := |s.ports|;
    assert !Silenced(s.log, n);
  }

  lemma HeardOk(s: System, i: nat, e: PortEvent)
    requires Inv(s) && i < |s.ports| && !e.Taken?
    ensures Inv(Next(s, Hear(i, e)))
  {
    hide Inv, Silenced, OncePerFormat;
    var p := s.ports[i];
    assert Conserved(p) by { ConservedAt(s, i); }
    var (q, reported) := Handle(s.state, p, e);
    HandleLoss(s.state, p, e);
    PortStepOk(s, i, q, if e.Format? && e.isSet then [Note(Negotiated, i, s.state)]
                        else if reported then [Note(Reported, i, s.state)] else []);
  }

  lemma ConservedAt(s: System, i: nat)
    requires Inv(s) && i < |s.ports|
    ensures Conserved(s.ports[i])
  {
  }

  lemma HandleLoss(state: FilterState, p: PortLink, e: PortEvent)
    requires !e.Taken?
    ensures var (q, reported) := Handle(state, p, e);
            && (Conserved(p) ==> Conserved(q))
            && (reported ==> state == Running && !p.lossReported && q.lossReported && !(e.Format? && e.isSet))
            && (!reported && !(e.Format? && e.isSet) ==> q.lossReported == p.lossReported)
            && (e.Format? && e.isSet ==> !q.lossReported)
  {
  }

  lemma StopReleaseOk(s: System)
    requires Inv(s) && s.releasing
    ensures Inv(Next(s, StopRelease))
  {
    hide Silenced, OncePerFormat;
    ReleaseAllOk(s.log, s.ports, s.state);
  }

  // One call on one port: the proxy is made, the wait ends, or it is unlinked.
  lemma LinkCallOk(s: System, step: Step, i: nat)
    requires Inv(s) && Enabled(s, step) && (step.LinkBegin? || step.LinkEnd? || step.Unlink?) && step.port == i
    ensures Inv(Next(s, step))
  {
    hide Inv, Silenced, OncePerFormat;
    ConservedAt(s, i);
    var p := s.ports[i];
    match step
    case LinkBegin(_) => PortStepOk(s, i, Begin(p), []);
    case LinkEnd(_, timedOut) =>
      PortStepOk(s, i, End(p, timedOut),
                 if ResultOf(p, timedOut) != Ok && p.proxy.Some? then [Note(Released, i, s.state)] else []);
    case Unlink(_) => PortStepOk(s, i, Release(p), [Note(Released, i, s.state)]);
  }

  lemma StepOk(s: System, step: Step)
    requires Inv(s) && Enabled(s, step)
    ensures Inv(Next(s, step))
  {
    match step
    case Hear(i, e) => HeardOk(s, i, e);
    case AddPort(input) => AddPortOk(s, input);
    case StartFilter(_) =>
    case StopHalt =>
    case StopRelease => StopReleaseOk(s);
    case LinkBegin(i) => LinkCallOk(s, step, i);
    case LinkEnd(i, _) => LinkCallOk(s, step, i);
    case Unlink(i) => LinkCallOk(s, step, i);
  }

  lemma {:induction false} RunOk(steps: seq<Step>)
    requires After(steps).Some?
    ensures Inv(After(steps).value)
  {
    if steps != [] {
      hide Inv;
      RunOk(steps[..|steps| - 1]);
      StepOk(After(steps[..|steps| - 1]).value, steps[|steps| - 1]);
    }
  }

  // ---------------------------------------------------------------- theorems

  // In every run: a port's source is reported lost only while the filter runs,
  // and never again, nor after its link was released, until a format has been
  // negotiated on the port.
  lemma LossIsReportedOnce(steps: seq<Step>, s: System)
    requires After(steps) == Some(s)
    ensures OncePerFormat(s.log)
  {
    RunOk(steps);
  }

  // The last word heard of port i's link since a call of the port made it: up,
  // or not.
  function LastWord(steps: seq<Step>, i: nat): Option<bool> {
    if steps == [] then None
    else WordAfter(LastWord(steps[..|steps| - 1], i), steps[|steps| - 1], i)
  }

  function WordAfter(word: Option<bool>, step: Step, i: nat): Option<bool> {
    if step == LinkBegin(i) then None
    else if step.Hear? && step.port == i && Ups(step.e) then Some(true)
    else if step.Hear? && step.port == i && Downs(step.e) then Some(false)
    else word
  }

  // What the port keeps of that: a call still waiting has it for its result,
  // and otherwise the flags tell a link that is up from one that is lost.
  predicate FlagsSay(p: PortLink, word: Option<bool>) {
    if p.proxy.None? then !p.seenActive && !p.lost
    else if p.wait.None? then word.Some? && p.seenActive == word.value && (!word.value ==> p.lost)
    else
      && !p.lost && (word == Some(true) ==> p.seenActive) && (p.wait.value.done <==> word.Some?)
      && (word.Some? ==> p.wait.value.result == if word.value then Ok else InvalidFormat)
  }

  lemma FlagsStep(s: System, step: Step, i: nat, word: Option<bool>)
    requires Enabled(s, step) && i < |s.ports| && FlagsSay(s.ports[i], word)
    ensures FlagsSay(Next(s, step).ports[i], WordAfter(word, step, i))
  {
    hide ReleaseNotes;
  }

  lemma {:induction false} FlagsInRuns(steps: seq<Step>, i: nat)
    requires After(steps).Some? && i < |After(steps).value.ports|
    ensures FlagsSay(After(steps).value.ports[i], LastWord(steps, i))
  {
    if steps != [] {
      var n := |steps| - 1;
      var before := After(steps[..n]).value;
      hide FlagsSay, WordAfter;
      if i < |before.ports| {
        FlagsInRuns(steps[..n], i);
        FlagsStep(before, steps[n], i, LastWord(steps[..n], i));
      } else {
        NewPortFlags(before, steps[n], i, LastWord(steps, i));
      }
    }
  }

  lemma NewPortFlags(s: System, step: Step, i: nat, word: Option<bool>)
    requires Enabled(s, step) && |s.ports| <= i < |Next(s, step).ports|
    ensures FlagsSay(Next(s, step).ports[i], word)
  {
  }

  // The events that mean a port's source is gone: its format is cleared; or its
  // link, when no call of it waits and it was up, is not any more.
  predicate LossOf(s: System, steps: seq<Step>, step: Step, i: nat) {
    && step.Hear? && step.port == i < |s.ports|
    && var p, e := s.ports[i], step.e;
       || (e.Format? && !e.isSet && p.input)
       || (e.Info? && Downs(e) && p.proxy.Some? && p.wait.None? && LastWord(steps, i) == Some(true))
  }

  // And no loss is missed: it is reported exactly when the filter runs and no
  // report or release of the port stands since its last negotiated format.
  lemma LossIsReportedExactly(steps: seq<Step>, s: System, step: Step, i: nat)
    requires After(steps) == Some(s) && Enabled(s, step) && i < |s.ports|
    ensures (exists n :: n in Next(s, step).log[|s.log|..] && n.kind == Reported && n.port == i)
       <==> LossOf(s, steps, step, i) && s.state == Running && !Silenced(s.log, i)
  {
    RunOk(steps);
    FlagsInRuns(steps, i);
    hide Silenced, OncePerFormat, After, LastWord;
    var more := Next(s, step).log[|s.log|..];
    match step
    case Hear(k, e) =>
      var (p, reported) := Handle(s.state, s.ports[k], e);
      if reported {
        assert more == [Note(Reported, k, s.state)];
        assert more[0] in more;
      }
    case StopRelease =>
      ReleaseAllOk(s.log, s.ports, s.state);
      assert more == ReleaseNotes(s.ports, s.state);
    case _ =>
  }

  // In every run, each proxy made for a port is its one live link or has been
  // destroyed exactly once.
  lemma LinksAreConserved(steps: seq<Step>, s: System, i: nat)
    requires After(steps) == Some(s) && i < |s.ports|
    ensures Conserved(s.ports[i])
  {
    RunOk(steps);
  }

  // ------------------------------------------------------ link calls in a run

  // The step releases port i's link, by another hand than the call waiting for
  // it.
  predicate TakesLink(step: Step, i: nat) {
    step.StopRelease? || (step.Unlink? && step.port == i)
  }

  // Since the last time a link call of port i made its proxy, it was taken away.
  predicate Interrupted(steps: seq<Step>, i: nat) {
    exists k :: 0 <= k < |steps| && TakesLink(steps[k], i)
             && forall j :: k < j < |steps| ==> steps[j] != LinkBegin(i)
  }

  lemma InterruptedSnoc(steps: seq<Step>, step: Step, i: nat)
    ensures Interrupted(steps + [step], i) <==> TakesLink(step, i) || (Interrupted(steps, i) && step != LinkBegin(i))
  {
    var r, n := steps + [step], |steps|;
    assert r[n] == step && forall j :: 0 <= j < n ==> r[j] == steps[j];
    if Interrupted(steps, i) && step != LinkBegin(i) {
      var k :| 0 <= k < n && TakesLink(steps[k], i) && forall j :: k < j < n ==> steps[j] != LinkBegin(i);
      assert TakesLink(r[k], i);
    }
    if k :| 0 <= k < n && TakesLink(r[k], i) && forall j :: k < j < |r| ==> r[j] != LinkBegin(i) {
      assert TakesLink(steps[k], i) && r[n] != LinkBegin(i);
      assert forall j :: k < j < n ==> steps[j] != LinkBegin(i) by {
        forall j | k < j < n ensures steps[j] != LinkBegin(i) {
          assert r[j] != LinkBegin(i);
        }
      }
    }
  }

  // A port whose link call waits: its newest proxy is there exactly if it was
  // not taken away.
  ghost predicate Waiting(p: PortLink, taken: bool) {
    p.wait.Some? ==> p.made > 0 && Attempting(p, p.made - 1, taken)
  }

  lemma WaitingKept(s: System, step: Step, i: nat, taken: bool)
    requires Enabled(s, step) && i < |s.ports| && Conserved(s.ports[i]) && Waiting(s.ports[i], taken)
    ensures Waiting(Next(s, step).ports[i], TakesLink(step, i) || (taken && step != LinkBegin(i)))
  {
    var p, q := s.ports[i], Next(s, step).ports[i];
    match step
    case Hear(k, e) =>
      if k == i && p.wait.Some? {
        HandleAttempting(s.state, p, e, p.made - 1, taken);
      }
    case LinkBegin(k) =>
    case LinkEnd(k, timedOut) =>
    case _ =>
  }

  lemma {:induction false} WaitingInRuns(steps: seq<Step>, i: nat)
    requires After(steps).Some? && i < |After(steps).value.ports|
    ensures Waiting(After(steps).value.ports[i], Interrupted(steps, i))
  {
    if steps != [] {
      var n := |steps| - 1;
      var before, step := After(steps[..n]).value, steps[n];
      assert steps == steps[..n] + [step];
      if i < |before.ports| {
        hide Waiting, Interrupted;
        WaitingInRuns(steps[..n], i);
        LinksAreConserved(steps[..n], before, i);
        WaitingKept(before, step, i, Interrupted(steps[..n], i));
        InterruptedSnoc(steps[..n], step, i);
      }
    }
  }

  // In every run, a link call of port i that ends leaves the port its new
  // proxy, on a link that came up, exactly when it returns OK and no stop or
  // unlink has taken the link away since the call made it; and else no link.
  lemma LinkCallIsWhole(steps: seq<Step>, s: System, i: nat, timedOut: bool)
    requires After(steps) == Some(s) && Enabled(s, LinkEnd(i, timedOut))
    ensures var p, r := s.ports[i], Next(s, LinkEnd(i, timedOut)).ports[i];
            && p.made > 0 && r.wait.None?
            && if ResultOf(p, timedOut) == Ok && !Interrupted(steps, i) then r.proxy == Some(p.made - 1) && r.seenActive
               else r.proxy.None? && !r.seenActive && !r.lost
  {
    hide Interrupted;
    WaitingInRuns(steps, i);
  }

  // The case that breaks "OK means linked": a stop comes between the link's
  // coming up and the return of the call.
  const STOPPED_CALL: seq<Step> := [
    AddPort(true), StartFilter(true), LinkBegin(0), Hear(0, Info(true, Active)), StopHalt, StopRelease]

  lemma Extend(steps: seq<Step>, n: nat, s: System)
    requires n < |steps| && After(steps[..n]) == Some(s) && Enabled(s, steps[n])
    ensures After(steps[..n + 1]) == Some(Next(s, steps[n]))
  {
    assert steps[..n + 1][..n] == steps[..n];
  }

  lemma OkWithoutLink() returns (s: System)
    ensures After(STOPPED_CALL) == Some(s) && Enabled(s, LinkEnd(0, false))
    ensures ResultOf(s.ports[0], false) == Ok && Next(s, LinkEnd(0, false)).ports[0].proxy.None?
  {
    assert After(STOPPED_CALL[..0]) == Some(START);
    hide After;
    s := START;
    for n := 0 to 6
      invariant After(STOPPED_CALL[..n]) == Some(s)
      invariant n == 0 ==> s == START
      invariant n > 0 ==> |s.ports| == 1 && s.ports[0].input
      invariant n > 0 ==> s.state == if n == 1 then Created else if n < 5 then Running else Stopped
      invariant 0 < n <= 2 ==> s.ports[0].proxy.None? && s.ports[0].wait.None?
      invariant n > 2 ==> s.ports[0].wait == Some(if n == 3 then Pending(false, ConnectFailed) else Pending(true, Ok))
      invariant 2 < n < 6 ==> s.ports[0].proxy.Some?
      invariant n >= 5 ==> s.releasing == (n == 5)
      invariant n == 6 ==> s.ports[0].proxy.None?
    {
      Extend(STOPPED_CALL, n, s);
      s := Next(s, STOPPED_CALL[n]);
    }
    assert STOPPED_CALL[..6] == STOPPED_CALL;
  }
}
