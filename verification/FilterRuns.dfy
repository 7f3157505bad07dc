// The promises of the filter, for every run: any interleaving of pushes
// copied byte by byte, cycles that get the push lock or not, and stops.
module FilterRuns {
  import opened Base
  import opened Events
  import opened PortModel
  import opened PortHistory
  import opened FilterProtocol
  import opened FilterSafety

  // The state after a run, and one of its ports.
  ghost predicate Reaches(start: Filter, steps: seq<Step>, f: Filter, i: nat) {
    IsNew(start) && After(start, steps) == Some(f) && i < |f.slots|
  }

  lemma ReachedPort(start: Filter, steps: seq<Step>, f: Filter, i: nat)
    requires Reaches(start, steps, f, i)
    ensures Inv(f) && SlotOk(f.slots[i], WritingTo(f.lock, i)) && (f.slots[i].active <==> IsActive(f.phase, i))
  {
    hide SlotOk;
    RunOk(start, steps);
  }

  // ------------------------------------------------------- what callbacks see

  // Hold and freshness: the callback reads the frame, freshness and number
  // that the port's history alone determines, and through no dead pointer.
  lemma CallbackSeesHistory(start: Filter, steps: seq<Step>, f: Filter, i: nat)
    requires Reaches(start, steps, f, i) && f.phase == Calling && IsMediaInput(f.slots[i].port.kind)
    ensures var s := f.slots[i];
            var h := UpToCycle(s.log.happenings);
            && h != [] && h[|h| - 1].Cycled?
            && View(s) == Expected(h, s.port.kind.useDmabuf, s.port.kind.hold)
            && View(s).frame.content != Dangling
  {
    ReachedPort(start, steps, f, i);
    var s := f.slots[i];
    assert MediaInputOk(s, WritingTo(f.lock, i));
    ExpectedIsAlive(UpToCycle(s.log.happenings), s.port.kind.useDmabuf, s.port.kind.hold);
  }

  lemma {:induction false} NewestIsAlive(h: seq<Happening>, useDmabuf: bool)
    ensures Newest(h, useDmabuf).Some? ==> Newest(h, useDmabuf).value.content != Dangling
  {
    if h != [] {
      NewestIsAlive(h[..|h| - 1], useDmabuf);
    }
  }

  lemma ExpectedIsAlive(h: seq<Happening>, useDmabuf: bool, hold: bool)
    requires h != []
    ensures Expected(h, useDmabuf, hold).frame.content != Dangling
  {
    NewestIsAlive(h, useDmabuf);
  }

  predicate IsPush(step: Step) {
    step.PushBegin? || step.PushCopy? || step.PushEnd? || step.PushEvent?
  }

  lemma ViewIsExpected(s: Slot, writing: Option<(seq<Byte>, nat)>)
    requires SlotOk(s, writing) && s.active && IsMediaInput(s.port.kind)
    ensures View(s) == Expected(UpToCycle(s.log.happenings), s.port.kind.useDmabuf, s.port.kind.hold)
    ensures UpToCycle(s.log.happenings) != []
  {
  }

  lemma PushStepKeepsHistory(f: Filter, step: Step, i: nat)
    requires Inv(f) && Enabled(f, step) && IsPush(step) && i < |f.slots|
    ensures var s, t := f.slots[i], Next(f, step).slots[i];
            && t.active == s.active && t.port.kind == s.port.kind
            && UpToCycle(t.log.happenings) == UpToCycle(s.log.happenings)
  {
    hide SlotOk;
    if step.PushEnd? && i == f.lock.port {
      PushedOnly(f.slots[i].log.happenings, Pushed(f.lock.bytes, f.lock.pts), false);
    }
  }

  lemma PushStepKeepsView(f: Filter, step: Step, i: nat)
    requires Inv(f) && Enabled(f, step) && IsPush(step)
    requires i < |f.slots| && f.slots[i].active && IsMediaInput(f.slots[i].port.kind)
    ensures var s := Next(f, step).slots[i];
            && s.active && s.port.kind == f.slots[i].port.kind
            && View(s) == View(f.slots[i])
  {
    hide SlotOk, View, Expected;
    StepOk(f, step);
    PushStepKeepsHistory(f, step, i);
    ViewIsExpected(f.slots[i], WritingTo(f.lock, i));
    ViewIsExpected(Next(f, step).slots[i], WritingTo(Next(f, step).lock, i));
  }

  // Delivered data is immutable: however many pushes are begun, copied and
  // completed while the callback runs, it reads the same bytes.
  lemma {:induction false} PushesNeverTear(f: Filter, pushes: seq<Step>, g: Filter, i: nat)
    requires Inv(f) && After(f, pushes) == Some(g)
    requires forall k :: 0 <= k < |pushes| ==> IsPush(pushes[k])
    requires i < |f.slots| && f.slots[i].active && IsMediaInput(f.slots[i].port.kind)
    ensures Inv(g) && i < |g.slots| && g.slots[i].active && IsMediaInput(g.slots[i].port.kind)
    ensures View(g.slots[i]) == View(f.slots[i])
  {
    hide SlotOk, View;
    if pushes != [] {
      var before := After(f, pushes[..|pushes| - 1]).value;
      PushesNeverTear(f, pushes[..|pushes| - 1], before, i);
      PushStepKeepsView(before, pushes[|pushes| - 1], i);
      StepOk(before, pushes[|pushes| - 1]);
    }
  }

  // ------------------------------------------------------------------- events

  // The step is an output push to port i that is accepted and does not fit.
  predicate AcceptsMisfit(f: Filter, step: Step, i: nat) {
    && step.PushEvent? && step.port == i < |f.slots| && (step.bytes == [] || step.block.Some?)
    && IsMisfit(f.slots[i].port, NewEvent(step))
    && PushOutput(f.slots[i].port.events.pending, NewEvent(step), f.slots[i].port.events.room).1 == Ok
  }

  predicate HasMisfit(start: Filter, steps: seq<Step>, i: nat)
    requires After(start, steps).Some?
  {
    exists k :: 0 <= k < |steps| && After(start, steps[..k]).Some?
                && AcceptsMisfit(After(start, steps[..k]).value, steps[k], i)
  }

  lemma HasMisfitSnoc(start: Filter, steps: seq<Step>, step: Step, i: nat)
    requires After(start, steps + [step]).Some? && After(start, steps).Some?
    ensures HasMisfit(start, steps + [step], i) <==>
            HasMisfit(start, steps, i) || AcceptsMisfit(After(start, steps).value, step, i)
  {
    hide AcceptsMisfit, After;
    var r, n := steps + [step], |steps|;
    assert r[..n] == steps && r[n] == step;
    assert forall k :: 0 <= k < n ==> r[..k] == steps[..k] && r[k] == steps[k];
  }

  lemma MisfitOfStep(f: Filter, step: Step, i: nat)
    requires Enabled(f, step) && i < |f.slots|
    ensures Next(f, step).slots[i].log.misfit <==> f.slots[i].log.misfit || AcceptsMisfit(f, step, i)
  {
    hide Assemble, Finish, PushOutput, NoFalseFit, FullSize;
  }

  lemma {:induction false} MisfitIsPushed(start: Filter, steps: seq<Step>, i: nat)
    requires IsNew(start) && After(start, steps).Some? && i < |start.slots|
    ensures i < |After(start, steps).value.slots|
    ensures After(start, steps).value.slots[i].log.misfit <==> HasMisfit(start, steps, i)
  {
    if steps != [] {
      var n := |steps| - 1;
      assert steps == steps[..n] + [steps[n]];
      assert After(start, steps[..n]).Some?;
      var before := After(start, steps[..n]).value;
      hide AcceptsMisfit, HasMisfit;
      MisfitIsPushed(start, steps[..n], i);
      MisfitOfStep(before, steps[n], i);
      HasMisfitSnoc(start, steps[..n], steps[n], i);
    }
  }

  // The batch of pushed events a cycle shows on a port.
  function Batch(e: EventLists<Ref>, staged: bool): seq<Event<Ref>> {
    if staged && e.pending != [] then e.pending else e.delivering
  }

  // The cycle cannot make room for one of the events it takes from port i.
  predicate RefusesEvent(f: Filter, step: Step, i: nat) {
    && step.AssembleNext? && f.phase.Assembling? && f.phase.next == i < |f.slots| && IsEventInput(f.slots[i].port.kind)
    && var e := f.slots[i].port.events;
    Refuses(Batch(e, f.phase.staged), e.capacity, step.refused)
  }

  predicate HasRefusal(start: Filter, steps: seq<Step>, i: nat)
    requires After(start, steps).Some?
  {
    exists k :: 0 <= k < |steps| && After(start, steps[..k]).Some?
                && RefusesEvent(After(start, steps[..k]).value, steps[k], i)
  }

  lemma HasRefusalSnoc(start: Filter, steps: seq<Step>, step: Step, i: nat)
    requires After(start, steps + [step]).Some? && After(start, steps).Some?
    ensures HasRefusal(start, steps + [step], i) <==>
            HasRefusal(start, steps, i) || RefusesEvent(After(start, steps).value, step, i)
  {
    hide RefusesEvent, After;
    var r, n := steps + [step], |steps|;
    assert r[..n] == steps && r[n] == step;
    assert forall k :: 0 <= k < n ==> r[..k] == steps[..k] && r[k] == steps[k];
  }

  lemma {:induction false} PartReads(mem: Arena, a: seq<Event<Ref>>, b: seq<Event<Ref>>)
    requires IsPart(a, b)
    ensures IsPart(Reads(mem, a), Reads(mem, b))
  {
    if b != [] {
      var n, m := |b| - 1, |a| - 1;
      assert Reads(mem, b)[..n] == Reads(mem, b[..n]);
      if IsPart(a, b[..n]) {
        PartReads(mem, a, b[..n]);
      } else {
        PartReads(mem, a[..m], b[..n]);
        assert Reads(mem, a)[..m] == Reads(mem, a[..m]);
      }
    }
  }

  // What a cycle takes from an event input port, and what of it is shown.
  lemma ShownByAssembly(s: Slot, staged: bool, offered: Option<GraphBuffer<Ref>>, refused: set<nat>)
    returns (took: seq<EventRead>, showed: seq<EventRead>)
    requires IsEventInput(s.port.kind)
    ensures var t := AssembleSlot(s, staged, offered, refused);
            t.log.taken == s.log.taken + took && t.log.shown == s.log.shown + showed && t.port.kind == s.port.kind
    ensures IsPart(showed, took)
    ensures if Refuses(Batch(s.port.events, staged), s.port.events.capacity, refused) then |showed| < |took|
            else showed == took
  {
    var e, batch := s.port.events, Batch(s.port.events, staged);
    var got := Load(batch, e.capacity, refused).0;
    LoadExactly(batch, e.capacity, refused);
    PartReads(s.mem, got, batch);
    took, showed := Reads(s.mem, batch), Reads(s.mem, got);
    AssembleEventInputIs(s, staged, offered, refused);
    BatchIsShown(s.port.(currentDmabuf := None), staged, offered, refused, s.mem);
  }

  lemma BatchIsShown(p: Port<Ref>, staged: bool, offered: Option<GraphBuffer<Ref>>, refused: set<nat>, mem: Arena)
    requires IsEventInput(p.kind)
    ensures var a, batch := AssembleEventInput(p, staged, offered, refused), Batch(p.events, staged);
            && AssembleTaken(p.kind, a, mem) == Reads(mem, batch)
            && AssembleShown(p.kind, a, mem) == Reads(mem, Load(batch, p.events.capacity, refused).0)
  {
    hide Decode;
  }

  lemma ShownByStep(f: Filter, step: Step, i: nat) returns (took: seq<EventRead>, showed: seq<EventRead>)
    requires Enabled(f, step) && i < |f.slots| && IsEventInput(f.slots[i].port.kind)
    ensures var s, t := f.slots[i], Next(f, step).slots[i];
            t.log.taken == s.log.taken + took && t.log.shown == s.log.shown + showed && t.port.kind == s.port.kind
    ensures IsPart(showed, took)
    ensures if RefusesEvent(f, step, i) then |showed| < |took| else showed == took
  {
    if step.AssembleNext? && f.phase.next == i {
      took, showed := ShownByAssembly(f.slots[i], f.phase.staged, step.offered, step.refused);
    } else {
      took, showed := [], [];
      NothingShown(f, step, i);
    }
  }

  lemma NothingShown(f: Filter, step: Step, i: nat)
    requires Enabled(f, step) && i < |f.slots| && IsEventInput(f.slots[i].port.kind)
    requires !(step.AssembleNext? && f.phase.next == i)
    ensures var s, t := f.slots[i], Next(f, step).slots[i];
            t.log.taken == s.log.taken + [] && t.log.shown == s.log.shown + [] && t.port.kind == s.port.kind
  {
    hide AssembleSlot, PushOutput, Reads, NoFalseFit;
  }

  lemma {:induction false} ShownByRun(start: Filter, steps: seq<Step>, i: nat)
    requires IsNew(start) && After(start, steps).Some? && i < |start.slots|
    ensures i < |After(start, steps).value.slots|
    ensures var s := After(start, steps).value.slots[i];
            && s.port.kind == start.slots[i].port.kind
            && (IsEventInput(s.port.kind) ==>
                  && IsPart(s.log.shown, s.log.taken)
                  && if HasRefusal(start, steps, i) then |s.log.shown| < |s.log.taken| else s.log.shown == s.log.taken)
  {
    if steps != [] {
      var n := |steps| - 1;
      LastSplit(steps);
      assert After(start, steps[..n]).Some?;
      var before := After(start, steps[..n]).value;
      ShownByRun(start, steps[..n], i);
      hide RefusesEvent, HasRefusal, IsPart;
      var _ := OpsOfStep(before, steps[n], i);
      if IsEventInput(start.slots[i].port.kind) {
        var took, showed := ShownByStep(before, steps[n], i);
        PartJoin(before.slots[i].log.shown, before.slots[i].log.taken, showed, took);
        HasRefusalSnoc(start, steps[..n], steps[n], i);
      }
    }
  }

  // Events pushed to an input port are taken once and in order: those taken so
  // far, then those waiting, are the accepted ones. Callbacks are shown a part
  // of what is taken, and all of it exactly when incoming_events could grow for
  // every event of every batch.
  lemma EventsDeliveredOnce(start: Filter, steps: seq<Step>, f: Filter, i: nat)
    requires Reaches(start, steps, f, i) && IsEventInput(f.slots[i].port.kind)
    ensures var s := f.slots[i];
            && s.log.accepted == s.log.taken + Reads(s.mem, s.port.events.pending)
            && (f.phase == Idle ==> s.port.events.delivering == [])
            && IsPart(s.log.shown, s.log.taken)
            && (s.log.shown == s.log.taken <==> !HasRefusal(start, steps, i))
  {
    hide After, Reads, HasRefusal;
    ReachedPort(start, steps, f, i);
    SlotsStay(start, steps);
    ShownByRun(start, steps, i);
    assert EventsOk(f.slots[i]);
  }

  // The case that breaks it: the first event of a new port, taken by a cycle
  // that cannot make the array, is never shown.
  lemma RefusedEventIsLost(s: Slot, e: Event<Ref>, bytes: seq<Byte>)
    requires IsNewSlot(s) && IsEventInput(s.port.kind)
    ensures var t := FinishSlot(AssembleSlot(AppendEvent(s, e, bytes), true, None, {0}));
            && |t.log.accepted| == |t.log.taken| == 1 && t.log.shown == []
            && t.port.events.pending == [] && t.port.events.delivering == []
  {
    var t := AppendEvent(s, e, bytes);
    assert t.port.events.pending == [e];
    hide AppendEvent, AssembleSlot;
    var took, showed := ShownByAssembly(t, true, None, {0});
    AssembleEventInputIs(t, true, None, {0});
    assert Load([e][..0], 0, {0}) == ([], 0);
    assert Refuses([e], 0, {0});
    BatchIsShown(t.port.(currentDmabuf := None), true, None, {0}, t.mem);
  }

  // Events pushed to an output port are written whole, once and in order, by
  // the end of their cycle, exactly when none was accepted that does not fit.
  lemma EventsWrittenExactly(start: Filter, steps: seq<Step>, f: Filter, i: nat)
    requires Reaches(start, steps, f, i) && IsEventOutput(f.slots[i].port.kind) && f.phase == Idle
    ensures f.slots[i].port.events.pending == []
    ensures f.slots[i].log.accepted == f.slots[i].log.taken <==> !HasMisfit(start, steps, i)
  {
    hide After, HasMisfit;
    ReachedPort(start, steps, f, i);
    SlotsStay(start, steps);
    MisfitIsPushed(start, steps, i);
    var s := f.slots[i];
    assert EventsOk(s);
    assert Reads(s.mem, []) == [];
  }

  // While the callback runs, every entry it can get of a pushed batch points at
  // a live copy, and the batch is the newest part of what was shown.
  lemma CallbackReadsPushedEvents(start: Filter, steps: seq<Step>, f: Filter, i: nat)
    requires Reaches(start, steps, f, i) && f.phase == Calling && IsEventInput(f.slots[i].port.kind)
    requires f.slots[i].port.events.delivering != []
    ensures var s := f.slots[i];
            var got := Reads(s.mem, s.port.events.incoming);
            && EndsIn(s.log.shown, got)
            && forall k :: 0 <= k < |got| ==> got[k].content.Memory?
  {
    hide MemoryOk, BuffersOk, MediaInputOk;
    ReachedPort(start, steps, f, i);
    var s := f.slots[i];
    assert EventsOk(s);
    var got := Reads(s.mem, s.port.events.incoming);
    var batch := Reads(s.mem, s.port.events.delivering);
    forall k | 0 <= k < |got| ensures got[k].content.Memory? {
      assert s.port.events.incoming[k] in s.port.events.delivering;
      var j :| 0 <= j < |batch| && s.port.events.delivering[j] == s.port.events.incoming[k];
      var at := |s.log.taken| - |batch| + j;
      assert s.log.taken[|s.log.taken| - |batch|..][j] == s.log.taken[at];
      assert s.log.accepted[at] == s.log.taken[at] == batch[j] == got[k];
    }
  }

  // A cycle that got the lock leaves nothing behind on a port it assembles.
  lemma LockedCycleDrains(start: Filter, steps: seq<Step>, f: Filter, step: Step)
    requires f.phase.Assembling? && step.AssembleNext? && Enabled(f, step)
    requires Reaches(start, steps, f, f.phase.next)
    requires f.phase.staged && IsEventInput(f.slots[f.phase.next].port.kind)
    ensures var s := Next(f, step).slots[f.phase.next];
            && s.port.events.pending == [] && s.log.accepted == s.log.taken
            && s.log.accepted == f.slots[f.phase.next].log.accepted
  {
    var i := f.phase.next;
    ReachedPort(start, steps, f, i);
    AssembleOtherOk(f.slots[i], true, step.offered, step.refused, WritingTo(f.lock, i));
    var s := Next(f, step).slots[i];
    assert s == AssembleSlot(f.slots[i], true, step.offered, step.refused);
    assert EventsOk(s);
    assert Reads(s.mem, []) == [];
  }

  // ------------------------------------------------------------ graph buffers

  // Every dequeued buffer is queued back once, or is the held one, or the one
  // this cycle will queue back, or was dequeued without a note.
  lemma BuffersConserved(start: Filter, steps: seq<Step>, f: Filter, i: nat)
    requires Reaches(start, steps, f, i)
    ensures var s := f.slots[i];
            && WellUsed(s.log.ops)
            && Outstanding(s.log.ops) == Ids(s.port.held.buffer) + Ids(s.dequeued) + Lost(s.log.ops)
            && (f.phase == Idle ==> s.dequeued == None)
            && (s.active ==> GraphRefs(s.buffer.data, s.port.currentDmabuf) <= Outstanding(s.log.ops))
            && (IsMediaInput(s.port.kind) ==> Lost(s.log.ops) == {})
  {
    ReachedPort(start, steps, f, i);
    assert BuffersOk(f.slots[i]);
  }

  // The cycle asks port i, which is no media input, for a buffer, and gets one
  // without data.
  predicate LosesBuffer(f: Filter, step: Step, i: nat) {
    && step.AssembleNext? && f.phase.Assembling? && f.phase.next == i < |f.slots|
    && step.offered.Some? && step.offered.value.data == None && !IsMediaInput(f.slots[i].port.kind)
    && Assemble(f.slots[i].port, f.phase.staged, step.offered, step.refused).asked
  }

  predicate Unrecorded(ops: seq<BufferOp>) {
    exists k :: 0 <= k < |ops| && ops[k].Take? && !ops[k].recorded
  }

  lemma UnrecordedJoin(a: seq<BufferOp>, b: seq<BufferOp>)
    ensures Unrecorded(a + b) <==> Unrecorded(a) || Unrecorded(b)
  {
    var r := a + b;
    if k :| 0 <= k < |a| && a[k].Take? && !a[k].recorded {
      assert r[k] == a[k];
    }
    if k :| 0 <= k < |b| && b[k].Take? && !b[k].recorded {
      assert r[|a| + k] == b[k];
    }
    if k :| 0 <= k < |r| && r[k].Take? && !r[k].recorded {
      assert r[k] == if k < |a| then a[k] else b[k - |a|];
    }
  }

  // The buffer operations one step adds to port i's.
  lemma OpsOfStep(f: Filter, step: Step, i: nat) returns (more: seq<BufferOp>)
    requires Enabled(f, step) && i < |f.slots|
    ensures Next(f, step).slots[i].log.ops == f.slots[i].log.ops + more
    ensures Next(f, step).slots[i].port.kind == f.slots[i].port.kind
    ensures Unrecorded(more) <==> LosesBuffer(f, step, i)
  {
    var s := f.slots[i];
    if step.AssembleNext? && f.phase.next == i {
      more := OpsOfAssembly(s, f.phase.staged, step.offered, step.refused);
    } else if step.FinishNext? && f.phase.next == i {
      more := if s.dequeued.Some? then [Give(s.dequeued.value.id)] else [];
    } else if step.StopAll? {
      more := if s.port.held.buffer.Some? then [Give(s.port.held.buffer.value.id)] else [];
    } else {
      more := [];
      assert s.log.ops + [] == s.log.ops;
      PushOnlyStages(f, step, i);
    }
  }

  lemma OpsOfAssembly(s: Slot, staged: bool, offered: Option<GraphBuffer<Ref>>, refused: set<nat>)
    returns (more: seq<BufferOp>)
    ensures var t := AssembleSlot(s, staged, offered, refused);
            && t.log.ops == s.log.ops + more && t.port.kind == s.port.kind
            && (Unrecorded(more) <==>
                && offered.Some? && offered.value.data == None && !IsMediaInput(s.port.kind)
                && Assemble(s.port, staged, offered, refused).asked)
  {
    var a := Assemble(s.port, staged, offered, refused);
    more := AssembleOps(s.port.kind, a, offered);
    KindKept(s.port, staged, offered, refused);
    if a.asked && offered.Some? {
      assert more[0] == Take(offered.value.id, Recorded(s.port.kind, offered.value));
    }
  }

  lemma PushOnlyStages(f: Filter, step: Step, i: nat)
    requires Enabled(f, step) && i < |f.slots| && !step.StopAll?
    requires !(step.AssembleNext? && f.phase.next == i) && !(step.FinishNext? && f.phase.next == i)
    ensures Next(f, step).slots[i].log.ops == f.slots[i].log.ops
    ensures Next(f, step).slots[i].port.kind == f.slots[i].port.kind
  {
    hide AssembleSlot, FinishSlot, IsMediaInput, PushOutput;
  }

  // The run so far has lost a buffer of port i.
  predicate HasLost(start: Filter, steps: seq<Step>, i: nat)
    requires After(start, steps).Some?
  {
    exists k :: 0 <= k < |steps| && After(start, steps[..k]).Some?
                && LosesBuffer(After(start, steps[..k]).value, steps[k], i)
  }

  lemma HasLostSnoc(start: Filter, steps: seq<Step>, step: Step, i: nat)
    requires After(start, steps + [step]).Some? && After(start, steps).Some?
    ensures HasLost(start, steps + [step], i) <==>
            HasLost(start, steps, i) || LosesBuffer(After(start, steps).value, step, i)
  {
    hide LosesBuffer, After;
    var r, n := steps + [step], |steps|;
    assert r[..n] == steps && r[n] == step;
    assert forall k :: 0 <= k < n ==> r[..k] == steps[..k] && r[k] == steps[k];
  }

  lemma {:induction false} UnrecordedIsLost(start: Filter, steps: seq<Step>, i: nat)
    requires IsNew(start) && After(start, steps).Some? && i < |start.slots|
    ensures i < |After(start, steps).value.slots|
    ensures Unrecorded(After(start, steps).value.slots[i].log.ops) <==> HasLost(start, steps, i)
  {
    if steps != [] {
      var n := |steps| - 1;
      assert steps == steps[..n] + [steps[n]];
      assert After(start, steps[..n]).Some?;
      var before := After(start, steps[..n]).value;
      hide LosesBuffer, Unrecorded, HasLost;
      UnrecordedIsLost(start, steps[..n], i);
      var more := OpsOfStep(before, steps[n], i);
      UnrecordedJoin(before.slots[i].log.ops, more);
      HasLostSnoc(start, steps[..n], steps[n], i);
    }
  }

  lemma {:induction false} SlotsStay(start: Filter, steps: seq<Step>)
    requires After(start, steps).Some?
    ensures |After(start, steps).value.slots| == |start.slots|
  {
    if steps != [] {
      SlotsStay(start, steps[..|steps| - 1]);
    }
  }

  // Stop gives back all there is to give back: nothing stays out exactly when
  // no cycle of the run was given a buffer without data for a port that is no
  // media input.
  lemma StopReturnsAll(start: Filter, steps: seq<Step>, f: Filter, i: nat)
    requires Reaches(start, steps, f, i) && Enabled(f, StopAll)
    ensures var p := Next(f, StopAll).slots[i].port;
            !p.held.some && p.held.buffer == None && p.held.dmabuf == None && p.currentDmabuf == None
    ensures Outstanding(Next(f, StopAll).slots[i].log.ops) == {} <==> !HasLost(start, steps, i)
  {
    hide HasLost, After, SlotOk, StopSlot, Unrecorded;
    ReachedPort(start, steps, f, i);
    SlotsStay(start, steps);
    UnrecordedIsLost(start, steps, i);
    StopLeavesUnrecorded(f.slots[i], WritingTo(f.lock, i));
    StopForgets(f.slots[i]);
  }

  lemma StopForgets(s: Slot)
    ensures var p := StopSlot(s).port;
            !p.held.some && p.held.buffer == None && p.held.dmabuf == None && p.currentDmabuf == None
  {
  }

  lemma StopLeavesUnrecorded(s: Slot, writing: Option<(seq<Byte>, nat)>)
    requires SlotOk(s, writing) && !s.active
    ensures Outstanding(StopSlot(s).log.ops) == {} <==> !Unrecorded(s.log.ops)
  {
    StopSlotOk(s, writing);
    assert BuffersOk(StopSlot(s));
    var ops, given := StopSlot(s).log.ops, if s.port.held.buffer.Some? then [Give(s.port.held.buffer.value.id)] else [];
    UnrecordedJoin(s.log.ops, given);
    if k :| 0 <= k < |ops| && ops[k].Take? && !ops[k].recorded {
      assert ops[k].id in Lost(ops);
    }
  }

  // The case that breaks it: on a port that is not a media input, a buffer
  // dequeued without data outlives the cycle and the stop.
  lemma NoDataBufferIsLost(s: Slot, staged: bool, b: GraphBuffer<Ref>, refused: set<nat>)
    requires IsNewSlot(s) && !IsMediaInput(s.port.kind) && b.data == None
    ensures var t := StopSlot(FinishSlot(AssembleSlot(s, staged, Some(b), refused)));
            !t.active && t.dequeued == None && t.port.held.buffer == None && Outstanding(t.log.ops) == {b.id}
  {
    var t1 := AssembleSlot(s, staged, Some(b), refused);
    LostTake(s, staged, b, refused);
    hide AssembleSlot;
    assert StopSlot(FinishSlot(t1)).log.ops == t1.log.ops + [] + [];
    assert t1.log.ops[..0] == [];
  }

  lemma LostTake(s: Slot, staged: bool, b: GraphBuffer<Ref>, refused: set<nat>)
    requires IsNewSlot(s) && !IsMediaInput(s.port.kind) && b.data == None
    ensures var t := AssembleSlot(s, staged, Some(b), refused);
            t.log.ops == [Take(b.id, false)] && t.dequeued == None && t.port.held.buffer == None
  {
    hide Outstanding, TakePending, Decode;
    var t := AssembleSlot(s, staged, Some(b), refused);
    assert t.log.ops == [] + ([Take(b.id, false)] + []);
  }

  // ------------------------------------------------------------------- memory

  // Nothing leaks and nothing is freed twice: in every reachable state the live
  // blocks of a port are exactly those it owns, each owned once; in particular
  // the two sides of the push swap never alias.
  lemma NoLeakNoAlias(start: Filter, steps: seq<Step>, f: Filter, i: nat)
    requires Reaches(start, steps, f, i)
    ensures var s := f.slots[i];
            && Blocks(s.port) == multiset(s.mem.Keys)
            && (s.port.pushed.data.Some? ==> s.port.pushed.data != s.port.delivered.data)
  {
    ReachedPort(start, steps, f, i);
    var s := f.slots[i];
    assert MemoryOk(s.port, s.mem);
    if s.port.pushed.data.Some? {
      var b := s.port.pushed.data.value.id;
      assert multiset(s.mem.Keys)[b] <= 1;
      assert RefBlocks(s.port.pushed.data)[b] + RefBlocks(s.port.delivered.data)[b] <= Blocks(s.port)[b];
    }
  }
}
