// The loops of the filter object against the steps of FilterProtocol: a cycle
// is its assemblies and its finishes in port order, and what the object queues
// back is what those steps, and a stop, give back.
module FilterRefinement {
  import opened Base
  import opened Events
  import opened PortModel
  import opened PortHistory
  import opened FilterProtocol
  import FilterPorts

  function PortsOf(f: Filter): (ports: seq<Port<Ref>>)
    ensures |ports| == |f.slots|
  {
    seq(|f.slots|, i requires 0 <= i < |f.slots| => f.slots[i].port)
  }

  // ------------------------------------------------------------------ assembly

  function Assemblies(offered: seq<Option<GraphBuffer<Ref>>>, refused: seq<set<nat>>, n: nat): (steps: seq<Step>)
    requires n <= |offered| == |refused|
    ensures |steps| == n
  {
    if n == 0 then [] else Assemblies(offered, refused, n - 1) + [AssembleNext(offered[n - 1], refused[n - 1])]
  }

  lemma AfterSnoc(f: Filter, steps: seq<Step>, step: Step)
    requires After(f, steps).Some? && Enabled(After(f, steps).value, step)
    ensures After(f, steps + [step]) == Some(Next(After(f, steps).value, step))
  {
    hide Enabled, Next;
    assert (steps + [step])[..|steps|] == steps;
  }

  lemma OneAssembly(f: Filter, offered: Option<GraphBuffer<Ref>>, refused: set<nat>)
    requires f.phase.Assembling? && f.phase.next < |f.slots| && CanOffer(f.slots[f.phase.next], offered)
    ensures Enabled(f, AssembleNext(offered, refused))
    ensures var i := f.phase.next;
            Next(f, AssembleNext(offered, refused))
            == Filter(f.slots[i := AssembleSlot(f.slots[i], f.phase.staged, offered, refused)], f.lock,
                      Assembling(i + 1, f.phase.staged))
  {
    hide CanOffer, AssembleSlot;
  }

  // A port as assembling it leaves it.
  predicate IsAssembled(s: Slot, t: Slot, staged: bool, offered: Option<GraphBuffer<Ref>>, refused: set<nat>) {
    var a := Assemble(s.port, staged, offered, refused);
    t.port == a.port && t.buffer == a.buffer && t.dequeued == a.dequeued && t.active
  }

  lemma SlotIsAssembled(s: Slot, staged: bool, offered: Option<GraphBuffer<Ref>>, refused: set<nat>)
    ensures IsAssembled(s, AssembleSlot(s, staged, offered, refused), staged, offered, refused)
  {
    hide Assemble, AssembleTaken, AssembleShown, AssembleOps;
  }

  // The first loop's passes, one step each, leave on every port what the
  // object's first loop leaves there, and touch nothing else.
  lemma {:induction false} AssembliesRefined(f: Filter, offered: seq<Option<GraphBuffer<Ref>>>, refused: seq<set<nat>>,
                                             n: nat)
    requires f.phase.Assembling? && f.phase.next == 0 && n <= |f.slots| == |offered| == |refused|
    requires forall i :: 0 <= i < n ==> CanOffer(f.slots[i], offered[i])
    ensures After(f, Assemblies(offered, refused, n)).Some?
    ensures var g := After(f, Assemblies(offered, refused, n)).value;
            && |g.slots| == |f.slots| && g.phase == Assembling(n, f.phase.staged) && g.lock == f.lock
            && (forall i :: n <= i < |f.slots| ==> g.slots[i] == f.slots[i])
            && forall i :: 0 <= i < n ==> IsAssembled(f.slots[i], g.slots[i], f.phase.staged, offered[i], refused[i])
  {
    if n > 0 {
      hide IsAssembled, CanOffer, After, Enabled, Next, AssembleSlot;
      AssembliesRefined(f, offered, refused, n - 1);
      var before := Assemblies(offered, refused, n - 1);
      assert Assemblies(offered, refused, n) == before + [AssembleNext(offered[n - 1], refused[n - 1])];
      hide Assemblies;
      OneAssembly(After(f, before).value, offered[n - 1], refused[n - 1]);
      SlotIsAssembled(f.slots[n - 1], f.phase.staged, offered[n - 1], refused[n - 1]);
      AfterSnoc(f, before, AssembleNext(offered[n - 1], refused[n - 1]));
    } else {
      assert After(f, []) == Some(f);
    }
  }

  // ------------------------------------------------------------------ finishes

  function Finishes(n: nat): (steps: seq<Step>)
    ensures |steps| == n
  {
    if n == 0 then [] else Finishes(n - 1) + [FinishNext]
  }

  lemma OneFinish(f: Filter)
    requires f.phase.Finishing? && f.phase.next < |f.slots|
    ensures Enabled(f, FinishNext)
    ensures var i := f.phase.next;
            Next(f, FinishNext) == Filter(f.slots[i := FinishSlot(f.slots[i])], f.lock, Finishing(i + 1))
  {
    hide FinishSlot;
  }

  lemma {:induction false} FinishesRefined(f: Filter, n: nat)
    requires f.phase == Finishing(0) && n <= |f.slots|
    ensures After(f, Finishes(n)).Some?
    ensures var g := After(f, Finishes(n)).value;
            && |g.slots| == |f.slots| && g.phase == Finishing(n) && g.lock == f.lock
            && (forall i :: n <= i < |f.slots| ==> g.slots[i] == f.slots[i])
            && forall i :: 0 <= i < n ==> g.slots[i] == FinishSlot(f.slots[i])
  {
    if n > 0 {
      hide FinishSlot, After, Enabled, Next;
      FinishesRefined(f, n - 1);
      OneFinish(After(f, Finishes(n - 1)).value);
      AfterSnoc(f, Finishes(n - 1), FinishNext);
    } else {
      assert After(f, []) == Some(f);
    }
  }

  // ---------------------------------------------------------- what is queued back

  // The buffer operations of each port between two states.
  function Between(f: Filter, g: Filter): (ops: seq<seq<BufferOp>>)
    requires |g.slots| == |f.slots| && forall i :: 0 <= i < |f.slots| ==> f.slots[i].log.ops <= g.slots[i].log.ops
    ensures |ops| == |f.slots|
  {
    seq(|f.slots|, i requires 0 <= i < |f.slots| => g.slots[i].log.ops[|f.slots[i].log.ops|..])
  }

  function Gives(queued: seq<GraphBuffer<Ref>>): (ops: seq<BufferOp>)
    ensures |ops| == |queued|
  {
    seq(|queued|, k requires 0 <= k < |queued| => Give(queued[k].id))
  }

  function GivesOf(buffers: seq<Option<GraphBuffer<Ref>>>): (ops: seq<Option<BufferOp>>)
    ensures |ops| == |buffers|
  {
    seq(|buffers|, i requires 0 <= i < |buffers| => if buffers[i].Some? then Some(Give(buffers[i].value.id)) else None)
  }

  lemma QueuedAreGives(queued: seq<GraphBuffer<Ref>>, buffers: seq<Option<GraphBuffer<Ref>>>)
    requires InOrder(queued, buffers)
    ensures Gives(queued) == Flatten(Lists(GivesOf(buffers)))
  {
    hide InOrder;
    InOrderMapped(queued, buffers, Gives(queued), GivesOf(buffers), (b: GraphBuffer<Ref>) => Give(b.id));
    FlattenedInOrder(GivesOf(buffers));
    InOrderIsUnique(Gives(queued), Flatten(Lists(GivesOf(buffers))), GivesOf(buffers));
  }

  // What a stop of the object queues back is, port after port, what the stop
  // step gives back.
  lemma StopRefined(f: Filter, queued: seq<GraphBuffer<Ref>>)
    requires Enabled(f, StopAll) && InOrder(queued, FilterPorts.HeldOf(PortsOf(f)))
    ensures var g := Next(f, StopAll);
            && |g.slots| == |f.slots|
            && (forall i :: 0 <= i < |f.slots| ==>
                  g.slots[i].port == Stop(f.slots[i].port) && f.slots[i].log.ops <= g.slots[i].log.ops)
            && Gives(queued) == Flatten(Between(f, g))
  {
    hide InOrder, Flatten, Stop;
    var g, held := Next(f, StopAll), FilterPorts.HeldOf(PortsOf(f));
    QueuedAreGives(queued, held);
    assert Between(f, g) == Lists(GivesOf(held));
  }

  predicate IsFinished(s: Slot, t: Slot) {
    && t.port == Finish(s.port)
    && t.log.ops == s.log.ops + if s.dequeued.Some? then [Give(s.dequeued.value.id)] else []
  }

  lemma SlotIsFinished(s: Slot)
    ensures IsFinished(s, FinishSlot(s))
  {
    hide Finish, Freed, EventBlocks, Reads, FullSize;
  }

  lemma FinishesKept(f: Filter)
    requires f.phase == Finishing(0)
    ensures After(f, Finishes(|f.slots|)).Some?
    ensures var g := After(f, Finishes(|f.slots|)).value;
            && g.phase == Finishing(|f.slots|) && |g.slots| == |f.slots|
            && forall i :: 0 <= i < |f.slots| ==> IsFinished(f.slots[i], g.slots[i])
  {
    FinishesRefined(f, |f.slots|);
    hide After, IsFinished, FinishSlot;
    forall i | 0 <= i < |f.slots| ensures IsFinished(f.slots[i], FinishSlot(f.slots[i])) {
      SlotIsFinished(f.slots[i]);
    }
  }

  lemma BetweenFinishes(f: Filter, g: Filter, dequeued: seq<Option<GraphBuffer<Ref>>>)
    requires |g.slots| == |f.slots| == |dequeued|
    requires forall i :: 0 <= i < |f.slots| ==> f.slots[i].dequeued == dequeued[i] && IsFinished(f.slots[i], g.slots[i])
    ensures forall i :: 0 <= i < |f.slots| ==> f.slots[i].log.ops <= g.slots[i].log.ops
    ensures Between(f, g) == Lists(GivesOf(dequeued))
  {
    hide Finish;
  }

  // What the second loop of the object's cycle queues is, port after port, what
  // the finish steps give back.
  lemma FinishRefined(f: Filter, buffers: seq<PortBuffer<Ref>>, dequeued: seq<Option<GraphBuffer<Ref>>>,
                      queued: seq<(GraphBuffer<Ref>, Option<nat>)>)
    requires f.phase == Finishing(0) && |buffers| == |dequeued| == |f.slots|
    requires forall i :: 0 <= i < |f.slots| ==> f.slots[i].dequeued == dequeued[i]
    requires InOrder(queued, FilterPorts.Chunked(PortsOf(f), buffers, dequeued))
    ensures After(f, Finishes(|f.slots|)).Some?
    ensures var g := After(f, Finishes(|f.slots|)).value;
            && |g.slots| == |f.slots| && g.phase == Finishing(|f.slots|)
            && (forall i :: 0 <= i < |f.slots| ==>
                  g.slots[i].port == Finish(f.slots[i].port) && f.slots[i].log.ops <= g.slots[i].log.ops)
            && Gives(Buffers(queued)) == Flatten(Between(f, g))
  {
    FinishesKept(f);
    hide InOrder, Flatten, Finish, After, FilterPorts.ChunkSize, Between, Finishes;
    BetweenFinishes(f, After(f, Finishes(|f.slots|)).value, dequeued);
    InOrderMapped(queued, FilterPorts.Chunked(PortsOf(f), buffers, dequeued), Buffers(queued), dequeued,
                  (q: (GraphBuffer<Ref>, Option<nat>)) => q.0);
    QueuedAreGives(Buffers(queued), dequeued);
  }

  function Buffers(queued: seq<(GraphBuffer<Ref>, Option<nat>)>): (buffers: seq<GraphBuffer<Ref>>)
    ensures |buffers| == |queued|
  {
    seq(|queued|, k requires 0 <= k < |queued| => queued[k].0)
  }
}
