// How long a pointer into the port cache keeps naming the port it was taken
// for (src/pwf_pw_core.c: growth and swap-removal of the array).
module PortSlots {
  import opened Base
  import opened Registry

  // The event grows the array into another block, or writes another entry
  // into the slot.
  predicate Disturbs(t: PortTable, ev: Event, slot: nat) {
    match ev
    case Added(id, g, alloc) =>
      && PortOf(id, g).Some? && !alloc.NoRoom?
      && ((|t.ports| == t.capacity && alloc.moves) || (alloc.Stored? && |t.ports| == slot))
    case Removed(id) => slot + 1 < |t.ports| && IndexOf(t.ports, PortId, id) == slot
  }

  predicate DisturbedBy(t: PortTable, events: seq<Event>, slot: nat) {
    exists k :: 0 <= k < |events| && Disturbs(TableAll(t, events[..k]), events[k], slot)
  }

  lemma DisturbedSnoc(t: PortTable, events: seq<Event>, ev: Event, slot: nat)
    ensures DisturbedBy(t, events + [ev], slot)
       <==> DisturbedBy(t, events, slot) || Disturbs(TableAll(t, events), ev, slot)
  {
    hide Disturbs;
    var r := events + [ev];
    assert r[..|events|] == events && r[|events|] == ev;
    assert forall k :: 0 <= k < |events| ==> r[..k] == events[..k] && r[k] == events[k];
  }

  // The slot still holds the port, and no entry of the port is above it; or
  // it does not, and none is there or above.
  ghost predicate Tracked(t: PortTable, slot: nat, id: nat, holds: bool) {
    var slots := t.ports + t.stale;
    && slot < |slots| && (slots[slot].id == id <==> holds)
    && forall q :: 0 <= q < |t.ports| && t.ports[q].id == id ==> if holds then q <= slot else q < slot
  }

  lemma AddTracked(t: PortTable, ev: Event, slot: nat, id: nat, holds: bool)
    requires ev.Added? && ev.id != id && Tracked(t, slot, id, holds)
    ensures var written := PortOf(ev.id, ev.global).Some? && ev.alloc.Stored? && |t.ports| == slot;
            Tracked(TableAfter(t, ev), slot, id, holds && !written)
  {
    var e, u := PortOf(ev.id, ev.global), TableAfter(t, ev);
    if e.Some? && ev.alloc.Stored? {
      var slots, after := t.ports + t.stale, u.ports + u.stale;
      assert after[|t.ports|].id == ev.id;
      assert forall k :: 0 <= k < |slots| && k != |t.ports| ==> after[k] == slots[k];
    }
  }

  lemma RemoveTracked(t: PortTable, removed: nat, slot: nat, id: nat, holds: bool)
    requires Tracked(t, slot, id, holds)
    requires forall p, q :: 0 <= p < q < |t.ports| && t.ports[p].id == id ==> t.ports[q].id != id
    ensures Tracked(TableAfter(t, Removed(removed)), slot, id, holds && !Disturbs(t, Removed(removed), slot))
  {
    var j, n := IndexOf(t.ports, PortId, removed), |t.ports|;
    if j < n {
      var u := TableAfter(t, Removed(removed));
      var slots, after := t.ports + t.stale, u.ports + u.stale;
      assert forall k :: 0 <= k < |slots| && k != j ==> after[k] == slots[k];
      assert after[j] == t.ports[n - 1];
    }
  }

  // At most one entry in use is the port's.
  ghost predicate Once(ports: seq<PortEntry>, id: nat) {
    forall p, q :: 0 <= p < q < |ports| && ports[p].id == id ==> ports[q].id != id
  }

  lemma OnceKept(t: PortTable, ev: Event, id: nat)
    requires Once(t.ports, id) && (ev.Added? ==> ev.id != id)
    ensures Once(TableAfter(t, ev).ports, id)
  {
    if ev.Removed? {
      var j, n := IndexOf(t.ports, PortId, ev.id), |t.ports|;
      if j < n {
        var r := TableAfter(t, ev).ports;
        assert forall k :: 0 <= k < n - 1 ==> r[k] == t.ports[if k == j then n - 1 else k];
      }
    }
  }

  lemma BlockAfter(t: PortTable, ev: Event)
    ensures TableAfter(t, ev).block >= t.block
    ensures TableAfter(t, ev).block == t.block <==>
            !(ev.Added? && PortOf(ev.id, ev.global).Some? && !ev.alloc.NoRoom? && |t.ports| == t.capacity && ev.alloc.moves)
  {
  }

  lemma {:induction false} Tracks(t: PortTable, events: seq<Event>, slot: nat)
    requires slot < |t.ports| && Once(t.ports, t.ports[slot].id)
    requires forall ev <- events :: ev.Added? ==> ev.id != t.ports[slot].id
    ensures var u, id := TableAll(t, events), t.ports[slot].id;
            && Once(u.ports, id) && u.block >= t.block
            && if u.block == t.block then Tracked(u, slot, id, !DisturbedBy(t, events, slot))
               else DisturbedBy(t, events, slot)
  {
    if events != [] {
      var n, id := |events| - 1, t.ports[slot].id;
      var before, ev := TableAll(t, events[..n]), events[n];
      LastSplit(events);
      Tracks(t, events[..n], slot);
      hide TableAfter, PortOf;
      DisturbedSnoc(t, events[..n], ev, slot);
      OnceKept(before, ev, id);
      BlockAfter(before, ev);
      if before.block == t.block {
        var holds := !DisturbedBy(t, events[..n], slot);
        if ev.Added? {
          AddTracked(before, ev, slot, id, holds);
        } else {
          RemoveTracked(before, ev.id, slot, id, holds);
        }
      }
    }
  }

  lemma UndisturbedStep(t: PortTable, ev: Event, slot: nat)
    requires slot < |t.ports + t.stale| && !Disturbs(t, ev, slot)
    ensures var u := TableAfter(t, ev);
            && u.block == t.block && slot < |u.ports + u.stale| && (u.ports + u.stale)[slot] == (t.ports + t.stale)[slot]
  {
    var u := TableAfter(t, ev);
    if ev.Removed? {
      var j, n := IndexOf(t.ports, PortId, ev.id), |t.ports|;
      if j < n {
        assert forall k :: 0 <= k < |t.ports + t.stale| && k != j ==> (u.ports + u.stale)[k] == (t.ports + t.stale)[k];
      }
    }
  }

  // Whatever ids are announced, a slot that no event disturbs keeps its entry.
  lemma {:induction false} UndisturbedHolds(t: PortTable, events: seq<Event>, slot: nat)
    requires slot < |t.ports| && !DisturbedBy(t, events, slot)
    ensures var u := TableAll(t, events);
            && u.block == t.block && slot < |u.ports + u.stale| && (u.ports + u.stale)[slot] == t.ports[slot]
  {
    if events != [] {
      hide TableAfter, Disturbs;
      var n := |events| - 1;
      LastSplit(events);
      DisturbedSnoc(t, events[..n], events[n], slot);
      UndisturbedHolds(t, events[..n], slot);
      UndisturbedStep(TableAll(t, events[..n]), events[n], slot);
    }
  }

  // A pointer names the port it was taken for exactly as long as no event has
  // moved the array or written another entry into its slot; provided the
  // port's id is not announced again.
  lemma PointerHoldsExactly(t: PortTable, events: seq<Event>, slot: nat)
    requires slot < |t.ports| && Once(t.ports, t.ports[slot].id)
    requires forall ev <- events :: ev.Added? ==> ev.id != t.ports[slot].id
    ensures IdAt(TableAll(t, events), PortRef(t.block, slot)) == Some(t.ports[slot].id)
       <==> !DisturbedBy(t, events, slot)
  {
    hide DisturbedBy;
    Tracks(t, events, slot);
  }

  predicate TakesPort(t: PortTable, ev: Event) {
    ev.Removed? && IndexOf(t.ports, PortId, ev.id) < |t.ports|
  }

  lemma QuietStep(t: PortTable, ev: Event, slot: nat)
    requires slot < |t.ports| < t.capacity && !TakesPort(t, ev)
    ensures !Disturbs(t, ev, slot)
    ensures var u := TableAfter(t, ev); |t.ports| <= |u.ports| <= |t.ports| + 1 && u.capacity == t.capacity
  {
  }

  // Something to hold on to: no port leaves the cache, and the new ones fit.
  lemma {:induction false} QuietIsUndisturbed(t: PortTable, events: seq<Event>, slot: nat)
    requires slot < |t.ports| && |t.ports| + |events| <= t.capacity
    requires forall k :: 0 <= k < |events| ==> !TakesPort(TableAll(t, events[..k]), events[k])
    ensures !DisturbedBy(t, events, slot)
    ensures var u := TableAll(t, events); |t.ports| <= |u.ports| <= |t.ports| + |events| && u.capacity == t.capacity
  {
    if events != [] {
      hide TakesPort, TableAfter, Disturbs;
      var n := |events| - 1;
      LastSplit(events);
      forall k | 0 <= k < n ensures !TakesPort(TableAll(t, events[..n][..k]), events[..n][k]) {
        PrefixOfPrefix(events, n, k);
      }
      QuietIsUndisturbed(t, events[..n], slot);
      DisturbedSnoc(t, events[..n], events[n], slot);
      QuietStep(TableAll(t, events[..n]), events[n], slot);
    }
  }
}
