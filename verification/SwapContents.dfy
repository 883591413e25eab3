/** Which nodes the graphs in flight contain and who owns them. The lemmas are stated on the parts
    of a state they concern: pointers z, node sets h of all graphs made, nodes m of the model. */
module SwapContents {
  import opened Config
  import opened Graph
  import opened SwapProtocol
  import opened SwapOrder

  /** The start and stop lists are the differences between a graph and the one made before it. */
  ghost predicate Exact(h: seq<set<NodeId>>, w: Swap) {
    && 1 <= w.newGraph < |h|
    && NoDup(w.start) && NoDup(w.stop)
    && (forall x :: x in w.start <==> x in h[w.newGraph] && x !in h[w.newGraph - 1])
    && (forall x :: x in w.stop <==> x in h[w.newGraph - 1] && x !in h[w.newGraph])
  }

  ghost predicate Lists(z: Slots, h: seq<set<NodeId>>) {
    && (z.box.pending.Some? ==> Exact(h, z.box.pending.value))
    && (z.box.toControl.Some? ==> Exact(h, z.box.toControl.value))
    && (z.aud.retire.Some? ==> Exact(h, z.aud.retire.value))
    && (TakenUp(z) ==> Exact(h, z.aud.pc.s))
    && (Queueing(z) ==> Exact(h, z.ctl.pc.s))
    && (Reclaiming(z) ==> Exact(h, z.ctl.pc.r))
  }

  /** Nodes come once and go once: a node that has left a graph is in no later one, nor in the model. */
  ghost predicate GoesForGood(h: seq<set<NodeId>>, m: set<NodeId>) {
    && (forall i, j, k, x :: 0 <= i < j < k < |h| && x in h[i] && x in h[k] ==> x in h[j])
    && (forall i, j, x :: 0 <= i < j < |h| && x in h[i] && x in m ==> x in h[j])
  }

  ghost predicate Past(h: seq<set<NodeId>>, m: set<NodeId>, born: set<NodeId>) {
    m <= born && (forall i :: 0 <= i < |h| ==> h[i] <= born) && GoesForGood(h, m)
  }

  /** The model has changed and the new graph is not made yet. */
  ghost predicate Dirty(z: Slots) {
    match z.ctl.pc
    case Exchanging(c) => c.ToBuild?
    case Destroying(_, _, c) => c.ToBuild?
    case Freeing(_, c) => c.ToBuild?
    case Building => true
    case _ => false
  }

  ghost predicate Synced(z: Slots, h: seq<set<NodeId>>, m: set<NodeId>) {
    |h| == z.ctl.made > 0 && (!Dirty(z) ==> h[|h| - 1] == m)
  }

  /** The nodes of the stop list under destruction that are still to be destroyed. */
  ghost function Waiting(z: Slots): seq<NodeId> {
    if z.ctl.pc.Destroying? && z.ctl.pc.i <= |z.ctl.pc.r.stop| then z.ctl.pc.r.stop[z.ctl.pc.i..] else []
  }

  ghost predicate InSome(h: seq<set<NodeId>>, from: int, to: int, x: NodeId) {
    exists i :: 0 <= i < |h| && from <= i <= to && x in h[i]
  }

  /** Why a node exists: it is in the model, in a graph from the first needed one on, or it waits
      to be destroyed. */
  ghost predicate Needed(z: Slots, h: seq<set<NodeId>>, m: set<NodeId>, x: NodeId) {
    x in m || InSome(h, First(z), |h|, x) || x in Waiting(z)
  }

  ghost predicate Owners(z: Slots, h: seq<set<NodeId>>, m: set<NodeId>, registry: seq<NodeId>) {
    NoDup(registry) && forall x :: x in registry <==> Needed(z, h, m, x)
  }

  // ---------------------------------------------------------------- history

  lemma MadeGrows(h: seq<set<NodeId>>, m: set<NodeId>)
    requires GoesForGood(h, m)
    ensures GoesForGood(h + [m], m)
  {
    var h' := h + [m];
    forall i, j, k, x | 0 <= i < j < k < |h'| && x in h'[i] && x in h'[k] ensures x in h'[j] {
      assert h'[i] == h[i] && h'[j] == h[j];
    }
    forall i, j, x | 0 <= i < j < |h'| && x in h'[i] && x in m ensures x in h'[j] {
      assert h'[i] == h[i];
    }
  }

  lemma ModelChanges(h: seq<set<NodeId>>, m: set<NodeId>, born: set<NodeId>, m': set<NodeId>, added: set<NodeId>)
    requires Past(h, m, born) && m' <= m + added && added !! born
    ensures Past(h, m', born + added)
  {
    forall i, j, x | 0 <= i < j < |h| && x in h[i] && x in m' ensures x in h[j] {
      assert h[i] <= born;
      assert x in born && x !in added;
    }
  }

  // ---------------------------------------------------------------- lists

  lemma ExactGrows(h: seq<set<NodeId>>, m: set<NodeId>, w: Swap)
    requires Exact(h, w)
    ensures Exact(h + [m], w)
  {
  }

  lemma ListsGrow(z: Slots, h: seq<set<NodeId>>, m: set<NodeId>)
    requires Lists(z, h)
    ensures Lists(z, h + [m])
  {
    if z.box.pending.Some? { ExactGrows(h, m, z.box.pending.value); }
    if z.box.toControl.Some? { ExactGrows(h, m, z.box.toControl.value); }
    if z.aud.retire.Some? { ExactGrows(h, m, z.aud.retire.value); }
    if TakenUp(z) { ExactGrows(h, m, z.aud.pc.s); }
    if Queueing(z) { ExactGrows(h, m, z.ctl.pc.s); }
    if Reclaiming(z) { ExactGrows(h, m, z.ctl.pc.r); }
  }

  lemma ListsControl(z: Slots, h: seq<set<NodeId>>, start: seq<int>, stop: seq<int>)
    requires Core(z) && Lists(z, h)
    requires z.ctl.pc.Building? ==> Exact(h, Swap(z.ctl.made, None, start, stop))
    ensures Lists(ControlSlots(z, start, stop), h)
  {
  }

  lemma ListsAudio(z: Slots, h: seq<set<NodeId>>)
    requires Core(z) && Lists(z, h)
    ensures Lists(AudioSlots(z), h)
  {
    if z.aud.pc.Flipping? { ListsFlipping(z, h); }
    else if z.aud.pc.Starting? { ListsStarting(z, h); }
    else { ListsMoved(z, h); }
  }

  lemma ListsFlipping(z: Slots, h: seq<set<NodeId>>)
    requires Core(z) && Lists(z, h) && z.aud.pc.Flipping?
    ensures Lists(AudioSlots(z), h)
  {
  }

  lemma ListsStarting(z: Slots, h: seq<set<NodeId>>)
    requires Core(z) && Lists(z, h) && z.aud.pc.Starting?
    ensures Lists(AudioSlots(z), h)
  {
  }

  lemma ListsMoved(z: Slots, h: seq<set<NodeId>>)
    requires Core(z) && Lists(z, h) && !z.aud.pc.Flipping? && !z.aud.pc.Starting?
    ensures Lists(AudioSlots(z), h)
  {
  }

  // ---------------------------------------------------------------- ownership

  /** A node on a stop list is in no later graph and not in the model. */
  lemma StoppedForGood(h: seq<set<NodeId>>, m: set<NodeId>, w: Swap, x: NodeId)
    requires GoesForGood(h, m) && Exact(h, w) && x in w.stop
    ensures x in h[w.newGraph - 1] && x !in m
    ensures forall to :: !InSome(h, w.newGraph, to, x)
  {
  }

  lemma OwnersFrame(z: Slots, h: seq<set<NodeId>>, m: set<NodeId>, registry: seq<NodeId>, z': Slots)
    requires Owners(z, h, m, registry) && First(z') == First(z) && Waiting(z') == Waiting(z)
    ensures Owners(z', h, m, registry)
  {
    forall x ensures Needed(z', h, m, x) <==> Needed(z, h, m, x) {
    }
  }

  /** Taking a swap out of to_control_ makes its old graph's departing nodes wait for destruction. */
  lemma OwnersExchanged(z: Slots, h: seq<set<NodeId>>, m: set<NodeId>, registry: seq<NodeId>)
    requires Core(z) && Lists(z, h) && Owners(z, h, m, registry) && |h| == z.ctl.made
    requires z.ctl.pc.Exchanging? && z.box.toControl.Some?
    ensures Owners(ControlSlots(z, [], []), h, m, registry)
  {
    var r := z.box.toControl.value;
    var z' := ControlSlots(z, [], []);
    assert r.stop[0..] == r.stop;
    forall x ensures Needed(z', h, m, x) <==> Needed(z, h, m, x) {
      SplitFirst(h, First(z), |h|, x);
    }
  }

  lemma SplitFirst(h: seq<set<NodeId>>, from: int, to: int, x: NodeId)
    requires 0 <= from < |h| && from <= to
    ensures InSome(h, from, to, x) <==> x in h[from] || InSome(h, from + 1, to, x)
  {
  }

  lemma RemoveOne(r: seq<NodeId>, n: NodeId)
    requires NoDup(r) && n in r
    ensures NoDup(Without(r, n)) && forall x :: x in Without(r, n) <==> x in r && x != n
  {
    var k := IndexOf(r, n);
    Rejoin(r, k);
    NoDupSplit(r[..k] + [r[k]], r[k + 1..]);
    NoDupSplit(r[..k], [r[k]]);
    NoDupJoin(r[..k], r[k + 1..]);
  }

  lemma DropFirst(a: seq<NodeId>, i: nat)
    requires i < |a| && NoDup(a)
    ensures forall x :: x in a[i..] <==> x == a[i] || x in a[i + 1..]
    ensures a[i] !in a[i + 1..]
  {
    assert a[i..] == [a[i]] + a[i + 1..];
  }

  /** Destroying the next node of a stop list takes exactly that node off the registry. */
  lemma OwnersDestroyed(z: Slots, h: seq<set<NodeId>>, m: set<NodeId>, registry: seq<NodeId>)
    requires Core(z) && Lists(z, h) && GoesForGood(h, m) && Owners(z, h, m, registry)
    requires z.ctl.pc.Destroying? && z.ctl.pc.i < |z.ctl.pc.r.stop|
    ensures var n := z.ctl.pc.r.stop[z.ctl.pc.i];
      && n in registry
      && Owners(ControlSlots(z, [], []), h, m, Without(registry, n))
      && forall x :: x in Without(registry, n) <==> x in registry && x != n
  {
    var r, i := z.ctl.pc.r, z.ctl.pc.i;
    var n := r.stop[i];
    var z' := ControlSlots(z, [], []);
    DropFirst(r.stop, i);
    StoppedForGood(h, m, r, n);
    assert First(z) == First(z') == r.newGraph;
    assert Needed(z, h, m, n);
    RemoveOne(registry, n);
    forall x ensures Needed(z', h, m, x) <==> Needed(z, h, m, x) && x != n {
    }
  }

  /** Making the new graph moves nodes of the model into it. */
  lemma OwnersBuilt(z: Slots, h: seq<set<NodeId>>, m: set<NodeId>, registry: seq<NodeId>, start: seq<int>, stop: seq<int>)
    requires Core(z) && Owners(z, h, m, registry) && |h| == z.ctl.made && z.ctl.pc.Building?
    ensures Owners(ControlSlots(z, start, stop), h + [m], m, registry)
  {
    var z' := ControlSlots(z, start, stop);
    forall x ensures Needed(z', h + [m], m, x) <==> Needed(z, h, m, x) {
      SomeGrows(h, m, First(z), x);
    }
  }

  lemma SomeGrows(h: seq<set<NodeId>>, m: set<NodeId>, from: int, x: NodeId)
    requires 0 <= from <= |h|
    ensures InSome(h + [m], from, |h| + 1, x) <==> InSome(h, from, |h|, x) || x in m
  {
    var h' := h + [m];
    assert forall i :: 0 <= i < |h| ==> h'[i] == h[i];
    assert h'[|h|] == m;
  }

  lemma OwnersEdited(z: Slots, h: seq<set<NodeId>>, m: set<NodeId>, registry: seq<NodeId>, m': set<NodeId>,
        added: seq<NodeId>, born: set<NodeId>)
    requires Core(z) && Synced(z, h, m) && Past(h, m, born) && Owners(z, h, m, registry) && z.ctl.pc.Idle?
    requires |added| <= 1 && (forall x :: x in added ==> x in m' && x !in born)
    requires forall x :: x in m' ==> x in m || x in added
    ensures Owners(z.ControlAt(Exchanging(ToBuild)), h, m', registry + added)
  {
    var z' := z.ControlAt(Exchanging(ToBuild));
    assert 0 <= First(z) <= |h| - 1;
    forall x ensures Needed(z', h, m', x) <==> Needed(z, h, m, x) || x in added {
      if x in m { assert x in h[|h| - 1]; }
    }
    forall x | x in registry ensures x !in added {
      assert Needed(z, h, m, x);
    }
    NoDupJoin(registry, added);
  }
}
