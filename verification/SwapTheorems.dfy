/** What holds in every interleaving of control and audio steps. */
module SwapTheorems {
  import opened Config
  import opened Graph
  import opened TrackEdits
  import opened SwapProtocol
  import opened SwapOrder
  import opened SwapContents
  import opened SwapPhases
  import opened SwapInvariant

  ghost predicate Reachable(s: State) {
    exists run :: Legal(Init(), run) && s == Exec(Init(), run)
  }

  lemma ReachableInv(s: State)
    requires Reachable(s)
    ensures Inv(s)
  {
    hide Inv;
    var run :| Legal(Init(), run) && s == Exec(Init(), run);
    RunKeeps(run);
  }

  lemma {:induction false} LaterInv(s: State, run: seq<Step>)
    requires Inv(s) && Legal(s, run)
    ensures Inv(Exec(s, run))
  {
    hide Inv;
    if run != [] {
      LaterInv(s, run[..|run| - 1]);
      StepKeeps(Exec(s, run[..|run| - 1]), run[|run| - 1]);
    }
  }

  lemma InvCore(s: State)
    requires Inv(s)
    ensures Core(s.slots)
  {
    hide Core;
  }

  // ---------------------------------------------------------------- grace period

  /** Any graph from the first needed one on can be read, and so can its nodes. */
  lemma GraphReadable(s: State, g: GraphId)
    requires Inv(s) && First(s.slots) <= g < s.slots.ctl.made
    ensures Readable(s, g) && NodeSet(s.graphs[g]) == s.history[g]
  {
    hide Lists, GoesForGood, Owners, StartedOnce, States, Snapshot;
    assert 0 <= First(s.slots);
    GraphNodesExist(s, g);
    assert forall n :: n in Nodes(s.graphs[g]) ==> n in NodeSet(s.graphs[g]);
  }

  /** In every reachable state nothing freed has been touched and no lifecycle assertion has failed;
      the graph the audio thread was last given is live, with all its nodes, and so is the active
      graph, which between two calls of audio_apply is the same one. */
  lemma GracePeriod(s: State)
    requires Reachable(s)
    ensures !s.ub
    ensures Readable(s, s.slots.box.active)
    ensures s.slots.aud.held.Some? ==> Readable(s, s.slots.aud.held.value)
    ensures s.slots.aud.pc.Quiet? && s.slots.aud.held.Some? ==> s.slots.aud.held.value == s.slots.box.active
  {
    ReachableInv(s);
    hide Lists, LiveGraphs, GoesForGood, Owners, StartedOnce, States, Snapshot, Readable;
    GraphReadable(s, s.slots.box.active);
    if s.slots.aud.held.Some? { HeldReadable(s); }
  }

  lemma TouchKeepsGraphs(s: State, a: Access, g: GraphId)
    requires g in s.graphs && g < s.slots.ctl.made && g in Touch(s, a).graphs
    ensures Touch(s, a).graphs[g] == s.graphs[g]
  {
    hide Snapshot, Without, Nodes;
  }

  lemma LiveGraphIsMade(s: State, g: GraphId)
    requires Inv(s) && g in s.graphs
    ensures g < s.slots.ctl.made
  {
    hide Core, Lists, ModelOk, Owned, Phases, NodeSet, Nodes;
  }

  /** A graph never changes while it lives. */
  lemma GraphFrozen(s: State, step: Step, g: GraphId)
    requires Inv(s) && Enabled(s, step) && g in s.graphs && g in Next(s, step).graphs
    ensures Next(s, step).graphs[g] == s.graphs[g]
  {
    LiveGraphIsMade(s, g);
    hide Inv, Touch, BeginEdit, StartList, StopList, ControlSlots, AudioSlots, Readable;
    match step
    case Edit(e) => EditFields(s, e);
    case Proceed => TouchKeepsGraphs(s, ControlAccess(s.slots), g);
    case Turn(accepts) => TouchKeepsGraphs(s, AudioAccess(s.slots, accepts), g);
    case Halt(n) => TouchKeepsGraphs(s, Stop(n), g);
    case _ =>
  }

  /** Whatever the control thread does until audio_apply is called again, the graph last returned
      stays live and unchanged, and so do the nodes in it. */
  lemma {:induction false} HeldUntilNextApply(s: State, run: seq<Step>)
    requires Inv(s) && s.slots.aud.pc.Quiet? && s.slots.aud.held.Some?
    requires Legal(s, run) && (forall i :: 0 <= i < |run| ==> !run[i].Enter?)
    ensures var t := Exec(s, run); var g := s.slots.aud.held.value;
      && t.slots.aud == s.slots.aud
      && Readable(t, g) && g in s.graphs && t.graphs[g] == s.graphs[g]
  {
    hide Inv, Readable, Next;
    var g := s.slots.aud.held.value;
    HeldReadable(s);
    ReadableIsLive(s, g);
    if run != [] {
      var front := run[..|run| - 1];
      HeldUntilNextApply(s, front);
      LaterInv(s, front);
      var u := Exec(s, front);
      ReadableIsLive(u, g);
      QuietStep(u, run[|run| - 1]);
      StepKeeps(u, run[|run| - 1]);
      HeldReadable(Exec(s, run));
      ReadableIsLive(Exec(s, run), g);
      GraphFrozen(u, run[|run| - 1], g);
    }
  }

  lemma ReadableIsLive(s: State, g: GraphId)
    requires Readable(s, g)
    ensures g in s.graphs
  {
  }

  lemma QuietStep(s: State, step: Step)
    requires Enabled(s, step) && s.slots.aud.pc.Quiet? && !step.Enter?
    ensures Next(s, step).slots.aud == s.slots.aud
  {
    hide Touch, BeginEdit;
    match step
    case Edit(e) => EditFields(s, e);
    case Halt(n) => TouchFrame(s, Stop(n));
    case _ =>
  }

  lemma TouchFrame(s: State, a: Access)
    ensures Touch(s, a).slots == s.slots
  {
  }

  /** Only graphs strictly older than the active one are ever freed, and only while no one holds them. */
  lemma OnlyOlderGraphsFreed(s: State, step: Step, g: GraphId)
    requires Inv(s) && Enabled(s, step) && g in s.graphs && g !in Next(s, step).graphs
    ensures g < s.slots.box.active && s.slots.aud.held != Some(g) && g != s.slots.ctl.lastSnapshot
  {
    FreeingStep(s, step, g);
    FreedIsOldest(s.slots, g);
  }

  lemma TouchFrees(s: State, a: Access, g: GraphId)
    requires g in s.graphs && g !in Touch(s, a).graphs
    ensures a == Free(Some(g))
  {
    hide Snapshot, Without, Nodes;
  }

  lemma FreeingStep(s: State, step: Step, g: GraphId)
    requires Inv(s) && Enabled(s, step) && g in s.graphs && g !in Next(s, step).graphs
    ensures step.Proceed? && s.slots.ctl.pc.Freeing? && s.slots.ctl.pc.r.oldGraph == Some(g) && Core(s.slots)
  {
    hide Core, Lists, LiveGraphs, ModelOk, Newest, Owned, Phases, Touch, BeginEdit, StartList, StopList,
          ControlSlots, AudioSlots, Readable;
    match step
    case Edit(e) => EditFields(s, e);
    case Proceed => TouchFrees(s, ControlAccess(s.slots), g);
    case Turn(accepts) => TouchFrees(s, AudioAccess(s.slots, accepts), g);
    case Halt(n) => TouchFrees(s, Stop(n), g);
    case _ =>
  }

  lemma FreedIsOldest(z: Slots, g: GraphId)
    requires Core(z) && z.ctl.pc.Freeing? && z.ctl.pc.r.oldGraph == Some(g)
    ensures g == Oldest(z) && g < z.box.active && z.aud.held != Some(g) && g != z.ctl.lastSnapshot
  {
  }

  /** Only nodes that are in no graph from the first needed one on, and not in the model, are ever
      destroyed; they are not processing; and the registry does hold each of them. */
  lemma OnlyGoneNodesDestroyed(s: State, step: Step, n: NodeId)
    requires Inv(s) && Enabled(s, step)
    requires (step.Proceed? && ControlAccess(s.slots) == Destroy(n)) || (n in s.nodes && n !in Next(s, step).nodes)
    ensures step.Proceed? && ControlAccess(s.slots) == Destroy(n)
    ensures n in s.registry && s.nodes[n] != Processing && n !in Next(s, step).registry
    ensures n !in AllNodes(s.model) && !InSome(s.history, First(s.slots), s.slots.ctl.made, n)
  {
    DestroyOnly(s, step, n);
    var z, h, m := s.slots, s.history, ModelNodes(s);
    OwnersDestroyed(z, h, m, s.registry);
    StoppedForGood(h, m, z.ctl.pc.r, n);
    DestroyedIsStopped(z, h, m, s.nodes, s.started);
    hide Lists, LiveGraphs, GoesForGood, Owners, StartedOnce, States, Without, ControlSlots;
    assert n !in m;
  }

  lemma DestroyOnly(s: State, step: Step, n: NodeId)
    requires Enabled(s, step) && n in s.nodes && n !in Next(s, step).nodes
    ensures step.Proceed? && ControlAccess(s.slots) == Destroy(n)
  {
    hide Touch, BeginEdit, StartList, StopList, ControlSlots, AudioSlots, ControlAccess, AudioAccess, Readable;
    match step
    case Edit(e) => EditFields(s, e);
    case Proceed => TouchDestroys(s, ControlAccess(s.slots), n);
    case Turn(accepts) => TouchDestroys(s, AudioAccess(s.slots, accepts), n); AudioSpares(s.slots, accepts, n);
    case Halt(m) => TouchDestroys(s, Stop(m), n);
    case _ =>
  }

  lemma TouchDestroys(s: State, a: Access, n: NodeId)
    requires n in s.nodes && n !in Touch(s, a).nodes
    ensures a == Destroy(n)
  {
    hide Snapshot, Without, Nodes;
  }

  lemma AudioSpares(z: Slots, accepts: bool, n: NodeId)
    ensures AudioAccess(z, accepts) != Destroy(n)
  {
  }

  // ---------------------------------------------------------------- swaps

  /** Each swap sits in one place only, and the places hold swaps in commit order. */
  lemma CommitOrder(s: State)
    requires Reachable(s)
    ensures var z := s.slots;
      && (z.box.toControl.Some? && z.aud.retire.Some? ==>
            z.box.toControl.value.newGraph < z.aud.retire.value.newGraph)
      && (z.aud.retire.Some? ==> z.aud.retire.value.newGraph == z.box.active)
      && (z.box.toControl.Some? ==> z.box.toControl.value.newGraph <= z.box.active)
      && (TakenUp(z) ==> z.box.active < z.aud.pc.s.newGraph && z.aud.retire.None?)
      && (z.box.pending.Some? ==> z.box.active < z.box.pending.value.newGraph)
      && (TakenUp(z) && z.box.pending.Some? ==> z.aud.pc.s.newGraph < z.box.pending.value.newGraph)
      && (Queueing(z) && z.box.pending.Some? ==> z.box.pending.value.newGraph < z.ctl.pc.s.newGraph)
      && (Reclaiming(z) && z.box.toControl.Some? ==> z.ctl.pc.r.newGraph < z.box.toControl.value.newGraph)
      && (Reclaiming(z) ==> z.ctl.pc.r.newGraph <= z.box.active)
      && (Reclaiming(z) && z.aud.retire.Some? ==> z.ctl.pc.r.newGraph < z.aud.retire.value.newGraph)
      && (Queueing(z) ==> z.box.active < z.ctl.pc.s.newGraph)
      && (Queueing(z) && TakenUp(z) ==> z.aud.pc.s.newGraph < z.ctl.pc.s.newGraph)
  {
    ReachableInv(s);
    hide Lists, LiveGraphs, ModelOk, Newest, Owned, Phases;
  }

  /** A mailbox is never overwritten: each store finds its slot empty, though the check was earlier. */
  lemma StoresFindEmptySlots(s: State)
    requires Reachable(s)
    ensures s.slots.ctl.pc.Posting? ==> s.slots.box.pending.None?
    ensures s.slots.aud.pc.HandingBack? ==> s.slots.box.toControl.None? && s.slots.aud.retire.Some?
    ensures s.slots.aud.pc.Flipping? ==> s.slots.aud.retire.None?
  {
    ReachableInv(s);
    hide Lists, LiveGraphs, ModelOk, Newest, Owned, Phases;
  }

  /** Swaps are neither lost nor duplicated: only drawing one up and deleting one change their number. */
  lemma SwapsConserved(s: State, step: Step)
    requires Inv(s) && Enabled(s, step)
    ensures InFlight(Next(s, step).slots) == InFlight(s.slots)
              + One(step.Proceed? && s.slots.ctl.pc.Building?) - One(step.Proceed? && s.slots.ctl.pc.Freeing?)
  {
    hide Lists, LiveGraphs, ModelOk, Newest, Owned, Phases, Touch, BeginEdit;
    match step
    case Edit(e) => EditFields(s, e);
    case Halt(n) => TouchFrame(s, Stop(n));
    case Proceed => ControlChangesCount(s.slots, StartList(s), StopList(s));
    case Turn(_) => AudioKeepsCount(s.slots);
    case _ =>
  }

  lemma ControlChangesCount(z: Slots, start: seq<NodeId>, stop: seq<NodeId>)
    requires Core(z) && !z.ctl.pc.Idle?
    ensures InFlight(ControlSlots(z, start, stop)) == InFlight(z) + One(z.ctl.pc.Building?) - One(z.ctl.pc.Freeing?)
  {
    match z.ctl.pc
    case Exchanging(_) =>
    case Destroying(_, _, _) =>
    case Freeing(_, _) =>
    case Building =>
    case Spinning(_) =>
    case Posting(_) =>
  }

  lemma AudioKeepsCount(z: Slots)
    requires Core(z)
    ensures InFlight(AudioSlots(z)) == InFlight(z)
  {
    match z.aud.pc
    case Entered =>
    case Stopping(_) =>
    case HandingBack =>
    case Taking =>
    case Starting(_, _) =>
    case Flipping(_) =>
    case _ =>
  }

  lemma {:induction false} RangeSize(ids: set<int>, a: int, b: int)
    requires a <= b && forall i :: i in ids <==> a <= i < b
    ensures |ids| == b - a
    decreases b - a
  {
    if a < b {
      RangeSize(ids - {b - 1}, a, b - 1);
      assert ids == (ids - {b - 1}) + {b - 1};
    } else {
      assert forall i :: i !in ids;
      assert ids == {};
    }
  }

  /** At most three swaps are in flight at any time, and each keeps exactly one graph alive besides
      the newest: at most four graphs exist. */
  lemma BoundedResources(s: State)
    requires Reachable(s)
    ensures InFlight(s.slots) <= 3 && |s.graphs| == InFlight(s.slots) + 1 <= 4
  {
    ReachableInv(s);
    hide Lists, ModelOk, Newest, Owned, Phases, Checks;
    var lo, hi := Oldest(s.slots), s.slots.ctl.made;
    assert hi - lo == InFlight(s.slots) + 1;
    RangeSize(s.graphs.Keys, lo, hi);
    assert |s.graphs| == |s.graphs.Keys|;
  }

  // ---------------------------------------------------------------- the diff

  /** When the audio thread is about to apply a swap, its lists are the exact differences between
      the swap's graph and the graph that is active at that moment, each node once, although they
      were computed against the last snapshot, when an older graph may have been active. */
  lemma LateDiffExact(s: State)
    requires Reachable(s) && TakenUp(s.slots)
    ensures var w := s.slots.aud.pc.s; var act := s.slots.box.active;
      && act in s.graphs && w.newGraph in s.graphs
      && NoDup(w.start) && NoDup(w.stop)
      && (forall x :: x in w.start <==> x in Nodes(s.graphs[w.newGraph]) && x !in Nodes(s.graphs[act]))
      && (forall x :: x in w.stop <==> x in Nodes(s.graphs[act]) && x !in Nodes(s.graphs[w.newGraph]))
  {
    ReachableInv(s);
    var w, act := s.slots.aud.pc.s, s.slots.box.active;
    TakenExact(s);
    GraphNodes(s, act);
    GraphNodes(s, act + 1);
    hide Inv, Nodes, Exact, NoDup;
    ExactMeans(s.history, w);
  }

  lemma TakenExact(s: State)
    requires Inv(s) && TakenUp(s.slots)
    ensures Exact(s.history, s.slots.aud.pc.s) && s.slots.aud.pc.s.newGraph == s.slots.box.active + 1
  {
    hide LiveGraphs, ModelOk, Newest, Owned, Phases, Bounds, Checks, Exact;
  }

  lemma ExactMeans(h: seq<set<NodeId>>, w: Swap)
    requires Exact(h, w)
    ensures 1 <= w.newGraph < |h| && NoDup(w.start) && NoDup(w.stop)
    ensures forall x :: x in w.start <==> x in h[w.newGraph] && x !in h[w.newGraph - 1]
    ensures forall x :: x in w.stop <==> x in h[w.newGraph - 1] && x !in h[w.newGraph]
  {
  }

  lemma GraphNodes(s: State, g: GraphId)
    requires Inv(s) && First(s.slots) <= g < s.slots.ctl.made
    ensures 0 <= g < |s.history| && g in s.graphs
    ensures forall x :: x in Nodes(s.graphs[g]) <==> x in s.history[g]
  {
    hide Lists, GoesForGood, Owners, StartedOnce, States, Snapshot, Nodes;
    GraphReadable(s, g);
    assert forall x :: x in Nodes(s.graphs[g]) <==> x in NodeSet(s.graphs[g]);
  }
}
