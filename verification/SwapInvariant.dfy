/** The invariant of the swap protocol, kept by every step of either thread. */
module SwapInvariant {
  import opened Config
  import opened Graph
  import opened TrackEdits
  import opened SwapProtocol
  import opened SwapOrder
  import opened SwapContents
  import opened SwapPhases

  function ModelNodes(s: State): set<NodeId> {
    set n | n in AllNodes(s.model)
  }

  ghost predicate WellMade(g: GraphState, nodes: set<NodeId>) {
    NodeSet(g) == nodes && NoDup(Nodes(g)) && Bounded(g.tracks)
  }

  /** The live graphs are those from the oldest one on. */
  ghost predicate LiveGraphs(z: Slots, h: seq<set<NodeId>>, graphs: map<GraphId, GraphState>) {
    && (forall i :: i in graphs <==> Oldest(z) <= i < |h|)
    && (forall i :: i in graphs ==> 0 <= i < |h| && WellMade(graphs[i], h[i]))
  }

  ghost predicate ModelOk(s: State) {
    Bounded(s.model) && NoDup(AllNodes(s.model)) && Past(s.history, ModelNodes(s), s.born)
  }

  /** The last graph made is the snapshot of the model, but while an edit is under way. */
  ghost predicate Newest(s: State) {
    && Synced(s.slots, s.history, ModelNodes(s))
    && (!Dirty(s.slots) && s.slots.ctl.made - 1 in s.graphs ==>
          s.graphs[s.slots.ctl.made - 1] == Snapshot(s.model, FLOAT_ONE))
  }

  ghost predicate Owned(s: State) {
    && Owners(s.slots, s.history, ModelNodes(s), s.registry)
    && forall x :: x in s.nodes <==> x in s.registry
  }

  ghost predicate Phases(s: State) {
    && StartedOnce(s.slots, s.history, s.started, s.born)
    && States(s.slots, s.history, s.nodes, s.started)
  }

  ghost predicate Inv(s: State) {
    && Core(s.slots)
    && Lists(s.slots, s.history)
    && LiveGraphs(s.slots, s.history, s.graphs)
    && ModelOk(s) && Newest(s) && Owned(s) && Phases(s)
    && !s.ub
  }

  lemma InitInv()
    ensures Inv(Init())
  {
    InitFields();
    InitAt(Init());
  }

  lemma InitFields()
    ensures var s := Init(); var g := Snapshot([], FLOAT_ONE);
      && WellMade(g, {}) && ModelNodes(s) == {}
      && s.graphs == map[0 := g] && s.history == [{}]
      && s.registry == [] && s.nodes == map[] && s.model == []
  {
    NothingTruncated([], FLOAT_ONE);
  }

  lemma InitAt(s: State)
    requires AtStart(s.slots)
    requires ModelNodes(s) == {} && s.history == [{}] && s.graphs.Keys == {0}
    requires WellMade(s.graphs[0], {}) && s.graphs[0] == Snapshot(s.model, FLOAT_ONE)
    requires s.registry == [] && s.nodes == map[] && s.model == [] && s.born == {} && s.started == {} && !s.ub
    ensures Inv(s)
  {
    hide Core, Lists, LiveGraphs, Owners, Past, StartedOnce, States, Synced, ModelNodes, WellMade;
    InitCore(s.slots);
    InitPointers(s.slots);
    InitOwned(s.slots);
    InitPhases(s.slots);
    InitGraphs(s.slots, s.graphs);
    InitPast();
    InitModel(s);
    hide ModelOk, AllNodes, AtStart;
    assert Newest(s);
  }

  lemma InitModel(s: State)
    requires s.model == [] && Past(s.history, ModelNodes(s), s.born)
    ensures ModelOk(s)
  {
    hide Past, ModelNodes;
  }

  lemma InitPast()
    ensures Past([{}], {}, {})
  {
  }

  ghost predicate AtStart(z: Slots) {
    && z.ctl.made == 1 && z.ctl.pc.Idle? && z.aud.pc.Quiet? && z.ctl.lastSnapshot == z.box.active == 0
    && z.box.pending.None? && z.box.toControl.None? && z.aud.retire.None? && z.aud.held.None?
  }

  lemma InitCore(z: Slots)
    requires AtStart(z)
    ensures Core(z)
  {
    assert Order(z);
    hide Order;
    assert Bounds(z);
    hide Bounds;
    assert Checks(z);
  }

  lemma InitPointers(z: Slots)
    requires AtStart(z)
    ensures Lists(z, [{}]) && Synced(z, [{}], {})
    ensures Oldest(z) == First(z) == 0 && Waiting(z) == []
  {
    hide Exact;
  }

  lemma InitOwned(z: Slots)
    requires Waiting(z) == []
    ensures Owners(z, [{}], {}, [])
  {
    hide First, Waiting;
  }

  lemma InitPhases(z: Slots)
    ensures StartedOnce(z, [{}], {}, {}) && States(z, [{}], map[], {})
  {
  }

  lemma InitGraphs(z: Slots, graphs: map<GraphId, GraphState>)
    requires Oldest(z) == 0 && graphs.Keys == {0} && WellMade(graphs[0], {})
    ensures LiveGraphs(z, [{}], graphs)
  {
    hide Oldest, WellMade;
    assert forall i :: i in graphs <==> i in graphs.Keys;
  }

  /** The nodes of every graph from the first needed one on exist. */
  lemma GraphNodesExist(s: State, i: int)
    requires Inv(s) && 0 <= First(s.slots) <= i < |s.history|
    ensures forall x :: x in s.history[i] ==> x in s.nodes
  {
    forall x | x in s.history[i] ensures x in s.nodes {
      assert InSome(s.history, First(s.slots), |s.history|, x);
      assert Needed(s.slots, s.history, ModelNodes(s), x);
    }
  }

  // ---------------------------------------------------------------- edits

  lemma EditModel(s: State, e: Edit)
    requires Inv(s) && Enabled(s, Step.Edit(e))
    ensures var t := BeginEdit(s, e);
      && Bounded(t.model) && NoDup(AllNodes(t.model))
      && (forall x :: x in ModelNodes(t) ==> x in ModelNodes(s) || NodeOf(e) == Some(x))
      && (NodeOf(e).Some? ==> NodeOf(e).value in ModelNodes(t))
  {
    EditKeepsBounded(s.model, s.created, e);
    if NodeOf(e).Some? {
      assert NodeOf(e).value !in ModelNodes(s);
    }
    EditNodes(s.model, s.created, e);
  }

  function Added(e: Edit): seq<NodeId> {
    if NodeOf(e).Some? then [NodeOf(e).value] else []
  }

  lemma EditFields(s: State, e: Edit)
    requires Enabled(s, Step.Edit(e))
    ensures var t := BeginEdit(s, e);
      && t.slots == s.slots.ControlAt(Exchanging(ToBuild))
      && t.registry == s.registry + Added(e)
      && t.born == s.born + (set x | x in Added(e))
      && t.graphs == s.graphs && t.history == s.history && t.started == s.started && t.ub == s.ub
      && t.nodes == (if NodeOf(e).Some? then s.nodes[NodeOf(e).value := Activated] else s.nodes)
  {
  }

  lemma EditKeeps(s: State, e: Edit)
    requires Inv(s) && Enabled(s, Step.Edit(e))
    ensures Inv(BeginEdit(s, e))
  {
    hide Core, Lists, LiveGraphs, ModelOk, Newest, Owned, Phases, BeginEdit;
    EditFields(s, e);
    CoreCalled(s.slots, ToBuild);
    EditModelOk(s, e);
    EditOwned(s, e);
    EditPointers(s.slots, s.history, s.graphs);
    EditNewest(s, e);
    EditPhases(s, e);
  }

  lemma EditModelOk(s: State, e: Edit)
    requires Inv(s) && Enabled(s, Step.Edit(e))
    ensures ModelOk(BeginEdit(s, e))
  {
    hide Core, Lists, LiveGraphs, Newest, Owned, Phases, Past;
    var t := BeginEdit(s, e);
    EditFields(s, e);
    EditModel(s, e);
    var m, m', added := ModelNodes(s), ModelNodes(t), set x | x in Added(e);
    forall x | x in m' ensures x in m + added {
      if NodeOf(e) == Some(x) { assert x in Added(e); }
    }
    assert added !! s.born;
    ModelChanges(s.history, m, s.born, m', added);
  }

  lemma EditOwned(s: State, e: Edit)
    requires Inv(s) && Enabled(s, Step.Edit(e))
    ensures Owned(BeginEdit(s, e))
  {
    hide Core, Lists, LiveGraphs, Phases, Past, Owners, Synced;
    var t := BeginEdit(s, e);
    EditFields(s, e);
    EditModel(s, e);
    OwnersEdited(s.slots, s.history, ModelNodes(s), s.registry, ModelNodes(t), Added(e), s.born);
  }

  lemma EditPointers(z: Slots, h: seq<set<NodeId>>, graphs: map<GraphId, GraphState>)
    requires z.ctl.pc.Idle? && Lists(z, h) && LiveGraphs(z, h, graphs)
    ensures Lists(z.ControlAt(Exchanging(ToBuild)), h) && LiveGraphs(z.ControlAt(Exchanging(ToBuild)), h, graphs)
  {
    hide Exact;
    assert Oldest(z.ControlAt(Exchanging(ToBuild))) == Oldest(z);
  }

  lemma EditNewest(s: State, e: Edit)
    requires Newest(s) && Enabled(s, Step.Edit(e))
    ensures Newest(BeginEdit(s, e))
  {
    EditFields(s, e);
  }

  lemma EditPhases(s: State, e: Edit)
    requires Phases(s) && Enabled(s, Step.Edit(e))
    ensures Phases(BeginEdit(s, e))
  {
    var t := BeginEdit(s, e);
    EditFields(s, e);
    assert JustStarted(t.slots) == JustStarted(s.slots);
    assert ToBeStopped(t.slots) == ToBeStopped(s.slots);
  }

  // ---------------------------------------------------------------- control steps

  lemma BuildKeeps(s: State)
    requires Inv(s) && s.slots.ctl.pc.Building?
    ensures Inv(ControlStep(s))
  {
    hide Core, Lists, LiveGraphs, Past, Synced, Dirty, Owners, StartedOnce, States, StartList, StopList, Snapshot,
          ControlSlots;
    var z, h, m := s.slots, s.history, ModelNodes(s);
    var start, stop := StartList(s), StopList(s);
    BuildFields(s);
    CoreControl(z, start, stop);
    BuiltPast(h, m, s.born);
    BuiltLists(s);
    ListsGrow(z, h, m);
    ListsControl(z, h + [m], start, stop);
    BuiltSynced(z, h, m, start, stop);
    OwnersBuilt(z, h, m, s.registry, start, stop);
    PhasesGrow(z, h, m, s.nodes, s.started, s.born);
    PhasesMove(z, h + [m], s.nodes, s.started, s.born, start, stop);
    BuiltGraphs(z, h, m, s.graphs, Snapshot(s.model, FLOAT_ONE), start, stop);
  }

  /** What the building step changes. */
  lemma BuildFields(s: State)
    requires Inv(s) && s.slots.ctl.pc.Building?
    ensures var t := ControlStep(s); var g := Snapshot(s.model, FLOAT_ONE);
      && WellMade(g, ModelNodes(s))
      && t == s.(slots := ControlSlots(s.slots, StartList(s), StopList(s)),
                 graphs := s.graphs[s.slots.ctl.made := g], history := s.history + [ModelNodes(s)])
      && |s.history| == s.slots.ctl.made && t.slots.ctl.made == s.slots.ctl.made + 1
  {
    hide Lists, Owned, Phases, StartList, StopList;
    NothingTruncated(s.model, FLOAT_ONE);
    assert s.slots.ctl.lastSnapshot in s.graphs;
  }

  lemma BuiltPast(h: seq<set<NodeId>>, m: set<NodeId>, born: set<NodeId>)
    requires Past(h, m, born)
    ensures Past(h + [m], m, born)
  {
    MadeGrows(h, m);
  }

  lemma BuiltSynced(z: Slots, h: seq<set<NodeId>>, m: set<NodeId>, start: seq<NodeId>, stop: seq<NodeId>)
    requires |h| == z.ctl.made && z.ctl.pc.Building?
    ensures Synced(ControlSlots(z, start, stop), h + [m], m)
  {
  }

  /** Control steps do not concern the audio thread's own pointers. */
  lemma PhasesMove(z: Slots, h: seq<set<NodeId>>, nodes: map<NodeId, NodeState>, started: set<NodeId>,
        born: set<NodeId>, start: seq<NodeId>, stop: seq<NodeId>)
    requires Core(z) && StartedOnce(z, h, started, born) && States(z, h, nodes, started)
    ensures StartedOnce(ControlSlots(z, start, stop), h, started, born)
          && States(ControlSlots(z, start, stop), h, nodes, started)
  {
    ControlMay(z, start, stop);
    hide Core, ControlSlots, JustStarted, ToBeStopped;
  }

  /** The lists commit_edit draws up are the exact differences, each node once. */
  lemma BuiltLists(s: State)
    requires Inv(s) && s.slots.ctl.pc.Building?
    ensures Exact(s.history + [ModelNodes(s)], Swap(s.slots.ctl.made, None, StartList(s), StopList(s)))
  {
    BuildFields(s);
    LastFields(s);
    var last := LastNodes(s);
    var g := Nodes(Snapshot(s.model, FLOAT_ONE));
    DiffExact(s.history, s.slots.ctl.made, last, g);
  }

  lemma LastFields(s: State)
    requires Inv(s) && s.slots.ctl.pc.Building?
    ensures NoDup(LastNodes(s)) && s.slots.ctl.made == |s.history| > 0
    ensures (set n | n in LastNodes(s)) == s.history[s.slots.ctl.made - 1]
  {
    hide Lists, Owned, Phases, ModelOk, Bounds, Checks, Nodes, Bounded;
  }

  lemma DiffExact(h: seq<set<NodeId>>, id: int, from: seq<NodeId>, to: seq<NodeId>)
    requires id == |h| > 0 && NoDup(from) && NoDup(to) && (set n | n in from) == h[id - 1]
    ensures Exact(h + [set n | n in to], Swap(id, None, Minus(to, from), Minus(from, to)))
  {
    MinusKeepsNoDup(from, to);
    MinusKeepsNoDup(to, from);
    var h' := h + [set n | n in to];
    assert h'[id - 1] == h[id - 1];
    assert forall x :: x in h[id - 1] <==> x in from;
    assert forall x :: x in h'[id] <==> x in to;
  }

  lemma BuiltGraphs(z: Slots, h: seq<set<NodeId>>, m: set<NodeId>, graphs: map<GraphId, GraphState>, g: GraphState,
        start: seq<NodeId>, stop: seq<NodeId>)
    requires Core(z) && LiveGraphs(z, h, graphs) && z.ctl.pc.Building? && |h| == z.ctl.made
    requires WellMade(g, m)
    ensures LiveGraphs(ControlSlots(z, start, stop), h + [m], graphs[z.ctl.made := g])
  {
    hide WellMade;
    assert Oldest(ControlSlots(z, start, stop)) == Oldest(z);
  }

  /** The pointers of a control step do not depend on the lists, but for the building step. */
  lemma ListsUnused(z: Slots, start: seq<NodeId>, stop: seq<NodeId>)
    requires !z.ctl.pc.Building?
    ensures ControlSlots(z, start, stop) == ControlSlots(z, [], [])
  {
  }

  lemma SyncedMoves(z: Slots, h: seq<set<NodeId>>, m: set<NodeId>)
    requires Synced(z, h, m) && !z.ctl.pc.Building?
    ensures Synced(ControlSlots(z, [], []), h, m) && ControlSlots(z, [], []).ctl.made == z.ctl.made
    ensures !z.ctl.pc.Idle? ==> (Dirty(ControlSlots(z, [], [])) <==> Dirty(z))
  {
  }

  lemma DestroyKeeps(s: State)
    requires Inv(s) && ControlAccess(s.slots).Destroy?
    ensures Inv(ControlStep(s))
  {
    hide Core, Lists, LiveGraphs, GoesForGood, Synced, Dirty, Owners, StartedOnce, States, StartList, StopList,
          Snapshot, Without, ControlSlots;
    var z, h, m := s.slots, s.history, ModelNodes(s);
    var start, stop := StartList(s), StopList(s);
    ListsUnused(z, start, stop);
    CoreControl(z, [], []);
    ListsControl(z, h, [], []);
    SyncedMoves(z, h, m);
    OwnersDestroyed(z, h, m, s.registry);
    assert z.ctl.pc.r.stop[z.ctl.pc.i] in s.nodes;
    SyncedCount(z, h, m);
    DestroyedIsStopped(z, h, m, s.nodes, s.started);
    PhasesMove(z, h, s.nodes, s.started, s.born, [], []);
    StatesShrink(ControlSlots(z, [], []), h, s.nodes, s.started, z.ctl.pc.r.stop[z.ctl.pc.i]);
    GraphsDestroying(z, h, s.graphs);
  }

  lemma SyncedCount(z: Slots, h: seq<set<NodeId>>, m: set<NodeId>)
    requires Synced(z, h, m)
    ensures |h| == z.ctl.made > 0
  {
  }

  lemma StatesShrink(z: Slots, h: seq<set<NodeId>>, nodes: map<NodeId, NodeState>, started: set<NodeId>, n: NodeId)
    requires States(z, h, nodes, started)
    ensures States(z, h, nodes - {n}, started)
  {
    hide MayProcess;
  }

  lemma GraphsDestroying(z: Slots, h: seq<set<NodeId>>, graphs: map<GraphId, GraphState>)
    requires LiveGraphs(z, h, graphs) && ControlAccess(z).Destroy?
    ensures LiveGraphs(ControlSlots(z, [], []), h, graphs)
  {
    hide WellMade;
  }

  lemma MoveKeeps(s: State)
    requires Inv(s) && !s.slots.ctl.pc.Building? && !ControlAccess(s.slots).Destroy? && !s.slots.ctl.pc.Idle?
    ensures Inv(ControlStep(s))
  {
    hide Core, Lists, LiveGraphs, GoesForGood, Synced, Dirty, Owners, StartedOnce, States, StartList, StopList,
          Snapshot, ControlSlots;
    var z, h, m := s.slots, s.history, ModelNodes(s);
    ListsUnused(z, StartList(s), StopList(s));
    CoreControl(z, [], []);
    ListsControl(z, h, [], []);
    SyncedMoves(z, h, m);
    PhasesMove(z, h, s.nodes, s.started, s.born, [], []);
    SyncedCount(z, h, m);
    MoveOwners(z, h, m, s.registry);
    if z.ctl.pc.Freeing? {
      FreedGraph(z, h, s.graphs);
    } else {
      KeptGraphs(z, h, s.graphs);
    }
  }

  lemma MoveOwners(z: Slots, h: seq<set<NodeId>>, m: set<NodeId>, registry: seq<NodeId>)
    requires Core(z) && Lists(z, h) && Owners(z, h, m, registry) && |h| == z.ctl.made
    requires !z.ctl.pc.Building? && !ControlAccess(z).Destroy?
    ensures Owners(ControlSlots(z, [], []), h, m, registry)
  {
    hide Owners, Lists;
    var z' := ControlSlots(z, [], []);
    if z.ctl.pc.Exchanging? && z.box.toControl.Some? {
      OwnersExchanged(z, h, m, registry);
    } else {
      MoveWaiting(z);
      OwnersFrame(z, h, m, registry, z');
    }
  }

  lemma MoveWaiting(z: Slots)
    requires Core(z) && !z.ctl.pc.Building? && !ControlAccess(z).Destroy?
    requires !(z.ctl.pc.Exchanging? && z.box.toControl.Some?)
    ensures First(ControlSlots(z, [], [])) == First(z) && Waiting(ControlSlots(z, [], [])) == Waiting(z)
  {
    if z.ctl.pc.Destroying? {
      assert z.ctl.pc.r.stop[z.ctl.pc.i..] == [];
    }
  }

  /** The graph freed is live, and is the oldest one. */
  lemma FreedGraph(z: Slots, h: seq<set<NodeId>>, graphs: map<GraphId, GraphState>)
    requires Core(z) && LiveGraphs(z, h, graphs) && z.ctl.pc.Freeing? && |h| == z.ctl.made
    ensures z.ctl.pc.r.oldGraph.Some? && z.ctl.pc.r.oldGraph.value in graphs && z.ctl.pc.r.oldGraph.value < z.ctl.made - 1
    ensures LiveGraphs(ControlSlots(z, [], []), h, graphs - {z.ctl.pc.r.oldGraph.value})
  {
    hide WellMade;
    assert z.ctl.pc.r.oldGraph == Some(Oldest(z));
    assert Oldest(ControlSlots(z, [], [])) == Oldest(z) + 1;
  }

  lemma KeptGraphs(z: Slots, h: seq<set<NodeId>>, graphs: map<GraphId, GraphState>)
    requires Core(z) && LiveGraphs(z, h, graphs)
    requires !z.ctl.pc.Building? && !z.ctl.pc.Freeing? && !z.ctl.pc.Idle?
    ensures LiveGraphs(ControlSlots(z, [], []), h, graphs)
  {
    hide WellMade;
    assert Oldest(ControlSlots(z, [], [])) == Oldest(z);
  }

  lemma ControlKeeps(s: State)
    requires Inv(s) && Enabled(s, Proceed)
    ensures Inv(ControlStep(s))
  {
    hide Inv, ControlStep;
    if s.slots.ctl.pc.Building? { BuildKeeps(s); }
    else if ControlAccess(s.slots).Destroy? { DestroyKeeps(s); }
    else { MoveKeeps(s); }
  }

  // ---------------------------------------------------------------- audio steps

  /** Audio steps leave alone everything but pointers and node states. */
  lemma AudioFrame(s: State, t: State)
    requires Inv(s) && !t.ub && Phases(t)
    requires t == s.(slots := AudioSlots(s.slots), nodes := t.nodes, started := t.started)
    requires forall x :: x in t.nodes <==> x in s.nodes
    ensures Inv(t)
  {
    hide Core, Lists, LiveGraphs, GoesForGood, Owners, Phases, Snapshot, AudioSlots, Synced, Dirty;
    CoreAudio(s.slots);
    ListsAudio(s.slots, s.history);
    AudioUnconcerned(s.slots, s.history, s.graphs, ModelNodes(s));
    OwnersFrame(s.slots, s.history, ModelNodes(s), s.registry, t.slots);
  }

  lemma AudioUnconcerned(z: Slots, h: seq<set<NodeId>>, graphs: map<GraphId, GraphState>, m: set<NodeId>)
    requires Core(z) && LiveGraphs(z, h, graphs) && Synced(z, h, m)
    ensures var z' := AudioSlots(z);
      && LiveGraphs(z', h, graphs) && Synced(z', h, m)
      && First(z') == First(z) && Waiting(z') == Waiting(z) && z'.ctl.made == z.ctl.made && Dirty(z') == Dirty(z)
  {
    CoreAudio(z);
    AudioLeaves(z);
    hide Core, AudioSlots, WellMade, First;
  }

  lemma AudioLeaves(z: Slots)
    ensures AudioSlots(z).ctl.pc == z.ctl.pc && AudioSlots(z).ctl.made == z.ctl.made
  {
  }

  lemma StartKeeps(s: State, accepts: bool)
    requires Inv(s) && AudioAccess(s.slots, accepts).Start?
    ensures Inv(AudioStep(s, accepts))
  {
    hide Core, Lists, LiveGraphs, GoesForGood, Synced, Dirty, Owners, StartedOnce, States, Snapshot, AudioSlots;
    var z, h, m := s.slots, s.history, ModelNodes(s);
    var n := z.aud.pc.s.start[z.aud.pc.i];
    StartExists(s, n);
    NeverStarted(z, h, m, s.started, s.born);
    StartRecorded(z, h, s.started, s.born, n);
    StartStates(z, h, s.nodes, s.started, accepts);
    StatesAt(z, h, s.nodes, s.started, n);
    AudioFrame(s, AudioStep(s, accepts));
  }

  lemma StatesAt(z: Slots, h: seq<set<NodeId>>, nodes: map<NodeId, NodeState>, started: set<NodeId>, n: NodeId)
    requires States(z, h, nodes, started) && n in nodes && n !in started
    ensures nodes[n] == Activated
  {
  }

  /** A node about to be started exists. */
  lemma StartExists(s: State, n: NodeId)
    requires Inv(s) && s.slots.aud.pc.Starting? && n in s.slots.aud.pc.s.start
    ensures n in s.nodes && n in s.born
  {
    hide LiveGraphs, GoesForGood, Owners, StartedOnce, States, Snapshot;
    var k := s.slots.box.active + 1;
    assert n in s.history[k];
    GraphNodesExist(s, k);
    assert s.history[k] <= s.born;
  }

  lemma StopKeeps(s: State, accepts: bool)
    requires Inv(s) && AudioAccess(s.slots, accepts).Stop?
    ensures Inv(AudioStep(s, accepts))
  {
    hide Core, Lists, LiveGraphs, GoesForGood, Synced, Dirty, Owners, StartedOnce, States, Snapshot, AudioSlots;
    var z, h := s.slots, s.history;
    var n := z.aud.retire.value.stop[z.aud.pc.i];
    StopExists(s, n);
    StopStates(z, h, s.nodes, s.started);
    MovedStarted(z, h, s.started, s.born);
    AudioFrame(s, AudioStep(s, accepts));
  }

  /** A node about to be stopped exists. */
  lemma StopExists(s: State, n: NodeId)
    requires Inv(s) && s.slots.aud.pc.Stopping? && s.slots.aud.retire.Some? && n in s.slots.aud.retire.value.stop
    ensures n in s.nodes
  {
    hide LiveGraphs, GoesForGood, Owners, StartedOnce, States, Snapshot;
    var k := s.slots.box.active - 1;
    assert n in s.history[k];
    GraphNodesExist(s, k);
  }

  lemma AudioMoveKeeps(s: State, accepts: bool)
    requires Inv(s) && AudioAccess(s.slots, accepts).Nothing? && !s.slots.aud.pc.Quiet?
    ensures Inv(AudioStep(s, accepts))
  {
    hide Core, Lists, LiveGraphs, GoesForGood, Synced, Dirty, Owners, StartedOnce, States, Snapshot, AudioSlots;
    MovedStates(s.slots, s.history, s.nodes, s.started);
    MovedStarted(s.slots, s.history, s.started, s.born);
    AudioFrame(s, AudioStep(s, accepts));
  }

  lemma AudioKeepsInv(s: State, accepts: bool)
    requires Inv(s) && Enabled(s, Turn(accepts))
    ensures Inv(AudioStep(s, accepts))
  {
    hide Inv, AudioStep;
    if AudioAccess(s.slots, accepts).Start? { StartKeeps(s, accepts); }
    else if AudioAccess(s.slots, accepts).Stop? { StopKeeps(s, accepts); }
    else { AudioMoveKeeps(s, accepts); }
  }

  // ---------------------------------------------------------------- all steps

  /** The graph the audio thread was last given can be read, and so can its nodes. */
  lemma HeldReadable(s: State)
    requires Inv(s) && s.slots.aud.held.Some?
    ensures Readable(s, s.slots.aud.held.value)
  {
    hide Lists, GoesForGood, Owners, StartedOnce, States, Snapshot;
    var g := s.slots.aud.held.value;
    assert 0 <= First(s.slots) <= g < |s.history|;
    GraphNodesExist(s, g);
    assert NodeSet(s.graphs[g]) == s.history[g];
    assert forall n :: n in Nodes(s.graphs[g]) ==> n in NodeSet(s.graphs[g]);
  }

  lemma CallKeeps(s: State, step: Step)
    requires Inv(s) && Enabled(s, step) && (step.Reclaim? || step.Enter?)
    ensures Inv(Next(s, step))
  {
    hide Core, Lists, LiveGraphs, GoesForGood, Owners, StartedOnce, States, Snapshot, Synced, Dirty, JustStarted,
          ToBeStopped, Waiting;
    var t := Next(s, step);
    Called(s.slots, t.slots, s.history, s.graphs, ModelNodes(s));
    OwnersFrame(s.slots, s.history, ModelNodes(s), s.registry, t.slots);
    CalledPhases(s.slots, t.slots, s.history, s.nodes, s.started, s.born);
  }

  ghost predicate JustCalled(z: Slots, z': Slots) {
    || (z.ctl.pc.Idle? && z' == z.ControlAt(Exchanging(ToIdle)))
    || (z.aud.pc.Quiet? && z' == z.AudioAt(Entered))
  }

  lemma Called(z: Slots, z': Slots, h: seq<set<NodeId>>, graphs: map<GraphId, GraphState>, m: set<NodeId>)
    requires Core(z) && Lists(z, h) && LiveGraphs(z, h, graphs) && Synced(z, h, m) && JustCalled(z, z')
    ensures Core(z') && Lists(z', h) && LiveGraphs(z', h, graphs) && Synced(z', h, m)
    ensures First(z') == First(z) && Waiting(z') == Waiting(z) && z'.ctl.made == z.ctl.made && Dirty(z') == Dirty(z)
  {
    hide Exact, WellMade;
    assert Oldest(z') == Oldest(z);
  }

  lemma CalledPhases(z: Slots, z': Slots, h: seq<set<NodeId>>, nodes: map<NodeId, NodeState>, started: set<NodeId>,
        born: set<NodeId>)
    requires StartedOnce(z, h, started, born) && States(z, h, nodes, started) && JustCalled(z, z')
    ensures StartedOnce(z', h, started, born) && States(z', h, nodes, started)
  {
    assert JustStarted(z') == JustStarted(z) && ToBeStopped(z') == ToBeStopped(z);
  }

  lemma HaltKeeps(s: State, n: NodeId)
    requires Inv(s) && Enabled(s, Halt(n))
    ensures Inv(Next(s, Halt(n)))
  {
    hide Core, Lists, LiveGraphs, GoesForGood, Owners, StartedOnce, States, Snapshot;
    HaltStates(s.slots, s.history, s.nodes, s.started, n);
    assert Next(s, Halt(n)) == s.(nodes := Stopped(s.nodes, n));
  }

  lemma RenderKeeps(s: State)
    requires Inv(s) && Enabled(s, Render)
    ensures Next(s, Render) == s
  {
    HeldReadable(s);
    hide Inv;
  }

  /** Every step of either thread, in any state that satisfies the invariant, keeps it. */
  lemma StepKeeps(s: State, step: Step)
    requires Inv(s) && Enabled(s, step)
    ensures Inv(Next(s, step))
  {
    hide Inv, BeginEdit, ControlStep, AudioStep;
    match step
    case Edit(e) => EditKeeps(s, e);
    case Reclaim => CallKeeps(s, step);
    case Proceed => ControlKeeps(s);
    case Enter => CallKeeps(s, step);
    case Turn(accepts) => AudioKeepsInv(s, accepts);
    case Render => RenderKeeps(s);
    case Halt(n) => HaltKeeps(s, n);
  }

  /** Every run from the constructor's state satisfies the invariant throughout. */
  lemma {:induction false} RunKeeps(run: seq<Step>)
    requires Legal(Init(), run)
    ensures Inv(Exec(Init(), run))
  {
    hide Inv;
    if run == [] {
      InitInv();
    } else {
      var front := run[..|run| - 1];
      RunKeeps(front);
      StepKeeps(Exec(Init(), front), run[|run| - 1]);
    }
  }
}
