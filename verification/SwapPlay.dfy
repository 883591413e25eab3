/** Plugins that are willing to play do play: the lower bound that goes with the upper bounds of
    SwapAccounts (src/graph_swap.cpp:113-144, src/plugin_node.cpp:210-228). */
module SwapPlay {
  import opened Config
  import opened Graph
  import opened TrackEdits
  import opened SwapProtocol
  import opened SwapOrder
  import opened SwapContents
  import opened SwapPhases
  import opened SwapInvariant
  import opened SwapTheorems

  /** What each plugin answers when it is asked to start processing; it is asked at most once. */
  type Answers = NodeId -> bool

  ghost predicate AnswersAs(w: Answers, s: State, step: Step) {
    step.Turn? && AudioAccess(s.slots, step.accepts).Start? ==> step.accepts == w(AudioAccess(s.slots, step.accepts).n)
  }

  /** In the whole run plugins answer as w says, and teardown does not stop them. */
  ghost predicate Undisturbed(w: Answers, run: seq<Step>)
    requires Legal(Init(), run)
  {
    run == [] ||
    (Undisturbed(w, run[..|run| - 1]) && !run[|run| - 1].Halt? &&
     AnswersAs(w, Exec(Init(), run[..|run| - 1]), run[|run| - 1]))
  }

  ghost predicate PlaysAs(w: Answers, nodes: map<NodeId, NodeState>, started: set<NodeId>, n: NodeId) {
    n in started && n in nodes && nodes[n] == if w(n) then Processing else Activated
  }

  /** The nodes of the active graph, and those just started, have been asked and have their way. */
  ghost predicate Plays(w: Answers, z: Slots, h: seq<set<NodeId>>, nodes: map<NodeId, NodeState>, started: set<NodeId>) {
    && (forall x :: 0 <= z.box.active < |h| && x in h[z.box.active] ==> PlaysAs(w, nodes, started, x))
    && (forall x :: x in JustStarted(z) ==> PlaysAs(w, nodes, started, x))
  }

  ghost predicate StatePlays(w: Answers, s: State) {
    Plays(w, s.slots, s.history, s.nodes, s.started)
  }

  // ---------------------------------------------------------------- audio steps

  lemma StartPlays(w: Answers, z: Slots, h: seq<set<NodeId>>, nodes: map<NodeId, NodeState>, started: set<NodeId>,
                   accepts: bool)
    requires Core(z) && Lists(z, h) && Plays(w, z, h, nodes, started)
    requires z.aud.pc.Starting? && z.aud.pc.i < |z.aud.pc.s.start|
    requires var n := z.aud.pc.s.start[z.aud.pc.i]; n in nodes && nodes[n] == Activated && accepts == w(n)
    ensures var n := z.aud.pc.s.start[z.aud.pc.i];
      Plays(w, AudioSlots(z), h, if accepts then nodes[n := Processing] else nodes, started + {n})
  {
    var l, i := z.aud.pc.s.start, z.aud.pc.i;
    StartGrows(z);
    assert l[i] !in l[..i];
    assert l[i] in h[z.box.active + 1] && l[i] !in h[z.box.active];
    hide Core, Lists;
  }

  lemma StopPlays(w: Answers, z: Slots, h: seq<set<NodeId>>, nodes: map<NodeId, NodeState>, started: set<NodeId>)
    requires Core(z) && Lists(z, h) && Plays(w, z, h, nodes, started)
    requires z.aud.retire.Some? && z.aud.pc.Stopping? && z.aud.pc.i < |z.aud.retire.value.stop|
    ensures Plays(w, AudioSlots(z), h, Stopped(nodes, z.aud.retire.value.stop[z.aud.pc.i]), started)
  {
    var w', n := z.aud.retire.value, z.aud.retire.value.stop[z.aud.pc.i];
    assert w'.newGraph == z.box.active && n in w'.stop;
    assert n !in h[z.box.active];
    assert JustStarted(AudioSlots(z)) == JustStarted(z) == [];
  }

  lemma MovePlays(w: Answers, z: Slots, h: seq<set<NodeId>>, nodes: map<NodeId, NodeState>, started: set<NodeId>)
    requires Core(z) && Lists(z, h) && Plays(w, z, h, nodes, started)
    requires AudioAccess(z, true).Nothing?
    ensures Plays(w, AudioSlots(z), h, nodes, started)
  {
    if z.aud.pc.Flipping? {
      FlipPlays(w, z, h, nodes, started);
    } else {
      MovedMay(z, h);
    }
    hide Core, Lists, AudioSlots;
  }

  /** Every node of the graph that becomes active is in the old one or has just been started. */
  lemma FlipPlays(w: Answers, z: Slots, h: seq<set<NodeId>>, nodes: map<NodeId, NodeState>, started: set<NodeId>)
    requires Core(z) && Lists(z, h) && Plays(w, z, h, nodes, started) && z.aud.pc.Flipping?
    ensures Plays(w, AudioSlots(z), h, nodes, started)
  {
    var s := z.aud.pc.s;
    assert s.newGraph == z.box.active + 1;
    assert forall x :: x in h[s.newGraph] ==> x in s.start || x in h[z.box.active];
  }

  // ---------------------------------------------------------------- all steps

  lemma TurnPlays(w: Answers, s: State, accepts: bool)
    requires Inv(s) && Enabled(s, Turn(accepts)) && StatePlays(w, s) && AnswersAs(w, s, Turn(accepts))
    ensures StatePlays(w, Next(s, Turn(accepts)))
  {
    var z := s.slots;
    hide Core, Lists, LiveGraphs, ModelOk, Newest, Owned, Phases, Plays, AudioSlots, Snapshot;
    if z.aud.pc.Starting? && z.aud.pc.i < |z.aud.pc.s.start| {
      StartsFirst(s);
      StartPlays(w, z, s.history, s.nodes, s.started, accepts);
    } else if z.aud.pc.Stopping? && z.aud.retire.Some? && z.aud.pc.i < |z.aud.retire.value.stop| {
      StopExists(s, z.aud.retire.value.stop[z.aud.pc.i]);
      StopPlays(w, z, s.history, s.nodes, s.started);
    } else {
      MovePlays(w, z, s.history, s.nodes, s.started);
    }
  }

  /** A node about to be started exists and is Activated. */
  lemma StartsFirst(s: State)
    requires Inv(s) && s.slots.aud.pc.Starting? && s.slots.aud.pc.i < |s.slots.aud.pc.s.start|
    ensures var n := s.slots.aud.pc.s.start[s.slots.aud.pc.i]; n in s.nodes && s.nodes[n] == Activated
  {
    var n := s.slots.aud.pc.s.start[s.slots.aud.pc.i];
    StartExists(s, n);
    NeverStarted(s.slots, s.history, ModelNodes(s), s.started, s.born);
    StatesAt(s.slots, s.history, s.nodes, s.started, n);
  }

  /** A control step changes these parts only: it destroys a node, or adds a graph to the history. */
  lemma ProceedFields(s: State)
    requires Enabled(s, Proceed)
    ensures var t := Next(s, Proceed); var a := ControlAccess(s.slots);
      && t.slots == ControlSlots(s.slots, StartList(s), StopList(s)) && t.started == s.started
      && (t.nodes == s.nodes || (a.Destroy? && t.nodes == s.nodes - {a.n}))
      && (t.history == s.history || (|t.history| == |s.history| + 1 && t.history[..|s.history|] == s.history))
  {
    hide ControlSlots, StartList, StopList, Snapshot, Without, NodeSet;
  }

  ghost predicate Extends(h: seq<set<NodeId>>, h': seq<set<NodeId>>) {
    h' == h || (|h'| == |h| + 1 && h'[..|h|] == h)
  }

  /** Nodes of the active graph, and of the one being applied, are not destroyed. */
  lemma ControlPlays(w: Answers, z: Slots, z': Slots, h: seq<set<NodeId>>, h': seq<set<NodeId>>,
                     nodes: map<NodeId, NodeState>, nodes': map<NodeId, NodeState>, started: set<NodeId>)
    requires Plays(w, z, h, nodes, started) && 0 <= z.box.active < |h| && Extends(h, h')
    requires z'.box.active == z.box.active && JustStarted(z') == JustStarted(z)
    requires forall x :: x in h[z.box.active] || x in JustStarted(z) ==> (x in nodes' <==> x in nodes)
    requires forall x :: x in nodes' ==> x in nodes && nodes'[x] == nodes[x]
    ensures Plays(w, z', h', nodes', started)
  {
    hide JustStarted;
    assert h'[..|h|][z.box.active] == h[z.box.active];
  }

  lemma ProceedPlays(w: Answers, s: State)
    requires Inv(s) && Enabled(s, Proceed) && StatePlays(w, s)
    ensures StatePlays(w, Next(s, Proceed))
  {
    var z, h, t := s.slots, s.history, Next(s, Proceed);
    ActiveMade(s);
    InvCore(s);
    ProceedFields(s);
    ControlMay(z, StartList(s), StopList(s));
    PlayingSpared(s);
    hide Inv, Next, Plays, ControlSlots, StartList, StopList, JustStarted, ControlAccess, Core;
    ControlPlays(w, z, t.slots, h, t.history, s.nodes, t.nodes, s.started);
  }

  lemma PlayingSpared(s: State)
    requires Inv(s) && Enabled(s, Proceed) && 0 <= s.slots.box.active < |s.history|
    ensures ControlAccess(s.slots).Destroy? ==>
      forall x :: x in s.history[s.slots.box.active] || x in JustStarted(s.slots) ==> x != ControlAccess(s.slots).n
  {
    PlayingIsNeeded(s);
    if ControlAccess(s.slots).Destroy? {
      OnlyGoneNodesDestroyed(s, Proceed, ControlAccess(s.slots).n);
    }
    hide Inv, JustStarted, InSome;
  }

  lemma ActiveMade(s: State)
    requires Inv(s)
    ensures 0 <= s.slots.box.active < |s.history|
  {
    hide Lists, LiveGraphs, ModelOk, Owned, Phases, Bounds, Checks;
  }

  lemma PlayingIsNeeded(s: State)
    requires Inv(s)
    ensures forall x ::
              (0 <= s.slots.box.active < |s.history| && x in s.history[s.slots.box.active]) || x in JustStarted(s.slots)
              ==> InSome(s.history, First(s.slots), s.slots.ctl.made, x)
  {
    var z, h := s.slots, s.history;
    hide LiveGraphs, ModelOk, Owned, Phases, Bounds, Checks;
    forall x | x in JustStarted(z) ensures InSome(h, First(z), z.ctl.made, x) {
      assert x in z.aud.pc.s.start && x in h[z.box.active + 1];
    }
  }

  /** A node that an edit hands over is new. */
  lemma EditPlays(w: Answers, s: State, e: Edit)
    requires Inv(s) && Enabled(s, Edit(e)) && StatePlays(w, s)
    ensures StatePlays(w, Next(s, Edit(e)))
  {
    EditFields(s, e);
    OldAreBorn(s);
    hide Inv, Edited;
  }

  lemma OldAreBorn(s: State)
    requires Inv(s)
    ensures forall i :: 0 <= i < |s.history| ==> s.history[i] <= s.born
    ensures forall x :: x in JustStarted(s.slots) ==> x in s.born
  {
    hide LiveGraphs, Newest, Owned, Phases, Bounds, Checks;
    forall x | x in JustStarted(s.slots) ensures x in s.born {
      assert x in s.slots.aud.pc.s.start && x in s.history[s.slots.box.active + 1];
    }
  }

  lemma StepPlays(w: Answers, s: State, step: Step)
    requires Inv(s) && Enabled(s, step) && StatePlays(w, s) && AnswersAs(w, s, step) && !step.Halt?
    ensures StatePlays(w, Next(s, step))
  {
    hide Inv, BeginEdit, ControlStep, AudioStep;
    match step
    case Edit(e) => EditPlays(w, s, e);
    case Proceed => ProceedPlays(w, s);
    case Turn(accepts) => TurnPlays(w, s, accepts);
    case _ =>
  }

  /** In every interleaving in which plugins answer as w says, before teardown stops them, every node
      of the active graph has been asked to start, and is Processing if and only if it was willing. */
  lemma {:induction false} RunPlays(w: Answers, run: seq<Step>)
    requires Legal(Init(), run) && Undisturbed(w, run)
    ensures StatePlays(w, Exec(Init(), run))
  {
    hide Inv, StatePlays, AnswersAs, Next, Enabled;
    if run == [] {
      InitPlays(w);
    } else {
      var front := run[..|run| - 1];
      RunPlays(w, front);
      RunKeeps(front);
      StepPlays(w, Exec(Init(), front), run[|run| - 1]);
    }
  }

  lemma InitPlays(w: Answers)
    ensures StatePlays(w, Init())
  {
    NothingTruncated([], FLOAT_ONE);
    hide Snapshot;
  }

  lemma ActiveNodesPlay(w: Answers, run: seq<Step>, n: NodeId)
    requires Legal(Init(), run) && Undisturbed(w, run)
    requires var s := Exec(Init(), run); s.slots.box.active in s.graphs && n in Nodes(s.graphs[s.slots.box.active])
    ensures var s := Exec(Init(), run);
      n in s.started && n in s.nodes && (s.nodes[n] == Processing <==> w(n)) && (s.nodes[n] == Activated <==> !w(n))
  {
    var s := Exec(Init(), run);
    RunPlays(w, run);
    RunKeeps(run);
    ActiveNeeded(s);
    GraphNodes(s, s.slots.box.active);
    hide Inv, Legal, Exec, Init, Undisturbed, Nodes;
  }

  lemma ActiveNeeded(s: State)
    requires Inv(s)
    ensures First(s.slots) <= s.slots.box.active < s.slots.ctl.made
  {
    hide Lists, LiveGraphs, ModelOk, Owned, Phases, Bounds, Checks;
  }
}
