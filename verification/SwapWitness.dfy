/** The limits of the graph swap are met: a run that fills all three slots, and what teardown then
    leaves behind (src/graph_swap.cpp:55-172, 331-359). */
module SwapWitness {
  import opened Config
  import opened Graph
  import opened TrackEdits
  import opened SwapProtocol
  import opened SwapOrder
  import opened SwapInvariant
  import opened SwapTheorems
  import opened SwapPlay
  import opened SwapProgress
  import opened AudioGraphs

  /** Reachable, and without plugin nodes: no step has anything to start, stop or destroy. */
  ghost predicate Bare(s: State) {
    Reachable(s) && AllNodes(s.model) == [] && forall g :: g in s.graphs ==> Nodes(s.graphs[g]) == []
  }

  lemma ReachNext(s: State, step: Step)
    requires Reachable(s) && Enabled(s, step)
    ensures Reachable(Next(s, step))
  {
    hide Next, Enabled, Init;
    var run :| Legal(Init(), run) && s == Exec(Init(), run);
    ExecSnoc(Init(), run, step);
    assert Legal(Init(), run + [step]);
  }

  lemma BareInit()
    ensures Bare(Init())
  {
    var run: seq<Step> := [];
    assert Legal(Init(), run) && Exec(Init(), run) == Init();
    NothingTruncated([], FLOAT_ONE);
    hide Snapshot;
  }

  /** An edit that creates a track begins. */
  lemma BeginTrack(s: State) returns (t: State)
    requires Bare(s) && s.slots.ctl.pc.Idle? && |s.model| < MAX_TRACKS
    ensures Bare(t) && t.slots == s.slots.ControlAt(Exchanging(ToBuild)) && |t.model| == |s.model| + 1
  {
    t := Next(s, Edit(CreateTrack));
    ReachNext(s, Edit(CreateTrack));
    CreatedNodes(s.model, s.created);
    hide Reachable, AllNodes, Nodes;
  }

  /** A control step that neither destroys a node nor frees a graph. */
  lemma ControlMove(s: State) returns (t: State)
    requires Bare(s) && !s.slots.ctl.pc.Idle? && !Reclaiming(s.slots)
    ensures Bare(t) && t.slots == ControlSlots(s.slots, [], []) && t.model == s.model
  {
    t := Next(s, Proceed);
    ReachNext(s, Proceed);
    BareSnapshot(s);
    BareLists(s);
    ProceedFields(s);
    BareProceed(s);
    hide Reachable, Next, AllNodes, Nodes, Snapshot, ControlSlots, ControlAccess, StartList, StopList;
  }

  lemma BareLists(s: State)
    requires Bare(s) && Nodes(Snapshot(s.model, FLOAT_ONE)) == []
    ensures StartList(s) == [] && StopList(s) == []
  {
    hide Reachable, AllNodes, Nodes, Snapshot;
  }

  lemma BareProceed(s: State)
    requires Enabled(s, Proceed) && Nodes(Snapshot(s.model, FLOAT_ONE)) == []
    requires forall g :: g in s.graphs ==> Nodes(s.graphs[g]) == []
    ensures var t := Next(s, Proceed); t.model == s.model && forall g :: g in t.graphs ==> Nodes(t.graphs[g]) == []
  {
    hide Nodes, Snapshot, ControlSlots, StartList, StopList, Without, NodeSet;
  }

  lemma BareSnapshot(s: State)
    requires Bare(s)
    ensures Nodes(Snapshot(s.model, FLOAT_ONE)) == []
  {
    ReachableInv(s);
    hide Core, LiveGraphs, Newest, Owned, Phases, Reachable;
    NothingTruncated(s.model, FLOAT_ONE);
  }

  lemma AudioMove(s: State) returns (t: State)
    requires Bare(s) && !s.slots.aud.pc.Quiet? && AudioAccess(s.slots, true).Nothing?
    ensures Bare(t) && t.slots == AudioSlots(s.slots) && t.model == s.model
  {
    t := Next(s, Turn(true));
    ReachNext(s, Turn(true));
    MoveStepIs(s);
    hide Reachable, AllNodes, Nodes, AudioSlots;
  }

  lemma EnterMove(s: State) returns (t: State)
    requires Bare(s) && s.slots.aud.pc.Quiet?
    ensures Bare(t) && t.slots == s.slots.AudioAt(Entered) && t.model == s.model
  {
    t := Next(s, Enter);
    ReachNext(s, Enter);
    hide Reachable, AllNodes, Nodes;
  }

  // ---------------------------------------------------------------- whole calls

  ghost predicate NoLists(w: Option<Swap>) {
    w.Some? ==> w.value.start == [] && w.value.stop == []
  }

  /** A complete audio_apply, at any point of the control thread. */
  lemma ApplyMoves(s: State) returns (t: State)
    requires Bare(s) && s.slots.aud.pc.Quiet? && NoLists(s.slots.aud.retire) && NoLists(s.slots.box.pending)
    ensures Bare(t) && t.slots == AfterApply(s.slots) && t.model == s.model
  {
    hide Bare;
    t := EnterMove(s);
    t := AudioMove(t);
    if t.slots.aud.pc.Stopping? {
      t := AudioMove(t);
      t := AudioMove(t);
    }
    if t.slots.aud.pc.Taking? {
      t := AudioMove(t);
    }
    if t.slots.aud.pc.Starting? {
      t := AudioMove(t);
      t := AudioMove(t);
    }
    t := AudioMove(t);
  }

  /** commit_edit up to its wait, with nothing to reclaim. */
  lemma StartCommit(s: State) returns (t: State)
    requires Bare(s) && s.slots.ctl.pc.Idle? && s.slots.box.toControl.None? && |s.model| < MAX_TRACKS
    ensures Bare(t) && |t.model| == |s.model| + 1
    ensures t.slots == s.slots.(ctl := Control(s.slots.ctl.made + 1, s.slots.ctl.lastSnapshot,
                                               Spinning(Swap(s.slots.ctl.made, None, [], []))))
  {
    hide Bare;
    t := BeginTrack(s);
    t := ControlMove(t);
    t := ControlMove(t);
  }

  lemma FinishCommit(s: State, w: Swap) returns (t: State)
    requires Bare(s) && s.slots.ctl.pc == Spinning(w) && s.slots.box.pending.None?
    ensures Bare(t) && t.model == s.model
    ensures t.slots == s.slots.(box := s.slots.box.(pending := Some(w)),
                                ctl := Control(s.slots.ctl.made, w.newGraph, Idle))
  {
    hide Bare;
    t := ControlMove(s);
    t := ControlMove(t);
  }

  // ---------------------------------------------------------------- the run

  /** Three swaps in flight and four graphs are reached between operations: a track is created and
      applied, a second one is created, and a third while one audio_apply runs during the wait. */
  lemma ThreeInFlight() returns (s: State)
    ensures Reachable(s) && s.slots.ctl.pc.Idle? && s.slots.aud.pc.Quiet?
    ensures s.slots.box.pending.Some? && s.slots.box.toControl.Some? && s.slots.aud.retire.Some?
    ensures InFlight(s.slots) == 3 && |s.graphs| == 4
  {
    BareInit();
    s := Init();
    assert s.model == [];
    hide Bare;
    s := StartCommit(s);
    s := FinishCommit(s, s.slots.ctl.pc.s);
    s := ApplyMoves(s);
    s := StartCommit(s);
    s := FinishCommit(s, s.slots.ctl.pc.s);
    s := StartCommit(s);
    s := ApplyMoves(s);
    s := FinishCommit(s, s.slots.ctl.pc.s);
    BareReachable(s);
    BoundedResources(s);
  }

  lemma BareReachable(s: State)
    requires Bare(s)
    ensures Reachable(s)
  {
  }

  /** The two slots after pending_swap_ are full, and the audio thread is not past its check of them. */
  predicate Stuck(z: Slots) {
    z.box.toControl.Some? && z.aud.retire.Some? && (z.aud.pc.Quiet? || z.aud.pc.Entered? || z.aud.pc.Leaving?)
  }

  ghost predicate OnlyAudio(run: seq<Step>) {
    forall i :: 0 <= i < |run| ==> AudioMoves(run[i])
  }

  /** A pending swap really can wait: from a reachable state no run of the audio thread alone, however
      long, moves it or any other swap. */
  lemma PendingCanWait() returns (s: State)
    ensures Reachable(s) && s.slots.aud.pc.Quiet? && s.slots.box.pending.Some?
    ensures forall run :: Legal(s, run) && OnlyAudio(run) ==>
              Exec(s, run).slots.box == s.slots.box && Exec(s, run).slots.aud.retire == s.slots.aud.retire
  {
    s := ThreeInFlight();
    forall run | Legal(s, run) && OnlyAudio(run)
      ensures Exec(s, run).slots.box == s.slots.box && Exec(s, run).slots.aud.retire == s.slots.aud.retire
    {
      StuckRun(s, run);
    }
  }

  lemma {:induction false} StuckRun(s: State, run: seq<Step>)
    requires Stuck(s.slots) && Legal(s, run) && OnlyAudio(run)
    ensures Stuck(Exec(s, run).slots)
    ensures Exec(s, run).slots.box == s.slots.box && Exec(s, run).slots.aud.retire == s.slots.aud.retire
  {
    hide Stuck, Next, Enabled;
    if run != [] {
      StuckRun(s, run[..|run| - 1]);
      StuckStep(Exec(s, run[..|run| - 1]), run[|run| - 1]);
    }
  }

  lemma StuckStep(s: State, step: Step)
    requires Stuck(s.slots) && Enabled(s, step) && AudioMoves(step)
    ensures Stuck(Next(s, step).slots)
    ensures Next(s, step).slots.box == s.slots.box && Next(s, step).slots.aud.retire == s.slots.aud.retire
  {
    hide Touch;
    if step.Turn? {
      TouchFrame(s, AudioAccess(s.slots, step.accepts));
    }
  }

  /** The same through the class: these calls leave all three slots full. */
  method FillSlots(answers: Answers) returns (g: AudioGraph)
    ensures fresh(g) && g.Valid() && InFlight(g.Pointers(Idle, Quiet)) == 3
  {
    hide Legal, Undisturbed, Exec, Init, Settled, Snapshot, AudioGraph.At, AudioGraph.View;
    g := new AudioGraph(answers);
    g.SetOffline(false);
    var _ := g.CreateTrack();
    var _ := g.AudioApply(Idle);
    var _ := g.CreateTrack();
    var _ := g.CreateTrack();
  }

  /** Torn down then, the graph leaves two swaps and one snapshot behind. */
  method LeakyTeardown(answers: Answers) returns (g: AudioGraph)
    ensures g.registry == [] && g.nodes == map[]
    ensures Count(g.pending) + Count(g.toControl) + Count(g.retire) == 2
    ensures |g.graphs| == 1
  {
    hide Legal, Undisturbed, Exec, Init, AudioGraph.At, AudioGraph.View;
    g := FillSlots(answers);
    g.Teardown();
    assert |g.graphs.Keys| == 1;
  }

  /** Offline mode does not empty the slots if a swap was pending before: the edit made online is
      still parked in retire_ after the edit made offline. */
  method OfflineKeepsOlder(answers: Answers) returns (g: AudioGraph)
    ensures fresh(g) && g.Valid() && g.offline && !g.Empty()
  {
    hide Legal, Undisturbed, Exec, Init, Settled, Snapshot, AudioGraph.At, AudioGraph.View;
    g := new AudioGraph(answers);
    g.SetOffline(false);
    var _ := g.CreateTrack();
    g.SetOffline(true);
    var _ := g.CreateTrack();
  }
}
