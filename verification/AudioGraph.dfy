/** AudioGraph as the imperative class it is (src/graph_swap.h:25-82, src/graph_swap.cpp).

    The class records, in the ghost field `run`, the atomic steps its code has taken, and proves
    that they are a run of the protocol of module SwapProtocol that leads to its own fields. All that
    is proved there for every interleaving therefore holds of the states this code goes through. */
module AudioGraphs {
  import opened Config
  import opened Graph
  import opened TrackEdits
  import opened SwapProtocol
  import opened SwapOrder
  import opened SwapContents
  import opened SwapPhases
  import opened SwapInvariant
  import opened SwapTheorems
  import opened SwapAccounts
  import opened SwapPlay
  import opened SwapProgress

  /** The null graph pointer. */
  const NO_GRAPH: GraphId := -1

  // ---------------------------------------------------------------- audio_apply on pointers

  function HandedBack(z: Slots): Slots {
    if z.aud.retire.Some? && z.box.toControl.None?
    then z.(box := z.box.(toControl := z.aud.retire), aud := z.aud.(retire := None)) else z
  }

  function TookUp(z: Slots): Slots {
    if z.aud.retire.None? && z.box.pending.Some? then
      var w := z.box.pending.value;
      z.(box := z.box.(active := w.newGraph, pending := None),
         aud := z.aud.(retire := Some(w.(oldGraph := Some(z.box.active)))))
    else z
  }

  /** The pointers after one complete audio_apply. */
  function AfterApply(z: Slots): Slots {
    var t := TookUp(HandedBack(z));
    t.(aud := t.aud.(held := Some(t.box.active)))
  }

  /** The pointers when queue_swap has waited for one audio_apply, if it had to. */
  function AfterWait(z: Slots): Slots {
    if z.box.pending.Some? then AfterApply(z) else z
  }

  /** The nodes an audio_apply stops, and those it starts. */
  function StoppedBy(z: Slots): seq<NodeId> {
    if z.aud.retire.Some? && z.box.toControl.None? then z.aud.retire.value.stop else []
  }

  function StartedBy(z: Slots): seq<NodeId> {
    if HandedBack(z).aud.retire.None? && z.box.pending.Some? then z.box.pending.value.start else []
  }

  /** What a complete audio_apply does to the state of every node: those it stops are left
      activated, those it starts are processing if their plugins are willing, all others are as they
      were. */
  ghost predicate NodesApplied(w: Answers, z: Slots, before: map<NodeId, NodeState>, after: map<NodeId, NodeState>) {
    && (forall n :: n in after <==> n in before)
    && (forall n :: n in after ==>
          if n in StartedBy(z) then before[n] == Activated && after[n] == Answered(w, n)
          else if n in StoppedBy(z) then after[n] == Activated
          else after[n] == before[n])
  }

  /** The state start_processing leaves. */
  function Answered(w: Answers, n: NodeId): NodeState {
    if w(n) then Processing else Activated
  }

  /** Nodes of `l[..i]` stopped, all else as before. */
  ghost predicate StoppedSoFar(l: seq<NodeId>, i: nat, before: map<NodeId, NodeState>, after: map<NodeId, NodeState>) {
    && i <= |l|
    && (forall n :: n in after <==> n in before)
    && (forall n :: n in after ==>
          if n in l[..i] && before[n] == Processing then after[n] == Activated else after[n] == before[n])
  }

  /** Nodes of `l[..i]` asked to start, all else as before. */
  ghost predicate StartedSoFar(w: Answers, l: seq<NodeId>, i: nat, before: map<NodeId, NodeState>,
                               after: map<NodeId, NodeState>) {
    && i <= |l|
    && (forall n :: n in after <==> n in before)
    && (forall n :: n in after ==>
          if n in l[..i] then before[n] == Activated && after[n] == Answered(w, n) else after[n] == before[n])
  }

  lemma StopOneMore(l: seq<NodeId>, i: nat, before: map<NodeId, NodeState>, mid: map<NodeId, NodeState>)
    requires StoppedSoFar(l, i, before, mid) && i < |l| && l[i] in mid
    ensures StoppedSoFar(l, i + 1, before, Stopped(mid, l[i]))
  {
    assert l[..i + 1] == l[..i] + [l[i]];
  }

  lemma StartOneMore(w: Answers, l: seq<NodeId>, i: nat, before: map<NodeId, NodeState>, mid: map<NodeId, NodeState>)
    requires StartedSoFar(w, l, i, before, mid) && i < |l| && NoDup(l) && l[i] in mid && mid[l[i]] == Activated
    ensures StartedSoFar(w, l, i + 1, before, if w(l[i]) then mid[l[i] := Processing] else mid)
  {
    assert l[..i + 1] == l[..i] + [l[i]];
    assert l[i] !in l[..i];
  }

  // ---------------------------------------------------------------- what single steps do

  lemma StopStepIs(s: State, n: NodeId)
    requires Enabled(s, Turn(true)) && AudioAccess(s.slots, true) == Stop(n) && !Next(s, Turn(true)).ub
    ensures n in s.nodes
    ensures s.slots.aud.pc.Stopping? && Next(s, Turn(true))
         == s.(slots := s.slots.AudioAt(Stopping(s.slots.aud.pc.i + 1)), nodes := Stopped(s.nodes, n))
  {
  }

  lemma StartStepIs(s: State, n: NodeId, accepts: bool)
    requires Enabled(s, Turn(accepts)) && AudioAccess(s.slots, accepts) == Start(n, accepts) && !Next(s, Turn(accepts)).ub
    ensures n in s.nodes && s.nodes[n] == Activated
    ensures s.slots.aud.pc.Starting? && Next(s, Turn(accepts))
         == s.(slots := s.slots.AudioAt(Starting(s.slots.aud.pc.s, s.slots.aud.pc.i + 1)),
               nodes := if accepts then s.nodes[n := Processing] else s.nodes, started := s.started + {n})
  {
  }

  lemma MoveStepIs(s: State)
    requires Enabled(s, Turn(true)) && AudioAccess(s.slots, true).Nothing?
    ensures Next(s, Turn(true)) == s.(slots := AudioSlots(s.slots))
  {
  }

  lemma InvSafe(s: State)
    requires Inv(s)
    ensures !s.ub
  {
  }

  lemma StartListUnique(s: State)
    requires Inv(s) && TakenUp(s.slots)
    ensures NoDup(s.slots.aud.pc.s.start)
  {
    hide Core, LiveGraphs, ModelOk, Newest, Owned, Phases;
  }

  /** Stopping first and starting afterwards amounts to what NodesApplied says. */
  lemma AppliedNodes(w: Answers, z: Slots, before: map<NodeId, NodeState>, mid: map<NodeId, NodeState>,
                     after: map<NodeId, NodeState>)
    requires if z.aud.retire.Some? && z.box.toControl.None?
             then StoppedSoFar(StoppedBy(z), |StoppedBy(z)|, before, mid) else mid == before
    requires if HandedBack(z).aud.retire.None? && z.box.pending.Some?
             then StartedSoFar(w, StartedBy(z), |StartedBy(z)|, mid, after) else after == mid
    requires forall n :: n in StartedBy(z) ==> n !in StoppedBy(z)
    requires forall n :: n in before ==> before[n] != Created
    ensures NodesApplied(w, z, before, after)
  {
    assert StoppedBy(z)[..|StoppedBy(z)|] == StoppedBy(z);
    assert StartedBy(z)[..|StartedBy(z)|] == StartedBy(z);
  }

  lemma ActiveReadable(s: State, run: seq<Step>)
    requires Legal(Init(), run) && Exec(Init(), run) == s
    ensures Readable(s, s.slots.box.active)
  {
    assert Reachable(s);
    hide Inv, Legal, Exec, Readable;
    GracePeriod(s);
  }

  /** No node is both stopped and started by one audio_apply. */
  lemma StopsAndStartsApart(s: State)
    requires Inv(s) && s.slots.aud.pc.Quiet?
    ensures forall n :: n in StartedBy(s.slots) ==> n !in StoppedBy(s.slots)
    ensures forall n :: n in s.nodes ==> s.nodes[n] != Created
  {
    hide LiveGraphs, Newest, Owned, Bounds, Checks, InSome, MayProcess;
    var z, h := s.slots, s.history;
    if z.aud.retire.Some? && z.box.toControl.None? && z.box.pending.Some? {
      forall n | n in StartedBy(z) ensures n !in StoppedBy(z) {
        assert n in h[z.box.active + 1] && n !in h[z.box.active];
      }
    }
  }

  // ---------------------------------------------------------------- control steps

  /** Nodes of `l[..i]` destroyed, all else as before. */
  ghost predicate DestroyedSoFar(l: seq<NodeId>, i: nat, before: map<NodeId, NodeState>, after: map<NodeId, NodeState>) {
    && i <= |l|
    && (forall n :: n in after <==> n in before && n !in l[..i])
    && (forall n :: n in after ==> after[n] == before[n])
  }

  lemma DestroyOneMore(l: seq<NodeId>, i: nat, before: map<NodeId, NodeState>, mid: map<NodeId, NodeState>)
    requires DestroyedSoFar(l, i, before, mid) && i < |l|
    ensures DestroyedSoFar(l, i + 1, before, mid - {l[i]})
  {
    assert l[..i + 1] == l[..i] + [l[i]];
  }

  lemma DestroyStepIs(s: State, r: Swap, i: nat, k: Cont)
    requires s.slots.ctl.pc == Destroying(r, i, k) && i < |r.stop| && !Next(s, Proceed).ub && r.stop[i] in s.registry
    ensures var n := r.stop[i]; n in s.nodes && s.nodes[n] != Processing
    ensures Next(s, Proceed) == s.(slots := s.slots.ControlAt(Destroying(r, i + 1, k)),
              registry := Without(s.registry, r.stop[i]), nodes := s.nodes - {r.stop[i]})
  {
    hide Without, StartList, StopList;
  }

  lemma DestroyFinds(s: State, r: Swap, i: nat, k: Cont)
    requires Inv(s) && s.slots.ctl.pc == Destroying(r, i, k) && i < |r.stop|
    ensures r.stop[i] in s.registry
  {
    hide Core, Lists, LiveGraphs, GoesForGood, Newest, Owners, Phases;
    OwnersDestroyed(s.slots, s.history, ModelNodes(s), s.registry);
  }

  lemma FreeStepIs(s: State, r: Swap, k: Cont, g: GraphId)
    requires s.slots.ctl.pc == Freeing(r, k) && !Next(s, Proceed).ub && r.oldGraph == Some(g)
    ensures g in s.graphs
    ensures Next(s, Proceed) == s.(slots := s.slots.ControlAt(After(k)), graphs := s.graphs - {g})
  {
    hide StartList, StopList;
  }

  lemma FreeFinds(s: State, r: Swap, k: Cont)
    requires Inv(s) && s.slots.ctl.pc == Freeing(r, k)
    ensures r.oldGraph.Some?
  {
    hide Lists, LiveGraphs, ModelOk, Newest, Owned, Phases, Bounds, Checks;
  }

  lemma PlainStepIs(s: State)
    requires Enabled(s, Proceed) && ControlAccess(s.slots).Nothing?
    ensures Next(s, Proceed) == s.(slots := ControlSlots(s.slots, [], []))
  {
    ListsUnused(s.slots, StartList(s), StopList(s));
    hide StartList, StopList, ControlSlots;
  }

  lemma BuildStepIs(s: State)
    requires Inv(s) && s.slots.ctl.pc.Building?
    ensures var g := Snapshot(s.model, FLOAT_ONE); var id := s.slots.ctl.made;
      && s.slots.ctl.lastSnapshot in s.graphs
      && Next(s, Proceed) == s.(
           slots := s.slots.(ctl := Control(id + 1, s.slots.ctl.lastSnapshot,
                      Spinning(Swap(id, None, Minus(Nodes(g), Nodes(s.graphs[s.slots.ctl.lastSnapshot])),
                                              Minus(Nodes(s.graphs[s.slots.ctl.lastSnapshot]), Nodes(g)))))),
           graphs := s.graphs[id := g], history := s.history + [ModelNodes(s)])
  {
    BuildFields(s);
    BuildLast(s);
    hide Inv, Snapshot, Nodes, Minus, ModelNodes;
  }

  lemma BuildLast(s: State)
    requires Inv(s) && s.slots.ctl.pc.Building?
    ensures s.slots.ctl.lastSnapshot in s.graphs
    ensures |Nodes(s.graphs[s.slots.ctl.lastSnapshot])| <= MAX_NODES && |Nodes(Snapshot(s.model, FLOAT_ONE))| <= MAX_NODES
  {
    hide Lists, Owned, Phases, Bounds, Checks, AllNodes, NodeSet;
    NothingTruncated(s.model, FLOAT_ONE);
    BoundedNodes(s.model);
    assert WellMade(s.graphs[s.slots.ctl.lastSnapshot], s.history[s.slots.ctl.lastSnapshot]);
    BoundedNodes(s.graphs[s.slots.ctl.lastSnapshot].tracks);
  }

  lemma BuildFits(s: State, run: seq<Step>)
    requires Legal(Init(), run) && Exec(Init(), run) == s && s.slots.ctl.pc.Building?
    ensures s.slots.ctl.lastSnapshot in s.graphs
    ensures |Nodes(s.graphs[s.slots.ctl.lastSnapshot])| <= MAX_NODES && |Nodes(Snapshot(s.model, FLOAT_ONE))| <= MAX_NODES
  {
    hide Inv, Nodes, Snapshot;
    RunKeeps(run);
    BuildLast(s);
  }

  lemma MinusSnoc(a: seq<NodeId>, i: nat, b: seq<NodeId>)
    requires i < |a|
    ensures Minus(a[..i + 1], b) == if a[i] in b then Minus(a[..i], b) else Minus(a[..i], b) + [a[i]]
  {
    assert a[..i + 1][..i] == a[..i];
  }

  /** What an edit with a node does to the protocol state. */
  lemma HandoverIs(s: State, e: Edit, after: seq<Track>, n: NodeId)
    requires Edited(s.model, s.created, e) == Some(after) && NodeOf(e) == Some(n) && !e.CreateTrack?
    ensures BeginEdit(s, e) == s.(model := after, slots := s.slots.ControlAt(Exchanging(ToBuild)),
                                  registry := s.registry + [n], nodes := s.nodes[n := Activated], born := s.born + {n})
  {
    hide Edited;
  }

  // ---------------------------------------------------------------- whole operations

  /** While the control thread waits, one complete audio_apply empties pending_swap_. */
  lemma ApplyEmptiesPending(s: State)
    requires Inv(s) && Waits(s.slots) && s.slots.aud.pc.Quiet?
    ensures AfterApply(s.slots).box.pending.None?
  {
    InvCore(s);
    RoomToHandBack(s.slots);
    hide Inv, Core;
  }

  /** Two complete audio_apply calls bring a pending swap to to_control_ exactly when it is the only
      one in flight. */
  lemma TwoApplies(z: Slots)
    requires z.box.pending.Some?
    ensures var t := AfterApply(AfterApply(z));
      t.box.pending.None? && t.aud.retire.None? <==> z.box.toControl.None? && z.aud.retire.None?
  {
  }

  /** Where the swaps in flight are after the wait, once to_control_ has been reclaimed. */
  lemma WaitShifts(z: Slots)
    requires z.box.toControl.None?
    ensures AfterWait(z).aud.retire.Some? <==> z.aud.retire.Some? || z.box.pending.Some?
    ensures AfterWait(z).box.toControl.Some? <==> z.aud.retire.Some? && z.box.pending.Some?
  {
  }

  /** A pending swap waits through a complete audio_apply exactly when both to_control_ and retire_
      are full; otherwise that audio_apply makes its graph the active one. */
  lemma ApplyTakesUnlessFull(z: Slots)
    requires z.box.pending.Some?
    ensures AfterApply(z).box.pending.Some? <==> z.box.toControl.Some? && z.aud.retire.Some?
    ensures AfterApply(z).box.pending.None? ==> AfterApply(z).box.active == z.box.pending.value.newGraph
  {
  }

  /** With no swap in flight, the only graph is the snapshot of the model and the only nodes are the
      model's, each owned once. */
  ghost predicate Settled(s: State) {
    && s.slots.ctl.lastSnapshot == s.slots.box.active
    && s.graphs == map[s.slots.box.active := Snapshot(s.model, FLOAT_ONE)]
    && multiset(s.registry) == multiset(AllNodes(s.model))
    && (forall n :: n in s.nodes <==> n in AllNodes(s.model))
  }

  lemma EmptyIsSettled(s: State)
    requires Reachable(s) && s.slots.ctl.pc.Idle? && s.slots.aud.pc.Quiet?
    requires s.slots.box.pending.None? && s.slots.box.toControl.None? && s.slots.aud.retire.None?
    ensures Settled(s)
  {
    hide Inv, Reachable, Snapshot, AllNodes, LeavingNodes, NoDup;
    ReachableInv(s);
    Conservation(s);
    NothingLeaving(s.slots);
    EmptyGraphs(s);
    assert multiset(s.registry) == multiset(AllNodes(s.model));
    MultisetMembers(s.registry, AllNodes(s.model));
  }

  lemma NothingLeaving(z: Slots)
    requires z.aud.pc.Quiet? && z.box.pending.None? && z.box.toControl.None? && z.aud.retire.None?
    ensures LeavingNodes(z) == []
  {
  }

  lemma MultisetMembers(a: seq<NodeId>, b: seq<NodeId>)
    requires multiset(a) == multiset(b)
    ensures forall n :: n in a <==> n in b
  {
    forall n ensures n in a <==> n in b {
      assert n in multiset(a) <==> n in a;
      assert n in multiset(b) <==> n in b;
    }
  }

  /** Between control operations the last snapshot is the model's. */
  lemma LastIsModel(s: State)
    requires Inv(s) && s.slots.ctl.pc.Idle?
    ensures s.slots.ctl.lastSnapshot in s.graphs
    ensures s.graphs[s.slots.ctl.lastSnapshot] == Snapshot(s.model, FLOAT_ONE)
  {
    hide Lists, ModelOk, Owned, Phases, Bounds, Checks, WellMade, Snapshot;
    assert s.slots.ctl.lastSnapshot == s.slots.ctl.made - 1;
  }

  lemma EmptyGraphs(s: State)
    requires Inv(s) && s.slots.ctl.pc.Idle? && s.slots.aud.pc.Quiet?
    requires s.slots.box.pending.None? && s.slots.box.toControl.None? && s.slots.aud.retire.None?
    ensures s.slots.ctl.lastSnapshot == s.slots.box.active
    ensures s.graphs == map[s.slots.box.active := Snapshot(s.model, FLOAT_ONE)]
  {
    hide Lists, ModelOk, Owned, Phases, Checks, WellMade, Snapshot;
    assert forall i :: i in s.graphs <==> i == s.slots.box.active;
  }

  // ---------------------------------------------------------------- teardown

  /** Four complete calls of audio_apply: with at most two swaps in flight nothing is pending any
      more and the newest graph is active; with three, nothing moves at all. */
  lemma FourApplies(z: Slots)
    requires Core(z) && z.ctl.pc.Idle? && z.aud.pc.Quiet?
    ensures var t := AfterApply(AfterApply(AfterApply(AfterApply(z)))); var n := InFlight(z);
      && n <= 3
      && (t.box.toControl.Some? <==> n >= 1) && (t.aud.retire.Some? <==> n >= 2) && (t.box.pending.Some? <==> n == 3)
      && t.ctl.lastSnapshot == t.box.active + (if n == 3 then 1 else 0)
  {
    var n := InFlight(z);
    assert n == Count(z.box.toControl) + Count(z.aud.retire) + Count(z.box.pending) <= 3;
    assert z.ctl.lastSnapshot == z.box.active + Count(z.box.pending);
    assert z.box.pending.Some? ==> z.box.pending.value.newGraph == z.ctl.lastSnapshot;
    hide Core, InFlight;
  }

  /** What is left of the graphs once to_control_ has been reclaimed. */
  lemma GraphsAfterReclaim(s: State)
    requires Inv(s) && s.slots.ctl.pc.Idle? && s.slots.aud.pc.Quiet? && s.slots.box.toControl.None?
    ensures s.slots.aud.retire.Some? ==> s.slots.aud.retire.value.oldGraph == Some(s.slots.box.active - 1)
    ensures 0 <= s.slots.box.active - Count(s.slots.aud.retire)
    ensures s.slots.ctl.lastSnapshot == s.slots.box.active + Count(s.slots.box.pending)
    ensures forall i :: i in s.graphs <==> s.slots.box.active - Count(s.slots.aud.retire) <= i <= s.slots.ctl.lastSnapshot
  {
    hide Lists, ModelOk, Owned, Phases, Checks, WellMade, Newest;
    MadeIsLast(s);
  }

  lemma MadeIsLast(s: State)
    requires Inv(s)
    ensures |s.history| == s.slots.ctl.made
  {
    hide Core, Lists, LiveGraphs, ModelOk, Owned, Phases;
  }

  lemma OwnersExist(s: State)
    requires Inv(s)
    ensures NoDup(s.registry) && forall n :: n in s.registry <==> n in s.nodes
  {
    hide Core, Lists, LiveGraphs, ModelOk, Newest, Phases, Needed;
  }

  lemma UndisturbedSnoc(w: Answers, run: seq<Step>, step: Step)
    requires Legal(Init(), run) && Undisturbed(w, run) && Enabled(Exec(Init(), run), step)
    requires !step.Halt? && AnswersAs(w, Exec(Init(), run), step)
    ensures Legal(Init(), run + [step]) && Undisturbed(w, run + [step])
  {
    ExecSnoc(Init(), run, step);
    assert (run + [step])[..|run|] == run;
    hide Init, Enabled, AnswersAs, Next;
  }

  /** The graph audio_apply returns fits the arrays and has no node twice. */
  lemma ActiveWellMade(s: State, run: seq<Step>)
    requires Legal(Init(), run) && Exec(Init(), run) == s && s.slots.box.active in s.graphs
    ensures Bounded(s.graphs[s.slots.box.active].tracks) && NoDup(Nodes(s.graphs[s.slots.box.active]))
  {
    RunKeeps(run);
    GraphsWellMade(s, s.slots.box.active);
    hide Inv, Legal, Exec;
  }

  lemma GraphsWellMade(s: State, g: GraphId)
    requires Inv(s) && g in s.graphs
    ensures Bounded(s.graphs[g].tracks) && NoDup(Nodes(s.graphs[g]))
  {
    hide Core, Lists, ModelOk, Newest, Phases, Needed, Owned, Bounded, Nodes;
  }

  class AudioGraph {
    var model: seq<Track>
    var created: nat                        // tracks made; next_track_id_ is its residue
    var registry: seq<NodeId>
    var offline: bool

    var active: GraphId
    var lastSnapshot: GraphId
    var pending: Option<Swap>
    var toControl: Option<Swap>
    var retire: Option<Swap>

    var graphs: map<GraphId, GraphState>    // the graphs and plugin nodes now allocated
    var nodes: map<NodeId, NodeState>
    var made: nat                           // the identity the next graph gets

    ghost var held: Option<GraphId>
    ghost var history: seq<set<NodeId>>
    ghost var born: set<NodeId>
    ghost var started: set<NodeId>
    ghost var run: seq<Step>
    ghost var halted: bool                 // teardown has stopped nodes

    const willing: Answers                 // what plugins answer to start_processing

    ghost function Pointers(c: ControlPc, a: AudioPc): Slots
      reads this
    {
      Slots(Control(made, lastSnapshot, c), Mailboxes(active, pending, toControl), Audio(retire, held, a))
    }

    /** The protocol state these fields are, with the threads at c and a. */
    ghost function View(c: ControlPc, a: AudioPc): State
      reads this
    {
      State(Pointers(c, a), model, created, registry, graphs, nodes, history, born, started, false)
    }

    /** The run is one of the protocol, with the plugins' answers. */
    ghost predicate Kept()
      reads this
    {
      Legal(Init(), run) && (halted || Undisturbed(willing, run))
    }

    /** The steps recorded lead to this state. */
    ghost predicate At(c: ControlPc, a: AudioPc)
      reads this
    {
      Kept() && Exec(Init(), run) == View(c, a)
    }

    ghost predicate Empty()
      reads this
    {
      pending.None? && toControl.None? && retire.None?
    }

    /** Between calls, before teardown: the fields are a reachable protocol state. */
    ghost predicate Valid()
      reads this
    {
      At(Idle, Quiet) && !halted
    }

    // -------------------------------------------------------------- recording steps

    /** Appends a step to the run. */
    ghost method Record(step: Step, before: State)
      requires Kept() && Exec(Init(), run) == before && Enabled(before, step)
      requires halted || (AnswersAs(willing, before, step) && !step.Halt?)
      modifies this`run
      ensures Kept() && Exec(Init(), run) == Next(before, step)
      ensures Inv(before) && Inv(Next(before, step))
    {
      RunKeeps(run);
      StepKeeps(before, step);
      ExecSnoc(Init(), run, step);
      if !halted {
        UndisturbedSnoc(willing, run, step);
      }
      hide *;
      run := run + [step];
    }

    /** An audio step that touches no node. */
    ghost method RecordMove(before: State)
      requires Kept() && Exec(Init(), run) == before
      requires !before.slots.aud.pc.Quiet? && AudioAccess(before.slots, true).Nothing?
      modifies this`run
      ensures Kept() && Exec(Init(), run) == before.(slots := AudioSlots(before.slots))
    {
      hide Legal, Undisturbed, Exec, Init, Inv, Next;
      Record(Turn(true), before);
      MoveStepIs(before);
    }

    ghost method RecordStop(before: State, i: nat, n: NodeId)
      requires Kept() && Exec(Init(), run) == before
      requires before.slots.aud.pc == Stopping(i) && AudioAccess(before.slots, true) == Stop(n)
      modifies this`run
      ensures Kept() && n in before.nodes
      ensures Exec(Init(), run) == before.(slots := before.slots.AudioAt(Stopping(i + 1)), nodes := Stopped(before.nodes, n))
    {
      hide Legal, Undisturbed, Exec, Init, Inv, Next;
      Record(Turn(true), before);
      InvSafe(Next(before, Turn(true)));
      StopStepIs(before, n);
    }

    ghost method RecordStart(before: State, w: Swap, i: nat, accepts: bool)
      requires Kept() && Exec(Init(), run) == before
      requires before.slots.aud.pc == Starting(w, i) && i < |w.start| && accepts == willing(w.start[i])
      modifies this`run
      ensures Kept() && w.start[i] in before.nodes && before.nodes[w.start[i]] == Activated
      ensures NoDup(w.start)
      ensures Exec(Init(), run) == before.(slots := before.slots.AudioAt(Starting(w, i + 1)),
                nodes := if accepts then before.nodes[w.start[i] := Processing] else before.nodes,
                started := before.started + {w.start[i]})
    {
      hide Legal, Undisturbed, Exec, Init, Inv, Next;
      Record(Turn(accepts), before);
      InvSafe(Next(before, Turn(accepts)));
      StartStepIs(before, w.start[i], accepts);
      StartListUnique(before);
    }

    // -------------------------------------------------------------- audio thread

    method StopRetired(ghost c: ControlPc)
      requires At(c, Stopping(0)) && retire.Some?
      modifies this`nodes, this`run
      ensures At(c, Stopping(|retire.value.stop|))
      ensures StoppedSoFar(retire.value.stop, |retire.value.stop|, old(nodes), nodes)
    {
      hide Legal, Undisturbed, Exec, Init, NoDup, At, View;
      var i := 0;
      while i < |retire.value.stop|
        invariant 0 <= i <= |retire.value.stop|
        invariant At(c, Stopping(i))
        invariant StoppedSoFar(retire.value.stop, i, old(nodes), nodes)
      {
        StopOne(c, i, old(nodes));
        i := i + 1;
      }
    }

    method StopOne(ghost c: ControlPc, i: nat, ghost before: map<NodeId, NodeState>)
      requires retire.Some? && i < |retire.value.stop| && At(c, Stopping(i))
      requires StoppedSoFar(retire.value.stop, i, before, nodes)
      modifies this`nodes, this`run
      ensures At(c, Stopping(i + 1)) && StoppedSoFar(retire.value.stop, i + 1, before, nodes)
    {
      hide Legal, Undisturbed, Exec, Init, StoppedSoFar;
      var n := retire.value.stop[i];
      RecordStop(View(c, Stopping(i)), i, n);
      StopOneMore(retire.value.stop, i, before, nodes);
      StopProcessing(n);
    }

    /** PluginNode::stop_processing, of a node that must still exist. */
    method StopProcessing(n: NodeId)
      requires n in nodes
      modifies this`nodes
      ensures nodes == Stopped(old(nodes), n)
    {
      if nodes[n] == Processing {
        nodes := nodes[n := Activated];
      }
    }

    method StartTaken(ghost c: ControlPc, w: Swap)
      requires At(c, Starting(w, 0))
      modifies this`nodes, this`started, this`run
      ensures At(c, Starting(w, |w.start|))
      ensures StartedSoFar(willing, w.start, |w.start|, old(nodes), nodes)
    {
      hide Legal, Undisturbed, Exec, Init;
      var i := 0;
      while i < |w.start|
        invariant 0 <= i <= |w.start|
        invariant At(c, Starting(w, i))
        invariant StartedSoFar(willing, w.start, i, old(nodes), nodes)
      {
        StartOne(c, w, i, old(nodes));
        i := i + 1;
      }
    }

    /** The plugin may refuse to start; the node then stays activated. */
    method StartOne(ghost c: ControlPc, w: Swap, i: nat, ghost before: map<NodeId, NodeState>)
      requires i < |w.start| && At(c, Starting(w, i)) && StartedSoFar(willing, w.start, i, before, nodes)
      modifies this`nodes, this`started, this`run
      ensures At(c, Starting(w, i + 1)) && StartedSoFar(willing, w.start, i + 1, before, nodes)
    {
      hide Legal, Undisturbed, Exec, Init, StartedSoFar;
      var n := w.start[i];
      ghost var s, mid := View(c, Starting(w, i)), nodes;
      MayStart(c, w, i);
      var accepts := StartProcessing(n);
      RecordStart(s, w, i, accepts);
      StartOneMore(willing, w.start, i, before, mid);
      started := started + {n};
    }

    /** PluginNode::start_processing: its assertion is the precondition, and the plugin answers. */
    method StartProcessing(n: NodeId) returns (accepts: bool)
      requires n in nodes && nodes[n] == Activated
      modifies this`nodes
      ensures accepts == willing(n) && nodes == if accepts then old(nodes)[n := Processing] else old(nodes)
    {
      accepts := willing(n);
      if accepts {
        nodes := nodes[n := Processing];
      }
    }

    ghost method MayStart(c: ControlPc, w: Swap, i: nat)
      requires i < |w.start| && At(c, Starting(w, i))
      ensures w.start[i] in nodes && nodes[w.start[i]] == Activated
    {
      RunKeeps(run);
      hide Legal, Undisturbed, Exec, Init, Inv;
      StartIsFirst(View(c, Starting(w, i)), Turn(true), w.start[i]);
    }

    /** The first half of audio_apply: the nodes on the retired swap's stop list are stopped and the
        swap goes back to the control thread. */
    method HandBack(ghost c: ControlPc)
      requires At(c, Entered) && retire.Some? && toControl.None?
      modifies this`nodes, this`toControl, this`retire, this`run
      ensures At(c, Taking)
      ensures retire.None? && toControl == old(retire)
      ensures StoppedSoFar(old(retire.value.stop), |old(retire.value.stop)|, old(nodes), nodes)
    {
      hide Legal, Undisturbed, Exec, Init, StoppedSoFar;
      RecordMove(View(c, Entered));
      StopRetired(c);
      Return(c);
    }

    method Return(ghost c: ControlPc)
      requires retire.Some? && At(c, Stopping(|retire.value.stop|))
      modifies this`toControl, this`retire, this`run
      ensures At(c, Taking) && retire.None? && toControl == old(retire)
    {
      hide Legal, Undisturbed, Exec, Init;
      RecordMove(View(c, Stopping(|retire.value.stop|)));
      RecordMove(View(c, HandingBack));
      toControl := retire;
      retire := None;
    }

    /** The second half: a pending swap is taken, its new nodes are started and its graph becomes
        the active one. */
    method TakeUp(ghost c: ControlPc)
      requires At(c, Taking) && retire.None?
      modifies this`nodes, this`started, this`active, this`pending, this`retire, this`run
      ensures At(c, Leaving)
      ensures Pointers(c, Quiet) == TookUp(old(Pointers(c, Quiet)))
      ensures old(pending).None? ==> nodes == old(nodes)
      ensures old(pending).Some? ==>
                StartedSoFar(willing, old(pending.value.start), |old(pending.value.start)|, old(nodes), nodes)
    {
      hide Legal, Undisturbed, Exec, Init, StartedSoFar, At, View;
      var w := TakePending(c);
      if w.Some? {
        StartTaken(c, w.value);
        Flip(c, w.value);
      }
    }

    method TakePending(ghost c: ControlPc) returns (w: Option<Swap>)
      requires At(c, Taking) && retire.None?
      modifies this`pending, this`run
      ensures w == old(pending) && pending.None?
      ensures if w.None? then At(c, Leaving) else At(c, Starting(w.value, 0))
    {
      hide Legal, Undisturbed, Exec, Init;
      RecordMove(View(c, Taking));
      w := pending;
      pending := None;
    }

    method Flip(ghost c: ControlPc, w: Swap)
      requires At(c, Starting(w, |w.start|))
      modifies this`active, this`retire, this`run
      ensures At(c, Leaving) && active == w.newGraph && retire == Some(w.(oldGraph := Some(old(active))))
    {
      hide Legal, Undisturbed, Exec, Init;
      RecordMove(View(c, Starting(w, |w.start|)));
      RecordMove(View(c, Flipping(w)));
      retire := Some(w.(oldGraph := Some(active)));
      active := w.newGraph;
    }

    /** One complete audio_apply; the control thread stays at c throughout. */
    method AudioApply(ghost c: ControlPc) returns (g: GraphId)
      requires At(c, Quiet)
      modifies this`nodes, this`started, this`active, this`pending, this`toControl, this`retire, this`held, this`run
      ensures At(c, Quiet)
      ensures Pointers(c, Quiet) == AfterApply(old(Pointers(c, Quiet)))
      ensures NodesApplied(willing, old(Pointers(c, Quiet)), old(nodes), nodes)
      ensures g == active && g in graphs && forall n :: n in Nodes(graphs[g]) ==> n in nodes
      ensures !halted ==> forall n :: n in Nodes(graphs[g]) ==> n in started && nodes[n] == Answered(willing, n)
    {
      hide Legal, Undisturbed, Exec, Init, Inv, StartedSoFar, StoppedSoFar, NodesApplied;
      ghost var s := View(c, Quiet);
      RecordEnter(c);
      assert Pointers(c, Quiet) == s.slots;
      assert forall n :: n in StartedBy(s.slots) ==> n !in StoppedBy(s.slots);
      if retire.Some? && toControl.None? {
        HandBack(c);
      } else {
        RecordMove(View(c, Entered));
      }
      ghost var mid := nodes;
      assert Pointers(c, Quiet) == HandedBack(s.slots);
      if retire.None? {
        TakeUp(c);
      }
      assert Pointers(c, Quiet) == TookUp(HandedBack(s.slots));
      AppliedNodes(willing, s.slots, s.nodes, mid, nodes);
      Leave(c);
      g := active;
      ActiveReadable(View(c, Quiet), run);
      if !halted {
        ActivePlay(c);
      }
    }

    /** Every node of the active graph has been asked to start, and has its way. */
    lemma ActivePlay(c: ControlPc)
      requires At(c, Quiet) && active in graphs && !halted
      ensures forall n :: n in Nodes(graphs[active]) ==> n in started && n in nodes && nodes[n] == Answered(willing, n)
    {
      hide Legal, Undisturbed, Exec, Init, Undisturbed, Nodes;
      forall n | n in Nodes(graphs[active])
        ensures n in started && n in nodes && nodes[n] == Answered(willing, n)
      {
        ActiveNodesPlay(willing, run, n);
      }
    }

    ghost method Leave(c: ControlPc)
      requires At(c, Leaving)
      modifies this`held, this`run
      ensures At(c, Quiet) && held == Some(active)
    {
      hide Legal, Undisturbed, Exec, Init;
      RecordMove(View(c, Leaving));
      held := Some(active);
    }

    ghost method RecordEnter(c: ControlPc)
      requires At(c, Quiet)
      modifies this`run
      ensures At(c, Entered)
      ensures var z := Pointers(c, Quiet); forall n :: n in StartedBy(z) ==> n !in StoppedBy(z)
      ensures forall n :: n in nodes ==> nodes[n] != Created
    {
      hide Legal, Undisturbed, Exec, Init, Inv, StartedBy, StoppedBy;
      Record(Enter, View(c, Quiet));
      StopsAndStartsApart(View(c, Quiet));
    }

    /** The active graph fits the renderer's arrays and has no node twice. */
    lemma ActiveFits(c: ControlPc)
      requires At(c, Quiet) && active in graphs
      ensures Bounded(graphs[active].tracks) && NoDup(Nodes(graphs[active]))
    {
      ActiveWellMade(View(c, Quiet), run);
    }

    // -------------------------------------------------------------- control thread: reclaim

    ghost method RecordDestroy(before: State, r: Swap, i: nat, k: Cont)
      requires Kept() && Exec(Init(), run) == before
      requires before.slots.ctl.pc == Destroying(r, i, k) && i < |r.stop|
      modifies this`run
      ensures Kept()
      ensures var n := r.stop[i]; n in before.registry && n in before.nodes && before.nodes[n] != Processing
      ensures Exec(Init(), run) == before.(slots := before.slots.ControlAt(Destroying(r, i + 1, k)),
                registry := Without(before.registry, r.stop[i]), nodes := before.nodes - {r.stop[i]})
    {
      hide Legal, Undisturbed, Exec, Init, Inv, Next, Without;
      Record(Proceed, before);
      InvSafe(Next(before, Proceed));
      DestroyFinds(before, r, i, k);
      DestroyStepIs(before, r, i, k);
    }

    ghost method RecordFree(before: State, r: Swap, k: Cont)
      requires Kept() && Exec(Init(), run) == before
      requires before.slots.ctl.pc == Freeing(r, k)
      modifies this`run
      ensures Kept() && r.oldGraph.Some? && r.oldGraph.value in before.graphs
      ensures Exec(Init(), run) == before.(slots := before.slots.ControlAt(After(k)),
            graphs := before.graphs - {r.oldGraph.value})
    {
      hide Legal, Undisturbed, Exec, Init, Inv, Next;
      Record(Proceed, before);
      InvSafe(Next(before, Proceed));
      FreeFinds(before, r, k);
      FreeStepIs(before, r, k, r.oldGraph.value);
    }

    ghost method RecordPlain(before: State)
      requires Kept() && Exec(Init(), run) == before
      requires Enabled(before, Proceed) && ControlAccess(before.slots).Nothing?
      modifies this`run
      ensures Kept() && Exec(Init(), run) == before.(slots := ControlSlots(before.slots, [], []))
    {
      hide Legal, Undisturbed, Exec, Init, Inv, Next, ControlSlots;
      Record(Proceed, before);
      PlainStepIs(before);
    }

    /** Erases the owner of n, which destroys it. */
    method DestroyNode(n: NodeId)
      requires n in nodes ==> nodes[n] != Processing
      modifies this`registry, this`nodes
      ensures registry == Without(old(registry), n)
      ensures nodes == if n in old(registry) then old(nodes) - {n} else old(nodes)
    {
      var i := 0;
      while i < |registry|
        invariant 0 <= i <= |registry|
        invariant registry == old(registry) && nodes == old(nodes)
        invariant n !in registry[..i]
      {
        if registry[i] == n {
          assert IndexOf(registry, n) == i;
          registry := registry[..i] + registry[i + 1..];
          nodes := nodes - {n};
          return;
        }
        i := i + 1;
      }
    }

    method DestroyStopped(r: Swap, ghost k: Cont)
      requires At(Destroying(r, 0, k), Quiet)
      modifies this`registry, this`nodes, this`run
      ensures At(Destroying(r, |r.stop|, k), Quiet)
      ensures DestroyedSoFar(r.stop, |r.stop|, old(nodes), nodes)
    {
      hide Legal, Undisturbed, Exec, Init, At, View;
      var i := 0;
      while i < |r.stop|
        invariant 0 <= i <= |r.stop|
        invariant At(Destroying(r, i, k), Quiet)
        invariant DestroyedSoFar(r.stop, i, old(nodes), nodes)
      {
        DestroyOne(r, i, k, old(nodes));
        i := i + 1;
      }
    }

    method DestroyOne(r: Swap, i: nat, ghost k: Cont, ghost before: map<NodeId, NodeState>)
      requires i < |r.stop| && At(Destroying(r, i, k), Quiet) && DestroyedSoFar(r.stop, i, before, nodes)
      modifies this`registry, this`nodes, this`run
      ensures At(Destroying(r, i + 1, k), Quiet) && DestroyedSoFar(r.stop, i + 1, before, nodes)
    {
      hide Legal, Undisturbed, Exec, Init, Without, DestroyedSoFar;
      RecordDestroy(View(Destroying(r, i, k), Quiet), r, i, k);
      DestroyOneMore(r.stop, i, before, nodes);
      DestroyNode(r.stop[i]);
    }

    /** Takes back the swap in to_control_, if any: the nodes on its stop list and its old graph are
        destroyed, and nothing else. */
    method Reclaim(ghost k: Cont)
      requires At(Exchanging(k), Quiet)
      modifies this`toControl, this`registry, this`nodes, this`graphs, this`run
      ensures At(After(k), Quiet) && toControl.None?
      ensures match old(toControl)
        case None => registry == old(registry) && nodes == old(nodes) && graphs == old(graphs)
        case Some(r) =>
          && r.oldGraph.Some? && r.oldGraph.value in old(graphs) && graphs == old(graphs) - {r.oldGraph.value}
          && DestroyedSoFar(r.stop, |r.stop|, old(nodes), nodes)
    {
      hide Legal, Undisturbed, Exec, Init, DestroyedSoFar;
      RecordPlain(View(Exchanging(k), Quiet));
      var r := toControl;
      toControl := None;
      if r.Some? {
        DestroyStopped(r.value, k);
        FreeOld(r.value, k);
      }
    }

    method FreeOld(r: Swap, ghost k: Cont)
      requires At(Destroying(r, |r.stop|, k), Quiet)
      modifies this`graphs, this`run
      ensures At(After(k), Quiet)
      ensures r.oldGraph.Some? && r.oldGraph.value in old(graphs) && graphs == old(graphs) - {r.oldGraph.value}
    {
      hide Legal, Undisturbed, Exec, Init;
      RecordPlain(View(Destroying(r, |r.stop|, k), Quiet));
      RecordFree(View(Freeing(r, k), Quiet), r, k);
      graphs := graphs - {r.oldGraph.value};
    }

    // -------------------------------------------------------------- control thread: commit_edit

    /** The first loops of commit_edit: the members of a that are not in b. */
    static method DiffList(a: array<NodeId>, an: nat, b: array<NodeId>, bn: nat) returns (l: seq<NodeId>)
      requires an <= a.Length && bn <= b.Length
      ensures l == Minus(a[..an], b[..bn])
    {
      l := [];
      var i := 0;
      while i < an
        invariant 0 <= i <= an
        invariant l == Minus(a[..an][..i], b[..bn])
      {
        MinusSnoc(a[..an], i, b[..bn]);
        var found := NodeSetContains(b, bn, a[i]);
        if !found {
          l := l + [a[i]];
        }
        i := i + 1;
      }
      assert a[..an][..an] == a[..an];
    }

    /** Both lists of a swap between two snapshots. */
    static method DiffGraphs(newg: GraphState, last: GraphState) returns (start: seq<NodeId>, stop: seq<NodeId>)
      requires |Nodes(newg)| <= MAX_NODES && |Nodes(last)| <= MAX_NODES
      ensures start == Minus(Nodes(newg), Nodes(last)) && stop == Minus(Nodes(last), Nodes(newg))
    {
      var newset := new NodeId[MAX_NODES];
      var oldset := new NodeId[MAX_NODES];
      var nn := GatherNodes(newg, newset, MAX_NODES);
      var on := GatherNodes(last, oldset, MAX_NODES);
      assert newset[..nn] == Nodes(newg) && oldset[..on] == Nodes(last);
      start := DiffList(newset, nn, oldset, on);
      stop := DiffList(oldset, on, newset, nn);
    }

    ghost method RecordBuild(before: State)
      requires Kept() && Exec(Init(), run) == before && before.slots.ctl.pc.Building?
      modifies this`run
      ensures Kept()
      ensures var g := Snapshot(before.model, FLOAT_ONE); var id := before.slots.ctl.made;
        && before.slots.ctl.lastSnapshot in before.graphs
        && Exec(Init(), run) == before.(
           slots := before.slots.(ctl := Control(id + 1, before.slots.ctl.lastSnapshot,
                      Spinning(Swap(id, None, Minus(Nodes(g), Nodes(before.graphs[before.slots.ctl.lastSnapshot])),
                                              Minus(Nodes(before.graphs[before.slots.ctl.lastSnapshot]), Nodes(g)))))),
           graphs := before.graphs[id := g], history := before.history + [ModelNodes(before)])
    {
      hide Legal, Undisturbed, Exec, Init, Inv, Next, Snapshot, Nodes, Minus, ModelNodes;
      Record(Proceed, before);
      BuildStepIs(before);
    }

    /** A fresh snapshot of the model and the swap that leads to it. */
    method Build() returns (w: Swap)
      requires At(Building, Quiet)
      modifies this`graphs, this`made, this`history, this`run
      ensures At(Spinning(w), Quiet) && w.newGraph == old(made)
    {
      hide Legal, Undisturbed, Exec, Init, Inv, Nodes, Snapshot, Minus, ModelNodes;
      ghost var s := View(Building, Quiet);
      BuildFits(s, run);
      RecordBuild(s);
      var newg := Materialize(model, FLOAT_ONE);
      var start, stop := DiffGraphs(newg, graphs[lastSnapshot]);
      w := Swap(made, None, start, stop);
      graphs := graphs[made := newg];
      made := made + 1;
      history := history + [ModelNodes(s)];
    }

    /** Waits until the audio thread has emptied pending_swap_, then posts w. While it waits, the
        audio thread runs: one complete audio_apply is enough. */
    method QueueSwap(w: Swap)
      requires At(Spinning(w), Quiet)
      modifies this`nodes, this`started, this`active, this`pending, this`toControl, this`retire, this`held,
               this`lastSnapshot, this`run
      ensures At(Idle, Quiet) && pending == Some(w) && lastSnapshot == w.newGraph
      ensures var z := AfterWait(old(Pointers(Spinning(w), Quiet)));
        toControl == z.box.toControl && retire == z.aud.retire && active == z.box.active
      ensures forall n :: n in nodes <==> n in old(nodes)
    {
      hide Legal, Undisturbed, Exec, Init, Inv, AfterApply, StartedBy, StoppedBy;
      while pending.Some?
        invariant At(Spinning(w), Quiet)
        invariant pending.Some? ==> Pointers(Spinning(w), Quiet) == old(Pointers(Spinning(w), Quiet))
        invariant pending.None? ==> Pointers(Spinning(w), Quiet) == AfterWait(old(Pointers(Spinning(w), Quiet)))
        invariant forall n :: n in nodes <==> n in old(nodes)
        decreases Count(pending)
      {
        RecordSpin(w);
        var _ := AudioApply(Spinning(w));
      }
      Post(w);
    }

    ghost method RecordSpin(w: Swap)
      requires At(Spinning(w), Quiet) && pending.Some?
      modifies this`run
      ensures At(Spinning(w), Quiet)
      ensures AfterApply(Pointers(Spinning(w), Quiet)).box.pending.None?
    {
      hide Legal, Undisturbed, Exec, Init, Inv, AfterApply;
      RunKeeps(run);
      ApplyEmptiesPending(View(Spinning(w), Quiet));
      RecordPlain(View(Spinning(w), Quiet));
    }

    method Post(w: Swap)
      requires At(Spinning(w), Quiet) && pending.None?
      modifies this`pending, this`lastSnapshot, this`run
      ensures At(Idle, Quiet) && pending == Some(w) && lastSnapshot == w.newGraph
    {
      hide Legal, Undisturbed, Exec, Init;
      RecordPlain(View(Spinning(w), Quiet));
      RecordPlain(View(Posting(w), Quiet));
      pending := Some(w);
      lastSnapshot := w.newGraph;
    }

    ghost method RecordReclaim()
      requires At(Idle, Quiet)
      modifies this`run
      ensures At(Exchanging(ToIdle), Quiet)
    {
      hide Legal, Undisturbed, Exec, Init, Inv;
      Record(Step.Reclaim, View(Idle, Quiet));
    }

    /** A call of reclaim on its own. */
    method ReclaimAlone()
      requires At(Idle, Quiet)
      modifies this`toControl, this`registry, this`nodes, this`graphs, this`run
      ensures At(Idle, Quiet) && toControl.None?
      ensures match old(toControl)
        case None => registry == old(registry) && nodes == old(nodes) && graphs == old(graphs)
        case Some(r) =>
          && r.oldGraph.Some? && r.oldGraph.value in old(graphs) && graphs == old(graphs) - {r.oldGraph.value}
          && DestroyedSoFar(r.stop, |r.stop|, old(nodes), nodes)
    {
      hide Legal, Undisturbed, Exec, Init, DestroyedSoFar;
      RecordReclaim();
      Reclaim(ToIdle);
    }

    /** In offline mode the control thread plays the audio thread's part: afterwards no swap is in
        flight exactly when the pending one was the only one. */
    method Settle()
      requires At(Idle, Quiet)
      requires pending.Some?
      modifies this`nodes, this`started, this`active, this`pending, this`toControl, this`retire, this`held,
               this`registry, this`graphs, this`run
      ensures At(Idle, Quiet)
      ensures offline ==> (Empty() <==> old(toControl).None? && old(retire).None?)
      ensures !offline ==> unchanged(this)
    {
      hide Legal, Undisturbed, Exec, Init, NodesApplied, DestroyedSoFar, AfterApply, At;
      if offline {
        TwoApplies(Pointers(Idle, Quiet));
        var _ := AudioApply(Idle);
        var _ := AudioApply(Idle);
        ReclaimAlone();
      }
    }

    /** Publishes the edited model: the last snapshot is the model's. Online it is then the graph of
        the pending swap, and the swaps that were in flight have moved up. In offline mode, unless
        other swaps were in flight, it is the active graph and everything replaced is gone. */
    method CommitEdit()
      requires At(Exchanging(ToBuild), Quiet) && !halted
      modifies this
      ensures Valid() && offline == old(offline) && model == old(model) && created == old(created)
      ensures Published()
    {
      hide Legal, Undisturbed, Exec, Init, DestroyedSoFar, Settled, At, View, AfterWait;
      Reclaim(ToBuild);
      var w := Build();
      WaitShifts(Pointers(Spinning(w), Quiet));
      QueueSwap(w);
      Settle();
      SnapshotNow();
    }

    /** What an edit leaves behind. */
    twostate predicate Published()
      reads this
    {
      && lastSnapshot in graphs && graphs[lastSnapshot] == Snapshot(model, FLOAT_ONE)
      && (!offline ==>
            && pending.Some? && pending.value.newGraph == lastSnapshot
            && (retire.Some? <==> old(retire).Some? || old(pending).Some?)
            && (toControl.Some? <==> old(retire).Some? && old(pending).Some?))
      && (offline ==> (Empty() <==> old(retire).None? && old(pending).None?))
      && (Empty() ==> Settled(View(Idle, Quiet)))
    }

    ghost method SnapshotNow()
      requires At(Idle, Quiet)
      ensures lastSnapshot in graphs && graphs[lastSnapshot] == Snapshot(model, FLOAT_ONE)
      ensures Empty() ==> Settled(View(Idle, Quiet))
    {
      RunKeeps(run);
      hide Legal, Undisturbed, Exec, Init, Inv, Settled, Snapshot;
      LastIsModel(View(Idle, Quiet));
      if Empty() {
        SettledNow();
      }
    }

    ghost method SettledNow()
      requires At(Idle, Quiet) && Empty()
      ensures Settled(View(Idle, Quiet))
    {
      assert Reachable(View(Idle, Quiet));
      hide Reachable, Legal, Exec, Init, Settled;
      EmptyIsSettled(View(Idle, Quiet));
    }

    // -------------------------------------------------------------- edits

    constructor (answers: Answers)
      ensures willing == answers
      ensures Valid() && offline && model == [] && created == 0 && Empty()
      ensures Settled(View(Idle, Quiet))
    {
      var g := Materialize([], FLOAT_ONE);
      model, created, registry, offline := [], 0, [], true;
      active, lastSnapshot := 0, 0;
      pending, toControl, retire := None, None, None;
      graphs, nodes, made := map[0 := g], map[], 1;
      held, history, born, started, run, halted, willing := None, [NodeSet(g)], {}, {}, [], false, answers;
      new;
      hide Settled;
      SettledNow();
    }

    /** Switches between the two modes; swaps in flight stay where they are. */
    method SetOffline(b: bool)
      requires Valid()
      modifies this`offline
      ensures Valid() && offline == b
    {
      hide Legal, Undisturbed, Exec, Init;
      offline := b;
    }

    /** The edit e is about to change the model. */
    ghost method RecordEdit(e: Edit)
      requires At(Idle, Quiet)
      requires Edited(model, created, e).Some? && (NodeOf(e).Some? ==> NodeOf(e).value !in born)
      modifies this`run
      ensures Kept() && Exec(Init(), run) == BeginEdit(View(Idle, Quiet), e)
    {
      hide Legal, Undisturbed, Exec, Init, Inv, BeginEdit;
      Record(Step.Edit(e), View(Idle, Quiet));
    }

    /** What every edit operation promises: it is accepted exactly when `Edited` says so, and then
        the model is the edited one; a rejected edit changes nothing. */
    twostate predicate Did(e: Edit, ok: bool)
      reads this
    {
      && Valid() && offline == old(offline)
      && (ok <==> Edited(old(model), old(created), e).Some?)
      && (ok ==>
            && model == Edited(old(model), old(created), e).value
            && created == old(created) + (if e.CreateTrack? then 1 else 0)
            && Published())
      && (!ok ==> unchanged(this))
    }

    /** Hands the node of an accepted edit to the registry, changes the model and publishes it. */
    method Accept(e: Edit, after: seq<Track>)
      requires Valid() && Edited(model, created, e) == Some(after)
      requires NodeOf(e).Some? ==> NodeOf(e).value !in born
      modifies this
      ensures Valid() && offline == old(offline) && model == after
      ensures created == old(created) + (if e.CreateTrack? then 1 else 0)
      ensures Published()
    {
      hide Legal, Undisturbed, Exec, Init, Edited, Settled, At, View;
      if NodeOf(e).Some? {
        AdoptNode(e, after, NodeOf(e).value);
      } else {
        AdoptModel(e, after);
      }
      CommitEdit();
    }

    method AdoptModel(e: Edit, after: seq<Track>)
      requires At(Idle, Quiet) && Edited(model, created, e) == Some(after) && NodeOf(e).None?
      modifies this`created, this`model, this`run
      ensures At(Exchanging(ToBuild), Quiet) && model == after
      ensures created == old(created) + (if e.CreateTrack? then 1 else 0)
    {
      hide Legal, Undisturbed, Exec, Init, Edited, NodeOf;
      RecordEdit(e);
      if e.CreateTrack? {
        created := created + 1;
      }
      model := after;
    }

    method AdoptNode(e: Edit, after: seq<Track>, n: NodeId)
      requires At(Idle, Quiet) && Edited(model, created, e) == Some(after)
      requires NodeOf(e) == Some(n) && n !in born && !e.CreateTrack?
      modifies this`registry, this`nodes, this`born, this`model, this`run
      ensures At(Exchanging(ToBuild), Quiet) && model == after
    {
      hide Legal, Undisturbed, Exec, Init, Edited, NodeOf, BeginEdit;
      HandoverIs(View(Idle, Quiet), e, after, n);
      RecordEdit(e);
      registry := registry + [n];
      nodes := nodes[n := Activated];
      born := born + {n};
      model := after;
    }

    /** A full track list answers UINT32_MAX; so does, though it succeeds, the creation of the track
        whose id is that number. */
    method CreateTrack() returns (id: nat)
      requires Valid()
      modifies this
      ensures Did(Edit.CreateTrack, |old(model)| < MAX_TRACKS)
      ensures id == if |old(model)| < MAX_TRACKS then old(created) % TWO_32 else UINT32_MAX
    {
      hide Legal, Undisturbed, Exec, Init, Settled;
      if |model| >= MAX_TRACKS {
        return UINT32_MAX;
      }
      id := created % TWO_32;
      Accept(Edit.CreateTrack, model + [Track(id, None, [], FLOAT_ONE)]);
    }

    method DestroyTrack(trackId: nat) returns (ok: bool)
      requires Valid()
      modifies this
      ensures Did(Edit.DestroyTrack(trackId), ok)
    {
      hide Legal, Undisturbed, Exec, Init, Settled;
      var k := FindTrack(model, trackId);
      if k == |model| {
        return false;
      }
      Accept(Edit.DestroyTrack(trackId), model[..k] + model[k + 1..]);
      return true;
    }

    method SetTrackInstrument(trackId: nat, node: NodeId) returns (ok: bool)
      requires Valid() && node !in born
      modifies this
      ensures Did(Edit.SetInstrument(trackId, node), ok)
    {
      hide Legal, Undisturbed, Exec, Init, Settled;
      var k := FindTrack(model, trackId);
      if k == |model| {
        return false;
      }
      Accept(Edit.SetInstrument(trackId, node), model[k := model[k].(instrument := Some(node))]);
      return true;
    }

    method InsertEffect(trackId: nat, slot: int, node: NodeId) returns (ok: bool)
      requires Valid() && node !in born
      modifies this
      ensures Did(Edit.InsertEffect(trackId, slot, node), ok)
    {
      hide Legal, Undisturbed, Exec, Init, Settled;
      var k := FindTrack(model, trackId);
      if k == |model| || |model[k].chain| >= MAX_EFFECTS_PER_TRACK {
        return false;
      }
      var c := model[k].chain;
      var pos := if slot < 0 || slot > |c| then |c| else slot;
      Accept(Edit.InsertEffect(trackId, slot, node), model[k := model[k].(chain := c[..pos] + [node] + c[pos..])]);
      return true;
    }

    method RemoveEffect(trackId: nat, slot: int) returns (ok: bool)
      requires Valid()
      modifies this
      ensures Did(Edit.RemoveEffect(trackId, slot), ok)
    {
      hide Legal, Undisturbed, Exec, Init, Settled;
      var k := FindTrack(model, trackId);
      if k == |model| || slot < 0 || slot >= |model[k].chain| {
        return false;
      }
      var c := model[k].chain;
      Accept(Edit.RemoveEffect(trackId, slot), model[k := model[k].(chain := c[..slot] + c[slot + 1..])]);
      return true;
    }

    method SetTrackGain(trackId: nat, gain: Float) returns (ok: bool)
      requires Valid()
      modifies this
      ensures Did(Edit.SetGain(trackId, gain), ok)
    {
      hide Legal, Undisturbed, Exec, Init, Settled;
      var k := FindTrack(model, trackId);
      if k == |model| {
        return false;
      }
      Accept(Edit.SetGain(trackId, gain), model[k := model[k].(gain := gain)]);
      return true;
    }

    // -------------------------------------------------------------- teardown

    /** Stops every node that is still processing, in the audio thread's stead. */
    method StopAll()
      requires At(Idle, Quiet)
      modifies this`nodes, this`run, this`halted
      ensures At(Idle, Quiet)
      ensures forall n :: n in nodes <==> n in old(nodes)
      ensures forall n :: n in nodes ==> nodes[n] != Processing
    {
      hide Legal, Undisturbed, Exec, Init, Inv;
      NodesOwned();
      var i := 0;
      while i < |registry|
        invariant 0 <= i <= |registry|
        invariant At(Idle, Quiet)
        invariant forall n :: n in nodes <==> n in old(nodes)
        invariant forall n :: n in registry <==> n in nodes
        invariant forall j :: 0 <= j < i ==> registry[j] in nodes && nodes[registry[j]] != Processing
      {
        var n := registry[i];
        if nodes[n] == Processing {
          RecordHalt(n);
          StopProcessing(n);
        }
        i := i + 1;
      }
    }

    ghost method NodesOwned()
      requires At(Idle, Quiet)
      ensures NoDup(registry) && forall n :: n in registry <==> n in nodes
    {
      RunKeeps(run);
      hide Legal, Undisturbed, Exec, Init, Inv, NoDup;
      OwnersExist(View(Idle, Quiet));
    }

    ghost method RecordHalt(n: NodeId)
      requires At(Idle, Quiet) && n in nodes && nodes[n] == Processing
      modifies this`run, this`halted
      ensures Kept()
      ensures Exec(Init(), run) == View(Idle, Quiet).(nodes := nodes[n := Activated])
    {
      hide Legal, Undisturbed, Exec, Init, Inv;
      halted := true;
      Record(Halt(n), View(Idle, Quiet));
    }

    /** Clears the registry: every node that still exists is destroyed, once, and none while processing. */
    method DestroyAll()
      requires NoDup(registry) && forall n :: n in registry <==> n in nodes
      requires forall n :: n in nodes ==> nodes[n] != Processing
      modifies this`nodes, this`registry
      ensures registry == [] && nodes == map[]
    {
      while registry != []
        invariant NoDup(registry) && forall n :: n in registry <==> n in nodes
        invariant forall n :: n in nodes ==> nodes[n] != Processing
        decreases |registry|
      {
        var n := registry[0];
        assert n in nodes && nodes[n] != Processing;
        assert registry == [n] + registry[1..];
        NoDupSplit([n], registry[1..]);
        nodes := nodes - {n};
        registry := registry[1..];
      }
      assert forall n :: n !in nodes;
    }

    /** Deletes a graph, which must still be live. */
    method DeleteGraph(g: GraphId)
      requires g in graphs
      modifies this`graphs
      ensures graphs == old(graphs) - {g}
    {
      graphs := graphs - {g};
    }

    /** Drains the audio side with four calls of audio_apply, stops and destroys every node, and
        deletes the graphs it still points to. Nothing is freed twice in any state the audio thread
        can be at rest in. Every graph and every swap is freed exactly when at most one swap was in
        flight on entry; otherwise all but one of the swaps are left behind, and one graph, the old
        graph of the swap that is stuck in retire_. */
    method Teardown()
      requires Valid()
      modifies this
      ensures registry == [] && nodes == map[] && active == NO_GRAPH && lastSnapshot == NO_GRAPH
      ensures var n := InFlight(old(Pointers(Idle, Quiet)));
        && Count(pending) + Count(toControl) + Count(retire) == (if n <= 1 then 0 else n - 1)
        && (graphs == map[] <==> n <= 1)
        && (n >= 2 ==> retire.Some? && retire.value.oldGraph.Some? && graphs.Keys == {retire.value.oldGraph.value})
    {
      hide Legal, Undisturbed, Exec, Init, InFlight, NoDup, At, View, Pointers;
      DrainAudio();
      StopAll();
      ReclaimStopped();
      DestroyAll();
      DeleteGraphs();
    }

    /** The four calls, and where they leave the n swaps that were in flight. */
    method DrainAudio()
      requires At(Idle, Quiet)
      modifies this`nodes, this`started, this`active, this`pending, this`toControl, this`retire, this`held, this`run
      ensures At(Idle, Quiet)
      ensures var n := InFlight(old(Pointers(Idle, Quiet)));
        && n <= 3
        && (toControl.Some? <==> n >= 1) && (retire.Some? <==> n >= 2) && (pending.Some? <==> n == 3)
    {
      hide Legal, Undisturbed, Exec, Init, Inv, AfterApply, NodesApplied, InFlight, At;
      ghost var z := Pointers(Idle, Quiet);
      CoreNow();
      FourApplies(z);
      hide Core;
      var _ := AudioApply(Idle);
      var _ := AudioApply(Idle);
      var _ := AudioApply(Idle);
      var _ := AudioApply(Idle);
    }

    ghost method CoreNow()
      requires At(Idle, Quiet)
      ensures Core(Pointers(Idle, Quiet))
    {
      RunKeeps(run);
      hide Legal, Undisturbed, Exec, Init, Core;
      InvCore(View(Idle, Quiet));
    }

    method ReclaimStopped()
      requires At(Idle, Quiet) && forall n :: n in nodes ==> nodes[n] != Processing
      modifies this`toControl, this`registry, this`nodes, this`graphs, this`run
      ensures toControl.None? && NoDup(registry) && (forall n :: n in registry <==> n in nodes)
      ensures forall n :: n in nodes ==> nodes[n] != Processing
      ensures retire.Some? ==> retire.value.oldGraph == Some(active - 1)
      ensures 0 <= active - Count(retire) && lastSnapshot == active + Count(pending)
      ensures forall i :: i in graphs <==> active - Count(retire) <= i <= lastSnapshot
    {
      hide Legal, Undisturbed, Exec, Init, Inv;
      ReclaimAlone();
      RunKeeps(run);
      NodesOwned();
      GraphsAfterReclaim(View(Idle, Quiet));
    }

    method DeleteGraphs()
      requires 0 <= active - Count(retire) && lastSnapshot == active + Count(pending)
      requires forall i :: i in graphs <==> active - Count(retire) <= i <= lastSnapshot
      modifies this`graphs, this`active, this`lastSnapshot
      ensures active == NO_GRAPH && lastSnapshot == NO_GRAPH
      ensures graphs.Keys == if retire.Some? then {old(active) - 1} else {}
    {
      var g := active;
      if g != lastSnapshot {
        DeleteGraph(lastSnapshot);
      }
      DeleteGraph(g);
      active := NO_GRAPH;
      lastSnapshot := NO_GRAPH;
      forall i ensures i in graphs <==> retire.Some? && i == old(active) - 1 {
      }
      assert forall i :: i in graphs.Keys <==> i in graphs;
    }

    /** The destructor: tears down unless that has been done. */
    method Destroy()
      requires active != NO_GRAPH ==> Valid()
      modifies this
      ensures active == NO_GRAPH
      ensures old(active) == NO_GRAPH ==> unchanged(this)
      ensures old(active) != NO_GRAPH ==> registry == [] && nodes == map[]
    {
      if active != NO_GRAPH {
        Teardown();
      }
    }

    // -------------------------------------------------------------- look-ups

    /** find_node and locate read the model only. */
    method FindNode(trackId: nat, slot: int) returns (n: Option<NodeId>)
      ensures n == NodeAt(model, trackId, slot)
    {
      n := ResolveNode(GraphState(model, FLOAT_ONE), trackId, slot);
    }

    method LocateNode(n: NodeId) returns (place: Option<(nat, int)>)
      ensures place == Location(model, n)
    {
      place := Locate(model, n);
    }
  }
}
