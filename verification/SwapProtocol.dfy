/** The two-thread graph swap as interleaved atomic steps (src/graph_swap.cpp, src/graph_swap.h).

    One step is one atomic load, store or exchange, together with the thread-private code up to it,
    or one access to a plugin node or a graph. Each thread has a program counter that also carries
    its local variables. Nodes and graphs have identities that are never reused, so that touching
    something already freed, freeing it twice, or failing one of the two lifecycle assertions is
    expressible: such an access sets `ub`. */
module SwapProtocol {
  import opened Config
  import opened Graph
  import opened TrackEdits

  /** Graphs are numbered in the order in which they are made. */
  type GraphId = int

  datatype NodeState = Created | Activated | Processing

  datatype Swap = Swap(newGraph: GraphId, oldGraph: Option<GraphId>, start: seq<NodeId>, stop: seq<NodeId>)

  /** What follows `reclaim`: the rest of `commit_edit`, or nothing. */
  datatype Cont = ToBuild | ToIdle

  datatype ControlPc =
    | Idle
    | Exchanging(cont: Cont)              // reclaim: about to exchange to_control_
    | Destroying(r: Swap, i: nat, cont: Cont)
    | Freeing(r: Swap, cont: Cont)
    | Building                            // commit_edit: materialise and diff
    | Spinning(s: Swap)                   // queue_swap: loading pending_swap_
    | Posting(s: Swap)                    // queue_swap: about to store pending_swap_

  datatype AudioPc =
    | Quiet                               // between two calls of audio_apply
    | Entered
    | Stopping(i: nat)
    | HandingBack                         // about to store to_control_
    | Taking                              // about to exchange pending_swap_
    | Starting(s: Swap, i: nat)
    | Flipping(s: Swap)
    | Leaving

  /** The pointers of AudioGraph and the two program counters; `held` is what the last
      audio_apply returned, `made` the number of graphs made so far. */
  datatype Slots = Slots(ctl: Control, box: Mailboxes, aud: Audio) {
    function ControlAt(pc: ControlPc): Slots {
      this.(ctl := ctl.(pc := pc))
    }

    function AudioAt(pc: AudioPc): Slots {
      this.(aud := aud.(pc := pc))
    }
  }

  /** Private to the control thread. */
  datatype Control = Control(made: nat, lastSnapshot: GraphId, pc: ControlPc)

  /** The atomics. */
  datatype Mailboxes = Mailboxes(active: GraphId, pending: Option<Swap>, toControl: Option<Swap>)

  /** Private to the audio thread. */
  datatype Audio = Audio(retire: Option<Swap>, held: Option<GraphId>, pc: AudioPc)

  datatype State = State(
    slots: Slots,
    model: seq<Track>, created: nat,
    registry: seq<NodeId>,                                             // node_registry_
    graphs: map<GraphId, GraphState>, nodes: map<NodeId, NodeState>,   // live objects
    history: seq<set<NodeId>>,       // the nodes of every graph ever made
    born: set<NodeId>, started: set<NodeId>,
    ub: bool)

  datatype Step =
    | Edit(e: Edit)          // an accepted edit changes the model and enters commit_edit
    | Reclaim                // a call of reclaim on its own
    | Proceed                // the next step of the control operation under way
    | Enter                  // audio_apply is called
    | Turn(accepts: bool)    // its next step; `accepts` is the plugin's answer to start_processing
    | Render                 // the audio thread reads the graph it was last given
    | Halt(n: NodeId)        // teardown stops a node, in the audio thread's stead

  // ---------------------------------------------------------------- pointers

  function After(c: Cont): ControlPc {
    if c.ToBuild? then Building else Idle
  }

  /** The pointers after the control thread's next step; `start` and `stop` are the lists that
      commit_edit computes. */
  function ControlSlots(z: Slots, start: seq<NodeId>, stop: seq<NodeId>): Slots {
    match z.ctl.pc
    case Idle => z
    case Exchanging(c) =>
      if z.box.toControl.None? then z.ControlAt(After(c))
      else z.(box := z.box.(toControl := None)).ControlAt(Destroying(z.box.toControl.value, 0, c))
    case Destroying(r, i, c) =>
      if i < |r.stop| then z.ControlAt(Destroying(r, i + 1, c)) else z.ControlAt(Freeing(r, c))
    case Freeing(r, c) => z.ControlAt(After(c))
    case Building => z.(ctl := Control(z.ctl.made + 1, z.ctl.lastSnapshot, Spinning(Swap(z.ctl.made, None, start, stop))))
    case Spinning(w) => if z.box.pending.Some? then z else z.ControlAt(Posting(w))
    case Posting(w) => z.(box := z.box.(pending := Some(w)), ctl := z.ctl.(lastSnapshot := w.newGraph, pc := Idle))
  }

  /** The pointers after the audio thread's next step. */
  function AudioSlots(z: Slots): Slots {
    match z.aud.pc
    case Quiet => z
    case Entered =>
      if z.aud.retire.None? then z.AudioAt(Taking)
      else if z.box.toControl.None? then z.AudioAt(Stopping(0))
      else z.AudioAt(Leaving)
    case Stopping(i) =>
      if z.aud.retire.Some? && i < |z.aud.retire.value.stop| then z.AudioAt(Stopping(i + 1))
      else z.AudioAt(HandingBack)
    case HandingBack => z.(box := z.box.(toControl := z.aud.retire), aud := z.aud.(retire := None, pc := Taking))
    case Taking =>
      if z.box.pending.None? then z.AudioAt(Leaving)
      else z.(box := z.box.(pending := None)).AudioAt(Starting(z.box.pending.value, 0))
    case Starting(w, i) =>
      if i < |w.start| then z.AudioAt(Starting(w, i + 1)) else z.AudioAt(Flipping(w))
    case Flipping(w) =>
      z.(box := z.box.(active := w.newGraph),
         aud := z.aud.(retire := Some(w.(oldGraph := Some(z.box.active))), pc := Leaving))
    case Leaving => z.(aud := z.aud.(held := Some(z.box.active), pc := Quiet))
  }

  // ---------------------------------------------------------------- objects

  /** What a step does to a node or a graph. */
  datatype Access =
    | Nothing
    | Destroy(n: NodeId)
    | Free(g: Option<GraphId>)
    | Make
    | Start(n: NodeId, accepts: bool)
    | Stop(n: NodeId)

  function ControlAccess(z: Slots): Access {
    match z.ctl.pc
    case Destroying(r, i, _) => if i < |r.stop| then Destroy(r.stop[i]) else Nothing
    case Freeing(r, _) => Free(r.oldGraph)
    case Building => Make
    case _ => Nothing
  }

  function AudioAccess(z: Slots, accepts: bool): Access {
    match z.aud.pc
    case Stopping(i) =>
      if z.aud.retire.Some? && i < |z.aud.retire.value.stop| then Stop(z.aud.retire.value.stop[i]) else Nothing
    case Starting(w, i) => if i < |w.start| then Start(w.start[i], accepts) else Nothing
    case _ => Nothing
  }

  /** Erasing a node's owner from the registry, which runs the node's destructor; a node without an
      owner is left alone. */
  function Without(registry: seq<NodeId>, n: NodeId): seq<NodeId> {
    var k := IndexOf(registry, n);
    if k == |registry| then registry else registry[..k] + registry[k + 1..]
  }

  function Touch(s: State, a: Access): State {
    match a
    case Nothing => s
    case Destroy(n) =>
      if n !in s.registry then s
      else s.(registry := Without(s.registry, n), nodes := s.nodes - {n},
              ub := s.ub || n !in s.nodes || s.nodes[n] == Processing)
    case Free(g) =>
      if g.None? then s
      else s.(graphs := s.graphs - {g.value}, ub := s.ub || g.value !in s.graphs)
    case Make =>
      var g := Snapshot(s.model, FLOAT_ONE);
      s.(graphs := s.graphs[s.slots.ctl.made := g], history := s.history + [NodeSet(g)],
         ub := s.ub || s.slots.ctl.lastSnapshot !in s.graphs)
    case Start(n, accepts) =>
      if n !in s.nodes then s.(ub := true)
      else s.(nodes := if accepts then s.nodes[n := Processing] else s.nodes,
              started := s.started + {n},
              ub := s.ub || s.nodes[n] != Activated)
    case Stop(n) =>
      if n !in s.nodes then s.(ub := true)
      else if s.nodes[n] == Processing then s.(nodes := s.nodes[n := Activated])
      else s
  }

  /** The start and stop lists of commit_edit: the new snapshot against the last one. */
  function StartList(s: State): seq<NodeId> {
    Minus(Nodes(Snapshot(s.model, FLOAT_ONE)), LastNodes(s))
  }

  function StopList(s: State): seq<NodeId> {
    Minus(LastNodes(s), Nodes(Snapshot(s.model, FLOAT_ONE)))
  }

  function LastNodes(s: State): seq<NodeId> {
    if s.slots.ctl.lastSnapshot in s.graphs then Nodes(s.graphs[s.slots.ctl.lastSnapshot]) else []
  }

  predicate Readable(s: State, g: GraphId) {
    g in s.graphs && forall n :: n in Nodes(s.graphs[g]) ==> n in s.nodes
  }

  // ---------------------------------------------------------------- steps

  predicate Enabled(s: State, step: Step) {
    match step
    case Edit(e) =>
      && s.slots.ctl.pc.Idle?
      && Edited(s.model, s.created, e).Some?
      && (NodeOf(e).Some? ==> NodeOf(e).value !in s.born)
    case Reclaim => s.slots.ctl.pc.Idle?
    case Proceed => !s.slots.ctl.pc.Idle?
    case Enter => s.slots.aud.pc.Quiet?
    case Turn(_) => !s.slots.aud.pc.Quiet?
    case Render => s.slots.aud.pc.Quiet? && s.slots.aud.held.Some?
    case Halt(n) => s.slots.ctl.pc.Idle? && s.slots.aud.pc.Quiet? && n in s.nodes
  }

  function Next(s: State, step: Step): State
    requires Enabled(s, step)
  {
    match step
    case Edit(e) => BeginEdit(s, e)
    case Reclaim => s.(slots := s.slots.ControlAt(Exchanging(ToIdle)))
    case Proceed => ControlStep(s)
    case Enter => s.(slots := s.slots.AudioAt(Entered))
    case Turn(accepts) => AudioStep(s, accepts)
    case Render => s.(ub := s.ub || !Readable(s, s.slots.aud.held.value))
    case Halt(n) => Touch(s, Stop(n))
  }

  function ControlStep(s: State): State {
    Touch(s, ControlAccess(s.slots)).(slots := ControlSlots(s.slots, StartList(s), StopList(s)))
  }

  function AudioStep(s: State, accepts: bool): State {
    Touch(s, AudioAccess(s.slots, accepts)).(slots := AudioSlots(s.slots))
  }

  function BeginEdit(s: State, e: Edit): State
    requires Edited(s.model, s.created, e).Some?
  {
    var s' := s.(model := Edited(s.model, s.created, e).value,
                 created := if e.CreateTrack? then s.created + 1 else s.created,
                 slots := s.slots.ControlAt(Exchanging(ToBuild)));
    match NodeOf(e)
    case None => s'
    case Some(n) => s'.(registry := s.registry + [n], nodes := s.nodes[n := Activated], born := s.born + {n})
  }

  // ---------------------------------------------------------------- runs

  /** The state the constructor leaves: the empty graph is active. */
  function Init(): State {
    var g := Snapshot([], FLOAT_ONE);
    State(Slots(Control(1, 0, Idle), Mailboxes(0, None, None), Audio(None, None, Quiet)),
          [], 0, [], map[0 := g], map[], [NodeSet(g)], {}, {}, false)
  }

  /** Every step of the run is enabled where it is taken. */
  ghost predicate Legal(s: State, run: seq<Step>)
    decreases |run|, 0
  {
    run == [] ||
    (var front := run[..|run| - 1];
     Legal(s, front) && Enabled(Exec(s, front), run[|run| - 1]))
  }

  /** The state after a legal run. */
  ghost function Exec(s: State, run: seq<Step>): State
    requires Legal(s, run)
    decreases |run|, 1
  {
    if run == [] then s
    else Next(Exec(s, run[..|run| - 1]), run[|run| - 1])
  }

  lemma ExecSnoc(s: State, run: seq<Step>, step: Step)
    requires Legal(s, run) && Enabled(Exec(s, run), step)
    ensures Legal(s, run + [step]) && Exec(s, run + [step]) == Next(Exec(s, run), step)
  {
    assert (run + [step])[..|run|] == run;
  }
}
