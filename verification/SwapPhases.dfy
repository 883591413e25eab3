/** The lifecycle of plugin nodes during swaps: which nodes have been started, and which may still
    be processing. Stated, as in SwapContents, on the parts of a state. */
module SwapPhases {
  import opened Config
  import opened Graph
  import opened SwapProtocol
  import opened SwapOrder
  import opened SwapContents

  /** The nodes of the swap being applied on which start_processing has been called. */
  ghost function JustStarted(z: Slots): seq<NodeId> {
    match z.aud.pc
    case Starting(w, i) => if i <= |w.start| then w.start[..i] else []
    case Flipping(w) => w.start
    case _ => []
  }

  /** The nodes in retire_ that the audio thread has still to stop. */
  ghost function ToBeStopped(z: Slots): seq<NodeId> {
    if z.aud.retire.None? || z.aud.pc.HandingBack? then []
    else if z.aud.pc.Stopping? && z.aud.pc.i <= |z.aud.retire.value.stop| then z.aud.retire.value.stop[z.aud.pc.i..]
    else z.aud.retire.value.stop
  }

  /** Only nodes of graphs that have been activated, or are just being started, were ever started. */
  ghost predicate StartedOnce(z: Slots, h: seq<set<NodeId>>, started: set<NodeId>, born: set<NodeId>) {
    forall x :: x in started ==> x in born && (x in JustStarted(z) || InSome(h, 0, z.box.active, x))
  }

  ghost predicate MayProcess(z: Slots, h: seq<set<NodeId>>, x: NodeId) {
    || (0 <= z.box.active < |h| && x in h[z.box.active])
    || x in JustStarted(z)
    || x in ToBeStopped(z)
  }

  ghost predicate States(z: Slots, h: seq<set<NodeId>>, nodes: map<NodeId, NodeState>, started: set<NodeId>) {
    forall x :: x in nodes ==>
      && nodes[x] != Created
      && (x !in started ==> nodes[x] == Activated)
      && (nodes[x] == Processing ==> MayProcess(z, h, x))
  }

  // ---------------------------------------------------------------- starting

  /** A node about to be started has never been started. */
  lemma NeverStarted(z: Slots, h: seq<set<NodeId>>, m: set<NodeId>, started: set<NodeId>, born: set<NodeId>)
    requires Core(z) && Lists(z, h) && GoesForGood(h, m) && StartedOnce(z, h, started, born)
    requires z.aud.pc.Starting? && z.aud.pc.i < |z.aud.pc.s.start|
    ensures z.aud.pc.s.start[z.aud.pc.i] !in started
  {
    var w, i := z.aud.pc.s, z.aud.pc.i;
    var n := w.start[i];
    assert n !in w.start[..i];
    assert n in h[z.box.active + 1] && n !in h[z.box.active];
    NotBefore(h, m, z.box.active, n);
  }

  /** A node that enters with graph k + 1 is in no graph up to k. */
  lemma NotBefore(h: seq<set<NodeId>>, m: set<NodeId>, k: int, n: NodeId)
    requires GoesForGood(h, m) && 0 <= k < |h| - 1 && n in h[k + 1] && n !in h[k]
    ensures !InSome(h, 0, k, n)
  {
    forall i | 0 <= i <= k ensures n !in h[i] {
    }
  }

  lemma StartRecorded(z: Slots, h: seq<set<NodeId>>, started: set<NodeId>, born: set<NodeId>, n: NodeId)
    requires StartedOnce(z, h, started, born) && n in born
    requires z.aud.pc.Starting? && z.aud.pc.i < |z.aud.pc.s.start| && n == z.aud.pc.s.start[z.aud.pc.i]
    ensures StartedOnce(AudioSlots(z), h, started + {n}, born)
  {
    StartGrows(z);
  }

  lemma StartGrows(z: Slots)
    requires z.aud.pc.Starting? && z.aud.pc.i < |z.aud.pc.s.start|
    ensures forall x :: x in JustStarted(AudioSlots(z)) <==> x in JustStarted(z) || x == z.aud.pc.s.start[z.aud.pc.i]
    ensures AudioSlots(z).box.active == z.box.active && ToBeStopped(AudioSlots(z)) == ToBeStopped(z)
  {
    var w, i := z.aud.pc.s, z.aud.pc.i;
    assert w.start[..i + 1] == w.start[..i] + [w.start[i]];
  }

  lemma StartStates(z: Slots, h: seq<set<NodeId>>, nodes: map<NodeId, NodeState>, started: set<NodeId>, accepts: bool)
    requires States(z, h, nodes, started)
    requires z.aud.pc.Starting? && z.aud.pc.i < |z.aud.pc.s.start|
    ensures var n := z.aud.pc.s.start[z.aud.pc.i];
      States(AudioSlots(z), h, if accepts then nodes[n := Processing] else nodes, started + {n})
  {
    StartGrows(z);
  }

  // ---------------------------------------------------------------- stopping

  function Stopped(nodes: map<NodeId, NodeState>, n: NodeId): map<NodeId, NodeState> {
    if n in nodes && nodes[n] == Processing then nodes[n := Activated] else nodes
  }

  lemma StopStates(z: Slots, h: seq<set<NodeId>>, nodes: map<NodeId, NodeState>, started: set<NodeId>)
    requires States(z, h, nodes, started)
    requires z.aud.retire.Some? && z.aud.pc.Stopping? && z.aud.pc.i < |z.aud.retire.value.stop|
    ensures States(AudioSlots(z), h, Stopped(nodes, z.aud.retire.value.stop[z.aud.pc.i]), started)
  {
    var stop, i := z.aud.retire.value.stop, z.aud.pc.i;
    var z' := AudioSlots(z);
    assert stop[i..] == [stop[i]] + stop[i + 1..];
    assert forall x :: x in ToBeStopped(z) <==> x == stop[i] || x in ToBeStopped(z');
    assert JustStarted(z') == JustStarted(z);
  }

  lemma HaltStates(z: Slots, h: seq<set<NodeId>>, nodes: map<NodeId, NodeState>, started: set<NodeId>, n: NodeId)
    requires States(z, h, nodes, started)
    ensures States(z, h, Stopped(nodes, n), started)
  {
  }

  // ---------------------------------------------------------------- moving pointers

  /** An audio step that touches no node keeps every node's reason to be processing. */
  lemma MovedStates(z: Slots, h: seq<set<NodeId>>, nodes: map<NodeId, NodeState>, started: set<NodeId>)
    requires Core(z) && Lists(z, h) && States(z, h, nodes, started)
    requires AudioAccess(z, true).Nothing?
    ensures States(AudioSlots(z), h, nodes, started)
  {
    forall x | MayProcess(z, h, x) ensures MayProcess(AudioSlots(z), h, x) {
      if z.aud.pc.Flipping? { FlipMay(z, h, x); } else { MovedMay(z, h); }
    }
  }

  lemma FlipMay(z: Slots, h: seq<set<NodeId>>, x: NodeId)
    requires Core(z) && Lists(z, h) && z.aud.pc.Flipping? && MayProcess(z, h, x)
    ensures MayProcess(AudioSlots(z), h, x)
  {
    var z' := AudioSlots(z);
    assert ToBeStopped(z') == z.aud.pc.s.stop;
  }

  lemma MovedMay(z: Slots, h: seq<set<NodeId>>)
    requires Core(z) && AudioAccess(z, true).Nothing? && !z.aud.pc.Flipping?
    ensures AudioSlots(z).box.active == z.box.active
    ensures JustStarted(AudioSlots(z)) == JustStarted(z)
    ensures ToBeStopped(AudioSlots(z)) == ToBeStopped(z)
  {
    match z.aud.pc
    case Entered =>
      if z.aud.retire.Some? { assert z.aud.retire.value.stop[0..] == z.aud.retire.value.stop; }
    case Stopping(i) => assert z.aud.retire.value.stop[i..] == [];
    case Taking =>
      if z.box.pending.Some? { assert z.box.pending.value.start[..0] == []; }
    case Starting(w, i) => assert w.start[..i] == w.start;
    case _ =>
  }

  lemma MovedStarted(z: Slots, h: seq<set<NodeId>>, started: set<NodeId>, born: set<NodeId>)
    requires Core(z) && Lists(z, h) && StartedOnce(z, h, started, born)
    requires !AudioAccess(z, true).Start?
    ensures StartedOnce(AudioSlots(z), h, started, born)
  {
    if z.aud.pc.Flipping? {
      forall x | x in started ensures InSome(h, 0, z.box.active + 1, x) {
        if x in z.aud.pc.s.start { assert x in h[z.box.active + 1]; }
      }
    } else if AudioAccess(z, true).Nothing? {
      MovedMay(z, h);
    }
  }

  // ---------------------------------------------------------------- control steps

  lemma ControlMay(z: Slots, start: seq<int>, stop: seq<int>)
    requires Core(z)
    ensures var z' := ControlSlots(z, start, stop);
      z'.box.active == z.box.active && JustStarted(z') == JustStarted(z) && ToBeStopped(z') == ToBeStopped(z)
  {
  }

  /** A node about to be destroyed is not processing. */
  lemma DestroyedIsStopped(z: Slots, h: seq<set<NodeId>>, m: set<NodeId>, nodes: map<NodeId, NodeState>,
        started: set<NodeId>)
    requires Core(z) && Lists(z, h) && GoesForGood(h, m) && States(z, h, nodes, started) && |h| == z.ctl.made
    requires z.ctl.pc.Destroying? && z.ctl.pc.i < |z.ctl.pc.r.stop| && z.ctl.pc.r.stop[z.ctl.pc.i] in nodes
    ensures nodes[z.ctl.pc.r.stop[z.ctl.pc.i]] != Processing
  {
    var n := z.ctl.pc.r.stop[z.ctl.pc.i];
    NotProcessing(z, h, m, n);
  }

  lemma NotProcessing(z: Slots, h: seq<set<NodeId>>, m: set<NodeId>, n: NodeId)
    requires Core(z) && Lists(z, h) && GoesForGood(h, m) && |h| == z.ctl.made
    requires Reclaiming(z) && n in z.ctl.pc.r.stop
    ensures !MayProcess(z, h, n)
  {
    var r := z.ctl.pc.r;
    StoppedForGood(h, m, r, n);
    assert !InSome(h, r.newGraph, |h|, n);
    assert r.newGraph == First(z);
    if z.aud.retire.Some? {
      assert forall x :: x in ToBeStopped(z) ==> x in z.aud.retire.value.stop;
      assert forall x :: x in z.aud.retire.value.stop ==> x in h[z.box.active - 1];
    }
    if TakenUp(z) {
      assert forall x :: x in JustStarted(z) ==> x in z.aud.pc.s.start;
      assert forall x :: x in z.aud.pc.s.start ==> x in h[z.box.active + 1];
    }
  }

  lemma SomeKept(h: seq<set<NodeId>>, m: set<NodeId>, to: int)
    requires to < |h|
    ensures forall x :: InSome(h + [m], 0, to, x) <==> InSome(h, 0, to, x)
  {
    assert forall i :: 0 <= i < |h| ==> (h + [m])[i] == h[i];
  }

  /** Making one more graph changes nothing for nodes started or processing. */
  lemma PhasesGrow(z: Slots, h: seq<set<NodeId>>, m: set<NodeId>, nodes: map<NodeId, NodeState>,
        started: set<NodeId>, born: set<NodeId>)
    requires Core(z) && |h| == z.ctl.made && StartedOnce(z, h, started, born) && States(z, h, nodes, started)
    ensures StartedOnce(z, h + [m], started, born) && States(z, h + [m], nodes, started)
  {
    SomeKept(h, m, z.box.active);
    assert (h + [m])[z.box.active] == h[z.box.active];
  }
}
