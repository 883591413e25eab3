/** The control thread's track model, the edits on it and its snapshot
    (src/graph_swap.cpp, everything but the swap protocol). */
module TrackEdits {
  import opened Config
  import opened Graph

  datatype Edit =
    | CreateTrack
    | DestroyTrack(trackId: nat)
    | SetInstrument(trackId: nat, node: NodeId)
    | InsertEffect(trackId: nat, slot: int, node: NodeId)
    | RemoveEffect(trackId: nat, slot: int)
    | SetGain(trackId: nat, gain: Float)

  /** The node an edit hands over to the graph, if any. */
  function NodeOf(e: Edit): Option<NodeId> {
    match e
    case SetInstrument(_, n) => Some(n)
    case InsertEffect(_, _, n) => Some(n)
    case _ => None
  }

  /** Where an effect goes: a slot that is negative or past the end means the end. */
  function InsertPos(slot: int, len: nat): (pos: nat)
    ensures pos <= len
  {
    if slot < 0 || slot > len then len else slot
  }

  /** The track model after an edit, or None when the edit is rejected. `created` counts the
      tracks made so far; the 32-bit id counter holds its residue. */
  function Edited(model: seq<Track>, created: nat, e: Edit): Option<seq<Track>> {
    match e
    case CreateTrack =>
      if |model| >= MAX_TRACKS then None
      else Some(model + [Track(created % TWO_32, None, [], FLOAT_ONE)])
    case DestroyTrack(id) =>
      var k := TrackIndex(model, id);
      if k == |model| then None else Some(model[..k] + model[k + 1..])
    case SetInstrument(id, n) =>
      var k := TrackIndex(model, id);
      if k == |model| then None else Some(model[k := model[k].(instrument := Some(n))])
    case InsertEffect(id, slot, n) =>
      var k := TrackIndex(model, id);
      if k == |model| || |model[k].chain| >= MAX_EFFECTS_PER_TRACK then None
      else
        var c := model[k].chain;
        var pos := InsertPos(slot, |c|);
        Some(model[k := model[k].(chain := c[..pos] + [n] + c[pos..])])
    case RemoveEffect(id, slot) =>
      var k := TrackIndex(model, id);
      if k == |model| || slot < 0 || slot >= |model[k].chain| then None
      else
        var c := model[k].chain;
        Some(model[k := model[k].(chain := c[..slot] + c[slot + 1..])])
    case SetGain(id, gain) =>
      var k := TrackIndex(model, id);
      if k == |model| then None else Some(model[k := model[k].(gain := gain)])
  }

  /** The fixed-size copy of a track. */
  function Clipped(t: Track): Track {
    t.(chain := t.chain[..Min(MAX_EFFECTS_PER_TRACK, |t.chain|)])
  }

  function ClippedTracks(model: seq<Track>): (r: seq<Track>)
    ensures |r| == |model|
    ensures forall i :: 0 <= i < |r| ==> r[i] == Clipped(model[i])
  {
    seq(|model|, i requires 0 <= i < |model| => Clipped(model[i]))
  }

  /** The snapshot of a model: at most MAX_TRACKS tracks of at most MAX_EFFECTS_PER_TRACK effects. */
  function Snapshot(model: seq<Track>, master: Float): GraphState {
    GraphState(ClippedTracks(model[..Min(MAX_TRACKS, |model|)]), master)
  }

  method Materialize(model: seq<Track>, master: Float) returns (g: GraphState)
    ensures g == Snapshot(model, master)
  {
    var tracks: seq<Track> := [];
    var i := 0;
    while i < |model| && |tracks| < MAX_TRACKS
      invariant 0 <= i == |tracks| <= Min(MAX_TRACKS, |model|)
      invariant tracks == ClippedTracks(model[..i])
    {
      var tm := model[i];
      var chain: seq<NodeId> := [];
      var s := 0;
      while s < |tm.chain|
        invariant 0 <= s <= |tm.chain|
        invariant chain == tm.chain[..Min(MAX_EFFECTS_PER_TRACK, s)]
      {
        if |chain| < MAX_EFFECTS_PER_TRACK {
          chain := chain + [tm.chain[s]];
        }
        s := s + 1;
      }
      assert model[..i + 1][..i] == model[..i];
      tracks := tracks + [Track(tm.id, tm.instrument, chain, tm.gain)];
      i := i + 1;
    }
    return GraphState(tracks, master);
  }

  // ---------------------------------------------------------------- what edits keep

  /** Nothing is cut off a model that edits produced. */
  lemma NothingTruncated(model: seq<Track>, master: Float)
    requires Bounded(model)
    ensures Snapshot(model, master) == GraphState(model, master)
  {
    assert model[..Min(MAX_TRACKS, |model|)] == model;
    forall i | 0 <= i < |model| ensures Clipped(model[i]) == model[i] {
      assert model[i].chain[..|model[i].chain|] == model[i].chain;
    }
    assert ClippedTracks(model) == model;
  }

  lemma EditKeepsBounded(model: seq<Track>, created: nat, e: Edit)
    requires Bounded(model) && Edited(model, created, e).Some?
    ensures Bounded(Edited(model, created, e).value)
  {
  }

  /** The audio thread resolves an address in the snapshot to the node that the control thread
      finds under the same address in the model. */
  lemma SnapshotAgrees(model: seq<Track>, master: Float, trackId: nat, slot: int)
    requires Bounded(model)
    ensures NodeAt(Snapshot(model, master).tracks, trackId, slot) == NodeAt(model, trackId, slot)
  {
    NothingTruncated(model, master);
  }

  /** Replacing the nodes of one track by others drawn from them and from one new node. */
  lemma ReplaceRun(pre: seq<NodeId>, run: seq<NodeId>, post: seq<NodeId>, run': seq<NodeId>, extra: Option<NodeId>)
    requires NoDup(pre + run + post) && NoDup(run')
    requires forall x :: x in run' ==> x in run || extra == Some(x)
    requires extra.Some? ==> extra.value !in pre + run + post
    ensures NoDup(pre + run' + post)
    ensures forall x :: x in pre + run' + post ==> x in pre + run + post || extra == Some(x)
  {
    NoDupSplit(pre + run, post);
    NoDupSplit(pre, run);
    forall x | x in run' ensures x !in pre && x !in post {
      if x in run { assert x in pre + run; }
    }
    NoDupJoin(pre, run');
    NoDupJoin(pre + run', post);
  }

  /** What `ReplaceRun` says, for a model with track k replaced. */
  lemma ReplaceTrack(model: seq<Track>, k: nat, t: Track, extra: Option<NodeId>)
    requires k < |model| && NoDup(AllNodes(model)) && NoDup(TrackNodes(t))
    requires forall x :: x in TrackNodes(t) ==> x in TrackNodes(model[k]) || extra == Some(x)
    requires extra.Some? ==> extra.value !in AllNodes(model)
    ensures NoDup(AllNodes(model[k := t]))
    ensures forall x :: x in AllNodes(model[k := t]) ==> x in AllNodes(model) || extra == Some(x)
    ensures forall x :: x in TrackNodes(t) ==> x in AllNodes(model[k := t])
  {
    var after := model[k := t];
    AllNodesAt(model, k);
    AllNodesAt(after, k);
    assert after[..k] == model[..k] && after[k + 1..] == model[k + 1..];
    ReplaceRun(AllNodes(model[..k]), TrackNodes(model[k]), AllNodes(model[k + 1..]), TrackNodes(t), extra);
  }

  lemma InsertedRun(t: Track, pos: nat, n: NodeId)
    requires pos <= |t.chain| && NoDup(TrackNodes(t)) && n !in TrackNodes(t)
    ensures var t' := t.(chain := t.chain[..pos] + [n] + t.chain[pos..]);
      NoDup(TrackNodes(t')) && n in TrackNodes(t') && forall x :: x in TrackNodes(t') ==> x in TrackNodes(t) || x == n
  {
    var head := if t.instrument.Some? then [t.instrument.value] else [];
    var pre, post := head + t.chain[..pos], t.chain[pos..];
    assert pre + post == TrackNodes(t);
    NoDupSplit(pre, post);
    NoDupJoin(pre, [n]);
    NoDupJoin(pre + [n], post);
    assert pre + [n] + post == TrackNodes(t.(chain := t.chain[..pos] + [n] + t.chain[pos..]));
  }

  lemma RemovedRun(t: Track, pos: nat)
    requires pos < |t.chain| && NoDup(TrackNodes(t))
    ensures var t' := t.(chain := t.chain[..pos] + t.chain[pos + 1..]);
      NoDup(TrackNodes(t')) && forall x :: x in TrackNodes(t') ==> x in TrackNodes(t)
  {
    var head := if t.instrument.Some? then [t.instrument.value] else [];
    var pre, post := head + t.chain[..pos], t.chain[pos + 1..];
    assert pre + [t.chain[pos]] + post == TrackNodes(t);
    NoDupSplit(pre + [t.chain[pos]], post);
    NoDupSplit(pre, [t.chain[pos]]);
    NoDupJoin(pre, post);
    assert pre + post == TrackNodes(t.(chain := t.chain[..pos] + t.chain[pos + 1..]));
  }

  lemma InstrumentRun(t: Track, n: NodeId)
    requires NoDup(TrackNodes(t)) && n !in TrackNodes(t)
    ensures var t' := t.(instrument := Some(n));
      NoDup(TrackNodes(t')) && n in TrackNodes(t') && forall x :: x in TrackNodes(t') ==> x in TrackNodes(t) || x == n
  {
    var head := if t.instrument.Some? then [t.instrument.value] else [];
    NoDupSplit(head, t.chain);
    NoDupJoin([n], t.chain);
  }

  /** An edit with a brand-new node brings that node in and no other, and repeats none. */
  lemma EditNodes(model: seq<Track>, created: nat, e: Edit)
    requires NoDup(AllNodes(model)) && Edited(model, created, e).Some?
    requires NodeOf(e).Some? ==> NodeOf(e).value !in AllNodes(model)
    ensures var after := Edited(model, created, e).value;
      && NoDup(AllNodes(after))
      && (forall x :: x in AllNodes(after) ==> x in AllNodes(model) || NodeOf(e) == Some(x))
      && (NodeOf(e).Some? ==> NodeOf(e).value in AllNodes(after))
  {
    if e.CreateTrack? {
      CreatedNodes(model, created);
    } else if e.DestroyTrack? {
      DestroyedNodes(model, TrackIndex(model, e.trackId));
    } else {
      ChangedNodes(model, created, e);
    }
  }

  lemma CreatedNodes(model: seq<Track>, created: nat)
    ensures AllNodes(model + [Track(created % TWO_32, None, [], FLOAT_ONE)]) == AllNodes(model)
  {
    var t := Track(created % TWO_32, None, [], FLOAT_ONE);
    AllNodesAppend(model, [t]);
    AllNodesOne(t);
  }

  lemma DestroyedNodes(model: seq<Track>, k: nat)
    requires k < |model| && NoDup(AllNodes(model))
    ensures var after := model[..k] + model[k + 1..];
      NoDup(AllNodes(after)) && forall x :: x in AllNodes(after) ==> x in AllNodes(model)
  {
    AllNodesAt(model, k);
    AllNodesAppend(model[..k], model[k + 1..]);
    var pre, run, post := AllNodes(model[..k]), TrackNodes(model[k]), AllNodes(model[k + 1..]);
    NoDupSplit(pre + run, post);
    NoDupSplit(pre, run);
    forall x | x in pre ensures x !in post { assert x in pre + run; }
    NoDupJoin(pre, post);
  }

  lemma ChangedNodes(model: seq<Track>, created: nat, e: Edit)
    requires !e.CreateTrack? && !e.DestroyTrack?
    requires NoDup(AllNodes(model)) && Edited(model, created, e).Some?
    requires NodeOf(e).Some? ==> NodeOf(e).value !in AllNodes(model)
    ensures var after := Edited(model, created, e).value;
      && NoDup(AllNodes(after))
      && (forall x :: x in AllNodes(after) ==> x in AllNodes(model) || NodeOf(e) == Some(x))
      && (NodeOf(e).Some? ==> NodeOf(e).value in AllNodes(after))
  {
    var k := TrackIndex(model, e.trackId);
    var t := model[k];
    AllNodesAt(model, k);
    TrackNoDup(model, k);
    match e {
      case SetInstrument(_, n) =>
        InstrumentRun(t, n);
        ReplaceTrack(model, k, t.(instrument := Some(n)), Some(n));
      case InsertEffect(_, slot, n) =>
        var pos := InsertPos(slot, |t.chain|);
        InsertedRun(t, pos, n);
        ReplaceTrack(model, k, t.(chain := t.chain[..pos] + [n] + t.chain[pos..]), Some(n));
      case RemoveEffect(_, slot) =>
        RemovedRun(t, slot);
        ReplaceTrack(model, k, t.(chain := t.chain[..slot] + t.chain[slot + 1..]), None);
      case SetGain(_, gain) =>
        assert TrackNodes(t.(gain := gain)) == TrackNodes(t);
        ReplaceTrack(model, k, t.(gain := gain), None);
    }
  }

  // ---------------------------------------------------------------- track ids

  ghost predicate DistinctIds(model: seq<Track>) {
    forall i, j :: 0 <= i < j < |model| ==> model[i].id != model[j].id
  }

  /** Track ids stay distinct under every edit, except that a created track repeats an id exactly
      when the wrapped 32-bit counter has come back to the id of a track that still exists. */
  lemma EditKeepsIds(model: seq<Track>, created: nat, e: Edit)
    requires DistinctIds(model) && Edited(model, created, e).Some?
    ensures DistinctIds(Edited(model, created, e).value)
       <==> (e.CreateTrack? ==> forall i :: 0 <= i < |model| ==> model[i].id != created % TWO_32)
  {
    var after := Edited(model, created, e).value;
    if e.CreateTrack? {
      assert forall i :: 0 <= i < |model| ==> after[i] == model[i];
      assert after[|model|].id == created % TWO_32;
    } else if e.DestroyTrack? {
      var k := TrackIndex(model, e.trackId);
      assert forall i :: 0 <= i < |after| ==> after[i] == model[if i < k then i else i + 1];
    } else {
      assert |after| == |model|;
      assert forall i :: 0 <= i < |after| ==> after[i].id == model[i].id;
    }
  }

  /** The exception occurs: the first track outlives 2^32 creations. */
  lemma IdsCanRepeat()
    ensures var model := [Track(0, None, [], FLOAT_ONE)];
      && DistinctIds(model) && Edited(model, TWO_32, CreateTrack).Some?
      && !DistinctIds(Edited(model, TWO_32, CreateTrack).value)
  {
    var model := [Track(0, None, [], FLOAT_ONE)];
    EditKeepsIds(model, TWO_32, CreateTrack);
    assert model[0].id == TWO_32 % TWO_32;
  }
}
