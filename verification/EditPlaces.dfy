/** Where every edit leaves the nodes of the model, seen through the addresses the clients use
    (src/graph_swap.cpp:174-292). */
module EditPlaces {
  import opened Config
  import opened Graph
  import opened TrackEdits

  /** The edited model differs from the old one in the first track with this id only, and there not in
      its id. */
  ghost predicate OnlyTrack(model: seq<Track>, after: seq<Track>, id: nat) {
    && |after| == |model|
    && var k := TrackIndex(model, id);
      && k < |model| && after[k].id == id
      && forall i :: 0 <= i < |model| && i != k ==> after[i] == model[i]
  }

  /** Such an edit leaves the address of every node of every other track alone. */
  lemma OthersKeepPlaces(model: seq<Track>, after: seq<Track>, id: nat)
    requires OnlyTrack(model, after, id)
    ensures TrackIndex(after, id) == TrackIndex(model, id)
    ensures forall other, slot :: other != id ==> NodeAt(after, other, slot) == NodeAt(model, other, slot)
  {
    SameIndex(model, after, id, id);
    forall other, slot | other != id ensures NodeAt(after, other, slot) == NodeAt(model, other, slot) {
      SameIndex(model, after, id, other);
    }
  }

  lemma SameIndex(model: seq<Track>, after: seq<Track>, id: nat, other: nat)
    requires OnlyTrack(model, after, id)
    ensures TrackIndex(after, other) == TrackIndex(model, other)
  {
    var i, j, k := TrackIndex(model, other), TrackIndex(after, other), TrackIndex(model, id);
    assert forall m :: 0 <= m < |model| ==> after[m].id == model[m].id;
  }

  /** Which edits are accepted. */
  lemma AcceptedEdits(model: seq<Track>, created: nat, e: Edit)
    ensures Edited(model, created, e).Some? <==>
      match e
      case CreateTrack => |model| < MAX_TRACKS
      case DestroyTrack(id) => exists i :: 0 <= i < |model| && model[i].id == id
      case SetInstrument(id, _) => exists i :: 0 <= i < |model| && model[i].id == id
      case SetGain(id, _) => exists i :: 0 <= i < |model| && model[i].id == id
      case InsertEffect(id, _, _) => exists i :: FirstWith(model, id, i) && |model[i].chain| < MAX_EFFECTS_PER_TRACK
      case RemoveEffect(id, slot) => slot >= 0 && NodeAt(model, id, slot).Some?
  {
    if !e.CreateTrack? {
      var k := TrackIndex(model, e.trackId);
      if k < |model| {
        assert FirstWith(model, e.trackId, k);
      }
    }
  }

  ghost predicate FirstWith(model: seq<Track>, id: nat, i: int) {
    0 <= i < |model| && model[i].id == id && forall j :: 0 <= j < i ==> model[j].id != id
  }

  // ---------------------------------------------------------------- effects

  /** Inserting at a slot within the chain, or at its end, puts the node there: places below are
      unchanged, later ones shift up by one. */
  lemma InsertedAtSlot(model: seq<Track>, created: nat, id: nat, slot: int, n: NodeId)
    requires var e := InsertEffect(id, slot, n); Edited(model, created, e).Some?
    requires slot == 0 || (slot > 0 && NodeAt(model, id, slot - 1).Some?)
    ensures var after := Edited(model, created, InsertEffect(id, slot, n)).value;
      && OnlyTrack(model, after, id)
      && NodeAt(after, id, slot) == Some(n)
      && (forall j :: j < slot ==> NodeAt(after, id, j) == NodeAt(model, id, j))
      && (forall j :: j >= slot ==> NodeAt(after, id, j + 1) == NodeAt(model, id, j))
  {
    var after := Edited(model, created, InsertEffect(id, slot, n)).value;
    OthersKeepPlaces(model, after, id);
  }

  /** Any other slot means the end of the chain. */
  lemma InsertedAtEnd(model: seq<Track>, created: nat, id: nat, slot: int, n: NodeId, end: nat)
    requires var e := InsertEffect(id, slot, n); Edited(model, created, e).Some?
    requires slot < 0 || (slot > 0 && NodeAt(model, id, slot - 1).None?)
    requires NodeAt(model, id, end).None? && (end > 0 ==> NodeAt(model, id, end - 1).Some?)
    ensures var after := Edited(model, created, InsertEffect(id, slot, n)).value;
      && OnlyTrack(model, after, id)
      && NodeAt(after, id, end) == Some(n)
      && (forall j :: j != end ==> NodeAt(after, id, j) == NodeAt(model, id, j))
  {
    var after := Edited(model, created, InsertEffect(id, slot, n)).value;
    OthersKeepPlaces(model, after, id);
  }

  /** Removing takes out the node at the slot: places below are unchanged, later ones shift down. */
  lemma RemovedAtSlot(model: seq<Track>, created: nat, id: nat, slot: int)
    requires Edited(model, created, RemoveEffect(id, slot)).Some?
    ensures var after := Edited(model, created, RemoveEffect(id, slot)).value;
      && OnlyTrack(model, after, id)
      && (forall j :: j < slot ==> NodeAt(after, id, j) == NodeAt(model, id, j))
      && (forall j :: j >= slot ==> NodeAt(after, id, j) == NodeAt(model, id, j + 1))
  {
    var after := Edited(model, created, RemoveEffect(id, slot)).value;
    OthersKeepPlaces(model, after, id);
  }

  /** Effects do not touch the gain of their track, and an inserted effect can be removed again. */
  lemma EffectsKeepGain(model: seq<Track>, created: nat, e: Edit)
    requires (e.InsertEffect? || e.RemoveEffect? || e.SetInstrument?) && Edited(model, created, e).Some?
    ensures var after := Edited(model, created, e).value; var k := TrackIndex(model, e.trackId);
      OnlyTrack(model, after, e.trackId) && after[k].gain == model[k].gain
  {
  }

  lemma RemoveUndoesInsert(model: seq<Track>, created: nat, id: nat, slot: int, n: NodeId)
    requires Edited(model, created, InsertEffect(id, slot, n)).Some?
    requires slot == 0 || (slot > 0 && NodeAt(model, id, slot - 1).Some?)
    ensures var after := Edited(model, created, InsertEffect(id, slot, n)).value;
      Edited(after, created, RemoveEffect(id, slot)) == Some(model)
  {
    var after := Edited(model, created, InsertEffect(id, slot, n)).value;
    var k := TrackIndex(model, id);
    OthersKeepPlaces(model, after, id) by { InsertedAtSlot(model, created, id, slot, n); }
    var c, c' := model[k].chain, after[k].chain;
    assert c'[..slot] + c'[slot + 1..] == c;
    assert after[k := after[k].(chain := c)] == model;
  }

  // ---------------------------------------------------------------- instruments, gains, tracks

  /** The new instrument answers to every negative slot; the chain stays. */
  lemma InstrumentSet(model: seq<Track>, created: nat, id: nat, n: NodeId)
    requires Edited(model, created, SetInstrument(id, n)).Some?
    ensures var after := Edited(model, created, SetInstrument(id, n)).value;
      && OnlyTrack(model, after, id)
      && (forall j :: j < 0 ==> NodeAt(after, id, j) == Some(n))
      && (forall j :: j >= 0 ==> NodeAt(after, id, j) == NodeAt(model, id, j))
  {
    var after := Edited(model, created, SetInstrument(id, n)).value;
    OthersKeepPlaces(model, after, id);
  }

  /** The first track with the id has the new gain, and no node moves. */
  lemma GainSet(model: seq<Track>, created: nat, id: nat, gain: Float)
    requires Edited(model, created, SetGain(id, gain)).Some?
    ensures var after := Edited(model, created, SetGain(id, gain)).value;
      && OnlyTrack(model, after, id)
      && after[TrackIndex(model, id)].gain == gain
      && (forall other, j :: NodeAt(after, other, j) == NodeAt(model, other, j))
  {
    var after := Edited(model, created, SetGain(id, gain)).value;
    OthersKeepPlaces(model, after, id);
  }

  /** A created track comes last, with nothing in it, at unit gain; the others stay. */
  lemma TrackCreated(model: seq<Track>, created: nat)
    requires Edited(model, created, CreateTrack).Some?
    ensures var after := Edited(model, created, CreateTrack).value; var id := created % TWO_32;
      && |after| == |model| + 1 && (forall i :: 0 <= i < |model| ==> after[i] == model[i])
      && after[|model|].id == id && after[|model|].gain == FLOAT_ONE && TrackNodes(after[|model|]) == []
      && (forall other, j :: NodeAt(after, other, j) == NodeAt(model, other, j))
  {
    var after := Edited(model, created, CreateTrack).value;
    forall other, j ensures NodeAt(after, other, j) == NodeAt(model, other, j) {
      var a, b := TrackIndex(model, other), TrackIndex(after, other);
      assert a < |model| ==> after[a].id == other;
    }
  }

  /** Exactly the first track with the id goes; with distinct ids its address is then unknown, and every
      other address means what it meant. */
  lemma TrackDestroyed(model: seq<Track>, created: nat, id: nat)
    requires Edited(model, created, DestroyTrack(id)).Some?
    ensures var after := Edited(model, created, DestroyTrack(id)).value;
      && (exists k :: FirstWith(model, id, k) && IsWithout(model, after, k))
      && (forall other, j :: other != id ==> NodeAt(after, other, j) == NodeAt(model, other, j))
      && (DistinctIds(model) ==> forall j :: NodeAt(after, id, j) == None)
  {
    var after, k := Edited(model, created, DestroyTrack(id)).value, TrackIndex(model, id);
    assert FirstWith(model, id, k) && IsWithout(model, after, k);
    hide Edited, IsWithout, DistinctIds, NodeAt, FirstWith;
    forall other, j | other != id ensures NodeAt(after, other, j) == NodeAt(model, other, j) {
      SamePlaceWithout(model, after, k, other, j);
    }
    if DistinctIds(model) {
      forall j ensures NodeAt(after, id, j) == None {
        UnknownWithout(model, after, k, j);
      }
    }
  }

  /** after is model without its track k. */
  ghost predicate IsWithout(model: seq<Track>, after: seq<Track>, k: int) {
    && 0 <= k < |model| && |after| == |model| - 1
    && forall i :: 0 <= i < |after| ==> after[i] == model[if i < k then i else i + 1]
  }

  lemma SamePlaceWithout(model: seq<Track>, after: seq<Track>, k: nat, other: nat, j: int)
    requires IsWithout(model, after, k) && model[k].id != other
    ensures NodeAt(after, other, j) == NodeAt(model, other, j)
  {
    IndexWithout(model, after, k, other);
  }

  lemma UnknownWithout(model: seq<Track>, after: seq<Track>, k: nat, j: int)
    requires IsWithout(model, after, k) && DistinctIds(model)
    ensures NodeAt(after, model[k].id, j) == None
  {
    var b := TrackIndex(after, model[k].id);
    assert forall i :: 0 <= i < |model| && i != k ==> model[i].id != model[k].id;
  }

  lemma IndexWithout(model: seq<Track>, after: seq<Track>, k: nat, other: nat)
    requires IsWithout(model, after, k) && model[k].id != other
    ensures var a, b := TrackIndex(model, other), TrackIndex(after, other);
      b == if a < k then a else a - 1
  {
    var a, b := TrackIndex(model, other), TrackIndex(after, other);
    if a < k {
      assert after[a] == model[a];
    } else if a < |model| {
      assert a > k && after[a - 1] == model[a];
    }
    assert b < |after| ==> after[b] == model[if b < k then b else b + 1];
    assert forall i :: 0 <= i < a && i != k ==> model[i].id != other;
  }
}
