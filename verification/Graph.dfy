/** The immutable snapshot the audio thread renders from, and the searches over it
    (src/graph.h, src/graph.cpp). */
module Graph {
  import opened Config

  /** Plugin nodes are named by an identity that is never reused. */
  type NodeId = int

  datatype Track = Track(id: nat, instrument: Option<NodeId>, chain: seq<NodeId>, gain: Float)

  datatype GraphState = GraphState(tracks: seq<Track>, masterGain: Float)

  function TrackNodes(t: Track): seq<NodeId> {
    (if t.instrument.Some? then [t.instrument.value] else []) + t.chain
  }

  /** Every node of the tracks, instrument before chain, in track order. */
  function AllNodes(ts: seq<Track>): seq<NodeId> {
    if ts == [] then [] else AllNodes(ts[..|ts| - 1]) + TrackNodes(ts[|ts| - 1])
  }

  function Nodes(g: GraphState): seq<NodeId> {
    AllNodes(g.tracks)
  }

  function NodeSet(g: GraphState): set<NodeId> {
    set n | n in Nodes(g)
  }

  /** The tracks fit the fixed arrays of a snapshot. */
  predicate Bounded(ts: seq<Track>) {
    |ts| <= MAX_TRACKS && forall i :: 0 <= i < |ts| ==> |ts[i].chain| <= MAX_EFFECTS_PER_TRACK
  }

  /** Position of the first track with this id, or the number of tracks. */
  function TrackIndex(ts: seq<Track>, id: nat): (k: nat)
    ensures k <= |ts|
    ensures k < |ts| ==> ts[k].id == id
    ensures forall j :: 0 <= j < k ==> ts[j].id != id
  {
    if ts == [] then 0
    else if ts[0].id == id then 0
    else 1 + TrackIndex(ts[1..], id)
  }

  /** The node a (track, slot) pair addresses: a negative slot is the instrument. */
  function NodeAt(ts: seq<Track>, trackId: nat, slot: int): Option<NodeId> {
    var k := TrackIndex(ts, trackId);
    if k == |ts| then None
    else if slot < 0 then ts[k].instrument
    else if slot < |ts[k].chain| then Some(ts[k].chain[slot])
    else None
  }

  /** Position of the first occurrence of n, or the length. */
  function IndexOf(s: seq<NodeId>, n: NodeId): (k: nat)
    ensures k <= |s|
    ensures k < |s| <==> n in s
    ensures k < |s| ==> s[k] == n
    ensures forall j :: 0 <= j < k ==> s[j] != n
  {
    if s == [] then 0 else if s[0] == n then 0 else 1 + IndexOf(s[1..], n)
  }

  /** The first place a node occupies, scanning tracks in order, instrument first. */
  function Location(ts: seq<Track>, n: NodeId): Option<(nat, int)> {
    if ts == [] then None
    else if ts[0].instrument == Some(n) then Some((ts[0].id, MR_DEST_INSTRUMENT))
    else if n in ts[0].chain then Some((ts[0].id, IndexOf(ts[0].chain, n)))
    else Location(ts[1..], n)
  }

  /** The members of a that are not in b, in order. */
  function Minus(a: seq<NodeId>, b: seq<NodeId>): (r: seq<NodeId>)
    ensures forall x :: x in r <==> x in a && x !in b
    ensures |r| <= |a|
  {
    if a == [] then []
    else
      var front := Minus(a[..|a| - 1], b);
      assert a == a[..|a| - 1] + [a[|a| - 1]];
      if a[|a| - 1] in b then front else front + [a[|a| - 1]]
  }

  // ---------------------------------------------------------------- searches

  /** Fills `out` with the nodes of `g`, at most `cap` of them; the rest of `out` is untouched. */
  method GatherNodes(g: GraphState, out: array<NodeId>, cap: nat) returns (n: nat)
    requires cap <= out.Length
    modifies out
    ensures n == Min(cap, |Nodes(g)|) && out[..n] == Nodes(g)[..n]
    ensures forall i :: n <= i < out.Length ==> out[i] == old(out[i])
  {
    n := 0;
    ghost var all := Nodes(g);
    ghost var was := out[..];
    var t := 0;
    while t < |g.tracks|
      invariant 0 <= t <= |g.tracks|
      invariant |AllNodes(g.tracks[..t])| <= |all|
      invariant n == Min(cap, |AllNodes(g.tracks[..t])|)
      invariant forall i :: 0 <= i < n ==> out[i] == all[i]
      invariant forall i :: n <= i < out.Length ==> out[i] == was[i]
    {
      AllNodesSnoc(g.tracks, t);
      ghost var at := |AllNodes(g.tracks[..t])|;
      TrackRun(g.tracks, t);
      n := GatherTrack(g.tracks[t], out, n, cap, all, at);
      t := t + 1;
    }
    assert g.tracks[..t] == g.tracks;
  }

  /** One turn of the outer loop of GatherNodes: the nodes of `tr` are all[at..]. */
  method GatherTrack(tr: Track, out: array<NodeId>, from: nat, cap: nat, ghost all: seq<NodeId>, ghost at: nat)
    returns (n: nat)
    requires cap <= out.Length && from == Min(cap, at)
    requires at + |TrackNodes(tr)| <= |all| && all[at..at + |TrackNodes(tr)|] == TrackNodes(tr)
    requires forall i :: 0 <= i < from ==> out[i] == all[i]
    modifies out
    ensures n == Min(cap, at + |TrackNodes(tr)|)
    ensures forall i :: 0 <= i < n ==> out[i] == all[i]
    ensures forall i :: n <= i < out.Length ==> out[i] == old(out[i])
  {
    ghost var run := TrackNodes(tr);
    assert forall j :: 0 <= j < |run| ==> all[at + j] == run[j];
    n := from;
    ghost var lead := 0;
    if tr.instrument.Some? {
      assert run[0] == all[at];
      if n < cap {
        out[n] := tr.instrument.value;
        n := n + 1;
      }
      lead := 1;
    }
    ghost var base := at + lead;
    assert forall i :: base <= i < base + |tr.chain| ==> all[i] == tr.chain[i - base] by {
      forall i | base <= i < base + |tr.chain| ensures all[i] == tr.chain[i - base] {
        assert run[i - at] == tr.chain[i - base];
      }
    }
    var s := 0;
    while s < |tr.chain| && n < cap
      invariant 0 <= s <= |tr.chain|
      invariant n == Min(cap, base + s)
      invariant forall i :: 0 <= i < n ==> out[i] == all[i]
      invariant forall i :: n <= i < out.Length ==> out[i] == old(out[i])
    {
      assert n == base + s && all[n] == tr.chain[s];
      out[n] := tr.chain[s];
      n := n + 1;
      s := s + 1;
    }
  }

  /** The nodes of track k stand together in the list of all nodes. */
  lemma TrackRun(ts: seq<Track>, k: nat)
    requires k < |ts|
    ensures var at := |AllNodes(ts[..k])|; var run := TrackNodes(ts[k]);
      at + |run| <= |AllNodes(ts)| && AllNodes(ts)[at..at + |run|] == run
  {
    AllNodesAt(ts, k);
  }

  lemma AllNodesSnoc(ts: seq<Track>, k: nat)
    requires k < |ts|
    ensures AllNodes(ts[..k + 1]) == AllNodes(ts[..k]) + TrackNodes(ts[k])
  {
    assert ts[..k + 1][..k] == ts[..k];
  }

  method NodeSetContains(nodes: array<NodeId>, count: nat, n: NodeId) returns (found: bool)
    requires count <= nodes.Length
    ensures found <==> n in nodes[..count]
  {
    var i := 0;
    while i < count
      invariant 0 <= i <= count
      invariant n !in nodes[..i]
    {
      if nodes[i] == n {
        return true;
      }
      i := i + 1;
    }
    return false;
  }

  method FindTrack(ts: seq<Track>, id: nat) returns (k: nat)
    ensures k == TrackIndex(ts, id)
  {
    k := 0;
    while k < |ts|
      invariant 0 <= k <= |ts|
      invariant forall j :: 0 <= j < k ==> ts[j].id != id
    {
      if ts[k].id == id {
        return;
      }
      k := k + 1;
    }
  }

  method ResolveNode(g: GraphState, trackId: nat, slot: int) returns (n: Option<NodeId>)
    ensures n == NodeAt(g.tracks, trackId, slot)
  {
    var k := FindTrack(g.tracks, trackId);
    if k == |g.tracks| {
      return None;
    }
    if slot < 0 {
      return g.tracks[k].instrument;
    }
    if slot < |g.tracks[k].chain| {
      return Some(g.tracks[k].chain[slot]);
    }
    return None;
  }

  method Locate(ts: seq<Track>, n: NodeId) returns (place: Option<(nat, int)>)
    ensures place == Location(ts, n)
  {
    var t := 0;
    while t < |ts|
      invariant 0 <= t <= |ts|
      invariant Location(ts, n) == Location(ts[t..], n)
    {
      assert ts[t..][1..] == ts[t + 1..];
      if ts[t].instrument == Some(n) {
        return Some((ts[t].id, MR_DEST_INSTRUMENT));
      }
      var s := 0;
      while s < |ts[t].chain|
        invariant 0 <= s <= |ts[t].chain|
        invariant n !in ts[t].chain[..s]
      {
        if ts[t].chain[s] == n {
          return Some((ts[t].id, s));
        }
        s := s + 1;
      }
      t := t + 1;
    }
    return None;
  }

  // ---------------------------------------------------------------- facts

  lemma {:induction false} AllNodesAppend(a: seq<Track>, b: seq<Track>)
    ensures AllNodes(a + b) == AllNodes(a) + AllNodes(b)
    decreases |b|
  {
    if b == [] {
      assert a + b == a;
    } else {
      var front, last := b[..|b| - 1], b[|b| - 1];
      hide TrackNodes;
      AllNodesAppend(a, front);
      assert (a + b)[..|a + b| - 1] == a + front && (a + b)[|a + b| - 1] == last;
      assert AllNodes(a) + AllNodes(front) + TrackNodes(last) == AllNodes(a) + (AllNodes(front) + TrackNodes(last));
    }
  }

  lemma AllNodesOne(t: Track)
    ensures AllNodes([t]) == TrackNodes(t)
  {
    assert [t][..0] == [];
    assert AllNodes([t][..0]) == [];
  }

  lemma AllNodesThree(a: seq<Track>, t: Track, c: seq<Track>)
    ensures AllNodes(a + [t] + c) == AllNodes(a) + TrackNodes(t) + AllNodes(c)
  {
    AllNodesAppend(a + [t], c);
    AllNodesAppend(a, [t]);
    AllNodesOne(t);
  }

  /** Splitting a track list around position k. */
  lemma AllNodesAt(ts: seq<Track>, k: nat)
    requires k < |ts|
    ensures AllNodes(ts) == AllNodes(ts[..k]) + TrackNodes(ts[k]) + AllNodes(ts[k + 1..])
  {
    Rejoin(ts, k);
    AllNodesThree(ts[..k], ts[k], ts[k + 1..]);
  }

  lemma Rejoin<T>(s: seq<T>, k: nat)
    requires k < |s|
    ensures s == s[..k] + [s[k]] + s[k + 1..]
  {
  }

  /** The nodes of a snapshot stand track by track, the instrument of each before its chain. */
  lemma NodesInOrder(ts: seq<Track>, k: nat, slot: nat)
    requires k < |ts| && slot < |ts[k].chain|
    ensures var at := |AllNodes(ts[..k])|; var lead := Count(ts[k].instrument); var all := AllNodes(ts);
      && |all| >= at + lead + |ts[k].chain|
      && (lead == 1 ==> all[at] == ts[k].instrument.value) && all[at + lead + slot] == ts[k].chain[slot]
  {
    AllNodesAt(ts, k);
    var run := TrackNodes(ts[k]);
    assert |run| == Count(ts[k].instrument) + |ts[k].chain|;
    assert run[Count(ts[k].instrument) + slot] == ts[k].chain[slot];
    hide AllNodes;
  }

  lemma {:induction false} NodeCount(ts: seq<Track>, most: nat)
    requires forall i :: 0 <= i < |ts| ==> |ts[i].chain| <= most
    ensures |AllNodes(ts)| <= |ts| * (1 + most)
  {
    if ts != [] {
      var front, last := ts[..|ts| - 1], ts[|ts| - 1];
      NodeCount(front, most);
      assert |TrackNodes(last)| <= 1 + most;
      assert |ts| * (1 + most) == |front| * (1 + most) + (1 + most);
    }
  }

  /** A snapshot's nodes fit every array of MAX_NODES entries. */
  lemma BoundedNodes(ts: seq<Track>)
    requires Bounded(ts)
    ensures |AllNodes(ts)| <= MAX_NODES
  {
    NodeCount(ts, MAX_EFFECTS_PER_TRACK);
  }

  /** A node that a (track, slot) address resolves to is one of the gathered nodes. */
  lemma ResolvedIsGathered(ts: seq<Track>, trackId: nat, slot: int)
    requires NodeAt(ts, trackId, slot).Some?
    ensures NodeAt(ts, trackId, slot).value in AllNodes(ts)
  {
    var k := TrackIndex(ts, trackId);
    AllNodesAt(ts, k);
    assert NodeAt(ts, trackId, slot).value in TrackNodes(ts[k]);
  }

  lemma {:induction false} MinusKeepsNoDup(a: seq<NodeId>, b: seq<NodeId>)
    requires NoDup(a)
    ensures NoDup(Minus(a, b))
  {
    if a != [] {
      var front := a[..|a| - 1];
      MinusKeepsNoDup(front, b);
      assert a[|a| - 1] !in front;
    }
  }

  /** The difference keeps the order of the first list. */
  lemma {:induction false} MinusKeepsOrder(a: seq<NodeId>, b: seq<NodeId>, i: nat, j: nat)
    requires NoDup(a) && i < j < |Minus(a, b)|
    ensures IndexOf(a, Minus(a, b)[i]) < IndexOf(a, Minus(a, b)[j])
  {
    var front, last := a[..|a| - 1], a[|a| - 1];
    var m := Minus(front, b);
    assert a == front + [last];
    if j < |m| {
      MinusKeepsOrder(front, b, i, j);
      IndexInFront(front, last, m[i]);
      IndexInFront(front, last, m[j]);
    } else {
      IndexInFront(front, last, m[i]);
      assert a[|front|] == last && last !in front;
    }
  }

  lemma IndexInFront(front: seq<NodeId>, last: NodeId, n: NodeId)
    requires n in front
    ensures IndexOf(front + [last], n) == IndexOf(front, n) < |front|
  {
    var k, l := IndexOf(front + [last], n), IndexOf(front, n);
    assert (front + [last])[l] == n;
    assert k < |front| ==> front[k] == n;
  }

  /** A node is located exactly when it is in some track. */
  lemma {:induction false} LocatedIffPresent(ts: seq<Track>, n: NodeId)
    ensures Location(ts, n).Some? <==> n in AllNodes(ts)
  {
    if ts != [] {
      AllNodesAt(ts, 0);
      LocatedIffPresent(ts[1..], n);
      assert ts[..0] == [];
      assert n in TrackNodes(ts[0]) <==> ts[0].instrument == Some(n) || n in ts[0].chain;
    }
  }

  /** The node lies in track k and in no track before it. */
  ghost predicate HeldBy(ts: seq<Track>, n: NodeId, k: nat) {
    k < |ts| && n in TrackNodes(ts[k]) && forall j :: 0 <= j < k ==> n !in TrackNodes(ts[j])
  }

  /** The place of a node inside its own track. */
  function SlotIn(t: Track, n: NodeId): int {
    if t.instrument == Some(n) then MR_DEST_INSTRUMENT else IndexOf(t.chain, n)
  }

  lemma {:induction false} LocationOfHolder(ts: seq<Track>, n: NodeId, k: nat)
    requires HeldBy(ts, n, k)
    ensures Location(ts, n) == Some((ts[k].id, SlotIn(ts[k], n)))
  {
    TrackMembers(ts[0], n);
    if k > 0 {
      assert n !in TrackNodes(ts[0]);
      assert forall j :: 0 <= j < k - 1 ==> ts[1..][j] == ts[j + 1];
      LocationOfHolder(ts[1..], n, k - 1);
    }
  }

  lemma TrackMembers(t: Track, n: NodeId)
    ensures n in TrackNodes(t) <==> t.instrument == Some(n) || n in t.chain
  {
  }

  /** When no node occurs twice, searching for the node found at a place gives that place back,
      with every negative slot normalised to the instrument slot. Track ids may repeat. */
  lemma LocateInvertsFind(ts: seq<Track>, trackId: nat, slot: int)
    requires NoDup(AllNodes(ts))
    requires NodeAt(ts, trackId, slot).Some?
    ensures Location(ts, NodeAt(ts, trackId, slot).value)
         == Some((trackId, if slot < 0 then MR_DEST_INSTRUMENT else slot))
  {
    var n := NodeAt(ts, trackId, slot).value;
    var k := TrackIndex(ts, trackId);
    TrackMembers(ts[k], n);
    UniqueHolder(ts, n, k);
    LocationOfHolder(ts, n, k);
    TrackNoDup(ts, k);
    if slot >= 0 {
      ChainPlaceIsUnique(ts[k], slot);
    }
  }

  /** A located place leads back to the node exactly when no earlier track carries the same id. */
  lemma FindInvertsLocate(ts: seq<Track>, n: NodeId, k: nat)
    requires NoDup(AllNodes(ts))
    requires k < |ts| && n in TrackNodes(ts[k])
    ensures Location(ts, n) == Some((ts[k].id, SlotIn(ts[k], n)))
    ensures NodeAt(ts, ts[k].id, SlotIn(ts[k], n)) == Some(n)
       <==> forall j :: 0 <= j < k ==> ts[j].id != ts[k].id
  {
    UniqueHolder(ts, n, k);
    LocationOfHolder(ts, n, k);
    TrackMembers(ts[k], n);
    var first := TrackIndex(ts, ts[k].id);
    assert first <= k;
    TrackMembers(ts[first], n);
  }

  /** The exception: of two tracks with one id, the instrument of the second is not found again. */
  lemma LocatedElsewhere()
    ensures var ts := [Track(0, Some(1), [], FLOAT_ONE), Track(0, Some(2), [], FLOAT_ONE)];
      && NoDup(AllNodes(ts)) && Location(ts, 2) == Some((0, MR_DEST_INSTRUMENT))
      && NodeAt(ts, 0, MR_DEST_INSTRUMENT) == Some(1)
  {
    var a, b := Track(0, Some(1), [], FLOAT_ONE), Track(0, Some(2), [], FLOAT_ONE);
    AllNodesAppend([a], [b]);
    AllNodesOne(a);
    AllNodesOne(b);
    assert [a] + [b] == [a, b];
    assert AllNodes([a, b]) == [1, 2];
    LocationOfHolder([a, b], 2, 1);
  }

  /** Without repeated nodes, a track that contains a node is the only one. */
  lemma UniqueHolder(ts: seq<Track>, n: NodeId, k: nat)
    requires NoDup(AllNodes(ts))
    requires k < |ts| && n in TrackNodes(ts[k])
    ensures HeldBy(ts, n, k)
  {
    AllNodesAt(ts, k);
    NoDupSplit(AllNodes(ts[..k]) + TrackNodes(ts[k]), AllNodes(ts[k + 1..]));
    NoDupSplit(AllNodes(ts[..k]), TrackNodes(ts[k]));
    forall j | 0 <= j < k ensures n !in TrackNodes(ts[j]) {
      AllNodesAt(ts[..k], j);
    }
  }

  lemma TrackNoDup(ts: seq<Track>, k: nat)
    requires NoDup(AllNodes(ts)) && k < |ts|
    ensures NoDup(TrackNodes(ts[k]))
  {
    AllNodesAt(ts, k);
    NoDupSplit(AllNodes(ts[..k]) + TrackNodes(ts[k]), AllNodes(ts[k + 1..]));
    NoDupSplit(AllNodes(ts[..k]), TrackNodes(ts[k]));
  }

  lemma ChainPlaceIsUnique(t: Track, slot: int)
    requires NoDup(TrackNodes(t)) && 0 <= slot < |t.chain|
    ensures SlotIn(t, t.chain[slot]) == slot
  {
    var head := if t.instrument.Some? then [t.instrument.value] else [];
    NoDupSplit(head, t.chain);
    assert t.instrument.Some? ==> head[0] in head;
    var k := IndexOf(t.chain, t.chain[slot]);
    assert t.chain[k] == t.chain[slot];
  }

  lemma NoDupSplit(a: seq<NodeId>, b: seq<NodeId>)
    requires NoDup(a + b)
    ensures NoDup(a) && NoDup(b)
    ensures forall x :: x in a ==> x !in b
  {
    var s := a + b;
    assert forall i :: 0 <= i < |a| ==> s[i] == a[i];
    assert forall i :: 0 <= i < |b| ==> b[i] == s[|a| + i];
    forall i, j | 0 <= i < |a| && 0 <= j < |b| ensures a[i] != b[j] {
      assert s[i] != s[|a| + j];
    }
  }

  lemma NoDupJoin(a: seq<NodeId>, b: seq<NodeId>)
    requires NoDup(a) && NoDup(b)
    requires forall x :: x in a ==> x !in b
    ensures NoDup(a + b)
  {
    var s := a + b;
    forall i, j | 0 <= i < j < |s| ensures s[i] != s[j] {
      if i < |a| {
        assert s[i] in a;
        if j >= |a| { assert s[j] in b; }
      }
    }
  }
}
