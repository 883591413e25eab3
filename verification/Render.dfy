/** The renderer (src/track_render.h, src/track_render.cpp): loops over channel buffers, the
    ping-pong between two of them, and one whole block. */
module Render {
  import opened Config
  import opened Graph
  import opened Translation
  import opened EchoRing
  import opened Mix
  import opened EventQueue
  import opened EventRoute
  import opened EventStream
  import opened SortedQueue
  import opened SwapProtocol
  import opened AudioGraphs

  // ---------------------------------------------------------------- buffers

  /** The first n samples of a channel. */
  function Row(a: array2<Float>, ch: nat, n: nat): (r: seq<Float>)
    requires ch < a.Length0 && n <= a.Length1
    reads a
    ensures |r| == n && forall i :: 0 <= i < n ==> r[i] == a[ch, i]
  {
    seq(n, i requires 0 <= i < n reads a => a[ch, i])
  }

  /** The first n samples of the first m channels. */
  function Rows(a: array2<Float>, m: nat, n: nat): (r: seq<seq<Float>>)
    requires m <= a.Length0 && n <= a.Length1
    reads a
    ensures |r| == m && forall ch :: 0 <= ch < m ==> r[ch] == Row(a, ch, n)
  {
    seq(m, ch requires 0 <= ch < m reads a => Row(a, ch, n))
  }

  /** Two views of the same samples. */
  lemma RowsAre(a: array2<Float>, m: nat, n: nat, s: seq<seq<Float>>)
    requires m <= a.Length0 && n <= a.Length1 && |s| == m && Rectangle(s, n)
    requires forall d, i :: 0 <= d < m && 0 <= i < n ==> a[d, i] == s[d][i]
    ensures Rows(a, m, n) == s
  {
    forall d | 0 <= d < m ensures Row(a, d, n) == s[d] {
      assert forall i :: 0 <= i < n ==> a[d, i] == s[d][i];
    }
  }

  method ZeroChannels(a: array2<Float>, count: nat, frames: nat)
    requires count <= a.Length0 && frames <= a.Length1
    modifies a
    ensures Rows(a, count, frames) == Silence(count, frames)
  {
    for ch := 0 to count
      invariant forall d, i :: 0 <= d < ch && 0 <= i < frames ==> a[d, i] == FLOAT_ZERO
    {
      for i := 0 to frames
        invariant forall d, j :: 0 <= d < ch && 0 <= j < frames ==> a[d, j] == FLOAT_ZERO
        invariant forall j :: 0 <= j < i ==> a[ch, j] == FLOAT_ZERO
      {
        a[ch, i] := FLOAT_ZERO;
      }
    }
    RowsAre(a, count, frames, Silence(count, frames));
  }

  // ---------------------------------------------------------------- plugin calls

  /** A plugin writes into its output buffer, inside the channels and frames it was given. */
  method WriteOutput(a: array2<Float>, chans: seq<seq<Float>>, outs: nat, frames: nat)
    requires outs <= a.Length0 && frames <= a.Length1
    requires Rows(a, outs, frames) == Silence(outs, frames)
    modifies a
    ensures Rows(a, outs, frames) == Written(chans, outs, frames)
  {
    ghost var w := Written(chans, outs, frames);
    SilentRows(a, outs, frames);
    var count := Min(outs, |chans|);
    for ch := 0 to count
      invariant forall d, i :: 0 <= d < ch && 0 <= i < frames ==> a[d, i] == w[d][i]
      invariant forall d, i :: ch <= d < outs && 0 <= i < frames ==> a[d, i] == FLOAT_ZERO
    {
      var len := Min(frames, |chans[ch]|);
      for i := 0 to len
        invariant forall d, j :: 0 <= d < ch && 0 <= j < frames ==> a[d, j] == w[d][j]
        invariant forall d, j :: ch < d < outs && 0 <= j < frames ==> a[d, j] == FLOAT_ZERO
        invariant forall j :: 0 <= j < i ==> a[ch, j] == w[ch][j]
        invariant forall j :: i <= j < frames ==> a[ch, j] == FLOAT_ZERO
      {
        a[ch, i] := chans[ch][i];
      }
    }
    RowsAre(a, outs, frames, w);
  }

  lemma SilentRows(a: array2<Float>, m: nat, n: nat)
    requires m <= a.Length0 && n <= a.Length1 && Rows(a, m, n) == Silence(m, n)
    ensures forall d, i :: 0 <= d < m && 0 <= i < n ==> a[d, i] == FLOAT_ZERO
  {
    forall d, i | 0 <= d < m && 0 <= i < n ensures a[d, i] == FLOAT_ZERO {
      assert Row(a, d, n)[i] == Silence(m, n)[d][i];
    }
  }

  /** What may change when an echo is pushed. */
  ghost function EchoFrame(echo: ParamEchoRing?): set<object> {
    if echo == null then {} else {echo, echo.slots}
  }

  ghost predicate EchoOk(echo: ParamEchoRing?)
    reads EchoFrame(echo)
  {
    echo != null ==> echo.Valid()
  }

  /** The echoes waiting for the control thread; a renderer without a ring keeps none. */
  ghost function InRing(echo: ParamEchoRing?): seq<ParamEcho>
    requires EchoOk(echo)
    reads EchoFrame(echo)
  {
    if echo == null then [] else echo.Contents()
  }

  ghost function AfterEchoes(echo: ParamEchoRing?, waiting: seq<ParamEcho>, es: seq<ParamEcho>): seq<ParamEcho> {
    if echo == null then [] else Accepted(waiting, es)
  }

  /** The sink for a plugin's output events: parameter changes go to the ring, others are dropped. */
  method EmitAll(echo: ParamEchoRing?, trackId: nat, slot: int, emitted: seq<OutEvent>)
    requires EchoOk(echo)
    modifies EchoFrame(echo)
    ensures EchoOk(echo)
    ensures InRing(echo) == AfterEchoes(echo, old(InRing(echo)), EchoesOf(trackId, slot, emitted))
  {
    hide ParamEchoRing.Valid, ParamEchoRing.Contents;
    ghost var was := InRing(echo);
    BoundedEcho(echo);
    for k := 0 to |emitted|
      invariant EchoOk(echo)
      invariant InRing(echo) == AfterEchoes(echo, was, EchoesOf(trackId, slot, emitted[..k]))
    {
      assert emitted[..k + 1][..k] == emitted[..k];
      var ev := emitted[k];
      if echo != null && ev.ParamChange? {
        var e := ParamEcho(trackId, slot, ev.paramId, ev.value);
        var _ := echo.Push(e);
      }
    }
    assert emitted[..|emitted|] == emitted;
  }

  lemma BoundedEcho(echo: ParamEchoRing?)
    requires EchoOk(echo)
    ensures |InRing(echo)| <= CAPACITY
  {
    if echo != null { echo.Meaning(); }
    hide RingInv;
  }

  /** What a plugin is told to read is what the input buffer holds; none for an instrument. */
  ghost predicate Reads(call: Call, input: array2?<Float>)
    reads input
  {
    if input == null then call.input == None
    else call.input.Some? && var s := call.input.value;
      |s.chans| <= input.Length0 && call.frames <= input.Length1 && Rows(input, |s.chans|, call.frames) == s.chans
  }

  /** One call of process, from the input buffer, if any, into another one. */
  method CallPlugin(h: Host, n: NodeId, call: Call, trackId: nat, slot: int,
                    input: array2?<Float>, output: array2<Float>, echo: ParamEchoRing?)
    returns (mask: set<nat>)
    requires Reads(call, input) && input != output
    requires call.outs <= output.Length0 && call.frames <= output.Length1 && EchoOk(echo)
    requires Rows(output, call.outs, call.frames) == Silence(call.outs, call.frames)
    modifies output, EchoFrame(echo)
    ensures EchoOk(echo)
    ensures var r := h.process(n, call);
      && Rows(output, call.outs, call.frames) == Written(r.chans, call.outs, call.frames)
      && mask == r.mask
      && InRing(echo) == AfterEchoes(echo, old(InRing(echo)), EchoesOf(trackId, slot, r.emitted))
  {
    hide ParamEchoRing.Valid, ParamEchoRing.Contents, Written, EchoesOf, AfterEchoes;
    var r := h.process(n, call);
    WriteOutput(output, r.chans, call.outs, call.frames);
    EmitAll(echo, trackId, slot, r.emitted);
    mask := r.mask;
  }

  /** Zeroes the output buffer and calls the plugin: the buffer, the mask and the echo ring are then
      what Play says. */
  method PlayInto(h: Host, ghost c: Cycle, call: Call, trackId: nat, n: NodeId, slot: int,
                  input: array2?<Float>, output: array2<Float>, echo: ParamEchoRing?)
    returns (mask: set<nat>)
    requires output.Length0 == MAX_CHANNELS && c.frames <= output.Length1 && EchoOk(echo)
    requires input != output && Reads(call, input) && call == CallOf(h, c, n, call.input)
    requires n in c.playing     // what PluginNode::process asserts
    modifies output, EchoFrame(echo)
    ensures EchoOk(echo)
    ensures var v := Play(h, c, trackId, n, slot, call.input);
      && |v.sig.chans| == call.outs == OutChannels(h, n)
      && Rows(output, call.outs, c.frames) == v.sig.chans && mask == v.sig.mask
      && InRing(echo) == AfterEchoes(echo, old(InRing(echo)), v.echoes)
  {
    hide ParamEchoRing.Valid, ParamEchoRing.Contents, Written, EchoesOf, AfterEchoes, Silence;
    ZeroChannels(output, call.outs, call.frames);
    mask := CallPlugin(h, n, call, trackId, slot, input, output, echo);
  }

  // ---------------------------------------------------------------- one track

  /** Adds one channel of a track to the output, the whole channel from its first sample if it is
      declared constant. */
  method MixChannel(h: Host, out: array2<Float>, cur: array2<Float>, ch: nat, frames: nat, constant: bool, gain: Float)
    requires out != cur && ch < out.Length0 && out.Length1 == frames
    requires ch < cur.Length0 && frames <= cur.Length1 && (constant ==> cur.Length1 > 0)
    modifies out
    ensures Row(out, ch, frames) == MixRow(h, old(Row(out, ch, frames)), Row(cur, ch, frames), constant, gain)
    ensures forall d, i :: 0 <= d < out.Length0 && 0 <= i < frames && d != ch ==> out[d, i] == old(out[d, i])
  {
    hide Mixed;
    ghost var o, x := Row(out, ch, frames), Row(cur, ch, frames);
    if constant {
      var v := h.mul(cur[ch, 0], gain);
      for i := 0 to frames
        invariant forall j :: 0 <= j < i ==> out[ch, j] == h.add(o[j], v)
        invariant forall j :: i <= j < frames ==> out[ch, j] == o[j]
        invariant forall d, j :: 0 <= d < out.Length0 && 0 <= j < frames && d != ch ==> out[d, j] == old(out[d, j])
      {
        out[ch, i] := h.add(out[ch, i], v);
      }
      RowIsMixed(h, out, ch, frames, o, x, constant, gain) by {
        if frames > 0 { assert x[0] == cur[ch, 0]; }
        AddedOnce(h, gain);
      }
    } else {
      for i := 0 to frames
        invariant forall j :: 0 <= j < i ==> out[ch, j] == h.add(o[j], h.mul(x[j], gain))
        invariant forall j :: i <= j < frames ==> out[ch, j] == o[j]
        invariant forall d, j :: 0 <= d < out.Length0 && 0 <= j < frames && d != ch ==> out[d, j] == old(out[d, j])
      {
        out[ch, i] := h.add(out[ch, i], h.mul(cur[ch, i], gain));
      }
      RowIsMixed(h, out, ch, frames, o, x, constant, gain) by { AddedOnce(h, gain); }
    }
  }

  lemma AddedOnce(h: Host, gain: Float)
    ensures forall o, x :: Mixed(h, o, x, gain) == h.add(o, h.mul(x, gain))
  {
  }

  lemma RowIsMixed(h: Host, out: array2<Float>, ch: nat, frames: nat, o: seq<Float>, x: seq<Float>, constant: bool,
        gain: Float)
    requires ch < out.Length0 && frames <= out.Length1 && |o| == |x| == frames
    requires forall j :: 0 <= j < frames ==> out[ch, j] == Mixed(h, o[j], if constant then x[0] else x[j], gain)
    ensures Row(out, ch, frames) == MixRow(h, o, x, constant, gain)
  {
    hide Mixed;
  }

  /** Adds a track's signal, held in `cur`, to the output. */
  method MixInto(h: Host, out: array2<Float>, channels: nat, cur: array2<Float>, ghost s: Signal, curCh: nat,
                 mask: set<nat>, frames: nat, gain: Float)
    requires out != cur && out.Length0 == channels && out.Length1 == frames
    requires cur.Length0 == MAX_CHANNELS && frames <= cur.Length1 && (cur.Length1 > 0 || mask == {})
    requires Shaped(s, frames) && |s.chans| == curCh && mask == s.mask && Rows(cur, curCh, frames) == s.chans
    modifies out
    ensures Rows(out, channels, frames) == MixFast(h, old(Rows(out, channels, frames)), s, frames, gain)
  {
    hide MixRow;
    ghost var o := Rows(out, channels, frames);
    var count := Min(curCh, channels);
    for ch := 0 to count
      invariant forall d :: 0 <= d < ch ==> Row(out, d, frames) == MixRow(h, o[d], s.chans[d], d in s.mask, gain)
      invariant forall d, i :: ch <= d < channels && 0 <= i < frames ==> out[d, i] == old(out[d, i])
    {
      label Before:
      assert Row(out, ch, frames) == o[ch];
      assert Row(cur, ch, frames) == s.chans[ch];
      MixChannel(h, out, cur, ch, frames, ch in mask, gain);
      forall d | 0 <= d < ch ensures Row(out, d, frames) == old@Before(Row(out, d, frames)) {
      }
    }
    forall d | count <= d < channels ensures Row(out, d, frames) == o[d] {
    }
    assert Rows(out, channels, frames) == MixFast(h, o, s, frames, gain);
  }

  lemma RowsPrefix(a: array2<Float>, k: nat, m: nat, n: nat)
    requires k <= m <= a.Length0 && n <= a.Length1
    ensures Rows(a, k, n) == Rows(a, m, n)[..k]
  {
  }

  lemma EchoesAppend(echo: ParamEchoRing?, waiting: seq<ParamEcho>, a: seq<ParamEcho>, b: seq<ParamEcho>)
    ensures AfterEchoes(echo, AfterEchoes(echo, waiting, a), b) == AfterEchoes(echo, waiting, a + b)
  {
    AcceptedAppend(waiting, a, b);
    hide Accepted;
  }

  /** One effect of the chain, from the buffer that holds the sound so far into the other one. */
  method PlayEffect(h: Host, ghost c: Cycle, start: nat, frames: nat, trackId: nat, fx: NodeId, slot: int,
                    events: seq<ClapEvent>, cur: array2<Float>, other: array2<Float>, curCh: nat, curMask: set<nat>,
                    ghost v: Voice, ghost w0: seq<ParamEcho>, echo: ParamEchoRing?)
    returns (outCh: nat, mask: set<nat>, ghost w: Voice)
    requires cur != other && cur.Length0 == other.Length0 == MAX_CHANNELS && fx in c.playing
    requires c.start == start && c.frames == frames <= cur.Length1 && frames <= other.Length1 && events == c.events(fx)
    requires EchoOk(echo) && curCh == |v.sig.chans| <= MAX_CHANNELS && curMask == v.sig.mask
    requires Rows(cur, curCh, frames) == v.sig.chans && InRing(echo) == AfterEchoes(echo, w0, v.echoes)
    modifies other, EchoFrame(echo)
    ensures EchoOk(echo)
    ensures var p := Play(h, c, trackId, fx, slot, Some(Offered(h, fx, v.sig))); w == Voice(p.sig, v.echoes + p.echoes)
    ensures outCh == |w.sig.chans| <= MAX_CHANNELS && mask == w.sig.mask
    ensures Rows(other, outCh, frames) == w.sig.chans && InRing(echo) == AfterEchoes(echo, w0, w.echoes)
  {
    hide ParamEchoRing.Valid, ParamEchoRing.Contents, AfterEchoes, Play;
    var inCh := Min(Min(h.ports(fx).ins, MAX_CHANNELS), curCh);
    RowsPrefix(cur, inCh, curCh, frames);
    outCh := OutChannels(h, fx);
    var call := Call(start, frames, Some(Signal(Rows(cur, inCh, frames), curMask)), outCh, events);
    assert call.input.value == Offered(h, fx, v.sig);
    mask := PlayInto(h, c, call, trackId, fx, slot, cur, other, echo);
    ghost var p := Play(h, c, trackId, fx, slot, call.input);
    w := Voice(p.sig, v.echoes + p.echoes);
    EchoesAppend(echo, w0, v.echoes, p.echoes);
  }

  /** The nodes of the track, as the code finds them, are those of the cycle. */
  ghost predicate Linked(tr: Track, nodes: map<NodeId, NodeState>, at: map<NodeId, nat>,
                         buckets: seq<seq<ClapEvent>>, c: Cycle) {
    forall n :: n in TrackNodes(tr) ==>
      && n in nodes && (nodes[n] == Processing <==> n in c.playing)
      && n in at && at[n] < |buckets| && buckets[at[n]] == c.events(n)
  }

  lemma LinkedInstrument(tr: Track, nodes: map<NodeId, NodeState>, at: map<NodeId, nat>,
                         buckets: seq<seq<ClapEvent>>, c: Cycle)
    requires Linked(tr, nodes, at, buckets, c)
    ensures tr.instrument.Some? ==> var n := tr.instrument.value;
      && n in nodes && (nodes[n] == Processing <==> n in c.playing)
      && n in at && at[n] < |buckets| && buckets[at[n]] == c.events(n)
  {
    if tr.instrument.Some? { TrackMembers(tr, tr.instrument.value); }
  }

  lemma LinkedEffect(tr: Track, nodes: map<NodeId, NodeState>, at: map<NodeId, nat>,
                     buckets: seq<seq<ClapEvent>>, c: Cycle, k: nat)
    requires Linked(tr, nodes, at, buckets, c) && k < |tr.chain|
    ensures var n := tr.chain[k];
      && n in nodes && (nodes[n] == Processing <==> n in c.playing)
      && n in at && at[n] < |buckets| && buckets[at[n]] == c.events(n)
  {
    TrackMembers(tr, tr.chain[k]);
  }

  // ---------------------------------------------------------------- one block

  /** The cycle a block plays: the nodes that are Processing, and for each node the events among the
      due ones that are addressed to it. */
  function CycleOf(nodes: map<NodeId, NodeState>, b: Block, due: seq<Slot>, drop: bool): Cycle {
    Cycle(b.start, b.frames, (set n | n in nodes && nodes[n] == Processing),
          n => if drop then [] else Capped(Delivered(due, b, n)))
  }

  /** Once the events have been routed, every track of the graph is linked to that cycle. */
  lemma TracksLinked(nodes: map<NodeId, NodeState>, at: map<NodeId, nat>, buckets: seq<seq<ClapEvent>>,
                     b: Block, due: seq<Slot>, drop: bool, k: nat)
    requires k < |b.g.tracks| && Filled(buckets, Nodes(b.g), due, b, drop)
    requires forall i :: 0 <= i < |Nodes(b.g)| ==> Nodes(b.g)[i] in at && at[Nodes(b.g)[i]] == i
    requires forall n :: n in Nodes(b.g) ==> n in nodes
    ensures Linked(b.g.tracks[k], nodes, at, buckets, CycleOf(nodes, b, due, drop))
  {
    hide Delivered, Capped;
    forall n | n in TrackNodes(b.g.tracks[k])
      ensures n in Nodes(b.g) && n in at && at[n] < |buckets|
      ensures buckets[at[n]] == if drop then [] else Capped(Delivered(due, b, n))
    {
      InAllNodes(b.g.tracks, k, n);
      var i :| 0 <= i < |Nodes(b.g)| && Nodes(b.g)[i] == n;
    }
  }

  lemma InAllNodes(ts: seq<Track>, k: nat, n: NodeId)
    requires k < |ts| && n in TrackNodes(ts[k])
    ensures n in AllNodes(ts)
  {
    AllNodesAt(ts, k);
    hide AllNodes, TrackNodes;
  }

  /** n blocks of the same length, with what the producer puts in the ring before each. */
  function Blocks(frames: nat, arrivals: nat -> seq<MrEvent>, n: nat): (ts: seq<BlockInput>)
    ensures |ts| == n && forall k :: 0 <= k < n ==> ts[k] == BlockInput(frames, arrivals(k))
  {
    seq(n, k => if k >= 0 then BlockInput(frames, arrivals(k)) else BlockInput(frames, []))
  }

  /** The stream position after k such blocks. */
  function Position(k: nat, frames: nat): nat {
    if k == 0 then 0 else Position(k - 1, frames) + frames
  }

  predicate SameLength(ts: seq<BlockInput>, frames: nat) {
    forall k :: 0 <= k < |ts| ==> ts[k].frames == frames
  }

  lemma BlocksSameLength(frames: nat, arrivals: nat -> seq<MrEvent>, n: nat)
    ensures SameLength(Blocks(frames, arrivals, n), frames)
  {
  }

  lemma {:induction false} BlockStarts(ts: seq<BlockInput>, frames: nat, k: nat)
    requires SameLength(ts, frames) && k <= |ts|
    ensures StartOf(0, ts, k) == Position(k, frames)
  {
    if k > 0 { BlockStarts(ts, frames, k - 1); }
  }

  lemma FirstState(st: Stream, cap: nat, ts: seq<BlockInput>, frames: nat)
    ensures CodeStateAt(st, cap, 0, ts, 0) == st && Position(0, frames) == 0
  {
  }

  /** What block k consumes, from the state in which it finds ring and queue. */
  function OfflineDue(st: Stream, cap: nat, ts: seq<BlockInput>, k: nat): seq<Slot>
    requires k < |ts|
  {
    Consumed(CodeStateAt(st, cap, 0, ts, k), cap, StartOf(0, ts, k) % TWO_32, ts[k])
  }

  /** One block, once the producer has put its events in the ring. */
  lemma NextState(st: Stream, cap: nat, ts: seq<BlockInput>, frames: nat, k: nat)
    requires SameLength(ts, frames) && k < |ts|
    ensures var u := CodeStateAt(st, cap, 0, ts, k); var start := Position(k, frames) % TWO_32;
      var u' := Stream(u.ring + ts[k].arrivals, u.queue, u.nextSeq);
      && CodeStateAt(st, cap, 0, ts, k + 1) == Advance(u', cap, start, BlockInput(frames, []))
      && OfflineDue(st, cap, ts, k) == Consumed(u', cap, start, BlockInput(frames, []))
    ensures Position(k + 1, frames) == Position(k, frames) + frames
  {
    BlockStarts(ts, frames, k);
    ArrivalsAreInTheRing(CodeStateAt(st, cap, 0, ts, k), cap, Position(k, frames) % TWO_32, ts[k]);
    hide Advance, Consumed, StartOf;
  }

  /** As long as no block starts at or past 2^32, these are the states of the true stream, of which
      every theorem of EventStream speaks. */
  lemma OfflineIsTrueStream(st: Stream, cap: nat, ts: seq<BlockInput>, frames: nat, n: nat)
    requires SameLength(ts, frames) && n <= |ts| && (n > 0 ==> Position(n - 1, frames) < TWO_32)
    ensures CodeStateAt(st, cap, 0, ts, n) == StateAt(st, cap, 0, ts, n)
    ensures forall k :: 0 <= k < n ==> OfflineDue(st, cap, ts, k) == ConsumedAt(st, cap, 0, ts, k)
  {
    hide CodeStateAt, StateAt, Consumed, StartOf, SameLength, Position;
    forall k: nat | k <= n && (k > 0 ==> StartOf(0, ts, k - 1) < TWO_32)
      ensures CodeStateAt(st, cap, 0, ts, k) == StateAt(st, cap, 0, ts, k)
    {
      ExactUntilWrap(st, cap, 0, ts, k);
    }
    forall k: nat | k < n ensures StartOf(0, ts, k) < TWO_32 {
      BlockStarts(ts, frames, n - 1);
      StartsGrow(0, ts, k, n - 1);
    }
  }

  /** A block of an offline rendering: the graph it renders, and the node states it finds. */
  datatype OfflineBlock = OfflineBlock(g: GraphState, nodes: map<NodeId, NodeState>)

  /** The samples of block k: the mix of its graph, each node having been given its due events. */
  function OfflineSound(h: Host, dialects: map<NodeId, Dialect>, e: OfflineBlock, due: seq<Slot>, start: nat,
                        frames: nat, drop: bool): seq<seq<Float>> {
    BlockFast(h, CycleOf(e.nodes, Block(e.g, dialects, start, frames), due, drop), MAX_CHANNELS, e.g.tracks,
              e.g.masterGain)
  }

  /** The position is a product, and the frame count that is returned is its low 32 bits. */
  lemma {:induction false} PositionIsProduct(k: nat, frames: nat)
    ensures Position(k, frames) == k * frames
  {
    if k > 0 {
      PositionIsProduct(k - 1, frames);
      assert k * frames == (k - 1) * frames + frames;
    }
  }

  datatype RenderClock = RenderClock(streamFrame: nat, monoNs: nat, latencyFrames: nat)

  class Renderer {
    const graph: AudioGraph
    const maxBlock: nat
    const dropRealtime: bool
    const ring: SpscRing
    const reorder: EventReorderQueue
    const echo: ParamEchoRing?
    const bufA: array2<Float>
    const bufB: array2<Float>
    const buckets: array<seq<ClapEvent>>
    const index: BucketIndex
    var lastStreamFrame: nat
    var streamStarted: bool
    var lastLatencyFrames: nat

    /** The two channel buffers are different, and everything has its size. */
    ghost predicate Sized() {
      && bufA != bufB && buckets.Length == MAX_NODES
      && bufA.Length0 == bufB.Length0 == MAX_CHANNELS && bufA.Length1 == bufB.Length1 == maxBlock
    }

    ghost predicate Valid()
      reads this, reorder, reorder.heap, EchoFrame(echo)
    {
      Sized() && reorder.Valid() && EchoOk(echo)
    }

    constructor (g: AudioGraph, r: SpscRing, capacity: nat, block: nat, drop: bool, e: ParamEchoRing?)
      requires EchoOk(e)
      ensures Valid() && !streamStarted && lastLatencyFrames == 0 && reorder.queue == [] && reorder.heap.Length == capacity
      ensures maxBlock == block && dropRealtime == drop && graph == g && ring == r && echo == e
      ensures fresh(reorder) && fresh(reorder.heap) && fresh(bufA) && fresh(bufB) && fresh(buckets) && fresh(index)
    {
      graph, maxBlock, dropRealtime, ring, echo := g, block, drop, r, e;
      reorder := new EventReorderQueue(capacity);
      bufA := new Float[MAX_CHANNELS, block]((_, _) => FLOAT_ZERO);
      bufB := new Float[MAX_CHANNELS, block]((_, _) => FLOAT_ZERO);
      buckets := new seq<ClapEvent>[MAX_NODES](_ => []);
      index := new BucketIndex();
      lastStreamFrame, streamStarted, lastLatencyFrames := 0, false, 0;
    }

    /** One track: the instrument into one buffer, each effect that is Processing from the buffer
        with the sound so far into the other, and the result added to the output. */
    method RenderTrack(h: Host, tr: Track, out: array2<Float>, channels: nat, frames: nat, start: nat,
                       masterGain: Float, nodes: map<NodeId, NodeState>, ghost c: Cycle)
      requires Sized() && EchoOk(echo) && out != bufA && out != bufB
      requires out.Length0 == channels && out.Length1 == frames <= maxBlock
      requires c.start == start && c.frames == frames && Linked(tr, nodes, index.at, buckets[..], c)
      requires maxBlock > 0 || DeclaresNothing(h)
      modifies out, bufA, bufB, EchoFrame(echo)
      ensures EchoOk(echo)
      ensures Rows(out, channels, frames) == TrackFast(h, c, old(Rows(out, channels, frames)), tr, masterGain)
      ensures InRing(echo) == AfterEchoes(echo, old(InRing(echo)), TrackEchoes(h, c, tr))
    {
      hide ParamEchoRing.Valid, ParamEchoRing.Contents, AfterEchoes, Play, Linked, MixFast, Offered, DeclaresNothing;
      ghost var w0 := InRing(echo);
      LinkedInstrument(tr, nodes, index.at, buckets[..], c);
      if tr.instrument.None? || nodes[tr.instrument.value] != Processing {
        NoEchoes(echo);
        return;
      }
      var inst := tr.instrument.value;
      var call := Call(start, frames, None, OutChannels(h, inst), buckets[index.at[inst]]);
      var cur, other, curCh := bufA, bufB, call.outs;
      var mask := PlayInto(h, c, call, tr.id, inst, MR_DEST_INSTRUMENT, null, cur, echo);
      ghost var v := ChainVoice(h, c, tr, 0);
      for s := 0 to |tr.chain|
        invariant EchoOk(echo) && v == ChainVoice(h, c, tr, s)
        invariant (cur == bufA && other == bufB) || (cur == bufB && other == bufA)
        invariant curCh == |v.sig.chans| <= MAX_CHANNELS && mask == v.sig.mask
        invariant Rows(cur, curCh, frames) == v.sig.chans && InRing(echo) == AfterEchoes(echo, w0, v.echoes)
        invariant Rows(out, channels, frames) == old(Rows(out, channels, frames))
      {
        var fx := tr.chain[s];
        LinkedEffect(tr, nodes, index.at, buckets[..], c, s);
        if nodes[fx] != Processing {
          continue;
        }
        var outCh, outMask;
        outCh, outMask, v := PlayEffect(h, c, start, frames, tr.id, fx, s, buckets[index.at[fx]], cur, other, curCh,
              mask, v, w0, echo);
        cur, other := other, cur;
        curCh, mask := outCh, outMask;
      }
      if maxBlock == 0 {
        ChainDeclaresNothing(h, c, tr, |tr.chain|);
      }
      MixInto(h, out, channels, cur, v.sig, curCh, mask, frames, h.mul(tr.gain, masterGain));
    }

    /** The tracks of the graph in order. */
    method RenderTracks(h: Host, g: GraphState, out: array2<Float>, channels: nat, frames: nat, start: nat,
                        nodes: map<NodeId, NodeState>, ghost c: Cycle)
      requires Sized() && EchoOk(echo) && out != bufA && out != bufB
      requires out.Length0 == channels && out.Length1 == frames <= maxBlock
      requires c.start == start && c.frames == frames && Rows(out, channels, frames) == Silence(channels, frames)
      requires forall k :: 0 <= k < |g.tracks| ==> Linked(g.tracks[k], nodes, index.at, buckets[..], c)
      requires maxBlock > 0 || DeclaresNothing(h)
      modifies out, bufA, bufB, EchoFrame(echo)
      ensures EchoOk(echo)
      ensures Rows(out, channels, frames) == BlockFast(h, c, channels, g.tracks, g.masterGain)
      ensures InRing(echo) == AfterEchoes(echo, old(InRing(echo)), BlockEchoes(h, c, g.tracks))
    {
      hide ParamEchoRing.Valid, ParamEchoRing.Contents, AfterEchoes, Linked, TrackFast, TrackEchoes, Silence,
            DeclaresNothing;
      ghost var w0 := InRing(echo);
      NoEchoes(echo);
      for t := 0 to |g.tracks|
        invariant EchoOk(echo)
        invariant Rows(out, channels, frames) == BlockFast(h, c, channels, g.tracks[..t], g.masterGain)
        invariant InRing(echo) == AfterEchoes(echo, w0, BlockEchoes(h, c, g.tracks[..t]))
      {
        assert g.tracks[..t + 1][..t] == g.tracks[..t];
        RenderTrack(h, g.tracks[t], out, channels, frames, start, g.masterGain, nodes, c);
        EchoesAppend(echo, w0, BlockEchoes(h, c, g.tracks[..t]), TrackEchoes(h, c, g.tracks[t]));
      }
      assert g.tracks[..|g.tracks|] == g.tracks;
    }

    /** The stream went back, or is the first: what waits in the reorder queue is stale. */
    method Restart(streamFrame: nat)
      requires reorder.Valid()
      modifies reorder, this`lastStreamFrame, this`streamStarted
      ensures reorder.Valid() && reorder.nextSeq == old(reorder.nextSeq)
      ensures reorder.queue == if old(streamStarted) && streamFrame >= old(lastStreamFrame) then old(reorder.queue) else []
      ensures lastStreamFrame == streamFrame && streamStarted
    {
      if !streamStarted || streamFrame < lastStreamFrame {
        reorder.Clear();
      }
      lastStreamFrame := streamFrame;
      streamStarted := true;
    }

    /** What the events of a block are taken from: the ring and the queue, emptied on a restart. */
    ghost function Source(streamFrame: nat): Stream
      reads this, ring, reorder
    {
      Stream(ring.events, if streamStarted && streamFrame >= lastStreamFrame then reorder.queue else [], reorder.nextSeq)
    }

    /** The clock goes to the ring with every block, the output latency when it has changed. */
    method Publish(clock: RenderClock)
      modifies ring`clock, ring`outputLatency, this`lastLatencyFrames
      ensures ring.clock == Some((clock.streamFrame, clock.monoNs)) && lastLatencyFrames == clock.latencyFrames
      ensures clock.latencyFrames != old(lastLatencyFrames) ==> ring.outputLatency == Some(clock.latencyFrames)
      ensures clock.latencyFrames == old(lastLatencyFrames) ==> ring.outputLatency == old(ring.outputLatency)
      ensures ClockPublished(clock, old(lastLatencyFrames), old(ring.outputLatency))
    {
      ring.PublishClock(clock.streamFrame, clock.monoNs);
      if clock.latencyFrames != lastLatencyFrames {
        ring.PublishOutputLatency(clock.latencyFrames);
        lastLatencyFrames := clock.latencyFrames;
      }
    }

    ghost predicate ClockPublished(clock: RenderClock, last: nat, latency: Option<nat>)
      reads this, ring
    {
      && ring.clock == Some((clock.streamFrame, clock.monoNs)) && lastLatencyFrames == clock.latencyFrames
      && ring.outputLatency == if clock.latencyFrames == last then latency else Some(clock.latencyFrames)
    }

    /** One block. The graph is the one audio_apply returns; ring and queue advance as one block of an
        event stream; the output is the mix of the tracks over silence, each node having been given
        the events the block consumes for it. */
    method Render(h: Host, dialects: map<NodeId, Dialect>, out: array2<Float>, channels: nat, frames: nat,
                  clock: RenderClock, ghost pc: ControlPc)
      requires Valid() && graph.At(pc, Quiet) && out != bufA && out != bufB
      requires out.Length0 == channels && out.Length1 == frames <= maxBlock
      requires maxBlock > 0 || DeclaresNothing(h)
      modifies this`lastStreamFrame, this`streamStarted, this`lastLatencyFrames, ring, reorder, reorder.heap, index,
               buckets, out, bufA, bufB, EchoFrame(echo), graph`nodes, graph`started, graph`active, graph`pending,
               graph`toControl, graph`retire, graph`held, graph`run
      ensures Valid() && graph.At(pc, Quiet) && graph.active in graph.graphs
      ensures graph.Pointers(pc, Quiet) == AfterApply(old(graph.Pointers(pc, Quiet)))
      ensures NodesApplied(graph.willing, old(graph.Pointers(pc, Quiet)), old(graph.nodes), graph.nodes)
      ensures ClockPublished(clock, old(lastLatencyFrames), old(ring.outputLatency))
      ensures streamStarted && lastStreamFrame == clock.streamFrame
      ensures Stream(ring.events, reorder.queue, reorder.nextSeq)
           == Advance(old(Source(clock.streamFrame)), reorder.heap.Length, clock.streamFrame % TWO_32,
                      BlockInput(frames, []))
      ensures Rendered(h, dialects, out, old(DueFor(clock.streamFrame, frames)), clock.streamFrame % TWO_32,
                       old(InRing(echo)))
    {
      hide ParamEchoRing.Valid, ParamEchoRing.Contents, AfterEchoes, EventReorderQueue.Valid, AudioGraph.At,
            AudioGraph.Pointers;
      hide Nodes, Rows, Silence, Advance, Consumed, AfterApply, NodesApplied, BlockFast, BlockEchoes, Linked,
            CycleOf, DueFor, ClockPublished, DeclaresNothing;
      var g, start;
      ghost var c;
      g, start, c := Prepare(dialects, out, channels, frames, clock, pc);
      RenderTracks(h, g, out, channels, frames, start, graph.nodes, c);
    }

    /** The slots the coming block consumes. */
    ghost function DueFor(streamFrame: nat, frames: nat): seq<Slot>
      reads this, ring, reorder
    {
      Consumed(Source(streamFrame), reorder.heap.Length, streamFrame % TWO_32, BlockInput(frames, []))
    }

    /** Everything before the tracks: the graph, the events, and silence in the output. */
    method Prepare(dialects: map<NodeId, Dialect>, out: array2<Float>, channels: nat, frames: nat, clock: RenderClock,
                   ghost pc: ControlPc) returns (g: GraphState, start: nat, ghost c: Cycle)
      requires Sized() && reorder.Valid() && graph.At(pc, Quiet)
      requires out.Length0 == channels && out.Length1 == frames
      modifies this`lastStreamFrame, this`streamStarted, this`lastLatencyFrames, ring, reorder, reorder.heap, index,
               buckets, out, graph`nodes, graph`started, graph`active, graph`pending, graph`toControl,
               graph`retire, graph`held, graph`run
      ensures reorder.Valid() && graph.At(pc, Quiet) && graph.active in graph.graphs && g == graph.graphs[graph.active]
      ensures graph.Pointers(pc, Quiet) == AfterApply(old(graph.Pointers(pc, Quiet)))
      ensures NodesApplied(graph.willing, old(graph.Pointers(pc, Quiet)), old(graph.nodes), graph.nodes)
      ensures ClockPublished(clock, old(lastLatencyFrames), old(ring.outputLatency))
      ensures streamStarted && lastStreamFrame == clock.streamFrame
      ensures start == clock.streamFrame % TWO_32 == c.start && c.frames == frames
      ensures Stream(ring.events, reorder.queue, reorder.nextSeq)
           == Advance(old(Source(clock.streamFrame)), reorder.heap.Length, start, BlockInput(frames, []))
      ensures c == CycleOf(graph.nodes, Block(g, dialects, start, frames), old(DueFor(clock.streamFrame, frames)),
                           dropRealtime)
      ensures Rows(out, channels, frames) == Silence(channels, frames)
      ensures forall k :: 0 <= k < |g.tracks| ==> Linked(g.tracks[k], graph.nodes, index.at, buckets[..], c)
    {
      hide EventReorderQueue.Valid, AudioGraph.At, AudioGraph.Pointers, Nodes, NoDup, Bounded, Rows, Silence;
      hide Advance, Consumed, AfterApply, NodesApplied, Linked, CycleOf;
      var id := graph.AudioApply(pc);
      g := graph.graphs[id];
      graph.ActiveFits(pc);
      Publish(clock);
      ghost var st := old(Source(clock.streamFrame));
      Restart(clock.streamFrame);
      start := clock.streamFrame % TWO_32;
      ZeroChannels(out, channels, frames);
      c := RouteBlock(Block(g, dialects, start, frames), st, graph.nodes);
    }

    /** What waits in ring and queue is a stream in good order. */
    lemma SourceOk(streamFrame: nat)
      requires reorder.Valid()
      ensures StreamOk(Source(streamFrame))
    {
    }

    /** Renders blocks of maxBlock frames one after the other, from stream position 0, as the offline
        backend does, and writes their samples to `pcm`: ring and queue go through the states of the
        stream of these blocks, and every block is the mix of its graph with the events due in it.
        `hs` gives the plugins as they are at each block, `arrivals` what the producer adds before it. */
    method RenderOffline(hs: nat -> Host, dialects: map<NodeId, Dialect>, arrivals: nat -> seq<MrEvent>, blocks: nat,
                         ghost pc: ControlPc)
      returns (frames: nat, pcm: seq<seq<seq<Float>>>, ghost log: seq<OfflineBlock>)
      requires Valid() && graph.At(pc, Quiet)
      requires maxBlock > 0 || forall k :: DeclaresNothing(hs(k))
      modifies this`lastStreamFrame, this`streamStarted, this`lastLatencyFrames, ring, reorder, reorder.heap, index,
               buckets, bufA, bufB, EchoFrame(echo), graph`nodes, graph`started, graph`active, graph`pending,
               graph`toControl, graph`retire, graph`held, graph`run
      ensures Valid() && graph.At(pc, Quiet) && frames == Position(blocks, maxBlock) % TWO_32
      ensures StreamOk(old(Source(0)))
      ensures Source(Position(blocks, maxBlock))
           == CodeStateAt(old(Source(0)), reorder.heap.Length, 0, Blocks(maxBlock, arrivals, blocks), blocks)
      ensures BlocksWritten(hs, dialects, old(Source(0)), Blocks(maxBlock, arrivals, blocks), pcm, log, blocks)
    {
      hide EventReorderQueue.Valid, AudioGraph.At, AudioGraph.Pointers, Advance, ClockPublished, NodesApplied,
            DeclaresNothing, AfterApply, CodeStateAt, StreamOk, Sized, Position, BlocksWritten, InRing, AfterEchoes,
            OfflineSound, OfflineDue;
      SourceOk(0);
      var out := new Float[MAX_CHANNELS, maxBlock]((_, _) => FLOAT_ZERO);
      ghost var st, ts := Source(0), Blocks(maxBlock, arrivals, blocks);
      FirstState(st, reorder.heap.Length, ts, maxBlock);
      BlocksSameLength(maxBlock, arrivals, blocks);
      hide SameLength;
      pcm, log := [], [];
      NothingWritten(hs, dialects, st, ts);
      var streamFrame := 0;
      for b := 0 to blocks
        invariant Valid() && graph.At(pc, Quiet) && streamFrame == Position(b, maxBlock)
        invariant Source(streamFrame) == CodeStateAt(st, reorder.heap.Length, 0, ts, b)
        invariant BlocksWritten(hs, dialects, st, ts, pcm, log, b)
      {
        var monoNs: nat := *;
        assert maxBlock > 0 || DeclaresNothing(hs(b));
        var block, e := RenderBlock(hs(b), dialects, out, RenderClock(streamFrame, monoNs, 0), arrivals(b), st, ts, b, pc);
        OneMoreWritten(hs, dialects, st, ts, pcm, log, b, block, e, streamFrame);
        pcm, log := pcm + [block], log + [e];
        streamFrame := streamFrame + maxBlock;
      }
      PositionIsProduct(blocks, maxBlock);
      frames := blocks * maxBlock % TWO_32;
    }

    /** Block k of it: the producer adds its events, and the samples are then those in `out`. */
    method RenderBlock(h: Host, dialects: map<NodeId, Dialect>, out: array2<Float>, clock: RenderClock,
                       evs: seq<MrEvent>, ghost st: Stream, ghost ts: seq<BlockInput>, ghost k: nat, ghost pc: ControlPc)
      returns (block: seq<seq<Float>>, ghost e: OfflineBlock)
      requires Valid() && graph.At(pc, Quiet) && out != bufA && out != bufB
      requires out.Length0 == MAX_CHANNELS && out.Length1 == maxBlock
      requires maxBlock > 0 || DeclaresNothing(h)
      requires SameLength(ts, maxBlock) && k < |ts| && clock.streamFrame == Position(k, maxBlock)
      requires ts[k].arrivals == evs && Source(clock.streamFrame) == CodeStateAt(st, reorder.heap.Length, 0, ts, k)
      modifies this`lastStreamFrame, this`streamStarted, this`lastLatencyFrames, ring, reorder, reorder.heap, index,
               buckets, out, bufA, bufB, EchoFrame(echo), graph`nodes, graph`started, graph`active, graph`pending,
               graph`toControl, graph`retire, graph`held, graph`run
      ensures Valid() && graph.At(pc, Quiet)
      ensures Position(k + 1, maxBlock) == clock.streamFrame + maxBlock
      ensures Source(clock.streamFrame + maxBlock) == CodeStateAt(st, reorder.heap.Length, 0, ts, k + 1)
      ensures block == OfflineSound(h, dialects, e, OfflineDue(st, reorder.heap.Length, ts, k),
                                    clock.streamFrame % TWO_32, maxBlock, dropRealtime)
    {
      hide EventReorderQueue.Valid, AudioGraph.At, AudioGraph.Pointers, Advance, Consumed, ClockPublished, NodesApplied,
            DeclaresNothing, AfterApply, Sized, InRing, AfterEchoes, CycleOf, BlockFast, BlockEchoes, Rows,
            CodeStateAt, OfflineDue, SameLength, Position;
      NextState(st, reorder.heap.Length, ts, maxBlock, k);
      ring.Produce(evs);
      Render(h, dialects, out, MAX_CHANNELS, maxBlock, clock, pc);
      block := Rows(out, MAX_CHANNELS, maxBlock);
      e := OfflineBlock(graph.graphs[graph.active], graph.nodes);
    }

    /** The first n blocks, from stream st, have been rendered to pcm. */
    ghost predicate BlocksWritten(hs: nat -> Host, dialects: map<NodeId, Dialect>, st: Stream, ts: seq<BlockInput>,
                            pcm: seq<seq<seq<Float>>>, log: seq<OfflineBlock>, n: nat) {
      && |pcm| == |log| == n <= |ts|
      && forall b: nat :: b < n ==>
           pcm[b] == OfflineSound(hs(b), dialects, log[b], OfflineDue(st, reorder.heap.Length, ts, b),
                                  Position(b, maxBlock) % TWO_32, maxBlock, dropRealtime)
    }

    lemma NothingWritten(hs: nat -> Host, dialects: map<NodeId, Dialect>, st: Stream, ts: seq<BlockInput>)
      ensures BlocksWritten(hs, dialects, st, ts, [], [], 0)
    {
    }

    lemma OneMoreWritten(hs: nat -> Host, dialects: map<NodeId, Dialect>, st: Stream, ts: seq<BlockInput>,
                         pcm: seq<seq<seq<Float>>>, log: seq<OfflineBlock>, n: nat, block: seq<seq<Float>>,
                         e: OfflineBlock, streamFrame: nat)
      requires BlocksWritten(hs, dialects, st, ts, pcm, log, n) && n < |ts| && streamFrame == Position(n, maxBlock)
      requires block == OfflineSound(hs(n), dialects, e, OfflineDue(st, reorder.heap.Length, ts, n),
                                     streamFrame % TWO_32, maxBlock, dropRealtime)
      ensures BlocksWritten(hs, dialects, st, ts, pcm + [block], log + [e], n + 1)
    {
      hide OfflineSound, OfflineDue, Position;
    }

    /** The events of the block, and the cycle they make for the tracks. */
    method RouteBlock(b: Block, ghost st: Stream, ghost nodes: map<NodeId, NodeState>) returns (ghost c: Cycle)
      requires Sized() && reorder.Valid() && Bounded(b.g.tracks) && NoDup(Nodes(b.g))
      requires st == Stream(ring.events, reorder.queue, reorder.nextSeq)
      requires forall n :: n in Nodes(b.g) ==> n in nodes
      modifies ring`events, reorder, reorder.heap, index, buckets
      ensures reorder.Valid()
      ensures Stream(ring.events, reorder.queue, reorder.nextSeq)
           == Advance(st, reorder.heap.Length, b.start, BlockInput(b.frames, []))
      ensures c.start == b.start && c.frames == b.frames
      ensures c == CycleOf(nodes, b, Consumed(st, reorder.heap.Length, b.start, BlockInput(b.frames, [])),
            dropRealtime)
      ensures forall k :: 0 <= k < |b.g.tracks| ==> Linked(b.g.tracks[k], nodes, index.at, buckets[..], c)
    {
      hide EventReorderQueue.Valid, Nodes, Filled, NoDup, Bounded, InsertAll, DueCount, Advance, Consumed, Linked;
      NotOverfull(reorder);
      DrainIsAdvance(st, reorder.heap.Length, b.start, b.frames);
      DrainAndDemux(ring, reorder, b, index, buckets, dropRealtime);
      ghost var due := Consumed(st, reorder.heap.Length, b.start, BlockInput(b.frames, []));
      c := CycleOf(nodes, b, due, dropRealtime);
      forall k | 0 <= k < |b.g.tracks| ensures Linked(b.g.tracks[k], nodes, index.at, buckets[..], c) {
        TracksLinked(nodes, index.at, buckets[..], b, due, dropRealtime, k);
      }
    }

    /** The output and the echoes of a block that consumes `due`. */
    ghost predicate Rendered(h: Host, dialects: map<NodeId, Dialect>, out: array2<Float>, due: seq<Slot>, start: nat,
                             waiting: seq<ParamEcho>)
      requires EchoOk(echo) && graph.active in graph.graphs
      reads graph, out, EchoFrame(echo)
    {
      var g := graph.graphs[graph.active];
      var c := CycleOf(graph.nodes, Block(g, dialects, start, out.Length1), due, dropRealtime);
      && Rows(out, out.Length0, out.Length1) == BlockFast(h, c, out.Length0, g.tracks, g.masterGain)
      && InRing(echo) == AfterEchoes(echo, waiting, BlockEchoes(h, c, g.tracks))
    }

    /** With plugins that keep the constant-channel contract when their input does, that output is the
        simple mix. */
    lemma RenderedIsMix(h: Host, dialects: map<NodeId, Dialect>, out: array2<Float>, due: seq<Slot>, start: nat,
                        waiting: seq<ParamEcho>, c: Cycle)
      requires EchoOk(echo) && graph.active in graph.graphs && Rendered(h, dialects, out, due, start, waiting)
      requires c == CycleOf(graph.nodes, Block(graph.graphs[graph.active], dialects, start, out.Length1), due, dropRealtime)
      requires Honest(h, c)
      ensures var g := graph.graphs[graph.active];
        Rows(out, out.Length0, out.Length1) == BlockMix(h, c, out.Length0, g.tracks, g.masterGain)
    {
      hide Honest, CycleOf, BlockFast, BlockMix, InRing, AfterEchoes, BlockEchoes, Rows;
      BlockIsMix(h, c, out.Length0, graph.graphs[graph.active].tracks, graph.graphs[graph.active].masterGain);
    }
  }

  lemma NoEchoes(echo: ParamEchoRing?)
    requires EchoOk(echo)
    ensures InRing(echo) == AfterEchoes(echo, InRing(echo), [])
  {
    BoundedEcho(echo);
  }
}
