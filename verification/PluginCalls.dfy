/** What every plugin is given in a block, where its echoes come from, and what the mix amounts to, told
    by plugins and arithmetic that show it (src/track_render.cpp:116-212). */
module PluginCalls {
  import opened Config
  import opened Graph
  import opened TrackEdits
  import opened Translation
  import opened SortedQueue
  import opened EventRoute
  import opened EchoRing
  import opened SwapProtocol
  import opened Mix
  import opened Render

  // ---------------------------------------------------------------- what is heard

  predicate Processes(nodes: map<NodeId, NodeState>, n: NodeId) {
    n in nodes && nodes[n] == Processing
  }

  /** The node heard after the first k effects: the last one that is Processing, or the instrument. */
  function Heard(nodes: map<NodeId, NodeState>, tr: Track, k: nat): NodeId
    requires tr.instrument.Some? && k <= |tr.chain|
  {
    if k == 0 then tr.instrument.value
    else if Processes(nodes, tr.chain[k - 1]) then tr.chain[k - 1]
    else Heard(nodes, tr, k - 1)
  }

  /** A track whose instrument is missing or not Processing is not heard and echoes nothing; any other
      one is. */
  lemma TrackHeardIff(h: Host, nodes: map<NodeId, NodeState>, b: Block, due: seq<Slot>, drop: bool, o: seq<seq<Float>>,
                      tr: Track, masterGain: Float)
    requires Rectangle(o, b.frames)
    ensures var c := CycleOf(nodes, b, due, drop);
      if tr.instrument.Some? && Processes(nodes, tr.instrument.value)
      then TrackFast(h, c, o, tr, masterGain)
           == MixFast(h, o, ChainVoice(h, c, tr, |tr.chain|).sig, b.frames, h.mul(tr.gain, masterGain))
      else TrackFast(h, c, o, tr, masterGain) == o && TrackEchoes(h, c, tr) == []
  {
    hide MixFast, ChainVoice;
  }

  /** Plugins whose samples show the start and length of the block, the number of channels they may
      write, and their events. */
  type Display = (NodeId, nat, nat, nat, seq<ClapEvent>) -> seq<seq<Float>>

  ghost predicate Shows(h: Host, f: Display) {
    forall n, call :: h.process(n, call).chans == f(n, call.start, call.frames, call.outs, call.events)
  }

  /** Every plugin is called for this block, with room for as many of its channels as the host has, and
      with its own bucket: the first MAX_EVENTS_PER_BLOCK of the due events addressed to it. */
  lemma {:induction false} PluginsGetTheirEvents(h: Host, f: Display, nodes: map<NodeId, NodeState>, b: Block,
                                                 due: seq<Slot>, tr: Track, k: nat)
    requires Shows(h, f) && tr.instrument.Some? && k <= |tr.chain|
    ensures var c := CycleOf(nodes, b, due, false);
      var n := Heard(nodes, tr, k); var outs := Min(h.ports(n).outs, 2);
      ChainVoice(h, c, tr, k).sig.chans
        == Written(f(n, b.start, b.frames, outs, Capped(Delivered(due, b, n))), outs, b.frames)
  {
    var c := CycleOf(nodes, b, due, false);
    hide Written, EchoesOf, Capped, Delivered, Offered;
    if k > 0 && tr.chain[k - 1] !in c.playing {
      PluginsGetTheirEvents(h, f, nodes, b, due, tr, k - 1);
    }
  }

  /** When real-time events are dropped, plugins get none. */
  lemma {:induction false} DroppedEventsReachNoPlugin(h: Host, f: Display, nodes: map<NodeId, NodeState>, b: Block,
                                                      due: seq<Slot>, tr: Track, k: nat)
    requires Shows(h, f) && tr.instrument.Some? && k <= |tr.chain|
    ensures var c := CycleOf(nodes, b, due, true);
      var n := Heard(nodes, tr, k); var outs := Min(h.ports(n).outs, 2);
      ChainVoice(h, c, tr, k).sig.chans == Written(f(n, b.start, b.frames, outs, []), outs, b.frames)
  {
    var c := CycleOf(nodes, b, due, true);
    hide Written, EchoesOf, Capped, Delivered, Offered;
    if k > 0 && tr.chain[k - 1] !in c.playing {
      DroppedEventsReachNoPlugin(h, f, nodes, b, due, tr, k - 1);
    }
  }

  ghost predicate Silent(x: seq<Float>) {
    forall i :: 0 <= i < |x| ==> x[i] == FLOAT_ZERO
  }

  /** An instrument is given no input: one that only forwards is silent. */
  lemma InstrumentHasNoInput(h: Host, c: Cycle, tr: Track)
    requires Forwards(h) && tr.instrument.Some?
    ensures var s := ChainVoice(h, c, tr, 0).sig;
      s.mask == {} && forall ch :: 0 <= ch < |s.chans| ==> Silent(s.chans[ch])
  {
    hide EchoesOf;
  }

  /** An effect is given the sound so far and its mask: as many of the channels as it takes, at most two.
      One that only forwards hands on exactly those, as far as it has channels to write, and silence on
      its other channels. */
  lemma EffectIsGivenTheSound(h: Host, c: Cycle, tr: Track, k: nat)
    requires Forwards(h) && tr.instrument.Some? && k < |tr.chain| && tr.chain[k] in c.playing
    ensures var p := h.ports(tr.chain[k]);
      var before, after := ChainVoice(h, c, tr, k).sig, ChainVoice(h, c, tr, k + 1).sig;
      && after.mask == before.mask && |after.chans| == Min(p.outs, 2)
      && forall ch :: 0 <= ch < |after.chans| ==>
           if ch < p.ins && ch < |before.chans| then after.chans[ch] == before.chans[ch] else Silent(after.chans[ch])
  {
    hide EchoesOf;
    var n, before, after := tr.chain[k], ChainVoice(h, c, tr, k).sig, ChainVoice(h, c, tr, k + 1).sig;
    var given := Offered(h, n, before).chans;
    assert after.chans == Written(given, OutChannels(h, n), c.frames);
    hide ChainVoice;
    forall ch | 0 <= ch < |after.chans| && ch < |given| ensures after.chans[ch] == before.chans[ch] {
      assert given[ch] == before.chans[ch];
    }
  }

  // ---------------------------------------------------------------- where echoes come from

  /** The parameter changes a plugin emits are echoed in order and each once, other events are not. */
  lemma EchoesInOrder(trackId: nat, slot: int, a: seq<OutEvent>, ev: OutEvent)
    ensures EchoesOf(trackId, slot, a + [ev])
         == EchoesOf(trackId, slot, a)
            + (match ev case ParamChange(p, v) => [ParamEcho(trackId, slot, p, v)] case OtherEvent => [])
  {
    assert (a + [ev])[..|a|] == a;
  }

  lemma {:induction false} EchoMembers(trackId: nat, slot: int, emitted: seq<OutEvent>, e: ParamEcho)
    ensures e in EchoesOf(trackId, slot, emitted)
       <==> e.trackId == trackId && e.destSlot == slot && ParamChange(e.paramId, e.value) in emitted
  {
    if emitted != [] {
      var front, last := emitted[..|emitted| - 1], emitted[|emitted| - 1];
      EchoMembers(trackId, slot, front, e);
      assert emitted == front + [last];
    }
  }

  /** The plugin emits the parameter change when it is called for this block with this input. */
  ghost predicate Emits(h: Host, c: Cycle, n: NodeId, input: Option<Signal>, p: nat, v: real) {
    ParamChange(p, v) in h.process(n, Call(c.start, c.frames, input, Min(h.ports(n).outs, 2), c.events(n))).emitted
  }

  /** The input of the node at the slot. */
  function InputAt(h: Host, c: Cycle, tr: Track, slot: int): Option<Signal>
    requires tr.instrument.Some? && slot < |tr.chain|
  {
    if slot < 0 then None else Some(Offered(h, tr.chain[slot], ChainVoice(h, c, tr, slot).sig))
  }

  /** The echo carries the track's id and the slot of a node of the track that plays and emits it. */
  ghost predicate ComesFrom(h: Host, c: Cycle, tr: Track, e: ParamEcho)
    requires tr.instrument.Some?
  {
    && e.trackId == tr.id && -1 <= e.destSlot < |tr.chain|
    && var n := if e.destSlot == -1 then tr.instrument.value else tr.chain[e.destSlot];
      (e.destSlot == -1 || n in c.playing) && Emits(h, c, n, InputAt(h, c, tr, e.destSlot), e.paramId, e.value)
  }

  lemma {:induction false} ChainEchoes(h: Host, c: Cycle, tr: Track, k: nat, e: ParamEcho)
    requires tr.instrument.Some? && k <= |tr.chain|
    ensures e in ChainVoice(h, c, tr, k).echoes <==> ComesFrom(h, c, tr, e) && e.destSlot < k
  {
    hide EchoesOf, Written, Offered;
    if k == 0 {
      var n := tr.instrument.value;
      EchoMembers(tr.id, -1, h.process(n, CallOf(h, c, n, None)).emitted, e);
    } else {
      ChainEchoes(h, c, tr, k - 1, e);
      var fx := tr.chain[k - 1];
      EchoMembers(tr.id, k - 1, h.process(fx, CallOf(h, c, fx, InputAt(h, c, tr, k - 1))).emitted, e);
    }
  }

  /** A track's echoes are exactly the parameter changes its playing nodes emit, each under the address
      of the node that emits it. */
  lemma TrackEchoesAreAddressed(h: Host, c: Cycle, tr: Track, e: ParamEcho)
    requires Sounds(c, tr)
    ensures e in TrackEchoes(h, c, tr) <==> ComesFrom(h, c, tr, e)
    ensures e in TrackEchoes(h, c, tr) ==>
      var n := NodeAt([tr], e.trackId, e.destSlot);
      n.Some? && n.value in c.playing && Emits(h, c, n.value, InputAt(h, c, tr, e.destSlot), e.paramId, e.value)
  {
    ChainEchoes(h, c, tr, |tr.chain|, e);
    hide ChainVoice, Emits, InputAt;
    assert TrackIndex([tr], tr.id) == 0;
  }

  ghost predicate EmittedAt(h: Host, c: Cycle, ts: seq<Track>, e: ParamEcho, i: int) {
    0 <= i < |ts| && Sounds(c, ts[i]) && ComesFrom(h, c, ts[i], e)
  }

  lemma {:induction false} BlockEchoSources(h: Host, c: Cycle, ts: seq<Track>, e: ParamEcho)
    ensures e in BlockEchoes(h, c, ts) <==> exists i :: EmittedAt(h, c, ts, e, i)
  {
    hide TrackEchoes, ComesFrom;
    if ts != [] {
      var front, last := ts[..|ts| - 1], ts[|ts| - 1];
      BlockEchoSources(h, c, front, e);
      assert forall i :: 0 <= i < |front| ==> front[i] == ts[i];
      if Sounds(c, last) {
        TrackEchoesAreAddressed(h, c, last, e);
      } else {
        NoEchoesUnlessSounding(h, c, last);
      }
      if i :| EmittedAt(h, c, front, e, i) { assert EmittedAt(h, c, ts, e, i); }
      if i :| EmittedAt(h, c, ts, e, i) {
        if i < |front| { assert EmittedAt(h, c, front, e, i); }
      }
      if Sounds(c, last) && ComesFrom(h, c, last, e) { assert EmittedAt(h, c, ts, e, |ts| - 1); }
    }
  }

  lemma NoEchoesUnlessSounding(h: Host, c: Cycle, tr: Track)
    requires !Sounds(c, tr)
    ensures TrackEchoes(h, c, tr) == []
  {
  }

  /** With distinct track ids, the address an echo of a block carries leads, in the graph rendered, to a
      playing node that emitted it. */
  lemma BlockEchoesAreAddressed(h: Host, c: Cycle, ts: seq<Track>, e: ParamEcho)
    requires DistinctIds(ts) && e in BlockEchoes(h, c, ts)
    ensures NodeAt(ts, e.trackId, e.destSlot).Some? && NodeAt(ts, e.trackId, e.destSlot).value in c.playing
    ensures exists input :: Emits(h, c, NodeAt(ts, e.trackId, e.destSlot).value, input, e.paramId, e.value)
  {
    BlockEchoSources(h, c, ts, e);
    var i :| EmittedAt(h, c, ts, e, i);
    hide Emits, InputAt, BlockEchoes;
    var k := TrackIndex(ts, ts[i].id);
    assert k == i;
    assert Emits(h, c, NodeAt(ts, e.trackId, e.destSlot).value, InputAt(h, c, ts[i], e.destSlot), e.paramId, e.value);
  }

  // ---------------------------------------------------------------- what the mix amounts to

  /** The sample of the last track that sounds and has the channel, at its gain; silence if none does. */
  function LastSample(h: Host, c: Cycle, ts: seq<Track>, masterGain: Float, ch: nat, i: nat): Float
    requires i < c.frames
  {
    if ts == [] then FLOAT_ZERO
    else
      var tr := ts[|ts| - 1];
      if Sounds(c, tr) && ch < |Wet(h, c, tr).chans| then h.mul(Wet(h, c, tr).chans[ch][i], h.mul(tr.gain, masterGain))
      else LastSample(h, c, ts[..|ts| - 1], masterGain, ch, i)
  }

  /** Tracks are added in order, each to what was there before: with an addition that forgets its left
      argument the last track alone is heard, and with one that forgets its right argument nothing is. */
  lemma {:induction false} TracksAreAddedInOrder(h: Host, c: Cycle, channels: nat, ts: seq<Track>, masterGain: Float,
                                                 ch: nat, i: nat)
    requires ch < channels && i < c.frames
    ensures (forall a, x :: h.add(a, x) == x) ==>
              BlockMix(h, c, channels, ts, masterGain)[ch][i] == LastSample(h, c, ts, masterGain, ch, i)
    ensures (forall a, x :: h.add(a, x) == a) ==> BlockMix(h, c, channels, ts, masterGain)[ch][i] == FLOAT_ZERO
  {
    hide Wet, Sounds;
    if ts != [] {
      TracksAreAddedInOrder(h, c, channels, ts[..|ts| - 1], masterGain, ch, i);
    }
  }

  /** Arithmetic that does not round. */
  ghost predicate Exact(h: Host, val: Float -> real) {
    && (forall a, b :: val(h.add(a, b)) == val(a) + val(b))
    && (forall a, b :: val(h.mul(a, b)) == val(a) * val(b))
    && val(FLOAT_ZERO) == 0.0
  }

  /** What a track contributes to a sample of the output. */
  function Share(h: Host, c: Cycle, val: Float -> real, tr: Track, masterGain: Float, ch: nat, i: nat): real
    requires i < c.frames
  {
    if Sounds(c, tr) && ch < |Wet(h, c, tr).chans|
    then val(Wet(h, c, tr).chans[ch][i]) * (val(tr.gain) * val(masterGain)) else 0.0
  }

  function Sum(h: Host, c: Cycle, val: Float -> real, ts: seq<Track>, masterGain: Float, ch: nat, i: nat): real
    requires i < c.frames
  {
    if ts == [] then 0.0
    else Sum(h, c, val, ts[..|ts| - 1], masterGain, ch, i) + Share(h, c, val, ts[|ts| - 1], masterGain, ch, i)
  }

  /** Were arithmetic exact, every sample of the block would be the sum, over the tracks that sound, of
      the track's sample times its gain times the master gain. */
  lemma {:induction false} MixIsWeightedSum(h: Host, c: Cycle, val: Float -> real, channels: nat, ts: seq<Track>,
                                            masterGain: Float, ch: nat, i: nat)
    requires Exact(h, val) && ch < channels && i < c.frames
    ensures val(BlockMix(h, c, channels, ts, masterGain)[ch][i]) == Sum(h, c, val, ts, masterGain, ch, i)
  {
    hide Wet, Sounds, MixPlain, Exact, Share;
    if ts != [] {
      var front, tr := ts[..|ts| - 1], ts[|ts| - 1];
      MixIsWeightedSum(h, c, val, channels, front, masterGain, ch, i);
      TrackAddsItsShare(h, c, val, BlockMix(h, c, channels, front, masterGain), tr, masterGain, ch, i);
    } else {
      SilenceIsZero(h, c, val, channels, ch, i);
    }
  }

  lemma SilenceIsZero(h: Host, c: Cycle, val: Float -> real, channels: nat, ch: nat, i: nat)
    requires Exact(h, val) && ch < channels && i < c.frames
    ensures val(Silence(channels, c.frames)[ch][i]) == 0.0
  {
  }

  lemma TrackAddsItsShare(h: Host, c: Cycle, val: Float -> real, o: seq<seq<Float>>, tr: Track, masterGain: Float,
                          ch: nat, i: nat)
    requires Exact(h, val) && Rectangle(o, c.frames) && ch < |o| && i < c.frames
    ensures var r := if Sounds(c, tr) then MixPlain(h, o, Wet(h, c, tr), c.frames, h.mul(tr.gain, masterGain)) else o;
      val(r[ch][i]) == val(o[ch][i]) + Share(h, c, val, tr, masterGain, ch, i)
  {
    hide Wet, Sounds;
  }
}
