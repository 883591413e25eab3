/** What a rendered block is: plugin calls, effect chains and the mix, as functions
    (src/track_render.cpp:116-212). */
module Mix {
  import opened Config
  import opened Graph
  import opened Translation
  import opened EchoRing

  /** Planar audio, channel by channel, with the set of channels declared constant. */
  datatype Signal = Signal(chans: seq<seq<Float>>, mask: set<nat>)

  datatype OutEvent = ParamChange(paramId: nat, value: real) | OtherEvent

  /** What a plugin is given, and what it does: the samples it writes into its output buffer, its
      constant mask, and the events it emits. */
  datatype Call = Call(start: nat, frames: nat, input: Option<Signal>, outs: nat, events: seq<ClapEvent>)
  datatype Response = Response(chans: seq<seq<Float>>, mask: set<nat>, emitted: seq<OutEvent>)

  datatype Ports = Ports(ins: nat, outs: nat)

  /** The plugins and the machine's float arithmetic, of which nothing is assumed. */
  datatype Host = Host(ports: NodeId -> Ports, process: (NodeId, Call) -> Response,
                       add: (Float, Float) -> Float, mul: (Float, Float) -> Float)

  /** One block: its start and length, the nodes that are Processing, and their events. */
  datatype Cycle = Cycle(start: nat, frames: nat, playing: set<NodeId>, events: NodeId -> seq<ClapEvent>)

  // ---------------------------------------------------------------- one plugin call

  /** The buffer after a call: zeroed before it, it holds what the plugin wrote and silence elsewhere. */
  function Written(chans: seq<seq<Float>>, outs: nat, frames: nat): (r: seq<seq<Float>>)
    ensures |r| == outs && forall ch :: 0 <= ch < outs ==> |r[ch]| == frames
  {
    seq(outs, ch => seq(frames, i =>
      if 0 <= ch < |chans| && 0 <= i < |chans[ch]| then chans[ch][i] else FLOAT_ZERO))
  }

  function Silence(channels: nat, frames: nat): (r: seq<seq<Float>>)
    ensures |r| == channels && forall ch :: 0 <= ch < channels ==> |r[ch]| == frames
  {
    Written([], channels, frames)
  }

  /** The parameter changes a plugin emits, addressed to its place. */
  function EchoesOf(trackId: nat, slot: int, emitted: seq<OutEvent>): seq<ParamEcho> {
    if emitted == [] then []
    else
      var front, last := EchoesOf(trackId, slot, emitted[..|emitted| - 1]), emitted[|emitted| - 1];
      if last.ParamChange? then front + [ParamEcho(trackId, slot, last.paramId, last.value)] else front
  }

  /** What the ring holds once these echoes have been pushed: those that do not fit are lost. */
  function Accepted(waiting: seq<ParamEcho>, echoes: seq<ParamEcho>): seq<ParamEcho> {
    (waiting + echoes)[..Min(CAPACITY, |waiting + echoes|)]
  }

  lemma AcceptedAppend(waiting: seq<ParamEcho>, a: seq<ParamEcho>, b: seq<ParamEcho>)
    ensures Accepted(Accepted(waiting, a), b) == Accepted(waiting, a + b)
  {
  }

  function OutChannels(h: Host, n: NodeId): nat {
    Min(h.ports(n).outs, MAX_CHANNELS)
  }

  /** Sound and echoes of a track, part of the way down its chain. */
  datatype Voice = Voice(sig: Signal, echoes: seq<ParamEcho>)

  /** What a plugin is called with in this block. */
  function CallOf(h: Host, c: Cycle, n: NodeId, input: Option<Signal>): Call {
    Call(c.start, c.frames, input, OutChannels(h, n), c.events(n))
  }

  function Play(h: Host, c: Cycle, trackId: nat, n: NodeId, slot: int, input: Option<Signal>): (v: Voice)
    ensures Shaped(v.sig, c.frames)
  {
    var r := h.process(n, CallOf(h, c, n, input));
    Voice(Signal(Written(r.chans, OutChannels(h, n), c.frames), r.mask), EchoesOf(trackId, slot, r.emitted))
  }

  ghost predicate Shaped(s: Signal, frames: nat) {
    |s.chans| <= MAX_CHANNELS && forall ch :: 0 <= ch < |s.chans| ==> |s.chans[ch]| == frames
  }

  // ---------------------------------------------------------------- one track

  /** What an effect is given: as many of the channels as it takes. */
  function Offered(h: Host, n: NodeId, sig: Signal): Signal {
    Signal(sig.chans[..Min(Min(h.ports(n).ins, MAX_CHANNELS), |sig.chans|)], sig.mask)
  }

  /** The voice after the instrument and the first k effects; an effect that is not Processing is
      passed by. */
  function ChainVoice(h: Host, c: Cycle, tr: Track, k: nat): (v: Voice)
    requires tr.instrument.Some? && k <= |tr.chain|
    ensures Shaped(v.sig, c.frames)
  {
    if k == 0 then Play(h, c, tr.id, tr.instrument.value, MR_DEST_INSTRUMENT, None)
    else
      var v, fx := ChainVoice(h, c, tr, k - 1), tr.chain[k - 1];
      if fx !in c.playing then v
      else
        var w := Play(h, c, tr.id, fx, k - 1, Some(Offered(h, fx, v.sig)));
        Voice(w.sig, v.echoes + w.echoes)
  }

  predicate Sounds(c: Cycle, tr: Track) {
    tr.instrument.Some? && tr.instrument.value in c.playing
  }

  /** One sample of the mix: the order of the float operations is the code's. */
  function Mixed(h: Host, o: Float, x: Float, gain: Float): Float {
    h.add(o, h.mul(x, gain))
  }

  /** A channel is mixed from its first sample alone if its plugin declares it constant. */
  function MixRow(h: Host, o: seq<Float>, x: seq<Float>, constant: bool, gain: Float): (r: seq<Float>)
    requires |x| == |o|
    ensures |r| == |o|
  {
    seq(|o|, i requires 0 <= i < |o| => Mixed(h, o[i], if constant then x[0] else x[i], gain))
  }

  ghost predicate Rectangle(o: seq<seq<Float>>, frames: nat) {
    forall ch :: 0 <= ch < |o| ==> |o[ch]| == frames
  }

  /** The mix as the code makes it, with the fast path for constant channels. */
  function MixFast(h: Host, o: seq<seq<Float>>, s: Signal, frames: nat, gain: Float): (r: seq<seq<Float>>)
    requires Shaped(s, frames) && Rectangle(o, frames)
    ensures |r| == |o| && Rectangle(r, frames)
  {
    seq(|o|, ch requires 0 <= ch < |o| =>
      if ch < |s.chans| then MixRow(h, o[ch], s.chans[ch], ch in s.mask, gain) else o[ch])
  }

  function TrackFast(h: Host, c: Cycle, o: seq<seq<Float>>, tr: Track, masterGain: Float): (r: seq<seq<Float>>)
    requires Rectangle(o, c.frames)
    ensures |r| == |o| && Rectangle(r, c.frames)
  {
    if !Sounds(c, tr) then o
    else MixFast(h, o, ChainVoice(h, c, tr, |tr.chain|).sig, c.frames, h.mul(tr.gain, masterGain))
  }

  function TrackEchoes(h: Host, c: Cycle, tr: Track): seq<ParamEcho> {
    if !Sounds(c, tr) then [] else ChainVoice(h, c, tr, |tr.chain|).echoes
  }

  // ---------------------------------------------------------------- all tracks

  function BlockFast(h: Host, c: Cycle, channels: nat, ts: seq<Track>, masterGain: Float): (r: seq<seq<Float>>)
    ensures |r| == channels && Rectangle(r, c.frames)
  {
    if ts == [] then Silence(channels, c.frames)
    else TrackFast(h, c, BlockFast(h, c, channels, ts[..|ts| - 1], masterGain), ts[|ts| - 1], masterGain)
  }

  function BlockEchoes(h: Host, c: Cycle, ts: seq<Track>): seq<ParamEcho> {
    if ts == [] then []
    else BlockEchoes(h, c, ts[..|ts| - 1]) + TrackEchoes(h, c, ts[|ts| - 1])
  }

  // ---------------------------------------------------------------- the simple meaning

  /** The effects of a chain that are Processing. */
  function Active(c: Cycle, chain: seq<NodeId>): seq<NodeId> {
    if chain == [] then []
    else
      var front, last := Active(c, chain[..|chain| - 1]), chain[|chain| - 1];
      if last in c.playing then front + [last] else front
  }

  /** The signal led through effects one after the other. */
  function Through(h: Host, c: Cycle, s: Signal, fxs: seq<NodeId>): (r: Signal)
    ensures Shaped(s, c.frames) ==> Shaped(r, c.frames)
  {
    if fxs == [] then s
    else
      var fx := fxs[|fxs| - 1];
      Play(h, c, 0, fx, 0, Some(Offered(h, fx, Through(h, c, s, fxs[..|fxs| - 1])))).sig
  }

  /** Every sample is the output so far plus the signal's sample times the gain. */
  function MixPlain(h: Host, o: seq<seq<Float>>, s: Signal, frames: nat, gain: Float): (r: seq<seq<Float>>)
    requires Shaped(s, frames) && Rectangle(o, frames)
    ensures |r| == |o| && Rectangle(r, frames)
  {
    seq(|o|, ch requires 0 <= ch < |o| =>
      if ch < |s.chans| then seq(frames, i requires 0 <= i < frames => Mixed(h, o[ch][i], s.chans[ch][i], gain))
      else o[ch])
  }

  /** The instrument's output led through the effects that are Processing. */
  function Wet(h: Host, c: Cycle, tr: Track): (s: Signal)
    requires tr.instrument.Some?
    ensures Shaped(s, c.frames)
  {
    Through(h, c, Play(h, c, 0, tr.instrument.value, 0, None).sig, Active(c, tr.chain))
  }

  /** The left fold, over the tracks that sound, of the output so far plus the track's gain times the
      master gain times its signal. */
  function BlockMix(h: Host, c: Cycle, channels: nat, ts: seq<Track>, masterGain: Float): (r: seq<seq<Float>>)
    ensures |r| == channels && Rectangle(r, c.frames)
  {
    if ts == [] then Silence(channels, c.frames)
    else
      var o, tr := BlockMix(h, c, channels, ts[..|ts| - 1], masterGain), ts[|ts| - 1];
      if !Sounds(c, tr) then o else MixPlain(h, o, Wet(h, c, tr), c.frames, h.mul(tr.gain, masterGain))
  }

  // ---------------------------------------------------------------- the fast path and the bypass

  /** The contract of the constant mask: all samples of a declared channel are the same. */
  ghost predicate Constant(x: seq<Float>) {
    forall i, j :: 0 <= i < |x| && 0 <= j < |x| ==> x[i] == x[j]
  }

  ghost predicate HonestMask(s: Signal) {
    forall ch :: 0 <= ch < |s.chans| && ch in s.mask ==> Constant(s.chans[ch])
  }

  /** No plugin ever declares a channel constant. */
  ghost predicate DeclaresNothing(h: Host) {
    forall n, call :: h.process(n, call).mask == {}
  }

  lemma {:induction false} ChainDeclaresNothing(h: Host, c: Cycle, tr: Track, k: nat)
    requires tr.instrument.Some? && k <= |tr.chain| && DeclaresNothing(h)
    ensures ChainVoice(h, c, tr, k).sig.mask == {}
  {
    hide Written, EchoesOf, Offered;
    if k > 0 { ChainDeclaresNothing(h, c, tr, k - 1); }
  }

  /** Nothing, or buffers of the block's length whose declared channels are constant. */
  ghost predicate HonestInput(input: Option<Signal>, frames: nat) {
    input.Some? ==> Shaped(input.value, frames) && HonestMask(input.value)
  }

  /** Every plugin that plays keeps the contract in this block, whenever its input does. */
  ghost predicate Honest(h: Host, c: Cycle) {
    forall n, input :: n in c.playing && HonestInput(input, c.frames) ==> HonestMask(Play(h, c, 0, n, 0, input).sig)
  }

  lemma OfferedIsHonest(h: Host, n: NodeId, sig: Signal, frames: nat)
    requires Shaped(sig, frames) && HonestMask(sig)
    ensures HonestInput(Some(Offered(h, n, sig)), frames)
  {
    hide Constant;
  }

  /** Every plugin copies the samples and the mask it is given to its output. */
  ghost predicate Forwards(h: Host) {
    forall n, call :: h.process(n, call)
      == if call.input.Some? then Response(call.input.value.chans, call.input.value.mask, []) else Response([], {}, [])
  }

  /** Plugins that pass the constant mask on keep the contract. */
  lemma ForwardingIsHonest(h: Host, c: Cycle)
    requires Forwards(h)
    ensures Honest(h, c)
  {
    forall n, input | n in c.playing && HonestInput(input, c.frames)
      ensures HonestMask(Play(h, c, 0, n, 0, input).sig)
    {
      ForwardedIsHonest(h, c, n, input);
    }
  }

  lemma ForwardedIsHonest(h: Host, c: Cycle, n: NodeId, input: Option<Signal>)
    requires Forwards(h) && HonestInput(input, c.frames)
    ensures HonestMask(Play(h, c, 0, n, 0, input).sig)
  {
    var r := h.process(n, CallOf(h, c, n, input));
    var sig := Play(h, c, 0, n, 0, input).sig;
    hide EchoesOf;
    forall ch | 0 <= ch < |sig.chans| && ch in sig.mask ensures Constant(sig.chans[ch]) {
      if ch < |r.chans| {
        assert Constant(input.value.chans[ch]);
        assert forall i :: 0 <= i < c.frames ==> sig.chans[ch][i] == input.value.chans[ch][i];
      }
    }
  }

  /** The sound of a call does not depend on the place its echoes are addressed to. */
  lemma PlaceIsOnlyForEchoes(h: Host, c: Cycle, n: NodeId, input: Option<Signal>, trackId: nat, slot: int)
    ensures Play(h, c, trackId, n, slot, input).sig == Play(h, c, 0, n, 0, input).sig
  {
    hide Written, EchoesOf;
  }

  /** Effects that are not Processing change nothing: the chain sounds like the chain without them. */
  lemma {:induction false} BypassedEffectsChangeNothing(h: Host, c: Cycle, tr: Track, k: nat)
    requires tr.instrument.Some? && k <= |tr.chain|
    ensures ChainVoice(h, c, tr, k).sig
         == Through(h, c, Play(h, c, 0, tr.instrument.value, 0, None).sig, Active(c, tr.chain[..k]))
  {
    hide Play, Offered;
    if k == 0 {
      PlaceIsOnlyForEchoes(h, c, tr.instrument.value, None, tr.id, MR_DEST_INSTRUMENT);
    } else {
      BypassedEffectsChangeNothing(h, c, tr, k - 1);
      assert tr.chain[..k][..k - 1] == tr.chain[..k - 1];
      var fx := tr.chain[k - 1];
      if fx in c.playing {
        var before := Active(c, tr.chain[..k - 1]);
        PlaceIsOnlyForEchoes(h, c, fx, Some(Offered(h, fx, ChainVoice(h, c, tr, k - 1).sig)), tr.id, k - 1);
        assert (before + [fx])[..|before|] == before;
      }
    }
  }

  lemma NoInputIsHonest(frames: nat)
    ensures HonestInput(None, frames)
  {
  }

  lemma {:induction false} ChainIsHonest(h: Host, c: Cycle, tr: Track, k: nat)
    requires Sounds(c, tr) && k <= |tr.chain| && Honest(h, c)
    ensures HonestMask(ChainVoice(h, c, tr, k).sig)
  {
    hide Play, Offered, HonestMask, HonestInput, Shaped;
    if k == 0 {
      NoInputIsHonest(c.frames);
      PlaceIsOnlyForEchoes(h, c, tr.instrument.value, None, tr.id, MR_DEST_INSTRUMENT);
    } else {
      ChainIsHonest(h, c, tr, k - 1);
      var fx, sig := tr.chain[k - 1], ChainVoice(h, c, tr, k - 1).sig;
      OfferedIsHonest(h, fx, sig, c.frames);
      PlaceIsOnlyForEchoes(h, c, fx, Some(Offered(h, fx, sig)), tr.id, k - 1);
    }
  }

  /** The samples the fast path and the plain loop add on a declared channel come to the same. */
  ghost predicate SameOnDeclared(h: Host, o: seq<seq<Float>>, s: Signal, frames: nat, gain: Float)
    requires Shaped(s, frames) && Rectangle(o, frames)
  {
    forall ch, i :: 0 <= ch < |o| && ch < |s.chans| && ch in s.mask && 0 <= i < frames ==>
      Mixed(h, o[ch][i], s.chans[ch][0], gain) == Mixed(h, o[ch][i], s.chans[ch][i], gain)
  }

  /** What the two mixes have to agree on, sample by sample. */
  lemma FastPathExact(h: Host, o: seq<seq<Float>>, s: Signal, frames: nat, gain: Float)
    requires Shaped(s, frames) && Rectangle(o, frames)
    ensures MixFast(h, o, s, frames, gain) == MixPlain(h, o, s, frames, gain) <==> SameOnDeclared(h, o, s, frames, gain)
  {
    hide Mixed;
    var r, p := MixFast(h, o, s, frames, gain), MixPlain(h, o, s, frames, gain);
    if SameOnDeclared(h, o, s, frames, gain) {
      forall ch | 0 <= ch < |o| ensures r[ch] == p[ch] {
        if ch < |s.chans| {
          assert forall i :: 0 <= i < frames ==> r[ch][i] == p[ch][i];
        }
      }
    }
    if r == p {
      forall ch, i | 0 <= ch < |o| && ch < |s.chans| && ch in s.mask && 0 <= i < frames
        ensures Mixed(h, o[ch][i], s.chans[ch][0], gain) == Mixed(h, o[ch][i], s.chans[ch][i], gain)
      {
        assert r[ch][i] == p[ch][i];
      }
    }
  }

  /** Under the plugins' contract the fast path is the plain loop. */
  lemma FastPathFaithful(h: Host, o: seq<seq<Float>>, s: Signal, frames: nat, gain: Float)
    requires Shaped(s, frames) && Rectangle(o, frames) && HonestMask(s)
    ensures MixFast(h, o, s, frames, gain) == MixPlain(h, o, s, frames, gain)
  {
    FastPathExact(h, o, s, frames, gain);
    hide Mixed, MixPlain, MixFast;
    forall ch, i | 0 <= ch < |o| && ch < |s.chans| && ch in s.mask && 0 <= i < frames
      ensures s.chans[ch][0] == s.chans[ch][i]
    {
      assert Constant(s.chans[ch]);
    }
  }

  /** The rendered block is the simple mix, whatever the plugins compute and however the machine
      rounds, as long as plugins whose input declares only constant channels constant do so as well. */
  lemma {:induction false} BlockIsMix(h: Host, c: Cycle, channels: nat, ts: seq<Track>, masterGain: Float)
    requires Honest(h, c)
    ensures BlockFast(h, c, channels, ts, masterGain) == BlockMix(h, c, channels, ts, masterGain)
  {
    hide Honest, Silence, TrackFast, Sounds, Wet, MixPlain;
    if ts != [] {
      var front, tr := ts[..|ts| - 1], ts[|ts| - 1];
      BlockIsMix(h, c, channels, front, masterGain);
      TrackIsAdded(h, c, BlockFast(h, c, channels, front, masterGain), tr, masterGain);
    }
  }

  lemma TrackIsAdded(h: Host, c: Cycle, o: seq<seq<Float>>, tr: Track, masterGain: Float)
    requires Honest(h, c) && Rectangle(o, c.frames)
    ensures TrackFast(h, c, o, tr, masterGain)
         == if Sounds(c, tr) then MixPlain(h, o, Wet(h, c, tr), c.frames, h.mul(tr.gain, masterGain)) else o
  {
    hide Honest, HonestMask, Play, Through, Active, ChainVoice, MixFast, MixPlain, Shaped, Rectangle;
    if Sounds(c, tr) {
      ChainIsHonest(h, c, tr, |tr.chain|);
      BypassedEffectsChangeNothing(h, c, tr, |tr.chain|);
      assert tr.chain[..|tr.chain|] == tr.chain;
      FastPathFaithful(h, o, ChainVoice(h, c, tr, |tr.chain|).sig, c.frames, h.mul(tr.gain, masterGain));
    }
  }
}
