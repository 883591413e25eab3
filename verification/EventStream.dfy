/** Event delivery over whole streams of contiguous blocks (src/event_route.cpp:257-296,
    src/track_render.cpp:95-108). */
module EventStream {
  import opened Config
  import opened Graph
  import opened Translation
  import opened SortedQueue
  import opened EventRoute

  /** The ring and the reorder queue between blocks. */
  datatype Stream = Stream(ring: seq<MrEvent>, queue: seq<Slot>, nextSeq: nat)

  /** One block: its length, and the events its producer has put in the ring since the block before. */
  datatype BlockInput = BlockInput(frames: nat, arrivals: seq<MrEvent>)

  ghost predicate StreamOk(st: Stream) {
    Sorted(st.queue) && Before(st.queue, st.nextSeq)
  }

  function Taken(st: Stream, cap: nat, t: BlockInput): nat {
    Min(|st.ring + t.arrivals|, if |st.queue| <= cap then cap - |st.queue| else 0)
  }

  /** The queue once the ring has been absorbed. */
  function Absorbed(st: Stream, cap: nat, t: BlockInput): seq<Slot> {
    InsertAll(st.queue, st.nextSeq, (st.ring + t.arrivals)[..Taken(st, cap, t)])
  }

  /** The slots a block that starts at `start` consumes. */
  function Consumed(st: Stream, cap: nat, start: nat, t: BlockInput): seq<Slot> {
    var q := Absorbed(st, cap, t);
    q[..DueCount(q, start + t.frames)]
  }

  /** The state after the block: this is what DrainAndDemux does to ring and queue. */
  function Advance(st: Stream, cap: nat, start: nat, t: BlockInput): Stream {
    var q := Absorbed(st, cap, t);
    Stream((st.ring + t.arrivals)[Taken(st, cap, t)..], q[DueCount(q, start + t.frames)..], st.nextSeq + Taken(st, cap, t))
  }

  /** Advance says what DrainAndDemux does, when the producer's events are already in the ring. */
  lemma DrainIsAdvance(st: Stream, cap: nat, start: nat, frames: nat)
    requires |st.queue| <= cap
    ensures var taken := Min(|st.ring|, cap - |st.queue|);
      var q := InsertAll(st.queue, st.nextSeq, st.ring[..taken]);
      var due := DueCount(q, start + frames);
      && Advance(st, cap, start, BlockInput(frames, [])) == Stream(st.ring[taken..], q[due..], st.nextSeq + taken)
      && Consumed(st, cap, start, BlockInput(frames, [])) == q[..due]
  {
    hide InsertAll, DueCount;
    assert st.ring + [] == st.ring;
  }

  /** It makes no difference to a block whether its events were put in the ring since the block before
      or were there already. */
  lemma ArrivalsAreInTheRing(st: Stream, cap: nat, start: nat, t: BlockInput)
    ensures var st' := Stream(st.ring + t.arrivals, st.queue, st.nextSeq); var t' := BlockInput(t.frames, []);
      && Advance(st, cap, start, t) == Advance(st', cap, start, t')
      && Consumed(st, cap, start, t) == Consumed(st', cap, start, t')
  {
    hide InsertAll, DueCount;
    assert (st.ring + t.arrivals) + [] == st.ring + t.arrivals;
  }

  /** Where block k of the stream starts, when the blocks follow each other without a gap. */
  function StartOf(start: nat, ts: seq<BlockInput>, k: nat): nat
    requires k <= |ts|
  {
    if k == 0 then start else StartOf(start, ts, k - 1) + ts[k - 1].frames
  }

  /** The state before block k. */
  function StateAt(st: Stream, cap: nat, start: nat, ts: seq<BlockInput>, k: nat): Stream
    requires k <= |ts|
  {
    if k == 0 then st
    else Advance(StateAt(st, cap, start, ts, k - 1), cap, StartOf(start, ts, k - 1), ts[k - 1])
  }

  function ConsumedAt(st: Stream, cap: nat, start: nat, ts: seq<BlockInput>, k: nat): seq<Slot>
    requires k < |ts|
  {
    Consumed(StateAt(st, cap, start, ts, k), cap, StartOf(start, ts, k), ts[k])
  }

  // ---------------------------------------------------------------- one block

  lemma AbsorbedOk(st: Stream, cap: nat, t: BlockInput)
    requires StreamOk(st)
    ensures Sorted(Absorbed(st, cap, t)) && Before(Absorbed(st, cap, t), st.nextSeq + Taken(st, cap, t))
    ensures forall s :: s in Absorbed(st, cap, t) <==>
              s in st.queue || Arrived(st.nextSeq, (st.ring + t.arrivals)[..Taken(st, cap, t)], s)
  {
    var evs := (st.ring + t.arrivals)[..Taken(st, cap, t)];
    InsertAllSorted(st.queue, st.nextSeq, evs);
    InsertAllMembers(st.queue, st.nextSeq, evs);
  }

  /** A block consumes exactly what is in the absorbed queue and falls before its end; the rest
      stays, at or past the end. */
  lemma BlockSplits(st: Stream, cap: nat, start: nat, t: BlockInput)
    requires StreamOk(st)
    ensures StreamOk(Advance(st, cap, start, t))
    ensures Absorbed(st, cap, t) == Consumed(st, cap, start, t) + Advance(st, cap, start, t).queue
    ensures forall s :: s in Consumed(st, cap, start, t) <==>
              s in Absorbed(st, cap, t) && s.ev.sampleTime < start + t.frames
    ensures forall s :: s in Advance(st, cap, start, t).queue <==>
              s in Absorbed(st, cap, t) && s.ev.sampleTime >= start + t.frames
  {
    AbsorbedOk(st, cap, t);
    AdvanceParts(st, cap, start, t);
    hide Sorted, Before, DueCount, Absorbed, Taken, Consumed, Advance, SplitAt;
    SplitFacts(Absorbed(st, cap, t), start + t.frames, Consumed(st, cap, start, t), Advance(st, cap, start, t).queue,
               st.nextSeq + Taken(st, cap, t));
  }

  ghost predicate SplitAt(q: seq<Slot>, end: nat, due: seq<Slot>, rest: seq<Slot>) {
    due == q[..DueCount(q, end)] && rest == q[DueCount(q, end)..]
  }

  lemma AdvanceParts(st: Stream, cap: nat, start: nat, t: BlockInput)
    ensures SplitAt(Absorbed(st, cap, t), start + t.frames, Consumed(st, cap, start, t), Advance(st, cap, start, t).queue)
    ensures Advance(st, cap, start, t).nextSeq == st.nextSeq + Taken(st, cap, t)
  {
    hide DueCount, Absorbed, Taken;
  }

  lemma SplitFacts(q: seq<Slot>, end: nat, due: seq<Slot>, rest: seq<Slot>, next: nat)
    requires Sorted(q) && Before(q, next) && SplitAt(q, end, due, rest)
    ensures Sorted(rest) && Before(rest, next) && q == due + rest
    ensures forall s :: s in due <==> s in q && s.ev.sampleTime < end
    ensures forall s :: s in rest <==> s in q && s.ev.sampleTime >= end
  {
    var k := DueCount(q, end);
    DueIsBeforeEnd(q, end);
    PrefixSorted(q, k);
    SplitMembers(q, k, end);
    BeforeSuffix(q, k, next);
    hide Sorted, Before, DueCount;
  }

  lemma BeforeSuffix(q: seq<Slot>, k: nat, next: nat)
    requires Before(q, next) && k <= |q|
    ensures Before(q[k..], next)
  {
  }

  lemma SplitMembers(q: seq<Slot>, k: nat, end: nat)
    requires k <= |q| && forall i :: 0 <= i < |q| ==> (q[i].ev.sampleTime < end <==> i < k)
    ensures forall s :: s in q[..k] <==> s in q && s.ev.sampleTime < end
    ensures forall s :: s in q[k..] <==> s in q && s.ev.sampleTime >= end
  {
    forall s ensures s in q[k..] <==> s in q && s.ev.sampleTime >= end {
      if s in q && s.ev.sampleTime >= end {
        var i :| 0 <= i < |q| && q[i] == s;
        assert q[k..][i - k] == s;
      }
    }
  }

  lemma {:induction false} StreamStaysOk(st: Stream, cap: nat, start: nat, ts: seq<BlockInput>, k: nat)
    requires StreamOk(st) && k <= |ts|
    ensures StreamOk(StateAt(st, cap, start, ts, k))
  {
    if k > 0 {
      StreamStaysOk(st, cap, start, ts, k - 1);
      BlockSplits(StateAt(st, cap, start, ts, k - 1), cap, StartOf(start, ts, k - 1), ts[k - 1]);
    }
  }

  lemma {:induction false} StartsGrow(start: nat, ts: seq<BlockInput>, j: nat, k: nat)
    requires j <= k <= |ts|
    ensures StartOf(start, ts, j) <= StartOf(start, ts, k)
  {
    if j < k { StartsGrow(start, ts, j, k - 1); }
  }

  // ---------------------------------------------------------------- whole streams

  /** After every block, everything retained in the queue is at or past the end of that block. */
  lemma RetainedIsLater(st: Stream, cap: nat, start: nat, ts: seq<BlockInput>, k: nat)
    requires StreamOk(st) && k < |ts|
    ensures forall s :: s in StateAt(st, cap, start, ts, k + 1).queue ==> s.ev.sampleTime >= StartOf(start, ts, k + 1)
  {
    StreamStaysOk(st, cap, start, ts, k);
    BlockSplits(StateAt(st, cap, start, ts, k), cap, StartOf(start, ts, k), ts[k]);
  }

  /** The slot is in the queue when block k consumes, because it was absorbed by then. */
  ghost predicate Holds(st: Stream, cap: nat, start: nat, ts: seq<BlockInput>, k: nat, s: Slot)
    requires k < |ts|
  {
    s in Absorbed(StateAt(st, cap, start, ts, k), cap, ts[k])
  }

  /** The block an event belongs to: it falls before the end of the block, and not before its start
      unless it is late for the block that absorbs it. */
  ghost predicate BelongsTo(start: nat, ts: seq<BlockInput>, absorbed: nat, k: nat, t: nat)
    requires absorbed <= k < |ts|
  {
    t < StartOf(start, ts, k + 1) && (k > absorbed ==> t >= StartOf(start, ts, k))
  }

  lemma {:induction false} StaysUntil(st: Stream, cap: nat, start: nat, ts: seq<BlockInput>, a: nat, k: nat, s: Slot)
    requires StreamOk(st) && a <= k < |ts|
    requires Holds(st, cap, start, ts, a, s)
    requires k > a ==> s.ev.sampleTime >= StartOf(start, ts, k)
    ensures Holds(st, cap, start, ts, k, s)
  {
    if k > a {
      if k - 1 > a { StartsGrow(start, ts, k - 1, k); }
      StaysUntil(st, cap, start, ts, a, k - 1, s);
      var u := StateAt(st, cap, start, ts, k - 1);
      StreamStaysOk(st, cap, start, ts, k - 1);
      BlockSplits(u, cap, StartOf(start, ts, k - 1), ts[k - 1]);
      AbsorbedOk(Advance(u, cap, StartOf(start, ts, k - 1), ts[k - 1]), cap, ts[k]) by {
        assert StreamOk(Advance(u, cap, StartOf(start, ts, k - 1), ts[k - 1]));
      }
    }
  }

  /** An event absorbed in block a is consumed in the block it belongs to: its own block if it is
      absorbed in time, at its exact offset; the absorbing block, at offset 0, if it is late. */
  lemma ConsumedInItsBlock(st: Stream, cap: nat, start: nat, ts: seq<BlockInput>, a: nat, k: nat, s: Slot)
    requires StreamOk(st) && a <= k < |ts|
    requires Holds(st, cap, start, ts, a, s)
    requires BelongsTo(start, ts, a, k, s.ev.sampleTime)
    ensures s in ConsumedAt(st, cap, start, ts, k)
    ensures var t := s.ev.sampleTime; var at := StartOf(start, ts, k);
      at + RelTime(t, at, ts[k].frames) == if t < at then at else t
  {
    StaysUntil(st, cap, start, ts, a, k, s);
    StreamStaysOk(st, cap, start, ts, k);
    BlockSplits(StateAt(st, cap, start, ts, k), cap, StartOf(start, ts, k), ts[k]);
    UpperClampNeverFires(s.ev.sampleTime, StartOf(start, ts, k), ts[k].frames);
  }

  /** Later states know only slots they held before or have absorbed since, under newer numbers. */
  lemma {:induction false} GoneStaysGone(st: Stream, cap: nat, start: nat, ts: seq<BlockInput>, j: nat, k: nat, s: Slot)
    requires StreamOk(st) && j <= k <= |ts|
    requires s !in StateAt(st, cap, start, ts, j).queue && s.seqNo < StateAt(st, cap, start, ts, j).nextSeq
    ensures s !in StateAt(st, cap, start, ts, k).queue && s.seqNo < StateAt(st, cap, start, ts, k).nextSeq
  {
    hide StateAt, StreamOk, Advance, StartOf;
    if j < k {
      GoneStaysGone(st, cap, start, ts, j, k - 1, s);
      StreamStaysOk(st, cap, start, ts, k - 1);
      StateAfter(st, cap, start, ts, k - 1);
      GoneStep(StateAt(st, cap, start, ts, k - 1), cap, StartOf(start, ts, k - 1), ts[k - 1], s);
    }
  }

  lemma StateAfter(st: Stream, cap: nat, start: nat, ts: seq<BlockInput>, k: nat)
    requires k < |ts|
    ensures StateAt(st, cap, start, ts, k + 1) == Advance(StateAt(st, cap, start, ts, k), cap, StartOf(start, ts, k), ts[k])
  {
  }

  lemma GoneStep(u: Stream, cap: nat, start: nat, t: BlockInput, s: Slot)
    requires StreamOk(u) && s !in u.queue && s.seqNo < u.nextSeq
    ensures s !in Advance(u, cap, start, t).queue && s.seqNo < Advance(u, cap, start, t).nextSeq
  {
    AbsorbedOk(u, cap, t);
    BlockSplits(u, cap, start, t);
    AdvanceParts(u, cap, start, t);
    hide Absorbed, Advance, Consumed, StreamOk, Taken;
  }

  /** Every event taken from the ring is consumed at most once: what one block consumes, no later
      block consumes, and within a block all slots are different. */
  lemma ConsumedAtMostOnce(st: Stream, cap: nat, start: nat, ts: seq<BlockInput>, j: nat, k: nat, s: Slot)
    requires StreamOk(st) && j < k < |ts|
    requires s in ConsumedAt(st, cap, start, ts, j)
    ensures s !in ConsumedAt(st, cap, start, ts, k)
  {
    var u := StateAt(st, cap, start, ts, j);
    StreamStaysOk(st, cap, start, ts, j);
    AbsorbedOk(u, cap, ts[j]);
    BlockSplits(u, cap, StartOf(start, ts, j), ts[j]);
    BeforeMember(Absorbed(u, cap, ts[j]), u.nextSeq + Taken(u, cap, ts[j]), s);
    GoneStaysGone(st, cap, start, ts, j + 1, k, s);
    var v := StateAt(st, cap, start, ts, k);
    StreamStaysOk(st, cap, start, ts, k);
    AbsorbedOk(v, cap, ts[k]);
    BlockSplits(v, cap, StartOf(start, ts, k), ts[k]);
  }

  lemma BeforeMember(q: seq<Slot>, next: nat, s: Slot)
    requires Before(q, next) && s in q
    ensures s.seqNo < next
  {
  }

  lemma ConsumedOnceInBlock(st: Stream, cap: nat, start: nat, ts: seq<BlockInput>, k: nat, i: int, j: int)
    requires StreamOk(st) && k < |ts|
    requires 0 <= i < j < |ConsumedAt(st, cap, start, ts, k)|
    ensures ConsumedAt(st, cap, start, ts, k)[i] != ConsumedAt(st, cap, start, ts, k)[j]
  {
    var u := StateAt(st, cap, start, ts, k);
    StreamStaysOk(st, cap, start, ts, k);
    AbsorbedOk(u, cap, ts[k]);
    var q := Absorbed(u, cap, ts[k]);
    assert Less(q[i], q[j]);
  }

  /** All slots consumed by the first k blocks, in order. */
  function AllConsumed(st: Stream, cap: nat, start: nat, ts: seq<BlockInput>, k: nat): seq<Slot>
    requires k <= |ts|
  {
    if k == 0 then [] else AllConsumed(st, cap, start, ts, k - 1) + ConsumedAt(st, cap, start, ts, k - 1)
  }

  /** The slot was absorbed from the ring in one of the first k blocks. */
  ghost predicate ArrivedBy(st: Stream, cap: nat, start: nat, ts: seq<BlockInput>, k: nat, s: Slot)
    requires k <= |ts|
  {
    k > 0 && (ArrivedBy(st, cap, start, ts, k - 1, s) || ArrivedIn(st, cap, start, ts, k - 1, s))
  }

  /** No event is lost or made up: what has been consumed so far or waits in the queue is what was
      there at the start or has been absorbed since. */
  lemma {:induction false} EventsConserved(st: Stream, cap: nat, start: nat, ts: seq<BlockInput>, k: nat, s: Slot)
    requires StreamOk(st) && k <= |ts|
    ensures s in AllConsumed(st, cap, start, ts, k) || s in StateAt(st, cap, start, ts, k).queue
       <==> s in st.queue || ArrivedBy(st, cap, start, ts, k, s)
  {
    hide StateAt, ConsumedAt, ArrivedIn, StartOf, StreamOk;
    if k > 0 {
      EventsConserved(st, cap, start, ts, k - 1, s);
      BlockConserves(st, cap, start, ts, k - 1, s);
    } else {
      StateAtStart(st, cap, start, ts);
    }
  }

  lemma StateAtStart(st: Stream, cap: nat, start: nat, ts: seq<BlockInput>)
    ensures StateAt(st, cap, start, ts, 0) == st
  {
  }

  lemma BlockConserves(st: Stream, cap: nat, start: nat, ts: seq<BlockInput>, k: nat, s: Slot)
    requires StreamOk(st) && k < |ts|
    ensures s in ConsumedAt(st, cap, start, ts, k) || s in StateAt(st, cap, start, ts, k + 1).queue
       <==> s in StateAt(st, cap, start, ts, k).queue || ArrivedIn(st, cap, start, ts, k, s)
  {
    var u := StateAt(st, cap, start, ts, k);
    StreamStaysOk(st, cap, start, ts, k);
    AbsorbedOk(u, cap, ts[k]);
    BlockSplits(u, cap, StartOf(start, ts, k), ts[k]);
    hide Absorbed, Consumed, Advance, Taken, StreamOk, StartOf;
  }

  /** The slot was absorbed from the ring in block j. */
  ghost predicate ArrivedIn(st: Stream, cap: nat, start: nat, ts: seq<BlockInput>, j: nat, s: Slot)
    requires j < |ts|
  {
    var u := StateAt(st, cap, start, ts, j);
    Arrived(u.nextSeq, (u.ring + ts[j].arrivals)[..Taken(u, cap, ts[j])], s)
  }

  /** The position in the stream at which a slot consumed in block k is delivered. */
  function DeliveredAt(start: nat, ts: seq<BlockInput>, k: nat, s: Slot): nat
    requires k < |ts|
  {
    StartOf(start, ts, k) + RelTime(s.ev.sampleTime, StartOf(start, ts, k), ts[k].frames)
  }

  /** Delivered positions never go back, within a block and from block to block, whatever the
      producer's order and lateness. */
  lemma DeliveryNeverGoesBack(st: Stream, cap: nat, start: nat, ts: seq<BlockInput>, j: nat, i: nat, k: nat, l: nat)
    requires StreamOk(st) && j <= k < |ts|
    requires i < |ConsumedAt(st, cap, start, ts, j)| && l < |ConsumedAt(st, cap, start, ts, k)|
    requires j == k ==> i <= l
    ensures DeliveredAt(start, ts, j, ConsumedAt(st, cap, start, ts, j)[i])
         <= DeliveredAt(start, ts, k, ConsumedAt(st, cap, start, ts, k)[l])
  {
    var e, f := ConsumedAt(st, cap, start, ts, j)[i], ConsumedAt(st, cap, start, ts, k)[l];
    InBlock(st, cap, start, ts, j, i);
    InBlock(st, cap, start, ts, k, l);
    if j < k {
      StartsGrow(start, ts, j + 1, k);
    } else if i < l {
      var u := StateAt(st, cap, start, ts, k);
      StreamStaysOk(st, cap, start, ts, k);
      AbsorbedOk(u, cap, ts[k]);
      assert Less(Absorbed(u, cap, ts[k])[i], Absorbed(u, cap, ts[k])[l]);
    }
  }

  /** A slot consumed in block k is delivered in it: at its own time, or at the block's start if late. */
  lemma InBlock(st: Stream, cap: nat, start: nat, ts: seq<BlockInput>, k: nat, i: nat)
    requires StreamOk(st) && k < |ts| && i < |ConsumedAt(st, cap, start, ts, k)|
    ensures var t := ConsumedAt(st, cap, start, ts, k)[i].ev.sampleTime; var at := StartOf(start, ts, k);
      && t < StartOf(start, ts, k + 1)
      && DeliveredAt(start, ts, k, ConsumedAt(st, cap, start, ts, k)[i]) == (if t < at then at else t)
      && DeliveredAt(start, ts, k, ConsumedAt(st, cap, start, ts, k)[i]) <= StartOf(start, ts, k + 1)
  {
    var u := StateAt(st, cap, start, ts, k);
    StreamStaysOk(st, cap, start, ts, k);
    BlockSplits(u, cap, StartOf(start, ts, k), ts[k]);
    var s := ConsumedAt(st, cap, start, ts, k)[i];
    assert s in ConsumedAt(st, cap, start, ts, k);
    UpperClampNeverFires(s.ev.sampleTime, StartOf(start, ts, k), ts[k].frames);
  }

  // ---------------------------------------------------------------- buckets

  /** How a block routes: by its graph, which may have changed since the block before. */
  datatype Routing = Routing(g: GraphState, dialects: map<NodeId, Dialect>)

  /** The bucket of node n in block k: what DrainAndDemux puts there. */
  function BucketAt(st: Stream, cap: nat, start: nat, ts: seq<BlockInput>, k: nat, r: Routing, n: NodeId): seq<ClapEvent>
    requires k < |ts|
  {
    Capped(Delivered(ConsumedAt(st, cap, start, ts, k),
                     Block(r.g, r.dialects, StartOf(start, ts, k), ts[k].frames), n))
  }

  lemma {:induction false} DeliveredInside(due: seq<Slot>, b: Block, n: NodeId)
    requires forall i :: 0 <= i < |due| ==> due[i].ev.sampleTime < b.start + b.frames
    ensures forall i :: 0 <= i < |Delivered(due, b, n)| ==> 0 <= Delivered(due, b, n)[i].time <= b.frames
  {
    if due != [] {
      var front, last := due[..|due| - 1], due[|due| - 1];
      DeliveredInside(front, b, n);
      LastTime(last, b, n);
      UpperClampNeverFires(last.ev.sampleTime, b.start, b.frames);
      var d, c := Delivered(front, b, n), Contribution(last, b, n);
      hide Contribution, RelTime;
      assert forall i :: 0 <= i < |d| ==> (d + c)[i] == d[i];
    }
  }

  lemma BucketInside(st: Stream, cap: nat, start: nat, ts: seq<BlockInput>, k: nat, r: Routing, n: NodeId)
    requires StreamOk(st) && k < |ts|
    ensures forall i :: 0 <= i < |BucketAt(st, cap, start, ts, k, r, n)| ==>
              0 <= BucketAt(st, cap, start, ts, k, r, n)[i].time <= ts[k].frames
  {
    var u, due := StateAt(st, cap, start, ts, k), ConsumedAt(st, cap, start, ts, k);
    StreamStaysOk(st, cap, start, ts, k);
    BlockSplits(u, cap, StartOf(start, ts, k), ts[k]);
    forall i | 0 <= i < |due| ensures due[i].ev.sampleTime < StartOf(start, ts, k) + ts[k].frames {
      assert due[i] in due;
    }
    var b := Block(r.g, r.dialects, StartOf(start, ts, k), ts[k].frames);
    DeliveredInside(due, b, n);
    hide StateAt, ConsumedAt, StreamOk, StartOf, Delivered;
  }

  /** For each node, the absolute times of the events in its buckets never decrease from block to
      block, whatever graphs the blocks use. (Within a block this is BucketTimes.) */
  lemma NodeTimesNeverGoBack(st: Stream, cap: nat, start: nat, ts: seq<BlockInput>, j: nat, k: nat,
                             rj: Routing, rk: Routing, n: NodeId, i: nat, l: nat)
    requires StreamOk(st) && j < k < |ts|
    requires i < |BucketAt(st, cap, start, ts, j, rj, n)| && l < |BucketAt(st, cap, start, ts, k, rk, n)|
    ensures StartOf(start, ts, j) + BucketAt(st, cap, start, ts, j, rj, n)[i].time
         <= StartOf(start, ts, k) + BucketAt(st, cap, start, ts, k, rk, n)[l].time
  {
    hide BucketAt, StreamOk, StartOf;
    BucketInside(st, cap, start, ts, j, rj, n);
    BucketInside(st, cap, start, ts, k, rk, n);
    NextStart(start, ts, j);
    StartsGrow(start, ts, j + 1, k);
    var e, f := BucketAt(st, cap, start, ts, j, rj, n)[i], BucketAt(st, cap, start, ts, k, rk, n)[l];
    assert e.time <= ts[j].frames && 0 <= f.time;
  }

  lemma NextStart(start: nat, ts: seq<BlockInput>, k: nat)
    requires k < |ts|
    ensures StartOf(start, ts, k + 1) == StartOf(start, ts, k) + ts[k].frames
  {
  }

  // ---------------------------------------------------------------- the renderer's stream position

  /** The state before block k as the renderer makes it: each block start is the stream position cut
      to 32 bits. */
  function CodeStateAt(st: Stream, cap: nat, start: nat, ts: seq<BlockInput>, k: nat): Stream
    requires k <= |ts|
  {
    if k == 0 then st
    else Advance(CodeStateAt(st, cap, start, ts, k - 1), cap, StartOf(start, ts, k - 1) % TWO_32, ts[k - 1])
  }

  /** As long as no block has started at or past 2^32, the renderer's stream is the true one. */
  lemma {:induction false} ExactUntilWrap(st: Stream, cap: nat, start: nat, ts: seq<BlockInput>, k: nat)
    requires k <= |ts| && (k > 0 ==> StartOf(start, ts, k - 1) < TWO_32)
    ensures CodeStateAt(st, cap, start, ts, k) == StateAt(st, cap, start, ts, k)
  {
    hide Advance;
    if k > 0 {
      if k > 1 { StartsGrow(start, ts, k - 2, k - 1); }
      ExactUntilWrap(st, cap, start, ts, k - 1);
    }
  }

  // ---------------------------------------------------------------- past 2^32

  /** What the renderer does with an event whose true position is p, in a block at true position pos:
      both are known to it in their low 32 bits only. It is right if the event is consumed exactly when
      it falls before the end of the block, and then delivered at its true offset, or at 0 if late. */
  ghost predicate HandledRight(p: nat, pos: nat, frames: nat) {
    var t, start := p % TWO_32, pos % TWO_32;
    && (t < start + frames <==> p < pos + frames)
    && (p < pos + frames ==> RelTime(t, start, frames) == if p < pos then 0 else p - pos)
  }

  /** Either event and block start lie in the same round of 2^32 frames; or the event is from an
      earlier round, and its low bits do not exceed the block's; or it is from a later round, and its
      low bits are past the block's end. */
  predicate RoundsAgree(p: nat, pos: nat, frames: nat) {
    var t, start := p % TWO_32, pos % TWO_32;
    || p / TWO_32 == pos / TWO_32
    || (p / TWO_32 < pos / TWO_32 && t <= start && t < start + frames)
    || (p / TWO_32 > pos / TWO_32 && t >= start + frames)
  }

  /** The cut to 32 bits does no harm exactly then: it delays late events across a wrap for almost a
      round, and delivers early the events of a block that straddles one. */
  lemma WrapExactly(p: nat, pos: nat, frames: nat)
    ensures HandledRight(p, pos, frames) <==> RoundsAgree(p, pos, frames)
  {
    var e, d := p / TWO_32, pos / TWO_32;
    var t, start := p % TWO_32, pos % TWO_32;
    assert p == TWO_32 * e + t && pos == TWO_32 * d + start;
    if e < d {
      assert TWO_32 * e + TWO_32 <= TWO_32 * d;
    } else if e > d {
      assert TWO_32 * d + TWO_32 <= TWO_32 * e;
    }
  }

  /** A late event from before the wrap is not consumed; the second frame of a block that straddles the
      wrap is delivered at the first; an event well after the wrap is handled rightly. */
  lemma WrapWitnesses()
    ensures !HandledRight(TWO_32 - 1, TWO_32, 512)
    ensures !HandledRight(TWO_32, TWO_32 - 1, 2)
    ensures HandledRight(TWO_32 + 1000, TWO_32, 512)
  {
    WrapExactly(TWO_32 - 1, TWO_32, 512);
    WrapExactly(TWO_32, TWO_32 - 1, 2);
    WrapExactly(TWO_32 + 1000, TWO_32, 512);
    hide HandledRight;
  }

  /** The slot is consumed from the queue if and only if its true position falls before the end, and
      delivered at its true offset. */
  ghost predicate SlotHandledRight(q: seq<Slot>, s: Slot, p: nat, pos: nat, frames: nat) {
    && (s in q[..DueCount(q, pos % TWO_32 + frames)] <==> p < pos + frames)
    && (p < pos + frames ==>
          RelTime(s.ev.sampleTime, pos % TWO_32, frames) == if p < pos then 0 else p - pos)
  }

  /** The same for a whole block: given the true position of every slot, a block at any position
      handles all slots of its queue rightly exactly when the rounds of all of them agree. */
  lemma BlockWrapsExactly(q: seq<Slot>, position: Slot -> nat, pos: nat, frames: nat)
    requires Sorted(q) && forall s :: s in q ==> s.ev.sampleTime == position(s) % TWO_32
    ensures (forall s :: s in q ==> SlotHandledRight(q, s, position(s), pos, frames))
       <==> forall s :: s in q ==> RoundsAgree(position(s), pos, frames)
  {
    forall s | s in q
      ensures SlotHandledRight(q, s, position(s), pos, frames) <==> RoundsAgree(position(s), pos, frames)
    {
      ConsumedByLowBits(q, pos % TWO_32 + frames, s);
      WrapExactly(position(s), pos, frames);
      hide RoundsAgree, DueCount, Sorted;
    }
  }

  lemma ConsumedByLowBits(q: seq<Slot>, end: nat, s: Slot)
    requires Sorted(q) && s in q
    ensures s in q[..DueCount(q, end)] <==> s.ev.sampleTime < end
  {
    DueIsBeforeEnd(q, end);
    SplitMembers(q, DueCount(q, end), end);
    hide DueCount, Sorted;
  }
}
