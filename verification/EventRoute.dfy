/** One block of event routing: absorb the ring, hand due events to the buckets of their nodes
    (src/event_route.cpp:243-297). */
module EventRoute {
  import opened Config
  import opened Graph
  import opened Translation
  import opened SortedQueue
  import opened EventQueue

  // ---------------------------------------------------------------- what a block does

  /** The leading slots that fall before `end`. */
  function DueCount(q: seq<Slot>, end: nat): (k: nat)
    ensures k <= |q|
  {
    if q == [] || q[0].ev.sampleTime >= end then 0 else 1 + DueCount(q[1..], end)
  }

  /** The event's offset in the block, clamped at both ends as the code does, in 32 bits. */
  function RelTime(t: nat, start: nat, frames: nat): nat {
    var rel := t - start;
    if rel < 0 then 0
    else if rel >= frames then (if frames == 0 then UINT32_MAX else frames - 1)
    else rel
  }

  /** The routing inputs of a block that do not change while it is processed. */
  datatype Block = Block(g: GraphState, dialects: map<NodeId, Dialect>, start: nat, frames: nat)

  function DialectOf(b: Block, n: NodeId): Dialect {
    if n in b.dialects then b.dialects[n] else NoDialect
  }

  /** What a slot contributes to the bucket of node n: its translation, if it is addressed to n. */
  function Contribution(s: Slot, b: Block, n: NodeId): seq<ClapEvent> {
    if NodeAt(b.g.tracks, s.ev.trackId, s.ev.destSlot) != Some(n) then []
    else
      var t := Translate(s.ev, DialectOf(b, n), RelTime(s.ev.sampleTime, b.start, b.frames));
      if t.None? then [] else [t.value]
  }

  /** The translatable events among `due` that are addressed to n, in order. */
  function Delivered(due: seq<Slot>, b: Block, n: NodeId): seq<ClapEvent> {
    if due == [] then []
    else Delivered(due[..|due| - 1], b, n) + Contribution(due[|due| - 1], b, n)
  }

  function Capped(s: seq<ClapEvent>): seq<ClapEvent> {
    s[..Min(MAX_EVENTS_PER_BLOCK, |s|)]
  }

  /** A bucket keeps the first 256. */
  lemma CappedIsFirst(s: seq<ClapEvent>)
    ensures Capped(s) <= s && |Capped(s)| == if |s| <= 256 then |s| else 256
  {
  }

  // ---------------------------------------------------------------- facts

  /** Sorted by time, the due slots are exactly those before the end of the block. */
  lemma {:induction false} DueIsBeforeEnd(q: seq<Slot>, end: nat)
    requires Sorted(q)
    ensures forall i :: 0 <= i < |q| ==> (q[i].ev.sampleTime < end <==> i < DueCount(q, end))
  {
    if q != [] {
      SortedTail(q);
      DueIsBeforeEnd(q[1..], end);
      forall i | 0 <= i < |q| ensures q[i].ev.sampleTime < end <==> i < DueCount(q, end) {
        FirstIsLess(q, i);
        if i > 0 { assert q[i] == q[1..][i - 1]; }
      }
    }
  }

  /** A due event is never clamped at the upper end: its offset is its distance from the start of
      the block, or 0 if it is late, and inside the block unless the block has no frames. */
  lemma UpperClampNeverFires(t: nat, start: nat, frames: nat)
    requires t < start + frames
    ensures RelTime(t, start, frames) == (if t < start then 0 else t - start)
    ensures frames > 0 ==> RelTime(t, start, frames) < frames
    ensures start + RelTime(t, start, frames) == if t < start then start else t
  {
  }

  lemma {:induction false} DeliveredTimes(due: seq<Slot>, b: Block, n: NodeId)
    requires Sorted(due) && forall i :: 0 <= i < |due| ==> due[i].ev.sampleTime < b.start + b.frames
    ensures forall i :: 0 <= i < |Delivered(due, b, n)| ==> b.frames > 0 ==> Delivered(due, b, n)[i].time < b.frames
    ensures forall i, j :: 0 <= i < j < |Delivered(due, b, n)| ==>
              Delivered(due, b, n)[i].time <= Delivered(due, b, n)[j].time
    ensures forall i :: 0 <= i < |Delivered(due, b, n)| && due != [] ==>
              Delivered(due, b, n)[i].time <= RelTime(due[|due| - 1].ev.sampleTime, b.start, b.frames)
  {
    if due != [] {
      var front, last := due[..|due| - 1], due[|due| - 1];
      DeliveredTimes(front, b, n);
      UpperClampNeverFires(last.ev.sampleTime, b.start, b.frames);
      if front != [] {
        assert Less(front[|front| - 1], last);
        UpperClampNeverFires(front[|front| - 1].ev.sampleTime, b.start, b.frames);
      }
      LastTime(last, b, n);
      var d, c := Delivered(front, b, n), Contribution(last, b, n);
      hide Sorted, Contribution, RelTime;
      assert forall i :: 0 <= i < |d| ==> (d + c)[i] == d[i];
      assert front == [] ==> d == [];
    }
  }

  /** The slot is addressed to node n. */
  predicate Addressed(s: Slot, b: Block, n: NodeId) {
    NodeAt(b.g.tracks, s.ev.trackId, s.ev.destSlot) == Some(n)
  }

  /** The slot's event for node n: at its offset in the block, in the node's own dialect. */
  function InOwnDialect(s: Slot, b: Block, n: NodeId): Option<ClapEvent> {
    Translate(s.ev, if n in b.dialects then b.dialects[n] else NoDialect, RelTime(s.ev.sampleTime, b.start, b.frames))
  }

  /** The events of `out` are, in order and each once, those of the slots at positions idx. */
  ghost predicate PickedAt(due: seq<Slot>, b: Block, n: NodeId, out: seq<ClapEvent>, idx: seq<int>) {
    && |idx| == |out|
    && (forall i, j :: 0 <= i < j < |idx| ==> idx[i] < idx[j])
    && (forall i :: 0 <= i < |idx| ==>
          0 <= idx[i] < |due| && Addressed(due[idx[i]], b, n) && InOwnDialect(due[idx[i]], b, n) == Some(out[i]))
  }

  /** No slot addressed to n and translatable is left out. */
  ghost predicate NoneLeftOut(due: seq<Slot>, b: Block, n: NodeId, idx: seq<int>) {
    forall j :: 0 <= j < |due| && Addressed(due[j], b, n) && InOwnDialect(due[j], b, n).Some? ==> j in idx
  }

  /** What a node is delivered: the events, in order and each once, of exactly the due slots that are
      addressed to it and translatable. */
  lemma {:induction false} DeliveredExactly(due: seq<Slot>, b: Block, n: NodeId) returns (idx: seq<int>)
    ensures PickedAt(due, b, n, Delivered(due, b, n), idx) && NoneLeftOut(due, b, n, idx)
  {
    hide PickedAt, NoneLeftOut, Contribution, Delivered;
    if due == [] {
      idx := [];
      NothingDelivered(b, n);
    } else {
      var front, last := due[..|due| - 1], due[|due| - 1];
      assert due == front + [last];
      DeliveredSnoc(front, last, b, n);
      var was := DeliveredExactly(front, b, n);
      var c := Contribution(last, b, n);
      ContributesItself(last, b, n);
      idx := if c == [] then was else was + [|front|];
      PickOne(front, last, b, n, Delivered(front, b, n), c, was);
      LeaveNone(front, last, b, n, c, was);
    }
  }

  lemma NothingDelivered(b: Block, n: NodeId)
    ensures PickedAt([], b, n, Delivered([], b, n), []) && NoneLeftOut([], b, n, [])
  {
  }

  lemma ContributesItself(s: Slot, b: Block, n: NodeId)
    ensures var t := InOwnDialect(s, b, n);
      Contribution(s, b, n) == if Addressed(s, b, n) && t.Some? then [t.value] else []
  {
    hide Translate, RelTime, NodeAt;
  }

  lemma PickOne(front: seq<Slot>, last: Slot, b: Block, n: NodeId, out: seq<ClapEvent>, c: seq<ClapEvent>, idx: seq<int>)
    requires PickedAt(front, b, n, out, idx)
    requires var t := InOwnDialect(last, b, n); c == if Addressed(last, b, n) && t.Some? then [t.value] else []
    ensures PickedAt(front + [last], b, n, out + c, if c == [] then idx else idx + [|front|])
  {
    hide InOwnDialect, Addressed;
    var due := front + [last];
    assert forall j :: 0 <= j < |front| ==> due[j] == front[j];
    if c == [] {
      assert out + c == out;
    }
  }

  lemma LeaveNone(front: seq<Slot>, last: Slot, b: Block, n: NodeId, c: seq<ClapEvent>, idx: seq<int>)
    requires NoneLeftOut(front, b, n, idx)
    requires var t := InOwnDialect(last, b, n); c == if Addressed(last, b, n) && t.Some? then [t.value] else []
    ensures NoneLeftOut(front + [last], b, n, if c == [] then idx else idx + [|front|])
  {
    hide InOwnDialect, Addressed;
    var due := front + [last];
    assert forall j :: 0 <= j < |front| ==> due[j] == front[j];
  }

  lemma LastTime(s: Slot, b: Block, n: NodeId)
    ensures |Contribution(s, b, n)| <= 1
    ensures forall i :: 0 <= i < |Contribution(s, b, n)| ==>
              Contribution(s, b, n)[i].time == RelTime(s.ev.sampleTime, b.start, b.frames)
  {
  }

  /** Bucket times never decrease, and for a block with frames they lie inside it. */
  lemma BucketTimes(q: seq<Slot>, b: Block, n: NodeId)
    requires Sorted(q)
    ensures var bucket := Capped(Delivered(q[..DueCount(q, b.start + b.frames)], b, n));
      && (forall i :: 0 <= i < |bucket| ==> b.frames > 0 ==> bucket[i].time < b.frames)
      && (forall i, j :: 0 <= i < j < |bucket| ==> bucket[i].time <= bucket[j].time)
  {
    var due := q[..DueCount(q, b.start + b.frames)];
    DueIsBeforeEnd(q, b.start + b.frames);
    PrefixSorted(q, |due|);
    DeliveredTimes(due, b, n);
    hide Sorted, Delivered, DueCount;
  }

  lemma PrefixSorted(q: seq<Slot>, k: nat)
    requires Sorted(q) && k <= |q|
    ensures Sorted(q[..k]) && Sorted(q[k..])
  {
    forall i, j | 0 <= i < j < |q| - k ensures Less(q[k..][i], q[k..][j]) {
      assert Less(q[i + k], q[j + k]);
    }
  }

  // ---------------------------------------------------------------- the code

  /** The shared-memory ring, as its reader sees it during a block, and what the host publishes in it. */
  class SpscRing {
    var events: seq<MrEvent>
    var clock: Option<(nat, nat)>
    var outputLatency: Option<nat>

    constructor ()
      ensures events == [] && clock == None && outputLatency == None
    {
      events, clock, outputLatency := [], None, None;
    }

    /** The producer's side. */
    method Produce(evs: seq<MrEvent>)
      modifies this`events
      ensures events == old(events) + evs
    {
      events := events + evs;
    }

    method PublishClock(streamFrame: nat, monoNs: nat)
      modifies this`clock
      ensures clock == Some((streamFrame, monoNs))
    {
      clock := Some((streamFrame, monoNs));
    }

    method PublishOutputLatency(frames: nat)
      modifies this`outputLatency
      ensures outputLatency == Some(frames)
    {
      outputLatency := Some(frames);
    }

    method Peek() returns (ev: Option<MrEvent>)
      ensures ev == if events == [] then None else Some(events[0])
    {
      ev := if events == [] then None else Some(events[0]);
    }

    method Pop()
      modifies this`events
      ensures events == if old(events) == [] then [] else old(events)[1..]
    {
      if events != [] {
        events := events[1..];
      }
    }
  }

  /** The bucket_index fields of the plugin nodes; a node without an entry has index -1. */
  class BucketIndex {
    var at: map<NodeId, nat>

    constructor ()
      ensures at == map[]
    {
      at := map[];
    }
  }

  /** Moves ring events into the reorder queue until the ring is empty or the queue is full. */
  method Absorb(ring: SpscRing, reorder: EventReorderQueue)
    requires reorder.Valid()
    modifies ring`events, reorder, reorder.heap
    ensures reorder.Valid()
    ensures var k := Min(|old(ring.events)|, reorder.heap.Length - |old(reorder.queue)|);
      && ring.events == old(ring.events)[k..]
      && reorder.queue == InsertAll(old(reorder.queue), old(reorder.nextSeq), old(ring.events)[..k])
      && reorder.nextSeq == old(reorder.nextSeq) + k
  {
    hide EventReorderQueue.Valid, InsertAll;
    ghost var evs, q, next := ring.events, reorder.queue, reorder.nextSeq;
    ghost var k := 0;
    NotOverfull(reorder);
    InsertNone(q, next);
    assert evs[..0] == [] && evs[0..] == evs;
    while true
      invariant reorder.Valid()
      invariant 0 <= k <= |evs| && k <= reorder.heap.Length - |q|
      invariant ring.events == evs[k..] && reorder.nextSeq == next + k
      invariant reorder.queue == InsertAll(q, next, evs[..k])
      decreases |ring.events|
    {
      var ev := ring.Peek();
      if ev.None? {
        break;
      }
      var ok := reorder.Push(ev.value);
      if !ok {
        break;
      }
      InsertOneMore(q, next, evs, k);
      ring.Pop();
      k := k + 1;
    }
  }

  lemma NotOverfull(reorder: EventReorderQueue)
    requires reorder.Valid()
    ensures |reorder.queue| <= reorder.heap.Length
  {
  }

  lemma InsertNone(q: seq<Slot>, next: nat)
    ensures InsertAll(q, next, []) == q
  {
  }

  lemma InsertOneMore(q: seq<Slot>, next: nat, evs: seq<MrEvent>, k: nat)
    requires k < |evs|
    ensures InsertAll(q, next, evs[..k + 1]) == Insert(InsertAll(q, next, evs[..k]), Slot(evs[k], next + k))
    ensures evs[k..] != [] && evs[k..][0] == evs[k] && evs[k..][1..] == evs[k + 1..]
  {
    assert evs[..k + 1][..k] == evs[..k];
  }

  /** Numbers the nodes of the graph and empties their buckets. */
  method Number(g: GraphState, index: BucketIndex, buckets: array<seq<ClapEvent>>) returns (count: nat)
    requires Bounded(g.tracks) && NoDup(Nodes(g)) && buckets.Length >= MAX_NODES
    modifies index, buckets
    ensures count == |Nodes(g)| <= MAX_NODES
    ensures forall i :: 0 <= i < count ==> Nodes(g)[i] in index.at && index.at[Nodes(g)[i]] == i
    ensures forall i :: 0 <= i < count ==> buckets[i] == []
    ensures forall i :: count <= i < buckets.Length ==> buckets[i] == old(buckets[i])
  {
    BoundedNodes(g.tracks);
    hide Bounded, Nodes;
    var nodes := new NodeId[MAX_NODES];
    count := GatherNodes(g, nodes, MAX_NODES);
    assert nodes[..count] == Nodes(g);
    assert forall i :: 0 <= i < count ==> nodes[i] == Nodes(g)[i];
    for i := 0 to count
      invariant forall j :: 0 <= j < i ==> nodes[j] in index.at && index.at[nodes[j]] == j
      invariant forall j :: 0 <= j < count ==> nodes[j] == Nodes(g)[j]
      invariant forall j :: 0 <= j < i ==> buckets[j] == []
      invariant forall j :: i <= j < buckets.Length ==> buckets[j] == old(buckets[j])
    {
      index.at := index.at[nodes[i] := i];
      buckets[i] := [];
    }
  }

  /** Every bucket holds what `done` delivers to its node, up to the limit. */
  ghost predicate Filled(buckets: seq<seq<ClapEvent>>, nodes: seq<NodeId>, done: seq<Slot>, b: Block, drop: bool) {
    |nodes| <= |buckets| && forall i :: 0 <= i < |nodes| ==>
      buckets[i] == if drop then [] else Capped(Delivered(done, b, nodes[i]))
  }

  /** Routes one due event into the bucket of the node it is addressed to. */
  method Route(ev: MrEvent, b: Block, index: BucketIndex, buckets: array<seq<ClapEvent>>, ghost done: seq<Slot>,
        ghost s: Slot)
    requires NoDup(Nodes(b.g)) && s.ev == ev
    requires forall i :: 0 <= i < |Nodes(b.g)| ==> Nodes(b.g)[i] in index.at && index.at[Nodes(b.g)[i]] == i
    requires Filled(buckets[..], Nodes(b.g), done, b, false)
    modifies buckets
    ensures Filled(buckets[..], Nodes(b.g), done + [s], b, false)
    ensures forall i :: |Nodes(b.g)| <= i < buckets.Length ==> buckets[i] == old(buckets[i])
  {
    ghost var nodes := Nodes(b.g);
    hide Nodes, Delivered, Contribution;
    var node := ResolveNode(b.g, ev.trackId, ev.destSlot);
    if node.Some? {
      Resolved(b.g, ev, node.value);
      var k := index.at[node.value];
      RouteOne(buckets[..], nodes, done, s, b, k);
      if |buckets[k]| < MAX_EVENTS_PER_BLOCK {
        var t := Translate(ev, DialectOf(b, node.value), RelTime(ev.sampleTime, b.start, b.frames));
        if t.Some? {
          buckets[k] := buckets[k] + [t.value];
        }
      }
      assert buckets[..] == old(buckets[..])[k := buckets[k]];
    } else {
      RouteNone(buckets[..], nodes, done, s, b);
    }
  }

  /** A resolved node is one of the gathered ones. */
  lemma Resolved(g: GraphState, ev: MrEvent, n: NodeId)
    requires NodeAt(g.tracks, ev.trackId, ev.destSlot) == Some(n)
    ensures n in Nodes(g)
  {
    ResolvedIsGathered(g.tracks, ev.trackId, ev.destSlot);
  }

  lemma DeliveredSnoc(done: seq<Slot>, s: Slot, b: Block, n: NodeId)
    ensures Delivered(done + [s], b, n) == Delivered(done, b, n) + Contribution(s, b, n)
  {
    assert (done + [s])[..|done|] == done;
  }

  lemma RouteNone(buckets: seq<seq<ClapEvent>>, nodes: seq<NodeId>, done: seq<Slot>, s: Slot, b: Block)
    requires Filled(buckets, nodes, done, b, false) && NodeAt(b.g.tracks, s.ev.trackId, s.ev.destSlot).None?
    ensures Filled(buckets, nodes, done + [s], b, false)
  {
    hide Delivered, Contribution, Capped, NodeAt;
    forall i | 0 <= i < |nodes| ensures buckets[i] == Capped(Delivered(done + [s], b, nodes[i])) {
      DeliveredSnoc(done, s, b, nodes[i]);
      NoContribution(s, b, nodes[i]);
      assert Delivered(done, b, nodes[i]) + [] == Delivered(done, b, nodes[i]);
    }
  }

  lemma NoContribution(s: Slot, b: Block, n: NodeId)
    requires NodeAt(b.g.tracks, s.ev.trackId, s.ev.destSlot).None?
    ensures Contribution(s, b, n) == []
  {
    hide NodeAt, Translate;
  }

  /** What the bucket of node k becomes, and that no other bucket is concerned. */
  lemma RouteOne(buckets: seq<seq<ClapEvent>>, nodes: seq<NodeId>, done: seq<Slot>, s: Slot, b: Block, k: nat)
    requires Filled(buckets, nodes, done, b, false) && NoDup(nodes)
    requires k < |nodes| && NodeAt(b.g.tracks, s.ev.trackId, s.ev.destSlot) == Some(nodes[k])
    ensures var t := Translate(s.ev, DialectOf(b, nodes[k]), RelTime(s.ev.sampleTime, b.start, b.frames));
      var after := if |buckets[k]| < MAX_EVENTS_PER_BLOCK && t.Some? then buckets[k] + [t.value] else buckets[k];
      Filled(buckets[k := after], nodes, done + [s], b, false)
  {
    hide Delivered, Translate, RelTime, DialectOf, NodeAt;
    var t := Translate(s.ev, DialectOf(b, nodes[k]), RelTime(s.ev.sampleTime, b.start, b.frames));
    var after := if |buckets[k]| < MAX_EVENTS_PER_BLOCK && t.Some? then buckets[k] + [t.value] else buckets[k];
    var r := buckets[k := after];
    forall i | 0 <= i < |nodes| ensures r[i] == Capped(Delivered(done + [s], b, nodes[i])) {
      DeliveredSnoc(done, s, b, nodes[i]);
      if i == k {
        CappedSnoc(Delivered(done, b, nodes[k]), Contribution(s, b, nodes[k]));
      } else {
        assert nodes[i] != nodes[k];
      }
    }
  }

  lemma CappedSnoc(d: seq<ClapEvent>, c: seq<ClapEvent>)
    requires |c| <= 1
    ensures Capped(d + c) == if |Capped(d)| < MAX_EVENTS_PER_BLOCK then Capped(d) + c else Capped(d)
  {
  }

  /** Consumes every due event, routing it unless real-time events are dropped. */
  method RouteDue(reorder: EventReorderQueue, b: Block, index: BucketIndex, buckets: array<seq<ClapEvent>>, drop: bool)
    requires reorder.Valid() && NoDup(Nodes(b.g))
    requires forall i :: 0 <= i < |Nodes(b.g)| ==> Nodes(b.g)[i] in index.at && index.at[Nodes(b.g)[i]] == i
    requires Filled(buckets[..], Nodes(b.g), [], b, drop)
    modifies reorder, reorder.heap, buckets
    ensures reorder.Valid() && reorder.nextSeq == old(reorder.nextSeq)
    ensures var k := DueCount(old(reorder.queue), b.start + b.frames);
      reorder.queue == old(reorder.queue)[k..] && Filled(buckets[..], Nodes(b.g), old(reorder.queue)[..k], b, drop)
    ensures forall i :: |Nodes(b.g)| <= i < buckets.Length ==> buckets[i] == old(buckets[i])
  {
    hide Nodes, Filled, NoDup, EventReorderQueue.Valid, DueCount;
    var blockEnd := b.start + b.frames;
    ghost var q, k := reorder.queue, 0;
    assert q[..0] == [] && q[0..] == q;
    while true
      invariant reorder.Valid() && reorder.nextSeq == old(reorder.nextSeq)
      invariant 0 <= k <= |q| && reorder.queue == q[k..]
      invariant DueCount(q, blockEnd) == k + DueCount(q[k..], blockEnd)
      invariant Filled(buckets[..], Nodes(b.g), q[..k], b, drop)
      invariant forall i :: |Nodes(b.g)| <= i < buckets.Length ==> buckets[i] == old(buckets[i])
      decreases |q| - k
    {
      var ev := reorder.PeekMin();
      DueStep(q, k, blockEnd);
      if ev.None? || ev.value.sampleTime >= blockEnd {
        break;
      }
      if !drop {
        Route(ev.value, b, index, buckets, q[..k], q[k]);
      } else {
        FilledDropped(buckets[..], Nodes(b.g), q[..k], q[k], b);
      }
      reorder.PopMin();
      k := k + 1;
    }
  }

  /** One turn of the loop: what is due from position k on. */
  lemma DueStep(q: seq<Slot>, k: nat, end: nat)
    requires k <= |q|
    ensures if k == |q| || q[k].ev.sampleTime >= end then DueCount(q[k..], end) == 0
            else DueCount(q[k..], end) == 1 + DueCount(q[k + 1..], end)
    ensures k < |q| ==> q[k..] != [] && q[k..][0] == q[k] && q[k..][1..] == q[k + 1..] && q[..k] + [q[k]] == q[..k + 1]
    ensures k == |q| ==> q[k..] == []
  {
    if k < |q| { assert q[k..][1..] == q[k + 1..]; }
  }

  lemma FilledDropped(buckets: seq<seq<ClapEvent>>, nodes: seq<NodeId>, done: seq<Slot>, s: Slot, b: Block)
    requires Filled(buckets, nodes, done, b, true)
    ensures Filled(buckets, nodes, done + [s], b, true)
  {
  }

  lemma FilledEmpty(buckets: seq<seq<ClapEvent>>, nodes: seq<NodeId>, b: Block, drop: bool)
    requires |nodes| <= |buckets| && forall i :: 0 <= i < |nodes| ==> buckets[i] == []
    ensures Filled(buckets, nodes, [], b, drop)
  {
  }

  /** One block: the ring is absorbed as far as the queue has room, every event due before the end
      of the block is consumed, in (time, arrival) order, and each node's bucket holds the first
      MAX_EVENTS_PER_BLOCK translatable events addressed to it. */
  method DrainAndDemux(ring: SpscRing, reorder: EventReorderQueue, b: Block, index: BucketIndex,
                       buckets: array<seq<ClapEvent>>, drop: bool)
    requires reorder.Valid() && Bounded(b.g.tracks) && NoDup(Nodes(b.g)) && buckets.Length >= MAX_NODES
    modifies ring`events, reorder, reorder.heap, index, buckets
    ensures reorder.Valid()
    ensures forall i :: 0 <= i < |Nodes(b.g)| ==> Nodes(b.g)[i] in index.at && index.at[Nodes(b.g)[i]] == i
    ensures var room := reorder.heap.Length - |old(reorder.queue)|;
      var taken := Min(|old(ring.events)|, room);
      var q := InsertAll(old(reorder.queue), old(reorder.nextSeq), old(ring.events)[..taken]);
      var due := DueCount(q, b.start + b.frames);
      && ring.events == old(ring.events)[taken..]
      && reorder.nextSeq == old(reorder.nextSeq) + taken
      && reorder.queue == q[due..]
      && Filled(buckets[..], Nodes(b.g), q[..due], b, drop)
    ensures forall i :: |Nodes(b.g)| <= i < buckets.Length ==> buckets[i] == old(buckets[i])
  {
    hide Nodes, Filled, Sorted, NoDup, InsertAll, DueCount;
    var _ := Number(b.g, index, buckets);
    FilledEmpty(buckets[..], Nodes(b.g), b, drop);
    Absorb(ring, reorder);
    RouteDue(reorder, b, index, buckets, drop);
  }
}
