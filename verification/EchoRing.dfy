/** The lock-free single-producer single-consumer ring of parameter echoes (src/echo_ring.h):
    the class, and the interleaving of its separate loads, slot accesses and stores. */
module EchoRing {
  import opened Config

  datatype ParamEcho = ParamEcho(trackId: nat, destSlot: int, paramId: nat, value: real)

  const CAPACITY: nat := 1024

  /** The ring's storage, and the values of its 32-bit counters. */
  type Storage = s: seq<ParamEcho> | |s| == CAPACITY witness seq(CAPACITY, _ => ParamEcho(0, 0, 0, 0.0))
  type U32 = x: nat | x < TWO_32

  // ---------------------------------------------------------------- 32-bit counters

  function Inc32(x: nat): U32 {
    (x + 1) % TWO_32
  }

  function Sub32(x: U32, y: U32): U32 {
    (x - y) % TWO_32
  }

  /** The free-running counters after `n` increments. */
  function Wrapped(n: nat): U32 {
    n % TWO_32
  }

  lemma IncWraps(n: nat)
    ensures Inc32(Wrapped(n)) == Wrapped(n + 1)
  {
  }

  /** The wrapping difference is the true one as long as that is below 2^32. */
  lemma SubWraps(t: nat, h: nat)
    requires h <= t < h + TWO_32
    ensures Sub32(Wrapped(t), Wrapped(h)) == t - h
  {
  }

  /** The slot index survives the wrap of the counter, because the capacity divides 2^32. */
  lemma SlotSurvivesWrap(n: nat)
    ensures Wrapped(n) % CAPACITY == n % CAPACITY
  {
    var q := n / TWO_32;
    assert n == q * TWO_32 + Wrapped(n);
    assert TWO_32 == CAPACITY * 0x40_0000;
    ModAdd(Wrapped(n), q * 0x40_0000);
  }

  lemma ModAdd(a: nat, k: nat)
    ensures (a + k * CAPACITY) % CAPACITY == a % CAPACITY
    decreases k
  {
    if k > 0 { ModAdd(a, k - 1); }
  }

  /** Two positions less than the capacity apart never share a slot. */
  lemma SlotsDistinct(i: nat, j: nat)
    requires i < j < i + CAPACITY
    ensures i % CAPACITY != j % CAPACITY
  {
  }

  // ---------------------------------------------------------------- interleaved steps

  datatype ProducerPc =
    | Ready
    | LoadingHead(e: ParamEcho, t: U32)
    | Writing(e: ParamEcho, t: U32)         // the slot write is under way
    | Publishing(e: ParamEcho, t: U32)      // about to store tail_

  datatype ConsumerPc =
    | Resting
    | LoadingTail(h: U32)
    | Reading(h: U32)                       // the slot read is under way
    | Releasing(h: U32, out: ParamEcho)     // about to store head_

  /** The ring's memory, the two program counters, and the history of accepted and returned values. */
  datatype Ring = Ring(slots: Storage, head: U32, tail: U32, p: ProducerPc, c: ConsumerPc, log: Log)

  datatype Log = Log(pushed: seq<ParamEcho>, popped: seq<ParamEcho>)

  datatype RingStep =
    | Push(e: ParamEcho)     // push is called and loads tail_
    | Produce                // the producer's next step
    | Pop                    // pop is called and loads head_
    | Consume                // the consumer's next step

  predicate CanStep(r: Ring, s: RingStep) {
    match s
    case Push(_) => r.p.Ready?
    case Produce => !r.p.Ready?
    case Pop => r.c.Resting?
    case Consume => !r.c.Resting?
  }

  function StepRing(r: Ring, s: RingStep): Ring
    requires CanStep(r, s)
  {
    match s
    case Push(e) => r.(p := LoadingHead(e, r.tail))
    case Produce => ProducerStep(r)
    case Pop => r.(c := LoadingTail(r.head))
    case Consume => ConsumerStep(r)
  }

  function ProducerStep(r: Ring): Ring {
    match r.p
    case Ready => r
    case LoadingHead(e, t) =>
      if Sub32(t, r.head) == CAPACITY then r.(p := Ready) else r.(p := Writing(e, t))
    case Writing(e, t) => r.(slots := r.slots[t % CAPACITY := e], p := Publishing(e, t))
    case Publishing(e, t) => r.(tail := Inc32(t), p := Ready, log := r.log.(pushed := r.log.pushed + [e]))
  }

  function ConsumerStep(r: Ring): Ring {
    match r.c
    case Resting => r
    case LoadingTail(h) => if h == r.tail then r.(c := Resting) else r.(c := Reading(h))
    case Reading(h) => r.(c := Releasing(h, r.slots[h % CAPACITY]))
    case Releasing(h, out) => r.(head := Inc32(h), c := Resting, log := r.log.(popped := r.log.popped + [out]))
  }

  // ---------------------------------------------------------------- invariant

  /** Positions never wrap: the numbers of values accepted and returned so far. */
  function T(r: Ring): nat { |r.log.pushed| }
  function H(r: Ring): nat { |r.log.popped| }

  ghost predicate Counters(r: Ring) {
    && r.tail == Wrapped(T(r)) && r.head == Wrapped(H(r))
    && H(r) <= T(r) <= H(r) + CAPACITY
  }

  /** The locals are the thread's own index; once the opposite index has been checked there is room,
      or a value, and that stays so until the thread acts. */
  ghost predicate Locals(r: Ring) {
    && (r.p.LoadingHead? ==> r.p.t == r.tail)
    && (r.p.Writing? || r.p.Publishing? ==> r.p.t == r.tail && T(r) < H(r) + CAPACITY)
    && (r.c.LoadingTail? ==> r.c.h == r.head)
    && (r.c.Reading? || r.c.Releasing? ==> r.c.h == r.head && H(r) < T(r))
  }

  /** The slots between head and tail hold the accepted values not yet returned. */
  ghost predicate Stored(r: Ring) {
    && (forall i :: H(r) <= i < T(r) ==> r.slots[i % CAPACITY] == r.log.pushed[i])
    && (r.p.Publishing? ==> r.slots[T(r) % CAPACITY] == r.p.e)
    && (r.c.Releasing? && H(r) < T(r) ==> r.c.out == r.log.pushed[H(r)])
  }

  ghost predicate PrefixPopped(r: Ring) {
    H(r) <= T(r) && r.log.popped == r.log.pushed[..H(r)]
  }

  ghost predicate RingInv(r: Ring) {
    Counters(r) && Locals(r) && Stored(r) && PrefixPopped(r)
  }

  function Fresh(slots: Storage): Ring {
    Ring(slots, 0, 0, Ready, Resting, Log([], []))
  }

  lemma FreshInv(slots: Storage)
    ensures RingInv(Fresh(slots))
  {
  }

  // ---------------------------------------------------------------- preservation

  lemma PushStarts(r: Ring, e: ParamEcho)
    requires RingInv(r) && r.p.Ready?
    ensures RingInv(r.(p := LoadingHead(e, r.tail)))
  {
    hide Wrapped;
  }

  lemma PopStarts(r: Ring)
    requires RingInv(r) && r.c.Resting?
    ensures RingInv(r.(c := LoadingTail(r.head)))
  {
    hide Wrapped;
  }

  lemma HeadLoaded(r: Ring)
    requires RingInv(r) && r.p.LoadingHead?
    ensures RingInv(ProducerStep(r))
    ensures ProducerStep(r).p.Ready? <==> T(r) - H(r) == CAPACITY
  {
    SubWraps(T(r), H(r));
    hide Wrapped, Sub32;
  }

  lemma SlotWritten(r: Ring)
    requires RingInv(r) && r.p.Writing?
    ensures RingInv(ProducerStep(r))
  {
    var t := T(r);
    SlotSurvivesWrap(t);
    forall i | H(r) <= i < t ensures i % CAPACITY != t % CAPACITY {
      SlotsDistinct(i, t);
    }
    hide Wrapped;
  }

  lemma TailStored(r: Ring)
    requires RingInv(r) && r.p.Publishing?
    ensures RingInv(ProducerStep(r))
  {
    IncWraps(T(r));
    var r' := ProducerStep(r);
    assert forall i :: 0 <= i < T(r) ==> r'.log.pushed[i] == r.log.pushed[i];
    assert r'.log.pushed[..H(r)] == r.log.pushed[..H(r)];
    hide Wrapped, Inc32;
  }

  lemma TailLoaded(r: Ring)
    requires RingInv(r) && r.c.LoadingTail?
    ensures RingInv(ConsumerStep(r))
    ensures ConsumerStep(r).c.Resting? <==> T(r) == H(r)
  {
    SubWraps(T(r), H(r));
    hide Wrapped;
  }

  lemma SlotRead(r: Ring)
    requires RingInv(r) && r.c.Reading?
    ensures RingInv(ConsumerStep(r))
  {
    SlotSurvivesWrap(H(r));
    hide Wrapped;
  }

  lemma HeadStored(r: Ring)
    requires RingInv(r) && r.c.Releasing?
    ensures RingInv(ConsumerStep(r))
  {
    IncWraps(H(r));
    assert r.log.pushed[..H(r) + 1] == r.log.pushed[..H(r)] + [r.log.pushed[H(r)]];
    hide Wrapped, Inc32;
  }

  /** Every step of either thread keeps the invariant. */
  lemma RingStepKeeps(r: Ring, s: RingStep)
    requires RingInv(r) && CanStep(r, s)
    ensures RingInv(StepRing(r, s))
  {
    hide Stored, Locals, PrefixPopped, ProducerStep, ConsumerStep;
    match s
    case Push(e) => PushStarts(r, e);
    case Pop => PopStarts(r);
    case Produce =>
      if r.p.LoadingHead? { HeadLoaded(r); } else if r.p.Writing? { SlotWritten(r); } else { TailStored(r); }
    case Consume =>
      if r.c.LoadingTail? { TailLoaded(r); } else if r.c.Reading? { SlotRead(r); } else { HeadStored(r); }
  }

  // ---------------------------------------------------------------- all interleavings

  /** The state after a run of steps of the two threads, and whether every step could be taken. */
  function RingExec(r: Ring, run: seq<RingStep>): Ring
    requires RingLegal(r, run)
    decreases |run|, 1
  {
    if run == [] then r else StepRing(RingExec(r, run[..|run| - 1]), run[|run| - 1])
  }

  predicate RingLegal(r: Ring, run: seq<RingStep>)
    decreases |run|, 0
  {
    run == [] ||
    (RingLegal(r, run[..|run| - 1]) && CanStep(RingExec(r, run[..|run| - 1]), run[|run| - 1]))
  }

  lemma {:induction false} RingRunInv(slots: Storage, run: seq<RingStep>)
    requires RingLegal(Fresh(slots), run)
    ensures RingInv(RingExec(Fresh(slots), run))
  {
    hide RingInv, StepRing;
    if run == [] {
      FreshInv(slots);
    } else {
      RingRunInv(slots, run[..|run| - 1]);
      RingStepKeeps(RingExec(Fresh(slots), run[..|run| - 1]), run[|run| - 1]);
    }
  }

  /** In every interleaving, for as long as the ring is used and however often its 32-bit counters
      wrap: the values returned are a prefix of the values accepted, in order; at most CAPACITY are
      in between; and no slot is written while it is being read. */
  lemma RingIsFifo(slots: Storage, run: seq<RingStep>, r: Ring)
    requires RingLegal(Fresh(slots), run) && r == RingExec(Fresh(slots), run)
    ensures r.log.popped <= r.log.pushed
    ensures |r.log.pushed| - |r.log.popped| <= CAPACITY
    ensures r.p.Writing? && r.c.Reading? ==> r.p.t % CAPACITY != r.c.h % CAPACITY
  {
    RingRunInv(slots, run);
    if r.p.Writing? && r.c.Reading? {
      SlotSurvivesWrap(T(r));
      SlotSurvivesWrap(H(r));
      SlotsDistinct(H(r), T(r));
    }
    hide Wrapped, Stored;
  }

  /** A refused push or an empty pop is never due to a stale index: in every interleaving the ring
      was full, or empty, at the moment the opposite index was loaded. */
  lemma RefusalsAreExact(slots: Storage, run: seq<RingStep>, r: Ring)
    requires RingLegal(Fresh(slots), run) && r == RingExec(Fresh(slots), run)
    ensures r.p.LoadingHead? ==> (ProducerStep(r).p.Ready? <==> |r.log.pushed| - |r.log.popped| == CAPACITY)
    ensures r.c.LoadingTail? ==> (ConsumerStep(r).c.Resting? <==> |r.log.pushed| == |r.log.popped|)
  {
    RingRunInv(slots, run);
    if r.p.LoadingHead? { HeadLoaded(r); }
    if r.c.LoadingTail? { TailLoaded(r); }
    hide Stored, Locals, ProducerStep, ConsumerStep;
  }

  // ---------------------------------------------------------------- the class

  class ParamEchoRing {
    const slots: array<ParamEcho>
    var head: U32
    var tail: U32
    ghost var pushed: seq<ParamEcho>
    ghost var popped: seq<ParamEcho>

    /** The memory of the ring between calls. */
    ghost function Memory(p: ProducerPc, c: ConsumerPc): Ring
      requires slots.Length == CAPACITY
      reads this, slots
    {
      Ring(slots[..], head, tail, p, c, Log(pushed, popped))
    }

    ghost predicate Valid()
      reads this, slots
    {
      slots.Length == CAPACITY && RingInv(Memory(Ready, Resting))
    }

    /** The values in the ring, oldest first. */
    ghost function Contents(): seq<ParamEcho>
      requires Valid()
      reads this, slots
    {
      pushed[|popped|..]
    }

    constructor ()
      ensures Valid() && Contents() == [] && fresh(slots)
    {
      slots := new ParamEcho[CAPACITY](_ => ParamEcho(0, 0, 0, 0.0));
      head, tail, pushed, popped := 0, 0, [], [];
      new;
      FreshInv(slots[..]);
    }

    /** Appends the value, unless CAPACITY values are waiting. The body takes the producer's steps. */
    method Push(e: ParamEcho) returns (ok: bool)
      requires Valid()
      modifies this`tail, this`pushed, slots
      ensures Valid()
      ensures ok <==> |old(Contents())| < CAPACITY
      ensures Contents() == if ok then old(Contents()) + [e] else old(Contents())
    {
      hide RingInv, Wrapped;
      Meaning();
      ghost var r := Memory(Ready, Resting);
      PushStarts(r, e);
      var t := tail;
      var h := head;
      r := r.(p := LoadingHead(e, t));
      HeadLoaded(r);
      if Sub32(t, h) == CAPACITY {
        return false;
      }
      r := r.(p := Writing(e, t));
      SlotWritten(r);
      slots[t % CAPACITY] := e;
      r := Memory(Publishing(e, t), Resting);
      TailStored(r);
      tail := Inc32(t);
      pushed := pushed + [e];
      assert Memory(Ready, Resting) == ProducerStep(r);
      Meaning();
      return true;
    }

    lemma Meaning()
      requires Valid()
      ensures |popped| <= |pushed| <= |popped| + CAPACITY
      ensures |popped| < |pushed| ==> slots[head % CAPACITY] == pushed[|popped|]
    {
      SlotSurvivesWrap(|popped|);
      hide Wrapped;
    }

    /** Takes the oldest value, if any. The body takes the consumer's steps. */
    method Pop() returns (out: Option<ParamEcho>)
      requires Valid()
      modifies this`head, this`popped
      ensures Valid()
      ensures out == if old(Contents()) == [] then None else Some(old(Contents())[0])
      ensures Contents() == if old(Contents()) == [] then [] else old(Contents())[1..]
    {
      hide RingInv, Wrapped;
      Meaning();
      ghost var r := Memory(Ready, Resting);
      PopStarts(r);
      var h := head;
      var t := tail;
      r := r.(c := LoadingTail(h));
      TailLoaded(r);
      if h == t {
        return None;
      }
      r := r.(c := Reading(h));
      SlotRead(r);
      out := Some(slots[h % CAPACITY]);
      r := Memory(Ready, Releasing(h, out.value));
      HeadStored(r);
      head := Inc32(h);
      popped := popped + [out.value];
      assert Memory(Ready, Resting) == ConsumerStep(r);
      Meaning();
    }
  }
}
