/** The echo path end to end: the audio thread pushes parameter changes into the ring while the control
    thread's poll takes them out and hands them to the client (src/echo_ring.h:21-45,
    src/notification_center.cpp:75-108). */
module EchoPath {
  import opened EchoRing
  import opened Notifications

  /** The ring with both program counters, and what the notification center has done so far. A value
      enters the center in the step that stores head_: what poll does with it before its next load is
      private to the control thread. */
  datatype Path = Path(ring: Ring, ops: seq<Op>)

  datatype Move =
    | Audio(s: RingStep)   // a step of push
    | Drain                // the next step of poll's loop over pop
    | Client(op: Op)       // the end of poll, or a request, between calls of pop

  predicate CanMove(p: Path, m: Move) {
    match m
    case Audio(s) => (s.Push? || s.Produce?) && CanStep(p.ring, s)
    case Drain => true
    case Client(op) => p.ring.c.Resting? && !op.Arrive?
  }

  function Moved(p: Path, m: Move): Path
    requires CanMove(p, m)
  {
    match m
    case Audio(s) => p.(ring := StepRing(p.ring, s))
    case Drain =>
      if p.ring.c.Resting? then p.(ring := StepRing(p.ring, Pop))
      else if p.ring.c.Releasing? then Path(StepRing(p.ring, Consume), p.ops + [Arrive(p.ring.c.out)])
      else p.(ring := StepRing(p.ring, Consume))
    case Client(op) => p.(ops := p.ops + [op])
  }

  predicate PathLegal(p: Path, run: seq<Move>)
    decreases |run|, 0
  {
    run == [] ||
    (PathLegal(p, run[..|run| - 1]) && CanMove(PathExec(p, run[..|run| - 1]), run[|run| - 1]))
  }

  function PathExec(p: Path, run: seq<Move>): Path
    requires PathLegal(p, run)
    decreases |run|, 1
  {
    if run == [] then p else Moved(PathExec(p, run[..|run| - 1]), run[|run| - 1])
  }

  // ---------------------------------------------------------------- invariant

  /** The values pushed into the center are those the ring has returned. */
  ghost predicate PathInv(p: Path) {
    RingInv(p.ring) && Pushed(p.ops) == p.ring.log.popped
  }

  lemma PushedSnoc(ops: seq<Op>, op: Op)
    ensures Pushed(ops + [op]) == Pushed(ops) + (if op.Arrive? then [op.e] else [])
  {
    assert (ops + [op])[..|ops|] == ops;
  }

  /** Only the store of head_ lengthens what the ring has returned, by the value that was read. */
  lemma PoppedBy(r: Ring, s: RingStep)
    requires CanStep(r, s)
    ensures StepRing(r, s).log.popped
         == r.log.popped + (if s.Consume? && r.c.Releasing? then [r.c.out] else [])
  {
  }

  lemma MoveKeeps(p: Path, m: Move)
    requires PathInv(p) && CanMove(p, m)
    ensures PathInv(Moved(p, m))
  {
    hide RingInv, StepRing, Pushed;
    match m
    case Audio(s) =>
      RingStepKeeps(p.ring, s);
      PoppedBy(p.ring, s);
    case Drain =>
      var s := if p.ring.c.Resting? then Pop else Consume;
      RingStepKeeps(p.ring, s);
      PoppedBy(p.ring, s);
      if p.ring.c.Releasing? { PushedSnoc(p.ops, Arrive(p.ring.c.out)); }
    case Client(op) => PushedSnoc(p.ops, op);
  }

  lemma {:induction false} PathRunInv(slots: Storage, run: seq<Move>)
    requires PathLegal(Path(Fresh(slots), []), run)
    ensures PathInv(PathExec(Path(Fresh(slots), []), run))
  {
    hide RingInv, Moved;
    if run == [] {
      FreshInv(slots);
    } else {
      hide PathInv;
      PathRunInv(slots, run[..|run| - 1]);
      MoveKeeps(PathExec(Path(Fresh(slots), []), run[..|run| - 1]), run[|run| - 1]);
    }
  }

  lemma {:induction false} SubsequenceExtends(a: seq<ParamEcho>, b: seq<ParamEcho>, c: seq<ParamEcho>)
    requires Subsequence(a, b)
    ensures Subsequence(a, b + c)
  {
    hide Subsequence;
    if c == [] {
      assert b + c == b;
    } else {
      SubsequenceExtends(a, b, c[..|c| - 1]);
      SubsequenceSnoc(a, b + c[..|c| - 1], c[|c| - 1]);
      assert b + c == (b + c[..|c| - 1]) + [c[|c| - 1]];
    }
  }

  // ---------------------------------------------------------------- end to end

  /** In every interleaving of the audio thread's pushes with poll's pops and all other requests, the
      values the client has polled are among those the ring has accepted, in the same order and each at
      most once; and all but the last CAPACITY accepted ones have reached the center. */
  lemma EchoesArriveInOrder(slots: Storage, run: seq<Move>, p: Path)
    requires PathLegal(Path(Fresh(slots), []), run) && p == PathExec(Path(Fresh(slots), []), run)
    ensures Subsequence(ValuesOf(Outcome(p.ops).polled), p.ring.log.pushed)
    ensures Pushed(p.ops) <= p.ring.log.pushed && |p.ring.log.pushed| - |Pushed(p.ops)| <= CAPACITY
  {
    PathRunInv(slots, run);
    Between(p.ring);
    ValuesLeaveInOrder(p.ops);
    var got, all := Pushed(p.ops), p.ring.log.pushed;
    hide *;
    SubsequenceExtends(ValuesOf(Outcome(p.ops).polled), got, all[|got|..]);
    assert all == got + all[|got|..];
  }

  /** If moreover no value or request found the queue full, what the client has polled followed by what
      waits in the queue is exactly an initial part of what the ring has accepted: nothing is missing. */
  lemma NoEchoMissing(slots: Storage, run: seq<Move>, p: Path)
    requires PathLegal(Path(Fresh(slots), []), run) && p == PathExec(Path(Fresh(slots), []), run)
    requires forall i :: 0 <= i < |p.ops| ==> !LosesAt(p.ops, i)
    ensures Told(Outcome(p.ops)) <= p.ring.log.pushed
    ensures |p.ring.log.pushed| - |Told(Outcome(p.ops))| <= CAPACITY
  {
    EchoesArriveInOrder(slots, run, p);
    NoValueMissing(p.ops);
  }

  lemma Between(r: Ring)
    requires RingInv(r)
    ensures r.log.popped <= r.log.pushed && |r.log.pushed| - |r.log.popped| <= CAPACITY
  {
    hide Wrapped, Stored;
  }
}
