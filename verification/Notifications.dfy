/** The bounded, coalescing queue of notifications for the control client
    (src/notification_center.cpp, src/notification_center.h). */
module Notifications {
  import opened Config
  import opened EchoRing
  import Graph
  import AudioGraphs

  const MAX_NOTIFICATIONS: nat := 2048

  /** Rescan flags, one bit each; the proofs use nothing else about them. */
  const MR_RESCAN_VALUES: bv32 := 1
  const MR_RESCAN_ALL: bv32 := 8

  datatype Target = Target(trackId: nat, destSlot: int)

  datatype Notification =
    | ParamValue(echo: ParamEcho)
    | ParamRescan(target: Target, flags: bv32)
    | GuiClosed(target: Target)

  function TargetOf(e: ParamEcho): Target {
    Target(e.trackId, e.destSlot)
  }

  // ---------------------------------------------------------------- what the operations do

  predicate IsRescanFor(n: Notification, t: Target) {
    n.ParamRescan? && n.target == t
  }

  /** Position of the first rescan for the target, or the length of the queue. */
  function RescanIndex(q: seq<Notification>, t: Target): (k: nat)
    ensures k <= |q|
    ensures k < |q| ==> IsRescanFor(q[k], t)
    ensures forall j :: 0 <= j < k ==> !IsRescanFor(q[j], t)
  {
    if q == [] || IsRescanFor(q[0], t) then 0 else 1 + RescanIndex(q[1..], t)
  }

  predicate Full(q: seq<Notification>) {
    |q| >= MAX_NOTIFICATIONS
  }

  function OrFlags(a: bv32, b: bv32): bv32 {
    a | b
  }

  function WithRescan(q: seq<Notification>, t: Target, flags: bv32): seq<Notification> {
    var k := RescanIndex(q, t);
    if k < |q| then q[k := ParamRescan(t, OrFlags(q[k].flags, flags))]
    else if Full(q) then [ParamRescan(t, MR_RESCAN_ALL)]
    else q + [ParamRescan(t, flags)]
  }

  function WithValue(q: seq<Notification>, e: ParamEcho): seq<Notification> {
    if Full(q) then WithRescan(q, TargetOf(e), MR_RESCAN_VALUES) else q + [ParamValue(e)]
  }

  function WithGuiClosed(q: seq<Notification>, t: Target): seq<Notification> {
    if Full(q) then q else q + [GuiClosed(t)]
  }

  function WithValues(q: seq<Notification>, es: seq<ParamEcho>): seq<Notification> {
    if es == [] then q else WithValue(WithValues(q, es[..|es| - 1]), es[|es| - 1])
  }

  // ---------------------------------------------------------------- runs

  datatype Op =
    | Rescan(target: Target, flags: bv32)   // on_rescan or note_state_loaded
    | Closed(target: Target)                // on_gui_closed
    | Arrive(e: ParamEcho)                  // push_param_value
    | Take                                  // the end of poll

  /** The queue, and everything that has been polled, in order. */
  datatype Center = Center(queue: seq<Notification>, polled: seq<Notification>)

  function Apply(c: Center, op: Op): Center {
    match op
    case Rescan(t, f) => c.(queue := WithRescan(c.queue, t, f))
    case Closed(t) => c.(queue := WithGuiClosed(c.queue, t))
    case Arrive(e) => c.(queue := WithValue(c.queue, e))
    case Take => if c.queue == [] then c else Center(c.queue[1..], c.polled + [c.queue[0]])
  }

  function Outcome(run: seq<Op>): Center {
    if run == [] then Center([], []) else Apply(Outcome(run[..|run| - 1]), run[|run| - 1])
  }

  lemma OutcomeSnoc(run: seq<Op>, op: Op)
    ensures Outcome(run + [op]) == Apply(Outcome(run), op)
  {
    assert (run + [op])[..|run|] == run;
  }

  // ---------------------------------------------------------------- bounds

  ghost predicate OneRescanEach(q: seq<Notification>) {
    forall i, j :: 0 <= i < j < |q| && q[i].ParamRescan? && q[j].ParamRescan? ==> q[i].target != q[j].target
  }

  lemma RescanKeepsBounds(q: seq<Notification>, t: Target, f: bv32)
    requires |q| <= MAX_NOTIFICATIONS && OneRescanEach(q)
    ensures |WithRescan(q, t, f)| <= MAX_NOTIFICATIONS && OneRescanEach(WithRescan(q, t, f))
  {
  }

  lemma StepKeepsBounds(c: Center, op: Op)
    requires |c.queue| <= MAX_NOTIFICATIONS && OneRescanEach(c.queue)
    ensures |Apply(c, op).queue| <= MAX_NOTIFICATIONS && OneRescanEach(Apply(c, op).queue)
  {
    match op
    case Rescan(t, f) => RescanKeepsBounds(c.queue, t, f); hide WithRescan;
    case Closed(t) =>
    case Arrive(e) => RescanKeepsBounds(c.queue, TargetOf(e), MR_RESCAN_VALUES); hide WithRescan;
    case Take =>
  }

  /** In every run the queue has at most MAX_NOTIFICATIONS entries, with at most one rescan for each
      (track, slot). */
  lemma {:induction false} QueueIsBounded(run: seq<Op>)
    ensures |Outcome(run).queue| <= MAX_NOTIFICATIONS && OneRescanEach(Outcome(run).queue)
  {
    hide OneRescanEach, Apply;
    if run == [] {
      NoneAtAll();
    } else {
      QueueIsBounded(run[..|run| - 1]);
      StepKeepsBounds(Outcome(run[..|run| - 1]), run[|run| - 1]);
    }
  }

  lemma NoneAtAll()
    ensures OneRescanEach([])
  {
  }

  // ---------------------------------------------------------------- nothing accepted is forgotten

  /** What the client must learn: a changed value, or that a target needs rescanning. */
  datatype Duty = OfValue(e: ParamEcho) | OfRescan(target: Target, flags: bv32)

  function DutyTarget(d: Duty): Target {
    if d.OfValue? then Target(d.e.trackId, d.e.destSlot) else d.target
  }

  predicate Carries(flags: bv32, wanted: bv32) {
    flags & wanted == wanted || flags & MR_RESCAN_ALL == MR_RESCAN_ALL
  }

  /** The notification tells the client: by the value itself, or by a rescan of the target. */
  predicate Covers(n: Notification, d: Duty) {
    || (d.OfValue? && n == ParamValue(d.e))
    || (IsRescanFor(n, DutyTarget(d)) && Carries(n.flags, if d.OfValue? then MR_RESCAN_VALUES else d.flags))
  }

  ghost predicate Represented(q: seq<Notification>, d: Duty) {
    exists n :: n in q && Covers(n, d)
  }

  predicate Raises(op: Op, d: Duty) {
    (op.Rescan? && d == OfRescan(op.target, op.flags)) || (op.Arrive? && d == OfValue(op.e))
  }

  /** The operation finds the queue full and no rescan to join: it clears the queue. */
  predicate Overflows(q: seq<Notification>, op: Op) {
    && Full(q) && (op.Rescan? || op.Arrive?)
    && RescanIndex(q, OpTarget(op)) == |q|
  }

  function OpTarget(op: Op): Target
    requires op.Rescan? || op.Arrive?
  {
    if op.Rescan? then op.target else TargetOf(op.e)
  }

  lemma OrKeepsBits(a: bv32, b: bv32, w: bv32)
    ensures a & w == w ==> OrFlags(a, b) & w == w
    ensures OrFlags(a, b) & b == b
  {
  }

  lemma OrCarries(a: bv32, b: bv32, w: bv32)
    ensures Carries(a, w) ==> Carries(OrFlags(a, b), w)
    ensures Carries(OrFlags(a, b), b)
  {
    OrKeepsBits(a, b, w);
    OrKeepsBits(a, b, MR_RESCAN_ALL);
    hide OrFlags;
  }

  lemma SelfCovers(t: Target, f: bv32)
    ensures Covers(ParamRescan(t, f), OfRescan(t, f))
  {
    AllCarries(f);
    hide Carries;
  }

  lemma AllCarries(w: bv32)
    ensures Carries(MR_RESCAN_ALL, w) && Carries(w, w)
  {
    assert MR_RESCAN_ALL & MR_RESCAN_ALL == MR_RESCAN_ALL;
    assert w & w == w;
  }

  lemma AppendRepresents(q: seq<Notification>, n: Notification, d: Duty)
    ensures Represented(q, d) || Covers(n, d) ==> Represented(q + [n], d)
  {
    hide Covers;
    if Represented(q, d) {
      var m :| m in q && Covers(m, d);
      assert m in q + [n];
    }
    assert n in q + [n];
  }

  /** A rescan request is represented afterwards; and so is everything represented before, unless
      the request overflows the queue and concerns another target. */
  lemma RescanRepresents(q: seq<Notification>, t: Target, f: bv32, d: Duty)
    ensures Represented(WithRescan(q, t, f), OfRescan(t, f))
    ensures Represented(q, d) && (RescanIndex(q, t) < |q| || !Full(q) || t == DutyTarget(d))
        ==> Represented(WithRescan(q, t, f), d)
  {
    var k, n := RescanIndex(q, t), ParamRescan(t, f);
    hide Represented, Carries, RescanIndex, OrFlags, Covers, IsRescanFor;
    if k < |q| {
      JoinRepresents(q, k, t, f, d);
    } else if Full(q) {
      AllRepresents(t, OfRescan(t, f));
      AllRepresents(t, d);
    } else {
      SelfCovers(t, f);
      AppendRepresents(q, n, d);
      AppendRepresents(q, n, OfRescan(t, f));
    }
  }

  /** Joining an existing rescan of the target keeps every duty and adds the new one. */
  lemma JoinRepresents(q: seq<Notification>, k: nat, t: Target, f: bv32, d: Duty)
    requires k < |q| && IsRescanFor(q[k], t)
    ensures Represented(q[k := ParamRescan(t, OrFlags(q[k].flags, f))], OfRescan(t, f))
    ensures Represented(q, d) ==> Represented(q[k := ParamRescan(t, OrFlags(q[k].flags, f))], d)
  {
    var r := q[k := ParamRescan(t, OrFlags(q[k].flags, f))];
    OrCarries(q[k].flags, f, if d.OfValue? then MR_RESCAN_VALUES else d.flags);
    hide Carries, OrFlags;
    assert r[k] in r && Covers(r[k], OfRescan(t, f));
    if Represented(q, d) {
      var n :| n in q && Covers(n, d);
      var j :| 0 <= j < |q| && q[j] == n;
      assert r[j] in r && Covers(r[j], d);
    }
  }

  lemma AllRepresents(t: Target, d: Duty)
    ensures t == DutyTarget(d) ==> Represented([ParamRescan(t, MR_RESCAN_ALL)], d)
  {
    AllCarries(if d.OfValue? then MR_RESCAN_VALUES else d.flags);
    hide Carries;
    assert ParamRescan(t, MR_RESCAN_ALL) in [ParamRescan(t, MR_RESCAN_ALL)];
  }

  /** Every value and every rescan request is represented as soon as it has been accepted, however
      full the queue is. */
  lemma AcceptedIsRepresented(c: Center, op: Op, d: Duty)
    requires Raises(op, d)
    ensures Represented(Apply(c, op).queue, d)
  {
    RescanRepresents(c.queue, DutyTarget(d), if d.OfValue? then MR_RESCAN_VALUES else d.flags, d);
    if d.OfValue? {
      RescanCoversValue(WithRescan(c.queue, TargetOf(d.e), MR_RESCAN_VALUES), d.e);
      AppendRepresents(c.queue, ParamValue(d.e), d);
    }
    hide WithRescan, Represented;
  }

  lemma RescanCoversValue(q: seq<Notification>, e: ParamEcho)
    requires Represented(q, OfRescan(TargetOf(e), MR_RESCAN_VALUES))
    ensures Represented(q, OfValue(e))
  {
    var n :| n in q && Covers(n, OfRescan(TargetOf(e), MR_RESCAN_VALUES));
    assert Covers(n, OfValue(e));
  }

  /** The operation ends the duty: it is polled, or another target's overflow clears it. */
  predicate Ends(c: Center, op: Op, d: Duty) {
    || (op.Take? && c.queue != [] && Covers(c.queue[0], d))
    || (Overflows(c.queue, op) && OpTarget(op) != DutyTarget(d))
  }

  lemma StaysUnlessEnded(c: Center, op: Op, d: Duty)
    requires Represented(c.queue, d) && !Ends(c, op, d)
    ensures Represented(Apply(c, op).queue, d)
  {
    match op
    case Rescan(t, f) =>
      RescanRepresents(c.queue, t, f, d);
      hide WithRescan, Represented;
    case Closed(t) =>
      AppendRepresents(c.queue, GuiClosed(t), d);
      hide Represented;
    case Arrive(e) =>
      RescanRepresents(c.queue, TargetOf(e), MR_RESCAN_VALUES, d);
      AppendRepresents(c.queue, ParamValue(e), d);
      hide WithRescan, Represented;
    case Take =>
      var n :| n in c.queue && Covers(n, d);
      assert c.queue == [c.queue[0]] + c.queue[1..];
  }

  /** An overflow really clears: afterwards the only entry is the overflowing target's rescan. */
  lemma OverflowClears(c: Center, op: Op, d: Duty)
    requires Overflows(c.queue, op)
    ensures Apply(c, op).queue == [ParamRescan(OpTarget(op), MR_RESCAN_ALL)]
    ensures Represented(Apply(c, op).queue, d) <==> OpTarget(op) == DutyTarget(d)
  {
    var n := ParamRescan(OpTarget(op), MR_RESCAN_ALL);
    assert Apply(c, op).queue == [n];
    AllCarries(if d.OfValue? then MR_RESCAN_VALUES else d.flags);
    hide Carries;
    assert n in [n];
  }

  ghost predicate EndedAt(run: seq<Op>, j: nat, d: Duty)
    requires j < |run|
  {
    Ends(Outcome(run[..j]), run[j], d)
  }

  /** Over every run: what was accepted by operation i is, at any later point k, still represented
      for its target, or has been polled, or was cleared by the overflow of another target. */
  lemma {:induction false} NothingForgotten(run: seq<Op>, i: nat, k: nat, d: Duty)
    requires i < k <= |run| && Raises(run[i], d)
    ensures Represented(Outcome(run[..k]).queue, d) || exists j :: i < j < k && EndedAt(run, j, d)
  {
    hide Represented, Ends, Apply, Raises;
    assert run[..k][..k - 1] == run[..k - 1];
    if k == i + 1 {
      AcceptedIsRepresented(Outcome(run[..i]), run[i], d);
    } else {
      NothingForgotten(run, i, k - 1, d);
      if Represented(Outcome(run[..k - 1]).queue, d) {
        if EndedAt(run, k - 1, d) {
        } else {
          StaysUnlessEnded(Outcome(run[..k - 1]), run[k - 1], d);
        }
      }
    }
  }

  // ---------------------------------------------------------------- a rescan asks for what was requested

  ghost predicate Queued(q: seq<Notification>, t: Target) {
    exists f :: ParamRescan(t, f) in q
  }

  /** What an operation asks to be rescanned for the target, if anything: a value on a full queue asks
      for the values, and one that overflows the queue for everything. */
  function Wanted(q: seq<Notification>, op: Op, t: Target): Option<bv32> {
    if op.Rescan? && op.target == t then Some(if Overflows(q, op) then MR_RESCAN_ALL else op.flags)
    else if op.Arrive? && TargetOf(op.e) == t && Full(q)
         then Some(if Overflows(q, op) then MR_RESCAN_ALL else MR_RESCAN_VALUES)
    else None
  }

  /** Everything asked for the target from operation a on. */
  function WantedSince(run: seq<Op>, a: nat, t: Target): bv32 {
    if |run| <= a then 0
    else
      var front := run[..|run| - 1];
      var w := Wanted(Outcome(front).queue, run[|run| - 1], t);
      if w.None? then WantedSince(front, a, t) else OrFlags(WantedSince(front, a, t), w.value)
  }

  ghost predicate QueuedAfter(run: seq<Op>, k: int, t: Target)
    requires 0 <= k <= |run|
  {
    Queued(Outcome(run[..k]).queue, t)
  }

  /** The target's entry was appended by operation a and has been queued ever since. */
  ghost predicate EntrySince(run: seq<Op>, a: nat, t: Target) {
    && a < |run| && !QueuedAfter(run, a, t)
    && forall k :: a < k <= |run| ==> QueuedAfter(run, k, t)
  }

  /** Over every run: a queued rescan asks for exactly what has been asked for its target since its entry
      was appended, no less and no more. */
  lemma {:induction false} FlagsAreThoseWanted(run: seq<Op>, t: Target, f: bv32) returns (a: nat)
    requires ParamRescan(t, f) in Outcome(run).queue
    ensures EntrySince(run, a, t) && f == WantedSince(run, a, t)
  {
    hide Apply, Wanted, OrFlags, Queued, OneRescanEach;
    var front, op := run[..|run| - 1], run[|run| - 1];
    var q := Outcome(front).queue;
    QueueIsBounded(front);
    FlagsAfter(Outcome(front), op, t, f);
    assert run[..|run|] == run;
    IsQueued(Outcome(run).queue, t, f);
    var w := Wanted(q, op, t);
    if !Queued(q, t) {
      a := |front|;
      OrZero(f);
      assert w == Some(f) && WantedSince(front, a, t) == 0;
      assert WantedSince(run, a, t) == OrFlags(0, f);
      assert QueuedAfter(run, |run|, t);
    } else {
      var g := QueuedWith(q, t);
      FlagsAfter(Outcome(front), op, t, f);
      var was := if w.None? then f else g;
      a := FlagsAreThoseWanted(front, t, was);
      assert forall k :: 0 <= k <= |front| ==> front[..k] == run[..k];
      forall k | a < k <= |run| ensures QueuedAfter(run, k, t) {
        if k <= |front| { assert QueuedAfter(front, k, t); }
      }
      assert !QueuedAfter(front, a, t);
    }
  }

  lemma IsQueued(q: seq<Notification>, t: Target, f: bv32)
    requires ParamRescan(t, f) in q
    ensures Queued(q, t)
  {
  }

  lemma QueuedWith(q: seq<Notification>, t: Target) returns (g: bv32)
    requires Queued(q, t)
    ensures ParamRescan(t, g) in q
  {
    g :| ParamRescan(t, g) in q;
  }

  lemma OrZero(f: bv32)
    ensures OrFlags(0, f) == f
  {
  }

  /** The flags an operation leaves in the entry of target t. */
  lemma FlagsAfter(c: Center, op: Op, t: Target, f: bv32)
    requires OneRescanEach(c.queue) && ParamRescan(t, f) in Apply(c, op).queue
    ensures var w := Wanted(c.queue, op, t);
      && (w.None? ==> ParamRescan(t, f) in c.queue && Queued(c.queue, t))
      && (w.Some? && !Queued(c.queue, t) ==> f == w.value)
      && (w.Some? ==> forall g :: ParamRescan(t, g) in c.queue ==> f == OrFlags(g, w.value))
  {
    match op
    case Rescan(u, g) => RescanFlags(c.queue, u, g, t, f); hide WithRescan, Queued;
    case Closed(u) =>
    case Arrive(e) =>
      if Full(c.queue) {
        RescanFlags(c.queue, TargetOf(e), MR_RESCAN_VALUES, t, f);
        hide WithRescan, Queued;
      }
    case Take =>
  }

  /** The same for a request: it joins the entry of its target, or makes one, or clears the queue. */
  lemma RescanFlags(q: seq<Notification>, u: Target, g: bv32, t: Target, f: bv32)
    requires OneRescanEach(q) && ParamRescan(t, f) in WithRescan(q, u, g)
    ensures u != t ==> ParamRescan(t, f) in q
    ensures u == t && RescanIndex(q, t) < |q| ==> forall g0 :: ParamRescan(t, g0) in q ==> f == OrFlags(g0, g)
    ensures u == t && RescanIndex(q, t) == |q| ==>
      !Queued(q, t) && f == if Full(q) then MR_RESCAN_ALL else g
    ensures RescanIndex(q, t) < |q| ==> Queued(q, t)
  {
    hide OrFlags;
    IndexFinds(q, t);
    var k, r := RescanIndex(q, u), WithRescan(q, u, g);
    var j :| 0 <= j < |r| && r[j] == ParamRescan(t, f);
    if k < |q| {
      assert j != k ==> r[j] == q[j];
      if u == t {
        forall g0 | ParamRescan(t, g0) in q ensures g0 == q[k].flags {
          var i :| 0 <= i < |q| && q[i] == ParamRescan(t, g0);
          assert i == k;
        }
        assert j == k;
      }
    }
  }

  lemma IndexFinds(q: seq<Notification>, t: Target)
    ensures RescanIndex(q, t) < |q| <==> Queued(q, t)
  {
    var k := RescanIndex(q, t);
    if k < |q| {
      assert ParamRescan(t, q[k].flags) in q;
    }
  }

  // ---------------------------------------------------------------- order of echoed values

  function ValuesOf(q: seq<Notification>): seq<ParamEcho> {
    if q == [] then []
    else ValuesOf(q[..|q| - 1]) + (if q[|q| - 1].ParamValue? then [q[|q| - 1].echo] else [])
  }

  /** The values pushed in a run, in order. */
  function Pushed(run: seq<Op>): seq<ParamEcho> {
    if run == [] then []
    else Pushed(run[..|run| - 1]) + (if run[|run| - 1].Arrive? then [run[|run| - 1].e] else [])
  }

  /** a can be had from b by leaving values out. */
  predicate Subsequence(a: seq<ParamEcho>, b: seq<ParamEcho>) {
    a == [] || (b != [] && (Subsequence(a, b[..|b| - 1]) ||
                            (a[|a| - 1] == b[|b| - 1] && Subsequence(a[..|a| - 1], b[..|b| - 1]))))
  }

  lemma SubsequenceSnoc(a: seq<ParamEcho>, b: seq<ParamEcho>, x: ParamEcho)
    requires Subsequence(a, b)
    ensures Subsequence(a, b + [x]) && Subsequence(a + [x], b + [x])
  {
    assert (b + [x])[..|b|] == b && (a + [x])[..|a|] == a;
  }

  lemma {:induction false} SubsequencePrefix(a: seq<ParamEcho>, c: seq<ParamEcho>, b: seq<ParamEcho>)
    requires Subsequence(a + c, b)
    ensures Subsequence(a, b)
    decreases |b|
  {
    if a == [] {
    } else if Subsequence(a + c, b[..|b| - 1]) {
      SubsequencePrefix(a, c, b[..|b| - 1]);
    } else if c != [] {
      assert (a + c)[..|a + c| - 1] == a + c[..|c| - 1];
      SubsequencePrefix(a, c[..|c| - 1], b[..|b| - 1]);
    } else {
      assert a + c == a;
    }
  }

  lemma {:induction false} ValuesAppend(a: seq<Notification>, b: seq<Notification>)
    ensures ValuesOf(a + b) == ValuesOf(a) + ValuesOf(b)
    decreases |b|
  {
    if b == [] {
      assert a + b == a;
    } else {
      ValuesAppend(a, b[..|b| - 1]);
      assert (a + b)[..|a + b| - 1] == a + b[..|b| - 1];
    }
  }

  lemma ValuesOne(n: Notification)
    ensures ValuesOf([n]) == if n.ParamValue? then [n.echo] else []
  {
    assert [n][..0] == [];
    assert ValuesOf([n][..0]) == [];
  }

  lemma {:induction false} ValuesUpdate(q: seq<Notification>, k: nat, n: Notification)
    requires k < |q| && !q[k].ParamValue? && !n.ParamValue?
    ensures ValuesOf(q[k := n]) == ValuesOf(q)
  {
    var r := q[k := n];
    assert q == q[..k] + [q[k]] + q[k + 1..] && r == q[..k] + [n] + q[k + 1..];
    ValuesAppend(q[..k] + [q[k]], q[k + 1..]);
    ValuesAppend(q[..k], [q[k]]);
    ValuesAppend(q[..k] + [n], q[k + 1..]);
    ValuesAppend(q[..k], [n]);
    ValuesOne(n);
    ValuesOne(q[k]);
  }

  /** The values a step leaves, polled or queued: all of them and the pushed one, if the queue is not
      full; otherwise no others, and all that were polled. */
  lemma RescanValues(q: seq<Notification>, t: Target, f: bv32)
    ensures ValuesOf(WithRescan(q, t, f)) == ValuesOf(q) ||
            (Full(q) && RescanIndex(q, t) == |q| && ValuesOf(WithRescan(q, t, f)) == [])
  {
    var k := RescanIndex(q, t);
    hide ValuesOf, RescanIndex, OrFlags;
    if k < |q| {
      ValuesUpdate(q, k, ParamRescan(t, OrFlags(q[k].flags, f)));
    } else if Full(q) {
      ValuesOne(ParamRescan(t, MR_RESCAN_ALL));
    } else {
      ValuesAppend(q, [ParamRescan(t, f)]);
      ValuesOne(ParamRescan(t, f));
    }
  }

  /** The values of the client's view: polled so far, then waiting. */
  function Told(c: Center): seq<ParamEcho> {
    ValuesOf(c.polled) + ValuesOf(c.queue)
  }

  /** The step pushes a value onto a full queue, or clears the queue. */
  predicate Loses(c: Center, op: Op) {
    |c.queue| >= 2048 && (op.Arrive? || Overflows(c.queue, op))
  }

  lemma StepTold(c: Center, op: Op)
    ensures Told(Apply(c, op)) == Told(c) + (if op.Arrive? && !Full(c.queue) then [op.e] else []) ||
            (Loses(c, op) && Told(Apply(c, op)) == ValuesOf(c.polled))
  {
    match op
    case Rescan(t, f) => RescanValues(c.queue, t, f); hide ValuesOf, WithRescan;
    case Closed(t) =>
      ValuesAppend(c.queue, [GuiClosed(t)]);
      ValuesOne(GuiClosed(t));
      hide ValuesOf;
    case Arrive(e) =>
      RescanValues(c.queue, TargetOf(e), MR_RESCAN_VALUES);
      ValuesAppend(c.queue, [ParamValue(e)]);
      ValuesOne(ParamValue(e));
      hide ValuesOf, WithRescan;
    case Take => if c.queue != [] { TakeTold(c); }
  }

  lemma TakeTold(c: Center)
    requires c.queue != []
    ensures Told(Apply(c, Take)) == Told(c)
  {
    ValuesAppend(c.polled, [c.queue[0]]);
    ValuesAppend([c.queue[0]], c.queue[1..]);
    assert c.queue == [c.queue[0]] + c.queue[1..];
    hide ValuesOf;
  }

  /** In every run, overflow or not, the echoed values that leave poll do so in the order in which
      they were pushed, each at most once. */
  lemma {:induction false} ValuesLeaveInOrder(run: seq<Op>)
    ensures Subsequence(Told(Outcome(run)), Pushed(run))
    ensures Subsequence(ValuesOf(Outcome(run).polled), Pushed(run))
  {
    if run == [] {
      assert Told(Outcome(run)) == [];
    } else {
      var front, op := run[..|run| - 1], run[|run| - 1];
      ValuesLeaveInOrder(front);
      var tail := if op.Arrive? then [op.e] else [];
      StepTold(Outcome(front), op);
      ToldGrows(Told(Outcome(front)), Pushed(front), if Full(Outcome(front).queue) then [] else tail, tail);
      ToldGrows(ValuesOf(Outcome(front).polled), Pushed(front), [], tail);
      hide ValuesOf, Apply, Subsequence, Told;
      assert ValuesOf(Outcome(front).polled) + [] == ValuesOf(Outcome(front).polled);
    }
    SubsequencePrefix(ValuesOf(Outcome(run).polled), ValuesOf(Outcome(run).queue), Pushed(run));
  }

  lemma ToldGrows(told: seq<ParamEcho>, pushed: seq<ParamEcho>, kept: seq<ParamEcho>, tail: seq<ParamEcho>)
    requires Subsequence(told, pushed) && |tail| <= 1 && (kept == [] || kept == tail)
    ensures Subsequence(told + kept, pushed + tail)
  {
    if tail == [] {
      assert told + kept == told && pushed + tail == pushed;
    } else {
      SubsequenceSnoc(told, pushed, tail[0]);
      assert tail == [tail[0]];
      assert told + [] == told;
    }
    hide Subsequence;
  }

  lemma NotFullKept(c: Center, op: Op)
    requires !Loses(c, op)
    ensures op.Arrive? ==> !Full(c.queue)
  {
  }

  /** As long as no push or request found the queue full, no value is missing: what has been polled
      followed by what waits is exactly what was pushed. */
  lemma {:induction false} NoValueMissing(run: seq<Op>)
    requires forall i :: 0 <= i < |run| ==> !LosesAt(run, i)
    ensures Told(Outcome(run)) == Pushed(run)
    ensures ValuesOf(Outcome(run).polled) <= Pushed(run)
  {
    if run != [] {
      var front, op := run[..|run| - 1], run[|run| - 1];
      hide ValuesOf, Apply, Loses, Outcome;
      forall i | 0 <= i < |front| ensures !LosesAt(front, i) {
        assert front[..i] == run[..i];
        assert !LosesAt(run, i);
      }
      NoValueMissing(front);
      assert !LosesAt(run, |front|);
      OutcomeSnoc(front, op);
      assert front + [op] == run;
      StepTold(Outcome(front), op);
      NotFullKept(Outcome(front), op);
    }
  }

  predicate LosesAt(run: seq<Op>, i: nat)
    requires i < |run|
  {
    Loses(Outcome(run[..i]), run[i])
  }

  // ---------------------------------------------------------------- the class

  class NotificationCenter {
    var graph: AudioGraphs.AudioGraph?
    var queue: seq<Notification>
    const echo: ParamEchoRing
    ghost var run: seq<Op>
    ghost var polled: seq<Notification>

    /** The queue is what the operations so far have made of it. */
    ghost predicate Valid()
      reads this, echo, echo.slots
    {
      echo.Valid() && Outcome(run) == Center(queue, polled)
    }

    constructor ()
      ensures Valid() && queue == [] && run == [] && graph == null && echo.Contents() == []
      ensures fresh(echo) && fresh(echo.slots)
    {
      graph, queue, run, polled := null, [], [], [];
      echo := new ParamEchoRing();
    }

    method Bind(g: AudioGraphs.AudioGraph)
      modifies this`graph
      ensures graph == g
    {
      graph := g;
    }

    /** The loop of enqueue_rescan: the first rescan queued for the target. */
    method FindRescan(t: Target) returns (k: nat)
      ensures k == RescanIndex(queue, t)
    {
      k := 0;
      while k < |queue|
        invariant 0 <= k <= |queue|
        invariant forall j :: 0 <= j < k ==> !IsRescanFor(queue[j], t)
      {
        if queue[k].ParamRescan? && queue[k].target == t {
          return;
        }
        k := k + 1;
      }
    }

    method EnqueueRescan(t: Target, flags: bv32)
      requires Valid()
      modifies this`queue, this`run
      ensures Valid() && run == old(run) + [Rescan(t, flags)]
      ensures queue == WithRescan(old(queue), t, flags)
    {
      hide Outcome, ParamEchoRing.Valid;
      OutcomeSnoc(run, Rescan(t, flags));
      run := run + [Rescan(t, flags)];
      var k := FindRescan(t);
      hide RescanIndex;
      if k < |queue| {
        queue := queue[k := ParamRescan(t, OrFlags(queue[k].flags, flags))];
        return;
      }
      var n := ParamRescan(t, flags);
      if |queue| >= MAX_NOTIFICATIONS {
        n := n.(flags := MR_RESCAN_ALL);
        queue := [];
      }
      queue := queue + [n];
    }

    /** A rescan asked for by a plugin; ignored when the plugin is in no track. */
    method OnRescan(node: Graph.NodeId, flags: bv32)
      requires Valid()
      modifies this`queue, this`run
      ensures Valid()
      ensures var place := if graph == null then None else Graph.Location(graph.model, node);
        if place.None? then queue == old(queue) && run == old(run)
        else var t := Target(place.value.0, place.value.1);
          queue == WithRescan(old(queue), t, flags) && run == old(run) + [Rescan(t, flags)]
    {
      hide Outcome, ParamEchoRing.Valid, WithRescan;
      if graph != null {
        var place := graph.LocateNode(node);
        if place.Some? {
          EnqueueRescan(Target(place.value.0, place.value.1), flags);
        }
      }
    }

    method NoteStateLoaded(t: Target)
      requires Valid()
      modifies this`queue, this`run
      ensures Valid() && queue == WithRescan(old(queue), t, MR_RESCAN_ALL) && run == old(run) + [Rescan(t, MR_RESCAN_ALL)]
    {
      EnqueueRescan(t, MR_RESCAN_ALL);
    }

    /** A closed editor window; dropped without trace when the queue is full. */
    method OnGuiClosed(node: Graph.NodeId)
      requires Valid()
      modifies this`queue, this`run
      ensures Valid()
      ensures var place := if graph == null then None else Graph.Location(graph.model, node);
        if place.None? then queue == old(queue) && run == old(run)
        else var t := Target(place.value.0, place.value.1);
          run == old(run) + [Closed(t)] && queue == if Full(old(queue)) then old(queue) else old(queue) + [GuiClosed(t)]
    {
      hide Outcome, ParamEchoRing.Valid;
      if graph == null {
        return;
      }
      var place := graph.LocateNode(node);
      if place.None? {
        return;
      }
      var t := Target(place.value.0, place.value.1);
      OutcomeSnoc(run, Closed(t));
      run := run + [Closed(t)];
      if |queue| < MAX_NOTIFICATIONS {
        queue := queue + [GuiClosed(t)];
      }
    }

    method PushParamValue(e: ParamEcho)
      requires Valid()
      modifies this`queue, this`run
      ensures Valid() && run == old(run) + [Arrive(e)]
      ensures queue == WithValue(old(queue), e)
    {
      hide Outcome, ParamEchoRing.Valid, WithRescan;
      OutcomeSnoc(run, Arrive(e));
      if |queue| >= MAX_NOTIFICATIONS {
        ghost var was := run;
        EnqueueRescan(TargetOf(e), MR_RESCAN_VALUES);
        run := was + [Arrive(e)];
        return;
      }
      run := run + [Arrive(e)];
      queue := queue + [ParamValue(e)];
    }

    /** Moves every echo from the ring into the queue, then takes the oldest notification. */
    method Poll() returns (out: Option<Notification>)
      requires Valid()
      modifies this`queue, this`run, this`polled, echo
      ensures Valid() && echo.Contents() == []
      ensures var q := WithValues(old(queue), old(echo.Contents()));
        if q == [] then out == None && queue == [] && polled == old(polled)
        else out == Some(q[0]) && queue == q[1..] && polled == old(polled) + [q[0]]
    {
      hide Outcome, ParamEchoRing.Valid, ParamEchoRing.Contents, WithValue;
      ghost var es, k, q0 := echo.Contents(), 0, queue;
      assert es[..0] == [] && es[0..] == es;
      while true
        invariant Valid() && polled == old(polled)
        invariant 0 <= k <= |es| && echo.Contents() == es[k..]
        invariant queue == WithValues(q0, es[..k])
        decreases |es| - k
      {
        var e := echo.Pop();
        if e.None? {
          break;
        }
        assert es[..k + 1][..k] == es[..k] && es[k..][1..] == es[k + 1..];
        PushParamValue(e.value);
        k := k + 1;
      }
      assert es[..k] == es;
      OutcomeSnoc(run, Take);
      run := run + [Take];
      if queue == [] {
        return None;
      }
      out := Some(queue[0]);
      polled := polled + [queue[0]];
      queue := queue[1..];
    }
  }
}
