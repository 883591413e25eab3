/** Accounts over all runs: every node is owned once, and is started at most once. */
module SwapAccounts {
  import opened Config
  import opened Graph
  import opened TrackEdits
  import opened SwapProtocol
  import opened SwapOrder
  import opened SwapContents
  import opened SwapPhases
  import opened SwapInvariant
  import opened SwapTheorems

  // ---------------------------------------------------------------- conservation

  function StopsIn(slot: Option<Swap>): seq<NodeId> {
    if slot.Some? then slot.value.stop else []
  }

  function StopsTaken(z: Slots): seq<NodeId> {
    match z.aud.pc
    case Starting(w, _) => w.stop
    case Flipping(w) => w.stop
    case _ => []
  }

  /** The nodes on the stop lists of all swaps in flight between control operations. */
  function LeavingNodes(z: Slots): seq<NodeId> {
    StopsIn(z.box.toControl) + StopsIn(z.aud.retire) + StopsTaken(z) + StopsIn(z.box.pending)
  }

  ghost predicate Departs(h: seq<set<NodeId>>, k: int, x: NodeId) {
    1 <= k < |h| && x in h[k - 1] && x !in h[k]
  }

  /** The stop list is exactly what departs with swap k. */
  ghost predicate ListsDeparting(h: seq<set<NodeId>>, l: seq<NodeId>, k: int) {
    NoDup(l) && forall x :: x in l <==> Departs(h, k, x)
  }

  /** A node in some graph from `from` on is in the newest one or departs on the way to it. */
  lemma {:induction false} PresentOrDeparted(h: seq<set<NodeId>>, from: int, x: NodeId)
    requires 0 <= from < |h|
    ensures InSome(h, from, |h|, x) <==> x in h[|h| - 1] || exists k :: from < k && Departs(h, k, x)
    decreases |h| - from
  {
    if from < |h| - 1 {
      SplitFirst(h, from, |h|, x);
      PresentOrDeparted(h, from + 1, x);
      if x in h[from] && x !in h[from + 1] { assert Departs(h, from + 1, x); }
    }
  }

  lemma DepartsOnce(h: seq<set<NodeId>>, m: set<NodeId>, j: int, k: int, x: NodeId)
    requires GoesForGood(h, m) && Departs(h, j, x) && Departs(h, k, x)
    ensures j == k && x !in m
  {
  }

  lemma NotDeparted(h: seq<set<NodeId>>, m: set<NodeId>, x: NodeId)
    requires GoesForGood(h, m) && x in m
    ensures forall k :: !Departs(h, k, x)
  {
  }

  ghost predicate Apart(a: seq<NodeId>, b: seq<NodeId>) {
    forall x :: x in a ==> x !in b
  }

  lemma DepartApart(h: seq<set<NodeId>>, m: set<NodeId>, a: seq<NodeId>, j: int, b: seq<NodeId>, k: int)
    requires GoesForGood(h, m) && ListsDeparting(h, a, j) && ListsDeparting(h, b, k) && j != k
    ensures Apart(a, b)
  {
    forall x | x in a ensures x !in b {
      if x in b { DepartsOnce(h, m, j, k, x); }
    }
  }

  /** Swap numbers: each slot's stop list is what departs with its number; an empty slot departs nothing. */
  ghost predicate SlotDeparts(h: seq<set<NodeId>>, l: seq<NodeId>, full: bool, k: int) {
    if full then ListsDeparting(h, l, k) else l == []
  }

  lemma SlotsDepart(z: Slots, h: seq<set<NodeId>>)
    requires Core(z) && Lists(z, h)
    ensures SlotDeparts(h, StopsIn(z.box.toControl), z.box.toControl.Some?, First(z) + 1)
    ensures SlotDeparts(h, StopsIn(z.aud.retire), z.aud.retire.Some?, z.box.active)
    ensures SlotDeparts(h, StopsTaken(z), TakenUp(z), z.box.active + 1)
    ensures SlotDeparts(h, StopsIn(z.box.pending), z.box.pending.Some?, z.ctl.lastSnapshot)
  {
  }

  /** No node is on two stop lists in flight. */
  lemma LeavingNoDup(z: Slots, h: seq<set<NodeId>>, m: set<NodeId>)
    requires Core(z) && Lists(z, h) && GoesForGood(h, m) && z.ctl.pc.Idle? && |h| == z.ctl.made
    ensures NoDup(LeavingNodes(z))
  {
    var tc, rt, tk, pd := StopsIn(z.box.toControl), StopsIn(z.aud.retire), StopsTaken(z), StopsIn(z.box.pending);
    SlotsDepart(z, h);
    Numbers(z);
    hide Core, Lists, GoesForGood, Departs, StopsIn, StopsTaken;
    SlotsApart(h, m, tc, z.box.toControl.Some?, First(z) + 1, rt, z.aud.retire.Some?, z.box.active);
    SlotsApart(h, m, tc, z.box.toControl.Some?, First(z) + 1, tk, TakenUp(z), z.box.active + 1);
    SlotsApart(h, m, rt, z.aud.retire.Some?, z.box.active, tk, TakenUp(z), z.box.active + 1);
    SlotsApart(h, m, tc, z.box.toControl.Some?, First(z) + 1, pd, z.box.pending.Some?, z.ctl.lastSnapshot);
    SlotsApart(h, m, rt, z.aud.retire.Some?, z.box.active, pd, z.box.pending.Some?, z.ctl.lastSnapshot);
    SlotsApart(h, m, tk, TakenUp(z), z.box.active + 1, pd, z.box.pending.Some?, z.ctl.lastSnapshot);
    JoinFour(tc, rt, tk, pd);
  }

  /** Between control operations, a node departs on the way to the newest graph exactly when it is
      on the stop list of a swap in flight; no node is on two of the lists. */
  lemma LeavingIsDeparting(z: Slots, h: seq<set<NodeId>>, m: set<NodeId>)
    requires Core(z) && Lists(z, h) && GoesForGood(h, m) && z.ctl.pc.Idle? && |h| == z.ctl.made
    ensures NoDup(LeavingNodes(z))
    ensures forall x :: x in LeavingNodes(z) <==> exists k :: First(z) < k && Departs(h, k, x)
  {
    LeavingNoDup(z, h, m);
    hide *;
    forall x ensures x in LeavingNodes(z) <==> exists k :: First(z) < k && Departs(h, k, x) {
      NumbersCover(z, h, x);
    }
  }

  lemma SlotsApart(h: seq<set<NodeId>>, m: set<NodeId>, a: seq<NodeId>, fa: bool, j: int, b: seq<NodeId>, fb: bool, k: int)
    requires GoesForGood(h, m) && SlotDeparts(h, a, fa, j) && SlotDeparts(h, b, fb, k)
    requires fa && fb ==> j != k
    ensures NoDup(a) && NoDup(b) && Apart(a, b)
  {
    if fa && fb { DepartApart(h, m, a, j, b, k); }
  }

  lemma JoinFour(a: seq<NodeId>, b: seq<NodeId>, c: seq<NodeId>, d: seq<NodeId>)
    requires NoDup(a) && NoDup(b) && NoDup(c) && NoDup(d)
    requires Apart(a, b) && Apart(a, c) && Apart(b, c) && Apart(a, d) && Apart(b, d) && Apart(c, d)
    ensures NoDup(a + b + c + d)
    ensures forall x :: x in a + b + c + d <==> x in a || x in b || x in c || x in d
  {
    NoDupJoin(a, b);
    NoDupJoin(a + b, c);
    NoDupJoin(a + b + c, d);
  }

  ghost predicate IsInFlight(z: Slots, k: int) {
    || (z.box.toControl.Some? && k == First(z) + 1)
    || (z.aud.retire.Some? && k == z.box.active)
    || (TakenUp(z) && k == z.box.active + 1)
    || (z.box.pending.Some? && k == z.ctl.lastSnapshot)
  }

  /** The swap numbers in flight are those after the first needed graph, each in one slot. */
  lemma Numbers(z: Slots)
    requires Core(z) && z.ctl.pc.Idle?
    ensures z.box.toControl.Some? && z.aud.retire.Some? ==> First(z) + 1 != z.box.active
    ensures z.box.toControl.Some? ==> First(z) + 1 <= z.box.active
    ensures z.box.pending.Some? ==>
              z.ctl.lastSnapshot > z.box.active && (TakenUp(z) ==> z.ctl.lastSnapshot != z.box.active + 1)
    ensures forall k :: IsInFlight(z, k) <==> First(z) < k < z.ctl.made
  {
  }

  lemma DepartsWithin(h: seq<set<NodeId>>, k: int, x: NodeId)
    requires Departs(h, k, x)
    ensures k < |h|
  {
  }

  /** x departs in one of the slots in flight. */
  ghost predicate DepartsInSlot(z: Slots, h: seq<set<NodeId>>, x: NodeId) {
    || (z.box.toControl.Some? && Departs(h, First(z) + 1, x))
    || (z.aud.retire.Some? && Departs(h, z.box.active, x))
    || (TakenUp(z) && Departs(h, z.box.active + 1, x))
    || (z.box.pending.Some? && Departs(h, z.ctl.lastSnapshot, x))
  }

  lemma FlightDeparts(z: Slots, h: seq<set<NodeId>>, x: NodeId)
    requires |h| == z.ctl.made && forall k :: IsInFlight(z, k) <==> First(z) < k < z.ctl.made
    ensures DepartsInSlot(z, h, x) <==> exists k :: First(z) < k && Departs(h, k, x)
  {
    hide First, TakenUp, Departs;
    if DepartsInSlot(z, h, x) {
      var k :| IsInFlight(z, k) && Departs(h, k, x);
      assert First(z) < k;
    }
    if k :| First(z) < k && Departs(h, k, x) {
      DepartsWithin(h, k, x);
      assert IsInFlight(z, k);
    }
  }

  lemma NumbersCover(z: Slots, h: seq<set<NodeId>>, x: NodeId)
    requires Core(z) && Lists(z, h) && z.ctl.pc.Idle? && |h| == z.ctl.made
    ensures x in LeavingNodes(z) <==> exists k :: First(z) < k && Departs(h, k, x)
  {
    Numbers(z);
    SlotsDepart(z, h);
    FlightDeparts(z, h, x);
    hide Core, Lists, StopsIn, StopsTaken, First, TakenUp, Departs, IsInFlight, SlotDeparts, LeavingNodes;
    var a, b, c, d := StopsIn(z.box.toControl), StopsIn(z.aud.retire), StopsTaken(z), StopsIn(z.box.pending);
    SlotMember(h, a, z.box.toControl.Some?, First(z) + 1, x);
    SlotMember(h, b, z.aud.retire.Some?, z.box.active, x);
    SlotMember(h, c, TakenUp(z), z.box.active + 1, x);
    SlotMember(h, d, z.box.pending.Some?, z.ctl.lastSnapshot, x);
    LeavingMember(z, x);
  }

  lemma SlotMember(h: seq<set<NodeId>>, l: seq<NodeId>, full: bool, k: int, x: NodeId)
    requires SlotDeparts(h, l, full, k)
    ensures x in l <==> full && Departs(h, k, x)
  {
    hide Departs, NoDup;
  }

  lemma LeavingMember(z: Slots, x: NodeId)
    ensures x in LeavingNodes(z) <==>
      x in StopsIn(z.box.toControl) || x in StopsIn(z.aud.retire) || x in StopsTaken(z) || x in StopsIn(z.box.pending)
  {
    hide StopsIn, StopsTaken;
  }

  lemma {:induction false} SameMembers(a: seq<NodeId>, b: seq<NodeId>)
    requires NoDup(a) && NoDup(b) && forall x :: x in a <==> x in b
    ensures multiset(a) == multiset(b)
  {
    forall x ensures multiset(a)[x] == multiset(b)[x] {
      OccursOnce(a, x);
      OccursOnce(b, x);
    }
  }

  lemma {:induction false} OccursOnce(a: seq<NodeId>, x: NodeId)
    requires NoDup(a)
    ensures multiset(a)[x] == if x in a then 1 else 0
  {
    if a != [] {
      var front := a[..|a| - 1];
      OccursOnce(front, x);
      assert a == front + [a[|a| - 1]];
      assert a[|a| - 1] !in front;
    }
  }

  /** Between control operations, in every interleaving, the registry holds each node of the model
      and each node on a stop list in flight exactly once, and nothing else. */
  lemma Conservation(s: State)
    requires Reachable(s) && s.slots.ctl.pc.Idle?
    ensures multiset(s.registry) == multiset(AllNodes(s.model)) + multiset(LeavingNodes(s.slots))
    ensures NoDup(s.registry) && forall x :: x in s.nodes <==> x in s.registry
  {
    ReachableInv(s);
    var z, h, m := s.slots, s.history, ModelNodes(s);
    var all, gone := AllNodes(s.model), LeavingNodes(z);
    hide Core, Lists, LiveGraphs, GoesForGood, Phases, LeavingNodes, Snapshot, Departs;
    LeavingIsDeparting(z, h, m);
    forall x ensures x in s.registry <==> x in all || x in gone {
      RegistrySplit(s, x);
    }
    forall x | x in all ensures x !in gone {
      NotDeparted(h, m, x);
    }
    NoDupJoin(all, gone);
    SameMembers(s.registry, all + gone);
  }

  lemma RegistrySplit(s: State, x: NodeId)
    requires Inv(s) && s.slots.ctl.pc.Idle?
    ensures x in s.registry <==> x in AllNodes(s.model) || exists k :: First(s.slots) < k && Departs(s.history, k, x)
  {
    var z, h := s.slots, s.history;
    FirstInRange(z);
    RegistryIsNeeded(s, x);
    hide Inv, Departs, InSome, First;
    PresentOrDeparted(h, First(z), x);
  }

  /** Between control operations no node waits to be destroyed, and the last graph is the model's. */
  lemma RegistryIsNeeded(s: State, x: NodeId)
    requires Inv(s) && s.slots.ctl.pc.Idle?
    ensures |s.history| == s.slots.ctl.made > 0
    ensures x in s.history[|s.history| - 1] <==> x in AllNodes(s.model)
    ensures x in s.registry <==> x in AllNodes(s.model) || InSome(s.history, First(s.slots), |s.history|, x)
  {
    hide Core, Lists, LiveGraphs, ModelOk, Phases, Snapshot, InSome, First;
    assert Waiting(s.slots) == [];
    assert x in ModelNodes(s) <==> x in AllNodes(s.model);
  }

  lemma FirstInRange(z: Slots)
    requires Core(z)
    ensures 0 <= First(z) < z.ctl.made
  {
  }

  // ---------------------------------------------------------------- node lifecycle

  /** The number of calls of start_processing on a node during a run. */
  ghost function Starts(s: State, run: seq<Step>, n: NodeId): nat
    requires Legal(s, run)
  {
    if run == [] then 0
    else
      var front, last := run[..|run| - 1], run[|run| - 1];
      Starts(s, front, n) + One(IsStart(Exec(s, front), last, n))
  }

  ghost predicate IsStart(s: State, step: Step, n: NodeId) {
    step.Turn? && s.slots.aud.pc.Starting? && AudioAccess(s.slots, step.accepts) == Start(n, step.accepts)
  }

  /** Each call of start_processing is on a node that exists, is Activated and was never started. */
  lemma StartIsFirst(s: State, step: Step, n: NodeId)
    requires Inv(s) && IsStart(s, step, n)
    ensures n !in s.started && n in s.nodes && s.nodes[n] == Activated
  {
    var z := s.slots;
    StartExists(s, n);
    NeverStarted(z, s.history, ModelNodes(s), s.started, s.born);
    StatesAt(z, s.history, s.nodes, s.started, n);
  }

  lemma StartedGrows(s: State, step: Step, n: NodeId)
    requires Enabled(s, step)
    ensures s.started <= Next(s, step).started
    ensures IsStart(s, step, n) && n in s.nodes ==> n in Next(s, step).started
  {
    hide ControlSlots, AudioSlots, Snapshot, Without, StartList, StopList;
    if step.Edit? { EditFields(s, step.e); hide BeginEdit; }
  }

  /** A plugin is asked to start processing at most once in its life, whatever it answers. */
  lemma {:induction false} StartsAtMostOnce(run: seq<Step>, n: NodeId)
    requires Legal(Init(), run)
    ensures Starts(Init(), run, n) <= 1
    ensures Starts(Init(), run, n) == 1 ==> n in Exec(Init(), run).started
  {
    hide Inv, Init, Next, IsStart;
    if run != [] {
      var front, last := run[..|run| - 1], run[|run| - 1];
      StartsAtMostOnce(front, n);
      RunKeeps(front);
      if IsStart(Exec(Init(), front), last, n) { StartIsFirst(Exec(Init(), front), last, n); }
      StartedGrows(Exec(Init(), front), last, n);
    }
  }

  /** Whenever the audio thread is outside audio_apply, a node is processing only if it is in the
      active graph or waits on the stop list held in retire_. */
  lemma ProcessingWhere(s: State, n: NodeId)
    requires Reachable(s) && s.slots.aud.pc.Quiet?
    requires n in s.nodes && s.nodes[n] == Processing
    ensures s.slots.box.active in s.graphs
    ensures n in Nodes(s.graphs[s.slots.box.active]) || n in StopsIn(s.slots.aud.retire)
  {
    ReachableInv(s);
    hide Lists, LiveGraphs, ModelOk, Newest, Owned, Bounds, Checks, StartedOnce;
    GraphReadable(s, s.slots.box.active);
    assert n in NodeSet(s.graphs[s.slots.box.active]) ==> n in Nodes(s.graphs[s.slots.box.active]);
  }

  /** A node that gets destroyed is not processing, even if its plugin refused to start. */
  lemma DestroyedNotProcessing(s: State, n: NodeId)
    requires Reachable(s) && ControlAccess(s.slots) == Destroy(n)
    ensures n in s.nodes && s.nodes[n] != Processing
  {
    ReachableInv(s);
    OnlyGoneNodesDestroyed(s, Proceed, n);
    hide Core, Lists, LiveGraphs, ModelOk, Newest, Phases, Owners;
  }
}
