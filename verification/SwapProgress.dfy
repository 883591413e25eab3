/** The spin in queue_swap ends: one complete audio_apply begun after commit_edit has reclaimed is
    enough. */
module SwapProgress {
  import opened Config
  import opened SwapProtocol
  import opened SwapOrder
  import opened SwapInvariant
  import opened SwapTheorems

  /** The control thread is waiting for pending_swap_ to become empty. */
  predicate Waits(z: Slots) {
    z.ctl.pc.Spinning? && z.box.pending.Some?
  }

  predicate AudioMoves(step: Step) {
    step.Enter? || step.Turn?
  }

  /** The audio steps from the start of audio_apply to the exchange of pending_swap_, inclusive. */
  function ApplyCost(retire: Option<Swap>): nat {
    if retire.None? then 2 else |retire.value.stop| + 4
  }

  /** An upper bound on the audio steps until pending_swap_ is taken. */
  function SpinRank(z: Slots): nat {
    match z.aud.pc
    case Quiet => 1 + ApplyCost(z.aud.retire)
    case Entered => ApplyCost(z.aud.retire)
    case Stopping(i) =>
      if z.aud.retire.Some? && i <= |z.aud.retire.value.stop| then |z.aud.retire.value.stop| - i + 3 else 3
    case HandingBack => 2
    case Taking => 1
    case Starting(w, i) => (if i <= |w.start| then |w.start| - i else 0) + |w.stop| + 8
    case Flipping(w) => |w.stop| + 7
    case Leaving => 2 + ApplyCost(z.aud.retire)
  }

  /** commit_edit has exchanged to_control_ and has not yet stored its swap. */
  predicate Committing(z: Slots) {
    match z.ctl.pc
    case Destroying(_, _, c) => c.ToBuild?
    case Freeing(_, c) => c.ToBuild?
    case Building => true
    case Spinning(_) => true
    case Posting(_) => true
    case _ => false
  }

  /** From the exchange of to_control_ to the store of pending_swap_: as long as pending_swap_ is full,
      to_control_ and retire_ are not both full. */
  lemma RoomToHandBack(z: Slots)
    requires Core(z) && Committing(z) && z.box.pending.Some?
    ensures z.box.toControl.None? || z.aud.retire.None?
    ensures TakenUp(z) ==> z.box.toControl.None?
  {
  }

  /** Every audio step either empties pending_swap_ or comes one step closer to it; no control step
      moves away from it. */
  lemma SpinProgress(s: State, step: Step)
    requires Inv(s) && Waits(s.slots) && Enabled(s, step)
    ensures var z' := Next(s, step).slots;
      if AudioMoves(step) then z'.box.pending.None? || (Waits(z') && SpinRank(z') < SpinRank(s.slots))
      else z' == s.slots
  {
    InvCore(s);
    hide Inv, Touch, StartList, StopList, Readable, BeginEdit, SpinRank, Core;
    match step
    case Turn(_) => TurnProgress(s.slots);
    case Enter => EnterProgress(s.slots);
    case Proceed =>
      TouchFrame(s, ControlAccess(s.slots));
    case _ =>
  }

  lemma EnterProgress(z: Slots)
    requires Waits(z) && z.aud.pc.Quiet?
    ensures Waits(z.AudioAt(Entered)) && SpinRank(z.AudioAt(Entered)) < SpinRank(z)
  {
  }

  lemma TurnProgress(z: Slots)
    requires Core(z) && Waits(z) && !z.aud.pc.Quiet?
    ensures var z' := AudioSlots(z); z'.box.pending.None? || (Waits(z') && SpinRank(z') < SpinRank(z))
  {
    RoomToHandBack(z);
    hide Order, Bounds;
    match z.aud.pc
    case Entered =>
    case Stopping(_) =>
    case HandingBack =>
    case Taking =>
    case Starting(_, _) =>
    case Flipping(_) =>
    case Leaving =>
  }

  ghost function AudioSteps(run: seq<Step>): nat {
    if run == [] then 0
    else AudioSteps(run[..|run| - 1]) + One(AudioMoves(run[|run| - 1]))
  }

  /** In any run from a spinning state, the control thread is still waiting only if the audio thread
      has taken fewer steps than a bound fixed at the start: queue_swap cannot wait for ever while
      the audio thread keeps stepping. */
  lemma {:induction false} SpinEnds(s: State, run: seq<Step>)
    requires Inv(s) && Waits(s.slots) && Legal(s, run)
    ensures (AudioSteps(run) + SpinRank(Exec(s, run).slots) <= SpinRank(s.slots) && Waits(Exec(s, run).slots))
         || exists k :: 0 <= k <= |run| && Legal(s, run[..k]) && Exec(s, run[..k]).slots.box.pending.None?
  {
    hide Inv, SpinRank, Waits, Next;
    if run != [] {
      var front := run[..|run| - 1];
      SpinEnds(s, front);
      LaterInv(s, front);
      if k :| 0 <= k <= |front| && Legal(s, front[..k]) && Exec(s, front[..k]).slots.box.pending.None? {
        assert run[..k] == front[..k];
      } else {
        SpinProgress(Exec(s, front), run[|run| - 1]);
        assert run[..|run|] == run;
      }
    }
  }

  // ---------------------------------------------------------------- one audio_apply

  /** Inside an audio_apply that began after the reclaim: as long as pending_swap_ is full, its
      exchange lies ahead. */
  ghost predicate ExchangeAhead(z: Slots) {
    z.box.pending.Some? ==> z.aud.pc.Entered? || z.aud.pc.Stopping? || z.aud.pc.HandingBack? || z.aud.pc.Taking?
  }

  lemma AheadAudio(z: Slots)
    requires Core(z) && Committing(z) && ExchangeAhead(z) && !z.aud.pc.Quiet?
    ensures ExchangeAhead(AudioSlots(z))
  {
    if z.box.pending.Some? {
      RoomToHandBack(z);
    }
  }

  lemma AheadControl(z: Slots, start: seq<int>, stop: seq<int>)
    requires Committing(z) && ExchangeAhead(z) && Committing(ControlSlots(z, start, stop))
    ensures ExchangeAhead(ControlSlots(z, start, stop))
  {
  }

  lemma AheadStep(s: State, step: Step)
    requires Inv(s) && Committing(s.slots) && Enabled(s, step) && Committing(Next(s, step).slots)
    requires ExchangeAhead(s.slots) && !s.slots.aud.pc.Quiet?
    ensures ExchangeAhead(Next(s, step).slots)
  {
    InvCore(s);
    hide Inv, Touch, StartList, StopList, Readable, BeginEdit, Core, ExchangeAhead;
    match step
    case Turn(accepts) =>
      TouchFrame(s, AudioAccess(s.slots, accepts));
      AheadAudio(s.slots);
    case Proceed =>
      TouchFrame(s, ControlAccess(s.slots));
      AheadControl(s.slots, StartList(s), StopList(s));
    case _ =>
  }

  /** The run begins with a call of audio_apply that has not returned before the run's last step; the
      control thread may take any steps in between. */
  ghost predicate WithinOneApply(s: State, run: seq<Step>)
    requires Legal(s, run)
  {
    && |run| >= 1 && run[0].Enter?
    && forall k :: 1 <= k < |run| ==> Legal(s, run[..k]) && !Exec(s, run[..k]).slots.aud.pc.Quiet?
  }

  ghost predicate CommittingAt(s: State, run: seq<Step>, k: int) {
    0 <= k <= |run| && Legal(s, run[..k]) && Committing(Exec(s, run[..k]).slots)
  }

  ghost predicate EmptyAt(s: State, run: seq<Step>, k: int) {
    0 <= k <= |run| && Legal(s, run[..k]) && Exec(s, run[..k]).slots.box.pending.None?
  }

  /** One complete audio_apply, begun at any point after commit_edit has reclaimed and interleaved with
      it in any way, leaves pending_swap_ empty when it returns, if the swap has not been stored yet. */
  lemma {:induction false} OneApplyAfterReclaim(s: State, run: seq<Step>)
    requires Inv(s) && s.slots.aud.pc.Quiet? && Legal(s, run) && WithinOneApply(s, run)
    requires forall k :: 0 <= k <= |run| ==> CommittingAt(s, run, k)
    ensures ExchangeAhead(Exec(s, run).slots)
    ensures Exec(s, run).slots.aud.pc.Quiet? ==> Exec(s, run).slots.box.pending.None?
  {
    var front, last := run[..|run| - 1], run[|run| - 1];
    assert run[..|run|] == run;
    assert CommittingAt(s, run, |run|) && CommittingAt(s, run, |run| - 1);
    if |run| == 1 {
      assert front == [];
      assert Exec(s, run) == Next(s, Enter);
    } else {
      assert forall k :: 0 <= k <= |front| ==> front[..k] == run[..k];
      forall k | 0 <= k <= |front| ensures CommittingAt(s, front, k) {
        assert CommittingAt(s, run, k);
      }
      OneApplyAfterReclaim(s, front);
      LaterInv(s, front);
      hide Inv, ExchangeAhead, Committing;
      AheadStep(Exec(s, front), last);
    }
    hide Inv, Committing, Next;
  }

  /** Whatever the control thread does meanwhile, such an audio_apply does not return without
      pending_swap_ having been empty at some point: the wait in queue_swap can end. */
  lemma {:induction false} OneApplyEndsTheWait(s: State, run: seq<Step>)
    requires Inv(s) && s.slots.aud.pc.Quiet? && Legal(s, run) && WithinOneApply(s, run)
    requires Committing(s.slots) && Exec(s, run).slots.aud.pc.Quiet?
    ensures exists k :: EmptyAt(s, run, k)
  {
    hide Inv, Committing, WithinOneApply, Exec, Legal;
    CommitsOrEmpties(s, run, |run|);
    if k :| EmptyAt(s, run, k) {
    } else {
      OneApplyAfterReclaim(s, run);
      assert run[..|run|] == run;
      assert EmptyAt(s, run, |run|);
    }
  }

  /** commit_edit is left only through a state in which pending_swap_ is empty. */
  lemma {:induction false} CommitsOrEmpties(s: State, run: seq<Step>, n: nat)
    requires Inv(s) && Committing(s.slots) && Legal(s, run) && n <= |run|
    ensures (forall k :: 0 <= k <= n ==> CommittingAt(s, run, k)) || exists k :: EmptyAt(s, run, k)
    decreases n
  {
    hide Inv, Committing, Next, Enabled;
    LegalPrefix(s, run, n);
    if n == 0 {
      assert run[..0] == [];
      assert CommittingAt(s, run, 0);
    } else {
      CommitsOrEmpties(s, run, n - 1);
      if !(exists k :: EmptyAt(s, run, k)) {
        assert CommittingAt(s, run, n - 1) && !EmptyAt(s, run, n - 1);
        assert run[..n][..n - 1] == run[..n - 1];
        LegalPrefix(s, run, n - 1);
        LaterInv(s, run[..n - 1]);
        CommitLeftEmpty(Exec(s, run[..n - 1]), run[n - 1]);
        assert CommittingAt(s, run, n);
      }
    }
  }

  lemma {:induction false} LegalPrefix(s: State, run: seq<Step>, n: nat)
    requires Legal(s, run) && n <= |run|
    ensures Legal(s, run[..n])
    ensures n > 0 ==> Enabled(Exec(s, run[..n][..n - 1]), run[n - 1])
    decreases |run|
  {
    if n == |run| {
      assert run[..n] == run;
    } else {
      assert run[..|run| - 1][..n] == run[..n];
      LegalPrefix(s, run[..|run| - 1], n);
    }
  }

  lemma CommitLeftEmpty(s: State, step: Step)
    requires Inv(s) && Committing(s.slots) && s.slots.box.pending.Some? && Enabled(s, step)
    ensures Committing(Next(s, step).slots)
  {
    InvCore(s);
    hide Inv, Touch, StartList, StopList, Readable, BeginEdit, Core, Committing;
    match step
    case Turn(accepts) => TouchFrame(s, AudioAccess(s.slots, accepts)); CommitUnconcerned(s.slots);
    case Proceed => TouchFrame(s, ControlAccess(s.slots)); CommitGoesOn(s.slots, StartList(s), StopList(s));
    case Enter => EnterUnconcerned(s.slots);
    case _ => IdleNotCommitting(s.slots);
  }

  lemma CommitGoesOn(z: Slots, start: seq<int>, stop: seq<int>)
    requires Core(z) && Committing(z) && z.box.pending.Some?
    ensures Committing(ControlSlots(z, start, stop))
  {
  }

  lemma CommitUnconcerned(z: Slots)
    requires Committing(z)
    ensures Committing(AudioSlots(z))
  {
  }

  lemma EnterUnconcerned(z: Slots)
    requires Committing(z)
    ensures Committing(z.AudioAt(Entered))
  {
  }

  lemma IdleNotCommitting(z: Slots)
    requires Committing(z)
    ensures !z.ctl.pc.Idle?
  {
  }

  /** In particular: a complete audio_apply begun while the control thread waits in queue_swap leaves
      pending_swap_ empty by the time it returns, or the loop has been left before. */
  lemma OneApplySuffices(s: State, run: seq<Step>, w: Swap)
    requires Inv(s) && s.slots.ctl.pc == Spinning(w) && s.slots.aud.pc.Quiet?
    requires Legal(s, run) && WithinOneApply(s, run)
    requires forall k :: 1 <= k <= |run| ==> Legal(s, run[..k]) && Exec(s, run[..k]).slots.ctl.pc == Spinning(w)
    ensures Exec(s, run).slots.aud.pc.Quiet? ==> Exec(s, run).slots.box.pending.None?
  {
    hide Inv, WithinOneApply;
    forall k | 0 <= k <= |run| ensures CommittingAt(s, run, k) {
      if k == 0 { assert run[..0] == []; }
    }
    OneApplyAfterReclaim(s, run);
  }
}
