/** Where the swaps in flight are, whatever the interleaving: the part of the invariant that
    concerns pointers and program counters alone. */
module SwapOrder {
  import opened Config
  import opened SwapProtocol

  ghost predicate Reclaiming(z: Slots) {
    z.ctl.pc.Destroying? || z.ctl.pc.Freeing?
  }

  ghost predicate Queueing(z: Slots) {
    z.ctl.pc.Spinning? || z.ctl.pc.Posting?
  }

  ghost predicate TakenUp(z: Slots) {
    z.aud.pc.Starting? || z.aud.pc.Flipping?
  }

  ghost function One(b: bool): nat {
    if b then 1 else 0
  }

  /** The oldest graph whose nodes all still exist. */
  ghost function First(z: Slots): int {
    z.box.active - Count(z.aud.retire) - Count(z.box.toControl)
  }

  /** The oldest graph not yet freed. */
  ghost function Oldest(z: Slots): int {
    First(z) - One(Reclaiming(z))
  }

  /** The number of swaps between being drawn up and being deleted. */
  ghost function InFlight(z: Slots): nat {
    One(Reclaiming(z)) + Count(z.box.toControl) + Count(z.aud.retire) + One(TakenUp(z)) + Count(z.box.pending)
          + One(Queueing(z))
  }

  ghost predicate Applied(w: Swap, id: GraphId) {
    w.newGraph == id && id >= 1 && w.oldGraph == Some(id - 1)
  }

  ghost predicate Unapplied(w: Swap, id: GraphId) {
    w.newGraph == id && id >= 1 && w.oldGraph == None
  }

  /** Swaps in flight carry consecutive graph numbers, in commit order: first the one being
      reclaimed, then to_control_, retire_, the one being applied, pending_swap_ and the one being
      queued. A swap has its old graph, the one numbered just before it, once it is applied. */
  ghost predicate Order(z: Slots) {
    && 0 <= Oldest(z)
    && z.ctl.lastSnapshot == z.ctl.made - 1 - One(Queueing(z))
    && z.box.active == z.ctl.lastSnapshot - Count(z.box.pending) - One(TakenUp(z))
    && (Reclaiming(z) ==> Applied(z.ctl.pc.r, First(z)))
    && (z.box.toControl.Some? ==> Applied(z.box.toControl.value, First(z) + 1))
    && (z.aud.retire.Some? ==> Applied(z.aud.retire.value, z.box.active))
    && (TakenUp(z) ==> Unapplied(z.aud.pc.s, z.box.active + 1) && z.aud.retire.None?)
    && (z.box.pending.Some? ==> Unapplied(z.box.pending.value, z.ctl.lastSnapshot))
    && (Queueing(z) ==> Unapplied(z.ctl.pc.s, z.ctl.made - 1))
  }

  /** At most three swaps are in flight, and at most two when a new one is about to be made. */
  ghost predicate Bounds(z: Slots) {
    InFlight(z) <= if z.ctl.pc.Building? then 2 else 3
  }

  /** What the program counters remember about a mailbox stays true until they act on it. */
  ghost predicate Checks(z: Slots) {
    && (z.ctl.pc.Posting? ==> z.box.pending.None?)
    && (z.aud.pc.Stopping? ==> z.aud.retire.Some? && z.box.toControl.None? && z.aud.pc.i <= |z.aud.retire.value.stop|)
    && (z.aud.pc.HandingBack? ==> z.aud.retire.Some? && z.box.toControl.None?)
    && (z.aud.pc.Taking? ==> z.aud.retire.None?)
    && (z.aud.pc.Starting? ==> z.aud.pc.i <= |z.aud.pc.s.start|)
    && (z.ctl.pc.Destroying? ==> z.ctl.pc.i <= |z.ctl.pc.r.stop|)
    && (z.aud.held.Some? ==>
          || z.aud.held.value == z.box.active
          || (z.aud.pc.Leaving? && z.aud.retire.Some? && z.aud.held.value == z.box.active - 1))
  }

  ghost predicate Core(z: Slots) {
    Order(z) && Bounds(z) && Checks(z)
  }

  lemma CoreCalled(z: Slots, c: Cont)
    requires Core(z) && z.ctl.pc.Idle?
    ensures Core(z.ControlAt(Exchanging(c))) && First(z.ControlAt(Exchanging(c))) == First(z)
  {
  }

  // ---------------------------------------------------------------- control steps

  lemma CoreExchanging(z: Slots, start: seq<int>, stop: seq<int>)
    requires Core(z) && z.ctl.pc.Exchanging?
    ensures Core(ControlSlots(z, start, stop))
  {
  }

  lemma CoreDestroying(z: Slots, start: seq<int>, stop: seq<int>)
    requires Core(z) && z.ctl.pc.Destroying?
    ensures Core(ControlSlots(z, start, stop))
  {
  }

  lemma CoreFreeing(z: Slots, start: seq<int>, stop: seq<int>)
    requires Core(z) && z.ctl.pc.Freeing?
    ensures Core(ControlSlots(z, start, stop))
  {
  }

  lemma CoreBuilding(z: Slots, start: seq<int>, stop: seq<int>)
    requires Core(z) && z.ctl.pc.Building?
    ensures Core(ControlSlots(z, start, stop))
  {
  }

  lemma CoreSpinning(z: Slots, start: seq<int>, stop: seq<int>)
    requires Core(z) && z.ctl.pc.Spinning?
    ensures Core(ControlSlots(z, start, stop))
  {
  }

  lemma CorePosting(z: Slots, start: seq<int>, stop: seq<int>)
    requires Core(z) && z.ctl.pc.Posting?
    ensures Core(ControlSlots(z, start, stop))
  {
  }

  lemma CoreControl(z: Slots, start: seq<int>, stop: seq<int>)
    requires Core(z)
    ensures Core(ControlSlots(z, start, stop))
  {
    match z.ctl.pc
    case Idle =>
    case Exchanging(_) => CoreExchanging(z, start, stop);
    case Destroying(_, _, _) => CoreDestroying(z, start, stop);
    case Freeing(_, _) => CoreFreeing(z, start, stop);
    case Building => CoreBuilding(z, start, stop);
    case Spinning(_) => CoreSpinning(z, start, stop);
    case Posting(_) => CorePosting(z, start, stop);
  }

  // ---------------------------------------------------------------- audio steps

  ghost predicate AudioKeeps(z: Slots) {
    Core(AudioSlots(z)) && First(AudioSlots(z)) == First(z)
  }

  lemma CoreLooking(z: Slots)
    requires Core(z) && z.aud.pc.Entered?
    ensures AudioKeeps(z)
  {
  }

  lemma CoreStopping(z: Slots)
    requires Core(z) && z.aud.pc.Stopping?
    ensures AudioKeeps(z)
  {
  }

  lemma CoreHandingBack(z: Slots)
    requires Core(z) && z.aud.pc.HandingBack?
    ensures AudioKeeps(z)
  {
  }

  lemma CoreTaking(z: Slots)
    requires Core(z) && z.aud.pc.Taking?
    ensures AudioKeeps(z)
  {
    if z.box.pending.None? {
      assert AudioSlots(z) == z.AudioAt(Leaving);
    } else {
      assert AudioSlots(z) == z.(box := z.box.(pending := None)).AudioAt(Starting(z.box.pending.value, 0));
    }
  }

  lemma CoreStarting(z: Slots)
    requires Core(z) && z.aud.pc.Starting?
    ensures AudioKeeps(z)
  {
  }

  lemma CoreFlipping(z: Slots)
    requires Core(z) && z.aud.pc.Flipping?
    ensures AudioKeeps(z)
  {
  }

  lemma CoreLeaving(z: Slots)
    requires Core(z) && z.aud.pc.Leaving?
    ensures AudioKeeps(z)
  {
  }

  lemma CoreAudio(z: Slots)
    requires Core(z)
    ensures AudioKeeps(z)
  {
    match z.aud.pc
    case Quiet =>
    case Entered => CoreLooking(z);
    case Stopping(_) => CoreStopping(z);
    case HandingBack => CoreHandingBack(z);
    case Taking => CoreTaking(z);
    case Starting(_, _) => CoreStarting(z);
    case Flipping(_) => CoreFlipping(z);
    case Leaving => CoreLeaving(z);
  }
}
