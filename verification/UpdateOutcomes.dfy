/**
 What whole runs of the update protocol guarantee: exactly when the slots agree and the last
 good image stays unwritten throughout, how every push ends, and for each hypothesis of a good
 run a run without it that breaks the guarantee.
 */
module UpdateOutcomes {
  import opened Prelude
  import opened UpdateProtocol

  // ------------------------------------------------------------------
  // Agreement of slots
  // ------------------------------------------------------------------

  lemma {:induction false} SafeRunKeepsInv(n: Node, es: seq<Event>)
    requires Inv(n) && SafeRun(n, es)
    ensures Inv(Run(n, es))
    decreases |es|
  {
    if es != [] {
      StepSafety(n, es[0]);
      SafeRunKeepsInv(Step(n, es[0]), es[1..]);
    }
  }

  /** From a fresh install: settled means all three slots agree; tentative means the last good slot is the other one. */
  lemma SlotsAgree(n: Node, es: seq<Event>)
    requires Fresh(n) && SafeRun(n, es)
    ensures var m := Run(n, es);
      && (m.row.Some? && !m.InDoubt() ==>
            m.grub == m.row.value.lastGood && (m.power.Up? ==> m.power.booted == m.row.value.lastGood))
      && (m.Tentative() ==> m.row.value.lastGood == m.power.booted.Other())
  {
    SafeRunKeepsInv(n, es);
  }

  // ------------------------------------------------------------------
  // The last good image is never written
  // ------------------------------------------------------------------

  /** The slot whose image an event writes. */
  function Touched(n: Node, e: Event): Option<Slot> {
    if n.power.Up? && e.Write? then Some(n.power.booted.Other()) else None
  }

  lemma StepWritesOnlyTouched(n: Node, e: Event, s: Slot)
    requires Touched(n, e) != Some(s)
    ensures Step(n, e).ImageOf(s) == n.ImageOf(s)
  {
  }

  /** In a good state, the last good slot is written exactly by a write on a tentative boot. */
  lemma LastGoodTouchedIff(n: Node, e: Event)
    requires Inv(n) && n.row.Some?
    ensures Touched(n, e) == Some(n.row.value.lastGood) <==> e.Write? && n.Tentative()
  {
  }

  predicate TouchesLastGood(n: Node, e: Event) {
    n.row.Some? && Touched(n, e) == Some(n.row.value.lastGood)
  }

  /** No step writes the slot that is last good when the step is taken. */
  predicate NeverTouches(n: Node, es: seq<Event>)
    decreases |es|
  {
    es != [] ==> !TouchesLastGood(n, es[0]) && NeverTouches(Step(n, es[0]), es[1..])
  }

  predicate NoTentativeWrite(n: Node, es: seq<Event>)
    decreases |es|
  {
    es != [] ==> !(es[0].Write? && n.Tentative()) && NoTentativeWrite(Step(n, es[0]), es[1..])
  }

  /**
   A run keeps the slots in agreement and its last good slot unwritten, at every state, exactly
   when every step is safe and nothing is written on a tentative boot.
   */
  lemma {:induction false} GoodRunIff(n: Node, es: seq<Event>)
    requires Inv(n)
    ensures Always(n, es) && NeverTouches(n, es) <==> SafeRun(n, es) && NoTentativeWrite(n, es)
    decreases |es|
  {
    if es != [] {
      StepSafety(n, es[0]);
      if n.row.Some? {
        LastGoodTouchedIff(n, es[0]);
      }
      if Safe(n, es[0]) {
        GoodRunIff(Step(n, es[0]), es[1..]);
      }
    }
  }

  /** The step changes which slot is last good. */
  predicate Promotes(n: Node, m: Node) {
    m.row.Some? && (n.row.None? || m.row.value.lastGood != n.row.value.lastGood)
  }

  /** The image the final last good slot had when it became last good; `img` if it already was in `n`. */
  function PromotedImage(n: Node, img: Image, es: seq<Event>): Image
    decreases |es|
  {
    if es == [] then img
    else
      var m := Step(n, es[0]);
      PromotedImage(m, if Promotes(n, m) then m.ImageOf(m.row.value.lastGood) else img, es[1..])
  }

  /** No confirmation is accepted. */
  predicate NoCommit(n: Node, es: seq<Event>)
    decreases |es|
  {
    es != [] ==> !(es[0] == Confirm(true) && n.Tentative()) && NoCommit(Step(n, es[0]), es[1..])
  }

  predicate NoPush(es: seq<Event>) {
    forall i :: 0 <= i < |es| ==> !es[i].Activate?
  }

  /**
   In a good run the last good slot holds, byte for byte, what it held when it became last
   good, through any number of pushes, confirmations and rollbacks.
   */
  lemma {:induction false} LastGoodImageSurvives(n: Node, img: Image, es: seq<Event>)
    requires Inv(n) && SafeRun(n, es) && NoTentativeWrite(n, es)
    requires n.row.Some? ==> img == n.ImageOf(n.row.value.lastGood)
    ensures var m := Run(n, es);
      m.row.Some? ==> m.ImageOf(m.row.value.lastGood) == PromotedImage(n, img, es)
    decreases |es|
  {
    if es != [] {
      var m := Step(n, es[0]);
      StepSafety(n, es[0]);
      if n.row.Some? {
        LastGoodTouchedIff(n, es[0]);
        StepWritesOnlyTouched(n, es[0], n.row.value.lastGood);
      }
      LastGoodImageSurvives(m, if Promotes(n, m) then m.ImageOf(m.row.value.lastGood) else img, es[1..]);
    }
  }

  /** Until a confirmation is accepted that is one slot and one image: the rollback target cannot change. */
  lemma {:induction false} RollbackTargetSurvives(n: Node, es: seq<Event>)
    requires Inv(n) && n.row.Some? && SafeRun(n, es)
    requires NoTentativeWrite(n, es) && NoCommit(n, es)
    ensures var m := Run(n, es); var good := n.row.value.lastGood;
      m.row.Some? && m.row.value.lastGood == good && m.ImageOf(good) == n.ImageOf(good)
    decreases |es|
  {
    if es != [] {
      StepSafety(n, es[0]);
      LastGoodTouchedIff(n, es[0]);
      StepWritesOnlyTouched(n, es[0], n.row.value.lastGood);
      RollbackTargetSurvives(Step(n, es[0]), es[1..]);
    }
  }

  // ------------------------------------------------------------------
  // The two outcomes of a push
  // ------------------------------------------------------------------

  /** The same update is still awaiting confirmation, under the same deadline. */
  predicate SamePush(r: Row, q: Row) {
    q.pending == r.pending && q.deadline == r.deadline && q.lastGood == r.lastGood && q.version == r.version
  }

  /** Committed to `s`: nothing is pending, `s` is last good, running if anything is, and what every next boot runs. */
  predicate Settled(n: Node, s: Slot) {
    && n.row.Some? && !n.InDoubt() && n.row.value.lastGood == s && n.grub == s
    && (n.power.Up? ==> n.power.booted == s)
    && forall store, revert, reboot ::
         Step(n.(power := Down), Boot(None, store, revert, reboot)).power == Up(s, None, None)
  }

  /** With nothing pending and no new push, every boot lands on the last good slot, for ever. */
  lemma {:induction false} CommittedForGood(n: Node, es: seq<Event>)
    requires Inv(n) && n.row.Some? && !n.InDoubt()
    requires SafeRun(n, es) && NoPush(es)
    ensures Settled(Run(n, es), n.row.value.lastGood)
    ensures NoCommit(n, es)
    decreases |es|
  {
    if es != [] {
      StepSafety(n, es[0]);
      CommittedForGood(Step(n, es[0]), es[1..]);
    }
  }

  /**
   Until the next push, an update in doubt stays as it was pushed (its deadline is never
   moved), or is committed, or is rolled back; it is committed exactly when a confirmation of
   it was accepted.
   */
  lemma {:induction false} PushOutcome(n: Node, es: seq<Event>)
    requires Inv(n) && n.InDoubt() && SafeRun(n, es) && NoPush(es)
    ensures var m := Run(n, es); var r := n.row.value;
      && m.row.Some?
      && (SamePush(r, m.row.value) || Settled(m, r.pending.value) || Settled(m, r.lastGood))
      && (Settled(m, r.pending.value) <==> !NoCommit(n, es))
    decreases |es|
  {
    if es != [] {
      var n1 := Step(n, es[0]);
      StepSafety(n, es[0]);
      if n1.InDoubt() {
        PushOutcome(n1, es[1..]);
      } else {
        CommittedForGood(n1, es[1..]);
      }
    }
  }

  /** A push that lands stamps a deadline exactly 600 s ahead, and no later step moves it while the update waits. */
  lemma DeadlineNeverExtended(n: Node, version: string, es: seq<Event>)
    requires Inv(n) && n.power.Up? && n.row.Some? && n.power.booted == n.row.value.lastGood
    requires SafeRun(n, [Activate(true, version)] + es) && NoPush(es)
    ensures var m := Run(n, [Activate(true, version)] + es);
      m.InDoubt() ==>
        m.row.value.deadline == n.clock + 600 && m.row.value.pending == Some(n.power.booted.Other())
  {
    var all := [Activate(true, version)] + es;
    assert all[1..] == es;
    StepSafety(n, all[0]);
    PushOutcome(Step(n, all[0]), es);
  }

  lemma {:induction false} ClockNeverGoesBack(n: Node, es: seq<Event>)
    ensures Run(n, es).clock >= n.clock
    decreases |es|
  {
    if es != [] {
      ClockNeverGoesBack(Step(n, es[0]), es[1..]);
    }
  }

  /** Cut the power (if on) and boot along the GRUB default, with every call succeeding. */
  const POWER_CYCLE: seq<Event> := [PowerLoss, Boot(None, true, true, true)]

  lemma PowerCycleStep(n: Node)
    ensures Run(n, POWER_CYCLE) == Startup(n.(power := Down), n.grub, true, true, true)
  {
    var off := Step(n, PowerLoss);
    assert POWER_CYCLE[1..][1..] == [];
    assert Run(off, POWER_CYCLE[1..]) == Run(Step(off, POWER_CYCLE[1..][0]), []);
  }

  /** The node is back on the slot `good`, with nothing pending. */
  predicate BackOn(n: Node, good: Slot) {
    && n.power.Up? && n.power.booted == good && n.grub == good
    && n.row.Some? && n.row.value.pending == None && n.row.value.lastGood == good
  }

  /**
   Once an unconfirmed update's deadline has passed, then after any safe run whatever (power
   losses, failed store writes, failed reverts, failed reboots) two clean power cycles put
   the node back on the last good slot with nothing pending.
   */
  lemma ExpiredUpdateRollsBack(n: Node, es: seq<Event>)
    requires Inv(n) && n.InDoubt() && n.clock >= n.row.value.deadline
    requires SafeRun(n, es) && NoPush(es) && NoCommit(n, es)
    ensures BackOn(Run(Run(Run(n, es), POWER_CYCLE), POWER_CYCLE), n.row.value.lastGood)
  {
    var m := Run(n, es);
    SafeRunKeepsInv(n, es);
    PushOutcome(n, es);
    ClockNeverGoesBack(n, es);
    PowerCycleStep(m);
    PowerCycleStep(Run(m, POWER_CYCLE));
  }

  /** An armed timer does it without a power cut: its two halves and one boot complete the rollback. */
  lemma ArmedTimerRollsBack(n: Node)
    requires Inv(n) && n.power.Up? && n.power.timer.Some? && n.clock >= n.row.value.deadline
    ensures BackOn(Run(n, [TimerRead(true), TimerAct(true, true), Boot(None, true, true, true)]), n.row.value.lastGood)
  {
    var es := [TimerRead(true), TimerAct(true, true), Boot(None, true, true, true)];
    assert es[1..][1..][1..] == [];
    var n1 := Step(n, es[0]);
    var n2 := Step(n1, es[1]);
    assert Run(n, es) == Run(n2, es[1..][1..]);
  }

  /** A safe confirmation on a tentative boot, whatever came before it, commits the node to the pushed slot. */
  lemma ConfirmCommits(n: Node)
    requires Inv(n) && n.Tentative() && Safe(n, Confirm(true))
    ensures var m := Step(n, Confirm(true));
      Inv(m) && Settled(m, n.row.value.pending.value) && m.power == n.power.(timer := None)
  {
    StepSafety(n, Confirm(true));
  }

  /** ... and from then on every boot lands there until another push. */
  lemma ConfirmedUpdateSticks(n: Node, es: seq<Event>)
    requires Inv(n) && n.Tentative() && Safe(n, Confirm(true))
    requires SafeRun(Step(n, Confirm(true)), es) && NoPush(es)
    ensures Settled(Run(Step(n, Confirm(true)), es), n.row.value.pending.value)
  {
    ConfirmCommits(n);
    CommittedForGood(Step(n, Confirm(true)), es);
  }

  // ------------------------------------------------------------------
  // Each hypothesis is needed
  // ------------------------------------------------------------------

  const BOOT := Boot(None, true, true, true)

  /** Install, push, reboot into the new slot: tentative on slot B, last good slot A. */
  const INTO_TENTATIVE: seq<Event> := [BOOT, Activate(true, "v1"), PowerLoss, BOOT]

  function TentativeB(n: Node): Node {
    n.(power := Up(SlotB, Some(n.clock + CONFIRM_WINDOW), None), grub := SlotB,
       row := Some(Row(SlotB, Some(SlotB), n.clock + CONFIRM_WINDOW, SlotA, "v1")))
  }

  lemma ReachesTentative(n: Node)
    requires Fresh(n) && n.clock >= 0
    ensures Run(n, INTO_TENTATIVE) == TentativeB(n)
    ensures SafeRun(n, INTO_TENTATIVE) && Inv(TentativeB(n))
  {
    var es := INTO_TENTATIVE;
    var n1 := Step(n, es[0]);
    var n2 := Step(n1, es[1]);
    var n3 := Step(n2, es[2]);
    var n4 := Step(n3, es[3]);
    assert es[1..][1..][1..][1..] == [];
    assert Run(n3, es[1..][1..][1..]) == Run(n4, []);
    assert Run(n2, es[1..][1..]) == n4;
    assert SafeRun(n3, es[1..][1..][1..]);
    assert SafeRun(n2, es[1..][1..]);
  }

  /**
   A push during a tentative boot overwrites the last good slot and leaves it pending with nothing
   to fall back to.
   */
  lemma TentativePushDestroysLastGood(n: Node, data: Bytes)
    requires Fresh(n) && n.clock >= 0
    ensures var t := Run(n, INTO_TENTATIVE);
      var m := Step(Step(t, Write(Rootfs, data)), Activate(true, "v2"));
      && m.row.Some? && m.row.value.lastGood == SlotA && m.imageA.rootfs == data
      && m.row.value.pending == Some(SlotA)
  {
    ReachesTentative(n);
  }

  /** A crash after the GRUB flip and before the row write boots the new slot with no rollback armed. */
  lemma CrashAfterFlipSkipsConfirmation(n: Node)
    requires Fresh(n)
    ensures var m := Step(Step(Step(Step(n, BOOT), Activate(false, "v1")), PowerLoss), BOOT);
      m.power == Up(SlotB, None, None) && !m.InDoubt() && m.row.value.lastGood == SlotA
  {
  }

  /** A confirmation between the two halves of the deadline handler is accepted and then undone by the revert. */
  lemma ConfirmDuringRollbackIsUndone(n: Node)
    requires Fresh(n) && n.clock >= 0
    ensures var t := Step(Step(Run(n, INTO_TENTATIVE), Advance(CONFIRM_WINDOW)), TimerRead(true));
      var c := Step(t, Confirm(true));
      var m := Step(Step(c, TimerAct(true, true)), BOOT);
      && c.row.Some? && !c.InDoubt() && c.row.value.lastGood == SlotB
      && m.power.Up? && m.row.Some? && m.power.booted == SlotA && m.row.value.lastGood == SlotB
  {
    ReachesTentative(n);
  }

  /** A confirmation after a revert whose reboot failed commits a slot GRUB will not boot. */
  lemma ConfirmAfterFailedRebootIsLost(n: Node)
    requires Fresh(n) && n.clock >= 0
    ensures var t := Step(Step(Run(n, INTO_TENTATIVE), Advance(CONFIRM_WINDOW)), TimerRead(true));
      var m := Step(Step(t, TimerAct(true, false)), Confirm(true));
      m.row.Some? && m.row.value.lastGood == SlotB && m.row.value.pending == None && m.grub == SlotA
  {
    ReachesTentative(n);
  }

  /** If the boot's row write failed, a confirmation records the old slot as last good. */
  lemma ConfirmOnStaleRowKeepsOldSlot(n: Node)
    requires Fresh(n) && n.clock >= 0
    ensures var d := Step(Step(Step(n, BOOT), Activate(true, "v1")), PowerLoss);
      var m := Step(Step(d, Boot(None, false, true, true)), Confirm(true));
      m.power.booted == SlotB && m.row.value.pending == None && m.row.value.lastGood == SlotA && m.grub == SlotB
  {
  }

  /** Choosing the good slot in the GRUB menu clears the pending update but leaves GRUB on the failed slot. */
  lemma MenuRecoveryLeavesGrubOnFailedSlot(n: Node)
    requires Fresh(n) && n.clock >= 0
    ensures var t := Step(Run(n, INTO_TENTATIVE), PowerLoss);
      var m := Step(t, Boot(Some(SlotA), true, true, true));
      m.power.Up? && m.power.booted == SlotA && !m.InDoubt() && m.grub == SlotB
  {
    ReachesTentative(n);
  }

  // ------------------------------------------------------------------
  // When a failing update is rolled back
  // ------------------------------------------------------------------

  /** The daemon starts, with its store, on a slot other than the pending one. */
  predicate Recovers(n: Node, e: Event) {
    && n.InDoubt() && n.power.Down? && e.Boot? && e.storeOk
    && Some(if e.choice.Some? then e.choice.value else n.grub) != n.row.value.pending
  }

  predicate Recovered(n: Node, es: seq<Event>)
    decreases |es|
  {
    es != [] && (Recovers(n, es[0]) || Recovered(Step(n, es[0]), es[1..]))
  }

  /**
   Over any safe run in which no confirmation is accepted, through timers, reverts, panics, power
   losses and failures: the node is back on its last good slot for good exactly when the daemon
   got to start there; until then the update is as pushed.
   */
  lemma {:induction false} RolledBackIff(n: Node, es: seq<Event>)
    requires Inv(n) && n.InDoubt() && SafeRun(n, es) && NoPush(es) && NoCommit(n, es)
    ensures var m := Run(n, es); var r := n.row.value;
      && (Settled(m, r.lastGood) <==> Recovered(n, es))
      && (m.row.Some? && SamePush(r, m.row.value) <==> !Recovered(n, es))
    decreases |es|
  {
    if es != [] {
      var n1 := Step(n, es[0]);
      StepSafety(n, es[0]);
      if n1.InDoubt() {
        RolledBackIff(n1, es[1..]);
      } else {
        CommittedForGood(n1, es[1..]);
      }
    }
  }

  /**
   An image that panics before the daemon starts is never rolled back: without a daemon nothing
   moves GRUB off the pushed slot, so no number of panics, and no deadline, leads back.
   */
  lemma PanickingImageIsNeverLeft(n: Node, es: seq<Event>)
    requires Inv(n) && n.InDoubt() && n.power.Down? && Some(n.grub) == n.row.value.pending
    requires forall i :: 0 <= i < |es| ==> es[i].Panic? || es[i].PowerLoss? || es[i].Advance?
    ensures var m := Run(n, es);
      && !Settled(m, n.row.value.lastGood) && m.row.Some? && SamePush(n.row.value, m.row.value)
      && m.grub == n.grub
  {
    PanicsAreQuiet(n, es);
    RolledBackIff(n, es);
  }

  lemma {:induction false} PanicsAreQuiet(n: Node, es: seq<Event>)
    requires n.power.Down?
    requires forall i :: 0 <= i < |es| ==> es[i].Panic? || es[i].PowerLoss? || es[i].Advance?
    ensures SafeRun(n, es) && NoPush(es) && NoCommit(n, es) && !Recovered(n, es)
    ensures Run(n, es) == n.(clock := Run(n, es).clock)
    decreases |es|
  {
    if es != [] {
      PanicsAreQuiet(Step(n, es[0]), es[1..]);
    }
  }

  // ------------------------------------------------------------------
  // Nothing happens before the deadline
  // ------------------------------------------------------------------

  /** No boot picks its slot in the menu. */
  predicate NoMenu(es: seq<Event>) {
    forall i :: 0 <= i < |es| && es[i].Boot? ==> es[i].choice == None
  }

  /** The update is as pushed, GRUB on it, with nothing moving to roll it back. */
  predicate Waiting(n: Node) {
    && n.InDoubt() && n.row.value.deadline != 0 && Some(n.grub) == n.row.value.pending
    && (n.power.Up? ==> n.power.inflight == None)
  }

  /**
   An update is never rolled back early: through boots, panics, timers, power losses and failures,
   a run that ends before the deadline leaves it as pushed, with GRUB still on it.
   */
  lemma {:induction false} NoRollbackBeforeDeadline(n: Node, es: seq<Event>)
    requires Inv(n) && Waiting(n) && NoPush(es) && NoCommit(n, es) && NoMenu(es)
    requires Run(n, es).clock < n.row.value.deadline
    ensures var m := Run(n, es); Inv(m) && Waiting(m) && SamePush(n.row.value, m.row.value) && m.grub == n.grub
    decreases |es|
  {
    if es != [] {
      var m := Step(n, es[0]);
      ClockNeverGoesBack(n, [es[0]]);
      ClockNeverGoesBack(m, es[1..]);
      assert !es[0].Activate? && (es[0].Boot? ==> es[0].choice == None);
      StepSafety(n, es[0]);
      NoRollbackBeforeDeadline(m, es[1..]);
    }
  }

  // ------------------------------------------------------------------
  // A disarmed timer
  // ------------------------------------------------------------------

  /** The confirmation fails to write its row, or the expired handler fails to read it. */
  predicate Disarms(n: Node, e: Event) {
    && n.Tentative() && n.power.inflight == None
    && (e == Confirm(false) || (e == TimerRead(false) && n.power.timer.Some? && n.clock >= n.power.timer.value))
  }

  /**
   After that the update stays pending with no timer: until power is lost or another push is made,
   no run leaves the tentative slot, however far past the deadline.
   */
  lemma DisarmedUpdateWaits(n: Node, e: Event, es: seq<Event>)
    requires Disarms(n, e)
    requires forall i :: 0 <= i < |es| ==> !es[i].PowerLoss? && !es[i].Activate?
    ensures Step(n, e).row == n.row
    ensures var m := Run(Step(n, e), es); m.power == Up(n.power.booted, None, None) && m.grub == n.grub
  {
    NoTimerNoRollback(Step(n, e), es);
  }

  lemma {:induction false} NoTimerNoRollback(n: Node, es: seq<Event>)
    requires n.power.Up? && n.power.timer == None && n.power.inflight == None
    requires forall i :: 0 <= i < |es| ==> !es[i].PowerLoss? && !es[i].Activate?
    ensures Run(n, es).power == n.power && Run(n, es).grub == n.grub
    decreases |es|
  {
    if es != [] {
      assert !es[0].PowerLoss? && !es[0].Activate?;
      NoTimerNoRollback(Step(n, es[0]), es[1..]);
    }
  }
}
