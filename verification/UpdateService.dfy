/**
 The update service itself: an object whose methods change the row, GRUB, the slots and
 the deadline timer in place. Each method is tied to the protocol step it performs.
 */
module UpdateServices {
  import opened Prelude
  import opened UpdateProtocol
  import opened UpdateBundle

  datatype ConfirmResult = Committed(slot: Slot, version: string) | NoRow | NoPending | SlotMismatch | RowWriteFailed

  datatype ReceiveResult = Received(result: Result) | NoActiveSlot

  class UpdateService {
    /** None in development mode, when the kernel command line names no slot. */
    const activeSlot: Option<Slot>

    // The store row, the boot partition and the slot partitions.
    var row: Option<Row>
    var grub: Slot
    var imageA: Image
    var imageB: Image

    // The process: its clock, its deadline timer, and whether it has rebooted.
    var clock: int
    var timer: Option<int>
    var inflight: Option<Slot>
    var halted: bool

    ghost function View(): Node
      requires activeSlot.Some?
      reads this
    {
      Node(if halted then Down else Up(activeSlot.value, timer, inflight), grub, row, imageA, imageB, clock)
    }

    /** A freshly started daemon on the machine `n`. */
    constructor (slot: Option<Slot>, n: Node)
      ensures activeSlot == slot && !halted && timer == None && inflight == None
      ensures slot.Some? ==> View() == n.(power := Up(slot.value, None, None))
    {
      activeSlot := slot;
      row, grub, imageA, imageB, clock := n.row, n.grub, n.imageA, n.imageB, n.clock;
      timer, inflight, halted := None, None, false;
    }

    method OnStartup(getOk: bool, putOk: bool, revertOk: bool, rebootOk: bool)
      requires !halted && timer == None && inflight == None
      modifies this
      ensures activeSlot.None? ==> unchanged(this)
      ensures activeSlot.Some? ==>
                View() == Startup(old(View()).(power := Down), activeSlot.value, getOk && putOk, revertOk, rebootOk)
    {
      if activeSlot.None? || !getOk {
        return;
      }
      var here := activeSlot.value;
      if row.None? {
        if putOk {
          row := Some(Row(here, None, 0, here, ""));
        }
        return;
      }
      var st := row.value.(active := here);
      if st.pending == None {
        if putOk {
          row := Some(st);
        }
      } else if st.pending != Some(here) {
        st := st.(pending := None, deadline := 0);
        if putOk {
          row := Some(st);
        }
      } else {
        if !putOk {
          return;
        }
        row := Some(st);
        if st.deadline == 0 || clock >= st.deadline {
          RollbackAndReboot(st.lastGood, revertOk, rebootOk);
        } else {
          timer := Some(st.deadline);
        }
      }
    }

    /** rollbackToLastGood, then Reboot whether or not it worked. */
    method RollbackAndReboot(target: Slot, revertOk: bool, rebootOk: bool)
      requires activeSlot.Some? && !halted
      modifies this`grub, this`halted
      ensures View() == Reverted(old(View()), target, revertOk, rebootOk)
    {
      if revertOk {
        grub := target;
      }
      if rebootOk {
        halted := true;
      }
    }

    method Confirm(getOk: bool, putOk: bool) returns (r: ConfirmResult)
      requires !halted
      modifies this
      ensures activeSlot.Some? && getOk ==> View() == Step(old(View()), Event.Confirm(putOk))
      ensures !r.Committed? && !r.RowWriteFailed? ==> unchanged(this)
      ensures r.Committed? <==>
                getOk && putOk && old(row).Some? && old(row).value.pending.Some? && old(row).value.pending == activeSlot
      ensures r == NoRow <==> !getOk || old(row).None?
      ensures r == NoPending <==> getOk && old(row).Some? && old(row).value.pending == None
      ensures r == SlotMismatch <==>
                getOk && old(row).Some? && old(row).value.pending.Some? && old(row).value.pending != activeSlot
      ensures r.Committed? ==>
                && r == Committed(old(row).value.active, old(row).value.version)
                && row == Some(old(row).value.(pending := None, deadline := 0, lastGood := r.slot))
    {
      if !getOk || row.None? {
        return NoRow;
      }
      var st := row.value;
      if st.pending == None {
        return NoPending;
      }
      if st.pending != activeSlot {
        return SlotMismatch;
      }
      timer := None;
      var slot, version := st.active, st.version;
      st := st.(pending := None, deadline := 0, lastGood := st.active);
      if !putOk {
        return RowWriteFailed;
      }
      row := Some(st);
      return Committed(slot, version);
    }

    /** The first half of the deadline handler: read the row, decide. */
    method DeadlineRead(getOk: bool)
      requires !halted && activeSlot.Some?
      modifies this
      ensures View() == Step(old(View()), TimerRead(getOk))
    {
      if timer.None? || clock < timer.value {
        return;
      }
      timer := None;
      if getOk && row.Some? && row.value.pending.Some? {
        inflight := Some(row.value.lastGood);
      }
    }

    /** The second half: revert GRUB to what was read, and reboot. */
    method DeadlineAct(revertOk: bool, rebootOk: bool)
      requires !halted && activeSlot.Some?
      modifies this
      ensures View() == Step(old(View()), TimerAct(revertOk, rebootOk))
    {
      if inflight.None? {
        return;
      }
      var target := inflight.value;
      inflight := None;
      RollbackAndReboot(target, revertOk, rebootOk);
    }

    /** copyIfChanged onto /boot for the inactive slot. */
    method CopyToBoot(part: Part, src: Bytes, failed: Option<Bytes>, tools: Tools) returns (ok: bool)
      requires activeSlot.Some? && !halted && part != Rootfs
      modifies this`imageA, this`imageB
      ensures var next := activeSlot.value.Other();
        var img := old(View()).ImageOf(next);
        var dst := if part == Kernel then img.kernel else img.initramfs;
        && View() == Run(old(View()), CopyEvents(part, dst, src, failed, tools))
        && ok == CopyOk(dst, src, failed, tools)
    {
      var img := if activeSlot.value == SlotA then imageB else imageA;
      var dst := if part == Kernel then img.kernel else img.initramfs;
      CopyEffect(View(), part, dst, src, failed, tools);
      if tools.hash(dst) == tools.hash(src) {
        return true;
      }
      img := img.With(part, if failed.Some? then failed.value else src);
      if activeSlot.value == SlotA {
        imageB := img;
      } else {
        imageA := img;
      }
      ok := failed == None;
    }

    /** Kernel, initramfs, GRUB flip and row, once the bundle has been verified. */
    method InstallBoot(s: Scan, tools: Tools, env: Env) returns (r: Result)
      requires activeSlot.Some? && !halted
      modifies this`imageA, this`imageB, this`grub, this`row
      ensures View() == Run(old(View()), BootPlan(old(View()), s, tools, env).events)
      ensures r == BootPlan(old(View()), s, tools, env).result
    {
      if !env.bootOk {
        return Failed(BootFailed);
      }
      ghost var n := View();
      ghost var img := n.ImageOf(activeSlot.value.Other());
      ghost var k := CopyEvents(Kernel, img.kernel, s.kernel, env.kernelCopy, tools);
      ghost var i := CopyEvents(Initramfs, img.initramfs, s.initramfs, env.initramfsCopy, tools);
      CopyEffect(n, Kernel, img.kernel, s.kernel, env.kernelCopy, tools);
      var copied := CopyToBoot(Kernel, s.kernel, env.kernelCopy, tools);
      if !copied {
        return Failed(BootFailed);
      }
      RunConcat(n, k, i);
      copied := CopyToBoot(Initramfs, s.initramfs, env.initramfsCopy, tools);
      if !copied || !env.grubOk {
        return Failed(BootFailed);
      }
      ghost var m := View();
      RunConcat(n, k + i, [Activate(env.storeOk, s.version)]);
      RunOne(m, Activate(env.storeOk, s.version));
      r := FlipAndRecord(s.version, env.storeOk);
    }

    /** The GRUB flip, then the row. */
    method FlipAndRecord(version: string, storeOk: bool) returns (r: Result)
      requires activeSlot.Some? && !halted
      modifies this`grub, this`row
      ensures View() == Step(old(View()), Activate(storeOk, version))
      ensures r == if storeOk && old(row).Some? then Done(activeSlot.value.Other(), version) else Failed(StoreFailed)
    {
      var next := activeSlot.value.Other();
      grub := next;
      if !storeOk || row.None? {
        return Failed(StoreFailed);
      }
      row := Some(row.value.(pending := Some(next), deadline := clock + CONFIRM_WINDOW, version := version));
      return Done(next, version);
    }

    /**
     Receives a bundle. Result and effect are a function of the concatenated stream alone,
     and the effect is a run of protocol events. A crash part-way is a prefix of it, the last
     event possibly reduced to a flip without its row write.
     */
    method ReceiveBundle(expectSize: nat, expectSha: string, src: Source, tools: Tools, env: Env)
      returns (r: ReceiveResult)
      requires !halted
      modifies this
      ensures activeSlot.None? ==> r == NoActiveSlot && unchanged(this)
      ensures activeSlot.Some? ==>
                var p := Push(old(View()), Content(src), src.ok, expectSize, expectSha, tools, env);
                r == Received(p.result) && View() == Run(old(View()), p.events)
    {
      if activeSlot.None? {
        return NoActiveSlot;
      }
      if !env.stagingOk {
        return Received(Failed(StagingFailed));
      }
      if !env.slotFound {
        return Received(Failed(NoSlotDevice));
      }
      ghost var n := View();
      var next := activeSlot.value.Other();
      var device := if next == SlotA then imageA.rootfs else imageB.rootfs;
      var stream, bytesIn, ok := Produce(src);
      var tar := tools.untar(stream, ok);
      var s, failure := ReadMembers(Scan(REQUIRED, "", [], [], device, false), tar.members, tools, env);
      ghost var wrote := if s.dirty then [Write(Rootfs, s.rootfs)] else [];
      if s.dirty {
        RunOne(n, Write(Rootfs, s.rootfs));
        if next == SlotA {
          imageA := imageA.(rootfs := s.rootfs);
        } else {
          imageB := imageB.(rootfs := s.rootfs);
        }
      }
      assert View() == Run(n, wrote);
      if failure.Some? {
        return Received(Failed(failure.value));
      }
      if !tar.clean {
        return Received(Failed(TarBroken));
      }
      if !ok {
        return Received(Failed(StreamBroken));
      }
      if s.want != {} {
        return Received(Failed(MissingMembers(s.want)));
      }
      if expectSize != 0 && bytesIn != expectSize {
        return Received(Failed(SizeMismatch));
      }
      if !EqualFold(tools.hash(stream), expectSha) {
        return Received(Failed(ChecksumMismatch));
      }
      ghost var m := View();
      assert BootPlan(m, s, tools, env) == BootPlan(n, s, tools, env);
      RunConcat(n, wrote, BootPlan(n, s, tools, env).events);
      var done := InstallBoot(s, tools, env);
      return Received(done);
    }
  }
}
