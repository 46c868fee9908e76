/**
 The A/B operating-system update protocol as a transition system.

 A node has two root slots. The `os_state` row records the booted slot, the slot an
 update is waiting on, the deadline for confirming it, and the last slot that was
 confirmed good. GRUB boots whatever its `set default=` line names. Every step below is
 one crash-atomic action of the daemon (or of the world around it); a run is any sequence
 of them. Store, mount and reboot calls carry a flag saying whether they succeed.
 */
module UpdateProtocol {
  import opened Prelude

  datatype Slot = SlotA | SlotB {
    function Other(): Slot {
      if this == SlotA then SlotB else SlotA
    }
  }

  datatype Part = Rootfs | Kernel | Initramfs

  /** What one slot boots: its root partition and its kernel and initramfs on /boot. */
  datatype Image = Image(rootfs: Bytes, kernel: Bytes, initramfs: Bytes) {
    function With(part: Part, data: Bytes): Image {
      match part
      case Rootfs => this.(rootfs := data)
      case Kernel => this.(kernel := data)
      case Initramfs => this.(initramfs := data)
    }
  }

  datatype Row = Row(active: Slot, pending: Option<Slot>, deadline: int, lastGood: Slot, version: string)

  /** `inflight` is the rollback target an expired timer has read but not yet acted on. */
  datatype Power = Down | Up(booted: Slot, timer: Option<int>, inflight: Option<Slot>)

  datatype Node = Node(power: Power, grub: Slot, row: Option<Row>, imageA: Image, imageB: Image, clock: int) {
    function ImageOf(s: Slot): Image {
      if s == SlotA then imageA else imageB
    }

    function WriteImage(s: Slot, part: Part, data: Bytes): Node {
      if s == SlotA then this.(imageA := imageA.With(part, data)) else this.(imageB := imageB.With(part, data))
    }

    /** An update has been pushed and neither confirmed nor rolled back. */
    predicate InDoubt() {
      row.Some? && row.value.pending.Some?
    }

    /** Running on the slot that still awaits confirmation. */
    predicate Tentative() {
      InDoubt() && power.Up? && row.value.pending.value == power.booted
    }
  }

  /** DefaultDeadline, in seconds. */
  const CONFIRM_WINDOW := 600

  /** `Panic` is a boot that loads its slot and dies before the daemon starts; the kernel then resets the machine. */
  datatype Event =
    | Boot(choice: Option<Slot>, storeOk: bool, revertOk: bool, rebootOk: bool)
    | Panic(choice: Option<Slot>)
    | PowerLoss
    | Write(part: Part, data: Bytes)
    | Activate(storeOk: bool, version: string)
    | Confirm(storeOk: bool)
    | TimerRead(storeOk: bool)
    | TimerAct(revertOk: bool, rebootOk: bool)
    | Advance(seconds: nat)

  // ------------------------------------------------------------------
  // Steps
  // ------------------------------------------------------------------

  /** OnStartup on slot `b`. A failed store read or write leaves the row as it was. */
  function Startup(n: Node, b: Slot, storeOk: bool, revertOk: bool, rebootOk: bool): Node {
    var up := n.(power := Up(b, None, None));
    if !storeOk then up
    else match n.row
      case None => up.(row := Some(Row(b, None, 0, b, "")))
      case Some(r) =>
        var here := r.(active := b);
        if r.pending == None then up.(row := Some(here))
        else if r.pending != Some(b) then up.(row := Some(here.(pending := None, deadline := 0)))
        else if r.deadline == 0 || n.clock >= r.deadline then
          Reverted(up.(row := Some(here)), r.lastGood, revertOk, rebootOk)
        else up.(row := Some(here), power := Up(b, Some(r.deadline), None))
  }

  /** rollbackToLastGood followed by Reboot; each may fail on its own. */
  function Reverted(n: Node, target: Slot, revertOk: bool, rebootOk: bool): Node {
    n.(grub := if revertOk then target else n.grub, power := if rebootOk then Down else n.power)
  }

  /** The end of ReceiveBundle: flip GRUB to the other slot, then record it as pending. */
  function Activated(n: Node, storeOk: bool, version: string): Node
    requires n.power.Up?
  {
    var next := n.power.booted.Other();
    var flipped := n.(grub := next);
    if storeOk && n.row.Some? then
      flipped.(row := Some(n.row.value.(pending := Some(next), deadline := n.clock + CONFIRM_WINDOW,
          version := version)))
    else flipped
  }

  function Confirmed(n: Node, storeOk: bool): Node
    requires n.power.Up?
  {
    if !n.Tentative() then n
    else
      var stopped := n.(power := n.power.(timer := None));
      var r := n.row.value;
      if storeOk then stopped.(row := Some(r.(pending := None, deadline := 0, lastGood := r.active))) else stopped
  }

  /** The deadline handler reads the row and decides whether to roll back. */
  function TimerFired(n: Node, storeOk: bool): Node
    requires n.power.Up?
  {
    if n.power.timer.None? || n.clock < n.power.timer.value then n
    else if storeOk && n.InDoubt() then n.(power := n.power.(timer := None, inflight := Some(n.row.value.lastGood)))
    else n.(power := n.power.(timer := None))
  }

  /** One event; an event that is not enabled changes nothing. */
  function Step(n: Node, e: Event): Node {
    if n.power.Down? then
      match e
      case Boot(choice, storeOk, revertOk, rebootOk) =>
        Startup(n, if choice.Some? then choice.value else n.grub, storeOk, revertOk, rebootOk)
      case Advance(seconds) => n.(clock := n.clock + seconds)
      case _ => n
    else
      match e
      case Boot(_, _, _, _) => n
      case Panic(_) => n
      case PowerLoss => n.(power := Down)
      case Write(part, data) => n.WriteImage(n.power.booted.Other(), part, data)
      case Activate(storeOk, version) => Activated(n, storeOk, version)
      case Confirm(storeOk) => Confirmed(n, storeOk)
      case TimerRead(storeOk) => TimerFired(n, storeOk)
      case TimerAct(revertOk, rebootOk) =>
        if n.power.inflight.None? then n
        else Reverted(n.(power := n.power.(inflight := None)), n.power.inflight.value, revertOk, rebootOk)
      case Advance(seconds) => n.(clock := n.clock + seconds)
  }

  function Run(n: Node, es: seq<Event>): Node
    decreases |es|
  {
    if es == [] then n else Run(Step(n, es[0]), es[1..])
  }

  /** The installer leaves GRUB on slot A and no os_state row. */
  predicate Fresh(n: Node) {
    n.power.Down? && n.grub == SlotA && n.row.None?
  }

  // ------------------------------------------------------------------
  // The invariant and the exact hypotheses it needs
  // ------------------------------------------------------------------

  /**
   With nothing pending, the GRUB default, the booted slot and the last good slot agree.
   With an update pending, it is always on the slot that is not the last good one, and a
   timer or a half-done rollback belongs to that update.
   */
  predicate Inv(n: Node) {
    match n.row
    case None => n.power.Up? ==> n.power == Up(n.grub, None, None)
    case Some(r) =>
      if r.pending == None then
        && r.deadline == 0
        && n.grub == r.lastGood
        && (n.power.Up? ==> n.power == Up(r.lastGood, None, None))
      else
        && r.pending == Some(r.lastGood.Other())
        && (n.power.Up? ==>
              && (n.power.timer.Some? ==> n.Tentative() && n.power.timer == Some(r.deadline))
              && (n.power.inflight.Some? ==> n.Tentative() && n.power.inflight == Some(r.lastGood)))
  }

  /**
   What a run must respect, step by step: a boot follows the GRUB default, or a menu choice
   enters the slot in doubt; a push is made from the last good slot and its row write lands; a
   confirmation finds the row and GRUB on the booted slot and no rollback under way.
   */
  predicate Safe(n: Node, e: Event) {
    match e
    case Boot(choice, storeOk, _, _) =>
      n.power.Down? && choice.Some? && choice.value != n.grub ==>
        n.InDoubt() && (choice == n.row.value.pending || !storeOk)
    case Activate(storeOk, _) =>
      n.power.Up? ==> if storeOk then n.row.Some? && n.power.booted == n.row.value.lastGood else n.InDoubt()
    case Confirm(storeOk) =>
      n.Tentative() && storeOk ==>
        n.row.value.active == n.power.booted && n.grub == n.power.booted && n.power.inflight == None
    case _ => true
  }

  predicate SafeRun(n: Node, es: seq<Event>)
    decreases |es|
  {
    es != [] ==> Safe(n, es[0]) && SafeRun(Step(n, es[0]), es[1..])
  }

  /** The invariant holds at every state of the run. */
  predicate Always(n: Node, es: seq<Event>)
    decreases |es|
  {
    Inv(n) && (es != [] ==> Always(Step(n, es[0]), es[1..]))
  }

  /** One step from a good state stays good exactly when it is a safe step. */
  lemma StepSafety(n: Node, e: Event)
    requires Inv(n)
    ensures Inv(Step(n, e)) <==> Safe(n, e)
  {
  }

  /** A run from a good state keeps the invariant throughout exactly when every step is safe. */
  lemma {:induction false} RunSafety(n: Node, es: seq<Event>)
    requires Inv(n)
    ensures Always(n, es) <==> SafeRun(n, es)
    decreases |es|
  {
    if es != [] {
      StepSafety(n, es[0]);
      if Safe(n, es[0]) {
        RunSafety(Step(n, es[0]), es[1..]);
      }
    }
  }
}
