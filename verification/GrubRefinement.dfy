/**
 The update protocol over the real grub.cfg: the GRUB default is file text, read by booting it
 and changed only by rewriting it. Every flip and every revert rewrites; a rewrite the file
 refuses fails the push before its row write, and is passed over by a rollback, which reboots
 all the same.
 */
module GrubRefinement {
  import opened Prelude
  import opened Text
  import opened UpdateProtocol
  import opened GrubConfig

  /** A node whose GRUB default is a file. */
  datatype FileNode = FileNode(power: Power, cfg: string, row: Option<Row>, imageA: Image, imageB: Image, clock: int) {
    predicate InDoubt() {
      row.Some? && row.value.pending.Some?
    }
  }

  /** The slot the kernel command line of the next boot names. */
  function NextBoot(cfg: string): Option<Slot> {
    match Booted(cfg) case None => None case Some(words) => DetectActiveSlot(words)
  }

  /** The slot named by the kernel command line of a menu entry. */
  function MenuBoot(cfg: string, s: Slot): Option<Slot> {
    match Picked(cfg, s) case None => None case Some(words) => DetectActiveSlot(words)
  }

  /** What is done with a boot file: booting its default, booting a menu entry, rewriting its default. */
  datatype Loader = Loader(next: string -> Option<Slot>, menu: (string, Slot) -> Option<Slot>,
                           rewrite: (string, Slot) -> Option<string>)

  /** GRUB and rewriteGrubDefault. */
  const GRUB := Loader(NextBoot, MenuBoot, Rewrite)

  /** The node with its default read from the file (slot A when the file names none). */
  function Abstract(ld: Loader, f: FileNode): Node {
    var next := ld.next(f.cfg);
    Node(f.power, if next.Some? then next.value else SlotA, f.row, f.imageA, f.imageB, f.clock)
  }

  // ------------------------------------------------------------------
  // Steps on the file
  // ------------------------------------------------------------------

  /** rollbackToLastGood, then Reboot; a refused rewrite is logged and the reboot happens anyway. */
  function FileReverted(ld: Loader, f: FileNode, target: Slot, revertOk: bool, rebootOk: bool): FileNode {
    var cfg := if !revertOk then f.cfg else match ld.rewrite(f.cfg, target) case None => f.cfg case Some(text) => text;
    f.(cfg := cfg, power := if rebootOk then Down else f.power)
  }

  function FileStartup(ld: Loader, f: FileNode, b: Slot, storeOk: bool, revertOk: bool, rebootOk: bool): FileNode {
    var up := f.(power := Up(b, None, None));
    if !storeOk then up
    else match f.row
      case None => up.(row := Some(Row(b, None, 0, b, "")))
      case Some(r) =>
        var here := r.(active := b);
        if r.pending == None then up.(row := Some(here))
        else if r.pending != Some(b) then up.(row := Some(here.(pending := None, deadline := 0)))
        else if r.deadline == 0 || f.clock >= r.deadline then
          FileReverted(ld, up.(row := Some(here)), r.lastGood, revertOk, rebootOk)
        else up.(row := Some(here), power := Up(b, Some(r.deadline), None))
  }

  /** The end of ReceiveBundle: a refused rewrite returns before the row is read. */
  function FileActivated(ld: Loader, f: FileNode, storeOk: bool, version: string): FileNode
    requires f.power.Up?
  {
    var next := f.power.booted.Other();
    match ld.rewrite(f.cfg, next)
    case None => f
    case Some(text) =>
      var row := if storeOk && f.row.Some?
        then Some(f.row.value.(pending := Some(next), deadline := f.clock + CONFIRM_WINDOW, version := version))
        else f.row;
      f.(cfg := text, row := row)
  }

  /** A step that neither reads nor writes grub.cfg. */
  function Aside(f: FileNode, n: Node): FileNode {
    FileNode(n.power, f.cfg, n.row, n.imageA, n.imageB, n.clock)
  }

  function FileStep(ld: Loader, f: FileNode, e: Event): FileNode {
    if f.power.Down? then
      match e
      case Boot(choice, storeOk, revertOk, rebootOk) =>
        var slot := if choice.Some? then ld.menu(f.cfg, choice.value) else ld.next(f.cfg);
        if slot.None? then f else FileStartup(ld, f, slot.value, storeOk, revertOk, rebootOk)
      case Advance(seconds) => f.(clock := f.clock + seconds)
      case _ => f
    else
      match e
      case Activate(storeOk, version) => FileActivated(ld, f, storeOk, version)
      case TimerAct(revertOk, rebootOk) =>
        if f.power.inflight.None? then f
        else FileReverted(ld, f.(power := f.power.(inflight := None)), f.power.inflight.value, revertOk, rebootOk)
      case Write(part, data) => Aside(f, Abstract(ld, f).WriteImage(f.power.booted.Other(), part, data))
      case Confirm(storeOk) => Aside(f, Confirmed(Abstract(ld, f), storeOk))
      case TimerRead(storeOk) => Aside(f, TimerFired(Abstract(ld, f), storeOk))
      case PowerLoss => f.(power := Down)
      case Advance(seconds) => f.(clock := f.clock + seconds)
      case _ => f
  }

  function FileRun(ld: Loader, f: FileNode, es: seq<Event>): FileNode
    decreases |es|
  {
    if es == [] then f else FileRun(ld, FileStep(ld, f, es[0]), es[1..])
  }

  // ------------------------------------------------------------------
  // Simulation
  // ------------------------------------------------------------------

  /** A file per slot: each boots its slot, each menu entry boots its own, each rewrite leads to the asked-for file. */
  ghost predicate Family(ld: Loader, file: Slot -> string) {
    && (forall s :: ld.next(file(s)) == Some(s))
    && (forall s, t :: ld.menu(file(s), t) == Some(t))
    && (forall s, t :: ld.rewrite(file(s), t) == Some(file(t)))
  }

  lemma StepInFamily(ld: Loader, file: Slot -> string, f: FileNode, e: Event, s: Slot)
    requires Family(ld, file) && f.cfg == file(s)
    ensures var g := FileStep(ld, f, e);
      Abstract(ld, g) == Step(Abstract(ld, f), e) && g.cfg == file(Step(Abstract(ld, f), e).grub)
  {
    assert ld.next(file(s)) == Some(s);
    var n := Abstract(ld, f);
    if n.power.Down? && e.Boot? {
      var b := if e.choice.Some? then e.choice.value else s;
      assert ld.menu(file(s), b) == Some(b);
      StartupInFamily(ld, file, f, s, b, e.storeOk, e.revertOk, e.rebootOk);
    } else if n.power.Up? && e.TimerAct? && n.power.inflight.Some? {
      RevertInFamily(ld, file, f.(power := f.power.(inflight := None)), s, n.power.inflight.value, e.revertOk,
          e.rebootOk);
    } else if n.power.Up? && e.Activate? {
      var t := n.power.booted.Other();
      assert ld.rewrite(file(s), t) == Some(file(t)) && ld.next(file(t)) == Some(t);
    }
  }

  lemma RevertInFamily(ld: Loader, file: Slot -> string, f: FileNode, s: Slot, target: Slot, revertOk: bool,
      rebootOk: bool)
    requires Family(ld, file) && f.cfg == file(s)
    ensures var g := FileReverted(ld, f, target, revertOk, rebootOk);
      var m := Reverted(Abstract(ld, f), target, revertOk, rebootOk);
      Abstract(ld, g) == m && g.cfg == file(m.grub)
  {
    assert ld.next(file(s)) == Some(s) && ld.next(file(target)) == Some(target);
    assert ld.rewrite(file(s), target) == Some(file(target));
  }

  lemma StartupInFamily(ld: Loader, file: Slot -> string, f: FileNode, s: Slot, b: Slot,
                        storeOk: bool, revertOk: bool, rebootOk: bool)
    requires Family(ld, file) && f.cfg == file(s)
    ensures var g := FileStartup(ld, f, b, storeOk, revertOk, rebootOk);
      var m := Startup(Abstract(ld, f), b, storeOk, revertOk, rebootOk);
      Abstract(ld, g) == m && g.cfg == file(m.grub)
  {
    assert ld.next(file(s)) == Some(s);
    if f.row.Some? {
      var r := f.row.value;
      RevertInFamily(ld, file, f.(power := Up(b, None, None), row := Some(r.(active := b))), s, r.lastGood, revertOk,
          rebootOk);
    }
  }

  lemma {:induction false} RunInFamily(ld: Loader, file: Slot -> string, f: FileNode, es: seq<Event>, s: Slot)
    requires Family(ld, file) && f.cfg == file(s)
    ensures var g := FileRun(ld, f, es);
      Abstract(ld, g) == Run(Abstract(ld, f), es) && g.cfg == file(Run(Abstract(ld, f), es).grub)
    decreases |es|
  {
    if es == [] {
      assert ld.next(file(s)) == Some(s);
    } else {
      StepInFamily(ld, file, f, es[0], s);
      RunInFamily(ld, file, FileStep(ld, f, es[0]), es[1..], Step(Abstract(ld, f), es[0]).grub);
    }
  }

  lemma InstalledNames(s: Slot, t: Slot)
    ensures NextBoot(Installed(s)) == Some(s) && MenuBoot(Installed(s), t) == Some(t)
  {
    InstalledBoots(s);
    InstalledPicks(s, t);
    ArgsNameSlot(s);
    ArgsNameSlot(t);
  }

  lemma InstalledIsFamily()
    ensures Family(GRUB, Installed)
  {
    forall s, t
      ensures NextBoot(Installed(s)) == Some(s) && MenuBoot(Installed(s), t) == Some(t)
    {
      InstalledNames(s, t);
    }
    forall s
      ensures NextBoot(Installed(s)) == Some(s)
    {
      InstalledNames(s, s);
    }
    forall s, t
      ensures Rewrite(Installed(s), t) == Some(Installed(t))
    {
      InstalledRewrites(s, t);
    }
  }

  /**
   From the installed file, the file-level run is the protocol run, the file is at every end
   the installed file of the protocol's default, and so the next boot is that default:
   everything proved of the protocol holds of the node that keeps its default in grub.cfg.
   */
  lemma FileRunRefinesProtocol(f: FileNode, es: seq<Event>, s: Slot)
    requires f.cfg == Installed(s)
    ensures var g := FileRun(GRUB, f, es); var n := Run(Abstract(GRUB, f), es);
      Abstract(GRUB, g) == n && g.cfg == Installed(n.grub) && NextBoot(g.cfg) == Some(n.grub)
  {
    InstalledIsFamily();
    RunInFamily(GRUB, Installed, f, es, s);
    InstalledNames(Run(Abstract(GRUB, f), es).grub, SlotA);
  }

  // ------------------------------------------------------------------
  // A file without a default line
  // ------------------------------------------------------------------

  /** Such a file refuses every rewrite and names no slot to boot. */
  lemma NoDefaultRefuses(cfg: string, s: Slot)
    requires NoDefault(Split(cfg, '\n'))
    ensures Rewrite(cfg, s) == None && NextBoot(cfg) == None
  {
    RewriteRefusedIff(cfg, s);
    NoneChosen(Split(cfg, '\n'));
  }

  lemma {:induction false} NoneChosen(lines: seq<string>)
    requires NoDefault(lines)
    ensures Chosen(lines) == None
    decreases |lines|
  {
    if lines != [] {
      assert !IsDefault(lines[|lines| - 1]);
      NoneChosen(lines[..|lines| - 1]);
    }
  }

  /** No run changes a file that refuses rewrites, and no push over it ever records a pending update. */
  lemma {:induction false} RefusedFlipsRecordNothing(ld: Loader, f: FileNode, es: seq<Event>)
    requires forall s :: ld.rewrite(f.cfg, s) == None
    ensures var g := FileRun(ld, f, es); g.cfg == f.cfg && (g.InDoubt() ==> f.InDoubt())
    decreases |es|
  {
    if es != [] {
      RefusedFlipsRecordNothing(ld, FileStep(ld, f, es[0]), es[1..]);
    }
  }
}
