/**
 Workload records, the two runtime drivers, and the service and reconciler actions on them.

 Every action concerns one name, so actions are defined on that name's slice of the world
 (its store row, its container and its VM) and lifted to whole maps. Driver and store calls
 carry their outcome in an `Oracle`; a failing EnsureRunning may leave any driver entry.
 */
module Workloads {
  import opened Prelude
  import opened Text

  datatype Kind = NoKind | Container | MicroVM
  datatype Desired = Unspecified | Running | Stopped | Deleting
  datatype Phase = PhaseUnspecified | PhasePending | PhaseRunning | PhaseFailed | PhaseStopped
  datatype Status = Status(phase: Phase, message: string)

  /** A kind-specific spec; `rest` stands for every other field. */
  datatype Spec = Spec(image: string, kernelPath: string, rootfsPath: string, rest: string)

  datatype Workload = Workload(name: string, kind: Kind, container: Option<Spec>, vm: Option<Spec>,
                               desired: Desired, status: Option<Status>)
  {
    /** Desired to run; an unspecified desired state counts as running. */
    predicate WantsRunning() {
      desired == Running || desired == Unspecified
    }
  }

  /** A container's task as containerd reports it. */
  datatype Task = NoTask | TaskRunning | TaskPending(detail: string) | TaskExited(code: nat) | TaskOther(detail: string)

  /** `born` tells one instance from the next, so that a restart can be seen. */
  datatype ContainerEntry = ContainerEntry(hash: string, task: Task, born: nat)

  datatype VmEntry = VmEntry(hash: string, born: nat)

  /** One name: its row, its container and its tracked VM, each with the hash recorded for it. */
  datatype Slice = Slice(row: Option<Workload>, container: Option<ContainerEntry>, vm: Option<VmEntry>)

  datatype World = World(store: map<string, Workload>, containers: map<string, ContainerEntry>,
                         vms: map<string, VmEntry>) {
    function At(n: string): Slice {
      Slice(if n in store then Some(store[n]) else None,
            if n in containers then Some(containers[n]) else None,
            if n in vms then Some(vms[n]) else None)
    }

    function With(n: string, s: Slice): World {
      World(Set(store, n, s.row), Set(containers, n, s.container), Set(vms, n, s.vm))
    }
  }

  function Set<V>(m: map<string, V>, n: string, v: Option<V>): map<string, V> {
    if v.Some? then m[n := v.value] else m - {n}
  }

  lemma AtWith(w: World, n: string, s: Slice, m: string)
    ensures w.With(n, s).At(m) == if m == n then s else w.At(m)
  {
  }

  /** A world is its slices. */
  lemma WorldExtensional(a: World, b: World)
    requires forall n :: a.At(n) == b.At(n)
    ensures a == b
  {
    assert forall n :: n in a.store <==> a.At(n).row.Some?;
    assert forall n :: n in b.store <==> b.At(n).row.Some?;
    assert forall n :: n in a.containers <==> a.At(n).container.Some?;
    assert forall n :: n in b.containers <==> b.At(n).container.Some?;
    assert forall n :: n in a.vms <==> a.At(n).vm.Some?;
    assert forall n :: n in b.vms <==> b.At(n).vm.Some?;
    assert a.store == b.store;
    assert a.containers == b.containers;
    assert a.vms == b.vms;
  }

  /** Which drivers are wired, and the digest of a spec. */
  datatype Config = Config(containers: bool, vms: bool, hash: Spec -> string)

  /**
   How the calls of one action end. `born`: the instance it would start; `crashed`: what became of
   its container between EnsureRunning and Status; `hashLeft`: what the VM's hash file holds when it
   could not be saved; `getOk`, `putOk`, `rowOk`: reading, writing and deleting the store row.
   */
  datatype Oracle = Oracle(ensureOk: bool, ensureLeft: Option<ContainerEntry>, ensureVmLeft: Option<VmEntry>,
                           born: nat, crashed: Option<Task>, hashSaved: bool, hashLeft: string, statusOk: bool,
                           removeOk: bool, taskGone: bool, getOk: bool, putOk: bool, rowOk: bool, error: string)
  {
    predicate Succeeds() {
      ensureOk && crashed == None && hashSaved && statusOk && removeOk && getOk && putOk && rowOk
    }
  }

  // ------------------------------------------------------------------
  // Drivers
  // ------------------------------------------------------------------

  /** A container that EnsureRunning leaves alone: running, on the desired spec or on an unrecorded one. */
  predicate ContainerCurrent(e: ContainerEntry, hash: string) {
    e.task.TaskRunning? && (e.hash == "" || e.hash == hash)
  }

  /** The same for a tracked VM, which is taken to run. */
  predicate VmCurrent(e: VmEntry, hash: string) {
    e.hash == "" || e.hash == hash
  }

  function EnsureContainer(cfg: Config, s: Slice, w: Workload, o: Oracle): (Slice, bool) {
    if w.container.None? then (s, false)
    else if !o.ensureOk then (s.(container := o.ensureLeft), false)
    else
      var hash := cfg.hash(w.container.value);
      if s.container.Some? && ContainerCurrent(s.container.value, hash) then (s, true)
      else (s.(container := Some(ContainerEntry(hash, TaskRunning, o.born))), true)
  }

  function EnsureVM(cfg: Config, s: Slice, w: Workload, o: Oracle): (Slice, bool) {
    if w.vm.None? then (s, false)
    else if !o.ensureOk then (s.(vm := o.ensureVmLeft), false)
    else
      var hash := cfg.hash(w.vm.value);
      if s.vm.Some? && VmCurrent(s.vm.value, hash) then (s, true)
      else (s.(vm := Some(VmEntry(if o.hashSaved then hash else o.hashLeft, o.born))), true)
  }

  function RemoveContainer(s: Slice, o: Oracle): (Slice, bool) {
    if o.removeOk then (s.(container := None), true)
    else if s.container.Some? && o.taskGone then (s.(container := Some(s.container.value.(task := NoTask))), false)
    else (s, false)
  }

  /** Removal through the driver of that kind; a driver that is not wired has nothing to remove. */
  function RemoveFor(cfg: Config, s: Slice, kind: Kind, o: Oracle): (Slice, bool) {
    if kind == MicroVM then (if cfg.vms then s.(vm := None) else s, true)
    else if cfg.containers then RemoveContainer(s, o)
    else (s, true)
  }

  predicate RemoveWorks(cfg: Config, kind: Kind, o: Oracle) {
    kind == MicroVM || !cfg.containers || o.removeOk
  }

  function ContainerStatus(e: Option<ContainerEntry>): Status {
    match e
    case None => Status(PhaseUnspecified, "")
    case Some(ContainerEntry(_, NoTask, _)) => Status(PhaseStopped, "no task")
    case Some(ContainerEntry(_, TaskRunning, _)) => Status(PhaseRunning, "")
    case Some(ContainerEntry(_, TaskPending(d), _)) => Status(PhasePending, d)
    case Some(ContainerEntry(_, TaskExited(c), _)) =>
      Status(if c != 0 then PhaseFailed else PhaseStopped, "exited " + NatText(c))
    case Some(ContainerEntry(_, TaskOther(d), _)) => Status(PhaseUnspecified, d)
  }

  function VmStatus(vm: Option<VmEntry>): Status {
    if vm.Some? then Status(PhaseRunning, "") else Status(PhaseUnspecified, "")
  }

  // ------------------------------------------------------------------
  // Service calls
  // ------------------------------------------------------------------

  predicate Valid(w: Workload) {
    && DnsLabel(w.name)
    && match w.kind
       case NoKind => false
       case Container => w.container.Some? && w.container.value.image != ""
       case MicroVM =>
         w.vm.Some? && (w.vm.value.image != "" || (w.vm.value.kernelPath != "" && w.vm.value.rootfsPath != ""))
  }

  datatype Op =
    | Apply(workload: Workload, oracle: Oracle)
    | Delete(target: string, oracle: Oracle)
    | Restart(target: string, oracle: Oracle)
    | Stop(target: string, oracle: Oracle)
    | Start(target: string, oracle: Oracle)
  {
    function Name(): string {
      if Apply? then workload.name else target
    }
  }

  function SetStatus(s: Slice, st: Status): Slice {
    if s.row.None? then s else s.(row := Some(s.row.value.(status := Some(st))))
  }

  function RowKind(s: Slice): Kind {
    if s.row.Some? then s.row.value.kind else NoKind
  }

  /** The row as a tombstone. */
  function Marked(s: Slice): Slice {
    if s.row.Some? then s.(row := Some(s.row.value.(desired := Deleting))) else s
  }

  /** The kind Delete goes by: none if the row is absent or could not be read. */
  function SeenKind(s: Slice, o: Oracle): Kind {
    if o.getOk then RowKind(s) else NoKind
  }

  /** The tombstone could not be written. */
  predicate MarkFails(s: Slice, o: Oracle) {
    o.getOk && s.row.Some? && s.row.value.desired != Deleting && !o.putOk
  }

  function DeleteSlice(cfg: Config, s: Slice, o: Oracle): Slice {
    if MarkFails(s, o) then s
    else
      var (removed, ok) := RemoveFor(cfg, if o.getOk then Marked(s) else s, SeenKind(s, o), o);
      if ok && o.rowOk then removed.(row := None) else removed
  }

  predicate DeleteDone(cfg: Config, s: Slice, o: Oracle) {
    !MarkFails(s, o) && RemoveWorks(cfg, SeenKind(s, o), o) && o.rowOk
  }

  function OpSlice(cfg: Config, s: Slice, op: Op): Slice {
    var o := op.oracle;
    match op
    case Apply(w, _) =>
      if !Valid(w) || !o.getOk || !o.putOk then s
      else s.(row := Some(w.(status := if s.row.Some? then s.row.value.status else w.status)))
    case Delete(_, _) => DeleteSlice(cfg, s, o)
    case Restart(_, _) => if s.row.None? || !o.getOk then s else RemoveFor(cfg, s, s.row.value.kind, o).0
    case Stop(_, _) =>
      if s.row.None? || !o.getOk || !o.putOk then s
      else RemoveFor(cfg, s.(row := Some(s.row.value.(desired := Stopped))), s.row.value.kind, o).0
    case Start(_, _) =>
      if s.row.None? || !o.getOk || !o.putOk then s
      else s.(row := Some(s.row.value.(desired := Running, status := Some(Status(PhasePending, "starting")))))
  }

  // ------------------------------------------------------------------
  // reconcileOne
  // ------------------------------------------------------------------

  /** The container's task as Status will find it. */
  function AfterCrash(s: Slice, o: Oracle): Slice {
    if s.container.Some? && o.crashed.Some?
        then s.(container := Some(s.container.value.(task := o.crashed.value))) else s
  }

  /** The driver part of a pass over the snapshot `w` of a row, and the status it observes, if any. */
  function Drive(cfg: Config, s: Slice, w: Workload, o: Oracle): (Slice, Option<Status>) {
    if w.desired == Deleting then (s, None)
    else if w.desired == Stopped then
      (if w.kind == NoKind then s else RemoveFor(cfg, s, w.kind, o).0,
       Some(Status(PhaseStopped, "stopped by operator")))
    else match w.kind
      case NoKind => (s, Some(Status(PhaseFailed, "unsupported kind")))
      case Container =>
        if !cfg.containers then (s, Some(Status(PhaseFailed, "no container runtime")))
        else
          var (t, ok) := EnsureContainer(cfg, s, w, o);
          var u := if ok then AfterCrash(t, o) else t;
          (u, if !ok then Some(Status(PhaseFailed, o.error))
              else if o.statusOk then Some(ContainerStatus(u.container)) else None)
      case MicroVM =>
        if !cfg.vms then (s, Some(Status(PhaseFailed, "no vm runtime")))
        else
          var (t, ok) := EnsureVM(cfg, s, w, o);
          (t, if !ok then Some(Status(PhaseFailed, o.error)) else if o.statusOk then Some(VmStatus(t.vm)) else None)
  }

  /** A whole pass; the row itself may have changed since the snapshot. */
  function Reconcile(cfg: Config, s: Slice, w: Workload, o: Oracle): Slice {
    var (t, observed) := Drive(cfg, s, w, o);
    if observed.Some? && o.getOk && o.putOk then SetStatus(t, observed.value) else t
  }

  /** The driver part leaves the row alone, and the other kind's driver. */
  lemma DriveKeepsRow(cfg: Config, s: Slice, w: Workload, o: Oracle)
    ensures var t := Drive(cfg, s, w, o).0;
      && t.row == s.row
      && (w.kind != Container ==> t.container == s.container)
      && (w.kind != MicroVM ==> t.vm == s.vm)
  {
  }

  /** The pass calls EnsureRunning. */
  predicate CallsEnsure(cfg: Config, w: Workload) {
    w.WantsRunning() && ((w.kind == Container && cfg.containers) || (w.kind == MicroVM && cfg.vms))
  }

  /** The row but for its status. */
  function Identity(s: Slice): Option<Workload> {
    if s.row.Some? then Some(s.row.value.(status := None)) else None
  }

  /** A pass never changes spec, kind or desired state, and never touches the other kind's driver. */
  lemma ReconcileKeepsRow(cfg: Config, s: Slice, w: Workload, o: Oracle)
    ensures var t := Reconcile(cfg, s, w, o);
      && Identity(t) == Identity(s)
      && (w.kind != Container ==> t.container == s.container)
      && (w.kind != MicroVM ==> t.vm == s.vm)
  {
  }

  // ------------------------------------------------------------------
  // Convergence of one name
  // ------------------------------------------------------------------

  /** Both drivers wired. */
  predicate Wired(cfg: Config) {
    cfg.containers && cfg.vms
  }

  /** The runtime matches the row: absent if stopped; running on the desired or an unrecorded spec if wanted. */
  predicate Converged(cfg: Config, s: Slice) {
    s.row.Some? ==>
      var w := s.row.value;
      match w.kind
      case NoKind => true
      case Container =>
        && (w.desired == Stopped ==> s.container.None?)
        && (w.WantsRunning() ==>
              && s.container.Some? && w.container.Some?
              && ContainerCurrent(s.container.value, cfg.hash(w.container.value)))
      case MicroVM =>
        && (w.desired == Stopped ==> s.vm.None?)
        && (w.WantsRunning() ==> s.vm.Some? && w.vm.Some? && VmCurrent(s.vm.value, cfg.hash(w.vm.value)))
  }

  /** A successful pass over a fresh snapshot converges from any runtime state; a tombstone is left alone. */
  lemma PassConverges(cfg: Config, s: Slice, o: Oracle)
    requires Wired(cfg) && o.Succeeds() && s.row.Some? && Valid(s.row.value)
    ensures var t := Reconcile(cfg, s, s.row.value, o);
      && Converged(cfg, t) && Identity(t) == Identity(s)
      && (s.row.value.desired == Deleting ==> t == s)
      && (s.row.value.desired == Stopped ==> t.row.value.status == Some(Status(PhaseStopped, "stopped by operator")))
      && (s.row.value.WantsRunning() ==> t.row.value.status == Some(Status(PhaseRunning, "")))
  {
  }

  /** The hash recorded for the kind's runtime entry; empty when there is none. */
  function Recorded(s: Slice, kind: Kind): string {
    if kind == MicroVM then (if s.vm.Some? then s.vm.value.hash else "")
    else (if s.container.Some? then s.container.value.hash else "")
  }

  function DesiredHash(cfg: Config, w: Workload): string
    requires Valid(w)
  {
    cfg.hash(if w.kind == MicroVM then w.vm.value else w.container.value)
  }

  predicate HasEntry(s: Slice, kind: Kind) {
    if kind == MicroVM then s.vm.Some? else s.container.Some?
  }

  /** Spec drift is corrected by one pass unless the entry predates hashes; after a Restart it always is. */
  lemma DriftIsCorrected(cfg: Config, s: Slice, o: Oracle, p: Oracle)
    requires Wired(cfg) && o.Succeeds() && p.removeOk && p.getOk && s.row.Some? && Valid(s.row.value)
        && s.row.value.WantsRunning()
    ensures var w := s.row.value;
      && (!HasEntry(s, w.kind) || Recorded(s, w.kind) != "" ==>
            Recorded(Reconcile(cfg, s, w, o), w.kind) == DesiredHash(cfg, w))
      && Recorded(Reconcile(cfg, OpSlice(cfg, s, Restart(w.name, p)), w, o), w.kind) == DesiredHash(cfg, w)
  {
  }

  // ------------------------------------------------------------------
  // What the calls are for
  // ------------------------------------------------------------------

  /** Something of the row's kind runs, on the row's spec or on an unrecorded one. */
  predicate RunsAsDesired(cfg: Config, s: Slice, w: Workload) {
    && (w.kind == Container ==>
          && s.container.Some? && w.container.Some? && s.container.value.task == TaskRunning
          && (s.container.value.hash == "" || s.container.value.hash == cfg.hash(w.container.value)))
    && (w.kind == MicroVM ==>
          && s.vm.Some? && w.vm.Some? && (s.vm.value.hash == "" || s.vm.value.hash == cfg.hash(w.vm.value)))
  }

  predicate SameSpec(a: Workload, b: Workload) {
    a.name == b.name && a.kind == b.kind && a.container == b.container && a.vm == b.vm
  }

  /** Start makes an existing row want to run, as it is, and the next pass has it running and says so. */
  lemma StartRuns(cfg: Config, s: Slice, n: string, o: Oracle, p: Oracle)
    requires Wired(cfg) && s.row.Some? && Valid(s.row.value) && o.getOk && o.putOk && p.Succeeds()
    ensures var t := OpSlice(cfg, s, Start(n, o));
      && t.row.Some? && t.row.value.WantsRunning() && SameSpec(t.row.value, s.row.value)
      && t.row.value.status == Some(Status(PhasePending, "starting")) && t.container == s.container && t.vm == s.vm
      && var u := Reconcile(cfg, t, t.row.value, p);
         && RunsAsDesired(cfg, u, s.row.value)
         && u.row.Some? && u.row.value.status == Some(Status(PhaseRunning, ""))
  {
  }

  /** Apply stores the given row but for the status already observed, and the next pass runs the new spec. */
  lemma ApplyRuns(cfg: Config, s: Slice, w: Workload, o: Oracle, p: Oracle)
    requires Wired(cfg) && Valid(w) && w.WantsRunning() && o.getOk && o.putOk && p.Succeeds()
    ensures var t := OpSlice(cfg, s, Apply(w, o));
      && t.row.Some? && t.row.value.(status := w.status) == w
      && t.row.value.status == (if s.row.Some? then s.row.value.status else w.status)
      && t.container == s.container && t.vm == s.vm
      && RunsAsDesired(cfg, Reconcile(cfg, t, t.row.value, p), w)
  {
  }

  /** Stop marks the row stopped, as it is, and takes its entry down; later passes keep it down and say so. */
  lemma StopRemoves(cfg: Config, s: Slice, n: string, o: Oracle, p: Oracle)
    requires Wired(cfg) && s.row.Some? && Valid(s.row.value) && o.Succeeds() && p.Succeeds()
    ensures var t := OpSlice(cfg, s, Stop(n, o)); var kind := s.row.value.kind;
      && t.row.Some? && t.row.value.desired == Stopped && SameSpec(t.row.value, s.row.value) && !HasEntry(t, kind)
      && var u := Reconcile(cfg, t, t.row.value, p);
         && !HasEntry(u, kind) && u.row.Some? && u.row.value.desired == Stopped
         && u.row.value.status == Some(Status(PhaseStopped, "stopped by operator"))
  {
  }

  /** Restart leaves the row alone and takes the entry down; the next pass starts a new instance of it. */
  lemma RestartRestarts(cfg: Config, s: Slice, n: string, o: Oracle, p: Oracle)
    requires Wired(cfg) && s.row.Some? && Valid(s.row.value) && s.row.value.WantsRunning() && o.Succeeds()
        && p.Succeeds()
    ensures var t := OpSlice(cfg, s, Restart(n, o)); var kind := s.row.value.kind;
      && t.row == s.row && !HasEntry(t, kind)
      && var u := Reconcile(cfg, t, t.row.value, p);
         && RunsAsDesired(cfg, u, s.row.value)
         && (kind == Container ==> u.container.value.born == p.born) && (kind == MicroVM ==> u.vm.value.born == p.born)
  {
  }

  /** What Apply refuses, whatever is stored already. */
  lemma ApplyRefuses(cfg: Config, s: Slice, w: Workload, o: Oracle)
    requires || w.name == "" || |w.name| > 63 || '/' in w.name || w.kind == NoKind
             || (w.kind == Container && (w.container == None || w.container.value.image == ""))
             || (w.kind == MicroVM && (w.vm == None ||
                   (w.vm.value.image == "" && (w.vm.value.kernelPath == "" || w.vm.value.rootfsPath == ""))))
    ensures !Valid(w) && OpSlice(cfg, s, Apply(w, o)) == s
  {
  }

  /**
   A pass restarts what should run exactly when it is not running, or runs a recorded spec that is
   not the desired one.
   */
  lemma RestartedIff(cfg: Config, s: Slice, o: Oracle)
    requires Wired(cfg) && o.Succeeds() && s.row.Some? && Valid(s.row.value) && s.row.value.WantsRunning()
    requires s.container.Some? ==> s.container.value.born != o.born
    requires s.vm.Some? ==> s.vm.value.born != o.born
    ensures var w := s.row.value; var t := Reconcile(cfg, s, w, o);
      && (w.kind == Container ==> (t.container == s.container <==> RunsAsDesired(cfg, s, w)))
      && (w.kind == MicroVM ==> (t.vm == s.vm <==> RunsAsDesired(cfg, s, w)))
  {
  }

  /** A pass over a row that wants to run reports failure, and its text, exactly when it could not get it running. */
  lemma FailuresAreReported(cfg: Config, s: Slice, o: Oracle)
    requires s.row.Some? && s.row.value.WantsRunning() && o.getOk && o.putOk && o.statusOk && o.crashed == None
    ensures var w := s.row.value; var t := Reconcile(cfg, s, w, o).row;
      && t.Some? && t.value.(status := None) == w.(status := None) && t.value.status.Some?
      && var st := t.value.status.value;
         && (w.kind == NoKind ==> st == Status(PhaseFailed, "unsupported kind"))
         && (w.kind == Container && !cfg.containers ==> st == Status(PhaseFailed, "no container runtime"))
         && (w.kind == MicroVM && !cfg.vms ==> st == Status(PhaseFailed, "no vm runtime"))
         && (CallsEnsure(cfg, w) && (!o.ensureOk || (if w.kind == Container then w.container else w.vm) == None) ==>
               st == Status(PhaseFailed, o.error))
         && (CallsEnsure(cfg, w) && o.ensureOk && (if w.kind == Container then w.container else w.vm) != None ==>
               st == Status(PhaseRunning, ""))
  {
  }

  /** A container that dies before its status is read is reported as it is found, and the next pass starts a new one. */
  lemma CrashIsReportedAndRepaired(cfg: Config, s: Slice, o: Oracle, p: Oracle, code: nat)
    requires Wired(cfg) && s.row.Some? && Valid(s.row.value) && s.row.value.WantsRunning() && p.Succeeds()
    requires s.row.value.kind == Container && o.(crashed := None).Succeeds() && o.crashed == Some(TaskExited(code))
    ensures var t := Reconcile(cfg, s, s.row.value, o); var u := Reconcile(cfg, t, s.row.value, p);
      && t.row.Some? && t.container.Some? && t.row.value.status
                         == Some(Status(if code == 0 then PhaseStopped else PhaseFailed, "exited " + NatText(code)))
      && RunsAsDesired(cfg, u, s.row.value) && u.container.value.born == p.born
      && u.row.Some? && u.row.value.status == Some(Status(PhaseRunning, ""))
  {
  }

  /** A second successful pass changes nothing. */
  lemma PassIdempotent(cfg: Config, s: Slice, o: Oracle, p: Oracle)
    requires Wired(cfg) && o.Succeeds() && p.Succeeds() && s.row.Some? && Valid(s.row.value)
    ensures var t := Reconcile(cfg, s, s.row.value, o);
      t.row.Some? && Reconcile(cfg, t, t.row.value, p) == t
  {
  }

  /**
   A Delete that reports success leaves nothing of the name, neither row nor container nor VM,
   exactly when whatever runs is of the kind Delete went by and its driver is wired.
   */
  lemma DeleteOrphansIff(cfg: Config, s: Slice, o: Oracle)
    requires DeleteDone(cfg, s, o)
    ensures var t := DeleteSlice(cfg, s, o); var kind := SeenKind(s, o);
      && t.row == None
      && (t == Slice(None, None, None) <==>
          && (s.container.Some? ==> kind != MicroVM && cfg.containers)
          && (s.vm.Some? ==> kind == MicroVM && cfg.vms))
  {
  }

  /** A failed removal never loses the container: its entry stays, with its hash, if perhaps without its task. */
  lemma FailedRemovalKeepsEntry(cfg: Config, s: Slice, o: Oracle)
    requires cfg.containers && !o.removeOk && SeenKind(s, o) != MicroVM
    ensures var t := DeleteSlice(cfg, s, o);
      && (t.container.Some? <==> s.container.Some?) && (t.row.Some? <==> s.row.Some?) && t.vm == s.vm
      && (s.container.Some? ==>
            && t.container.value.hash == s.container.value.hash && t.container.value.born == s.container.value.born
            && (t.container.value.task == s.container.value.task || t.container.value.task == NoTask))
  {
  }

  /** A name applied as a VM, started, applied again as a container and deleted: the VM runs on. */
  lemma KindChangeOrphansVM(cfg: Config, vm: Workload, container: Workload, o: Oracle)
    requires Wired(cfg) && o.Succeeds() && Valid(vm) && Valid(container) && vm.name == container.name
    requires vm.kind == MicroVM && container.kind == Container && vm.WantsRunning()
    ensures var started := Reconcile(cfg, OpSlice(cfg, Slice(None, None, None), Apply(vm, o)), vm, o);
      var changed := OpSlice(cfg, started, Apply(container, o));
      && DeleteDone(cfg, changed, o)
      && DeleteSlice(cfg, changed, o) == Slice(None, None, Some(VmEntry(cfg.hash(vm.vm.value), o.born)))
  {
  }

  /** Deleting a name that has no row removes a container, never a VM. */
  lemma RowlessDeleteKeepsVM(cfg: Config, o: Oracle, vm: VmEntry)
    requires Wired(cfg) && o.Succeeds()
    ensures var s := Slice(None, None, Some(vm)); DeleteDone(cfg, s, o) && DeleteSlice(cfg, s, o) == s
  {
  }

  /** A VM whose row cannot be read is deleted as if it were a container: the row goes, the VM stays. */
  lemma UnreadRowOrphansVM(cfg: Config, w: Workload, o: Oracle, vm: VmEntry)
    requires Wired(cfg) && w.kind == MicroVM && o.removeOk && o.rowOk && !o.getOk
    ensures var s := Slice(Some(w), None, Some(vm));
      DeleteDone(cfg, s, o) && DeleteSlice(cfg, s, o) == Slice(None, None, Some(vm))
  {
  }

  /** A world that differs from `a` only in what `b` says about `n` is `a` with that slice. */
  lemma WithSame(a: World, b: World, n: string)
    requires forall m :: m != n ==> a.At(m) == b.At(m)
    ensures b == a.With(n, b.At(n))
  {
    forall m
      ensures b.At(m) == a.With(n, b.At(n)).At(m)
    {
      AtWith(a, n, b.At(n), m);
    }
    WorldExtensional(b, a.With(n, b.At(n)));
  }

  lemma WithTwice(a: World, n: string, s: Slice, t: Slice)
    ensures a.With(n, s).With(n, t) == a.With(n, t)
  {
    forall m
      ensures a.With(n, s).With(n, t).At(m) == a.With(n, t).At(m)
    {
      AtWith(a, n, s, m);
      AtWith(a.With(n, s), n, t, m);
      AtWith(a, n, t, m);
    }
    WorldExtensional(a.With(n, s).With(n, t), a.With(n, t));
  }
}
