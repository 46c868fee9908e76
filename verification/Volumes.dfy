/**
 Persistent volumes: a store row and a logical volume per volume, created, deleted and
 resized together. Every external command and store call carries its outcome; creation
 compensates a late failure by removing the logical volume it made.
 */
module Volumes {
  import opened Prelude
  import opened Text

  const MIB := 1024 * 1024
  const DEFAULT_MIB := 512
  const MIN_MIB := 32
  const MAX_MIB := 1024 * 1024

  /** The volumes each kind of spec mounts, if it has that spec. */
  datatype Workload = Workload(name: string, containerMounts: Option<seq<string>>, vmMounts: Option<seq<string>>)

  datatype Row = Row(hostPath: string, createdAt: int)

  /** Store rows, logical volumes with their size in bytes, and the stored workloads. */
  datatype State = State(rows: map<string, Row>, lvs: map<string, nat>, workloads: seq<Workload>)

  predicate ValidSize(mib: nat) {
    MIN_MIB <= mib <= MAX_MIB
  }

  function HostPath(name: string): string {
    "/dev/capsule/vol-" + name
  }

  // ------------------------------------------------------------------
  // References from workloads
  // ------------------------------------------------------------------

  function Mounts(w: Workload): seq<string> {
    (if w.containerMounts.Some? then w.containerMounts.value else [])
    + (if w.vmMounts.Some? then w.vmMounts.value else [])
  }

  function Users(ws: seq<Workload>, volume: string): seq<string> {
    if ws == [] then []
    else
      var front := Users(ws[..|ws| - 1], volume);
      if volume in Mounts(ws[|ws| - 1]) then front + [ws[|ws| - 1].name] else front
  }

  /** The workload mounts the volume through its container spec or its VM spec. */
  predicate MountsIt(w: Workload, volume: string) {
    || (w.containerMounts.Some? && volume in w.containerMounts.value)
    || (w.vmMounts.Some? && volume in w.vmMounts.value)
  }

  predicate Referenced(ws: seq<Workload>, volume: string) {
    exists i :: 0 <= i < |ws| && MountsIt(ws[i], volume)
  }

  method UsersFromWorkloads(ws: seq<Workload>, volume: string) returns (out: seq<string>)
    ensures out == Users(ws, volume)
  {
    out := [];
    for i := 0 to |ws|
      invariant out == Users(ws[..i], volume)
    {
      assert ws[..i + 1][..i] == ws[..i];
      var mounts: seq<string> := [];
      if ws[i].containerMounts.Some? {
        mounts := ws[i].containerMounts.value;
      }
      if ws[i].vmMounts.Some? {
        mounts := mounts + ws[i].vmMounts.value;
      }
      var found := false;
      for j := 0 to |mounts|
        invariant !found && volume !in mounts[..j]
      {
        if mounts[j] == volume {
          out := out + [ws[i].name];
          found := true;
          break;
        }
      }
      assert mounts[..|mounts|] == mounts;
    }
    assert ws[..|ws|] == ws;
  }

  lemma MountsItIff(w: Workload, volume: string)
    ensures volume in Mounts(w) <==> MountsIt(w, volume)
  {
  }

  /** The scan finds a user exactly when some workload mounts the volume through either spec. */
  lemma {:induction false} UsersIffReferenced(ws: seq<Workload>, volume: string)
    ensures Users(ws, volume) != [] <==> Referenced(ws, volume)
    decreases |ws|
  {
    if ws != [] {
      var n := |ws| - 1;
      UsersIffReferenced(ws[..n], volume);
      MountsItIff(ws[n], volume);
      if Referenced(ws, volume) && !MountsIt(ws[n], volume) {
        var i :| 0 <= i < |ws| && MountsIt(ws[i], volume);
        assert ws[..n][i] == ws[i];
      }
    }
  }

  predicate IsUser(ws: seq<Workload>, volume: string, name: string) {
    exists i :: 0 <= i < |ws| && ws[i].name == name && MountsIt(ws[i], volume)
  }

  /** It lists exactly the names of those workloads. */
  lemma {:induction false} UsersAreNamed(ws: seq<Workload>, volume: string, name: string)
    ensures name in Users(ws, volume) <==> IsUser(ws, volume, name)
    decreases |ws|
  {
    if ws != [] {
      var n := |ws| - 1;
      UsersAreNamed(ws[..n], volume, name);
      MountsItIff(ws[n], volume);
      assert forall i :: 0 <= i < n ==> ws[..n][i] == ws[i];
      if IsUser(ws, volume, name) && !(ws[n].name == name && MountsIt(ws[n], volume)) {
        var i :| 0 <= i < |ws| && ws[i].name == name && MountsIt(ws[i], volume);
        assert ws[..n][i] == ws[i];
      }
    }
  }

  // ------------------------------------------------------------------
  // Operations
  // ------------------------------------------------------------------

  /** `slack`: bytes the volume manager adds when it rounds up to extents; `undoOk`: the compensating lvremove works. */
  datatype CreateEnv = CreateEnv(getOk: bool, lvcreateOk: bool, slack: nat, mkfsOk: bool, putOk: bool, undoOk: bool,
      now: int)

  /**
   How lvremove ends. `SaysNotFound` is a failure whose text holds "not found" or "Failed to
   find": of the volume itself, but also of its volume group. It counts as success.
   */
  datatype Lvremove = Works | SaysNotFound | Fails

  datatype DeleteEnv = DeleteEnv(getOk: bool, listOk: bool, lvremove: Lvremove, rowOk: bool)

  /** `reading`: what blockDeviceSize reports, zero when it cannot tell. lvresize never reduces a volume. */
  datatype ResizeEnv = ResizeEnv(getOk: bool, listOk: bool, reading: nat, lvresizeOk: bool, slack: nat, growOk: bool)

  datatype Op =
    | Create(name: string, mib: Uint64, createEnv: CreateEnv)
    | Delete(name: string, force: bool, deleteEnv: DeleteEnv)
    | Resize(name: string, mib: Uint64, resizeEnv: ResizeEnv)
    | SetWorkloads(workloads: seq<Workload>)

  datatype Result = Ok | Invalid | AlreadyExists | NotFound | InUse | Shrink | CommandFailed | StoreFailed

  function EffectiveMiB(mib: Uint64): Uint64 {
    if mib == 0 then DEFAULT_MIB else mib
  }

  /** The request in bytes, in 64-bit arithmetic. */
  function Want(mib: Uint64): Uint64 {
    mib * MIB % UINT64
  }

  function DoCreate(v: State, name: string, mib: Uint64, env: CreateEnv): (State, Result) {
    var size := EffectiveMiB(mib);
    if !DnsLabel(name) || !ValidSize(size) then (v, Invalid)
    else if !env.getOk then (v, StoreFailed)
    else if name in v.rows then (v, AlreadyExists)
    else if !env.lvcreateOk || name in v.lvs then (v, CommandFailed)
    else
      var made := v.(lvs := v.lvs[name := Want(size) + env.slack]);
      if !env.mkfsOk then (if env.undoOk then v else made, CommandFailed)
      else if !env.putOk then (if env.undoOk then v else made, StoreFailed)
      else (made.(rows := v.rows[name := Row(HostPath(name), env.now)]), Ok)
  }

  function DoDelete(v: State, name: string, force: bool, env: DeleteEnv): (State, Result) {
    if !env.getOk then (v, StoreFailed)
    else if name !in v.rows then (v, Ok)
    else if !env.listOk then (v, StoreFailed)
    else if Users(v.workloads, name) != [] && !force then (v, InUse)
    else if env.lvremove == Fails then (v, CommandFailed)
    else
      var gone := if env.lvremove == Works then v.(lvs := v.lvs - {name}) else v;
      if !env.rowOk then (gone, StoreFailed) else (gone.(rows := v.rows - {name}), Ok)
  }

  function DoResize(v: State, name: string, mib: Uint64, env: ResizeEnv): (State, Result) {
    if !DnsLabel(name) || !ValidSize(mib) then (v, Invalid)
    else if !env.getOk then (v, StoreFailed)
    else if name !in v.rows then (v, NotFound)
    else if !env.listOk then (v, StoreFailed)
    else if Users(v.workloads, name) != [] then (v, InUse)
    else if Want(mib) < env.reading then (v, Shrink)
    else if Want(mib) == env.reading then (v, Ok)
    else if !env.lvresizeOk || name !in v.lvs || Want(mib) + env.slack < v.lvs[name] then (v, CommandFailed)
    else (v.(lvs := v.lvs[name := Want(mib) + env.slack]), if env.growOk then Ok else CommandFailed)
  }

  function Step(v: State, op: Op): State {
    match op
    case Create(name, mib, env) => DoCreate(v, name, mib, env).0
    case Delete(name, force, env) => DoDelete(v, name, force, env).0
    case Resize(name, mib, env) => DoResize(v, name, mib, env).0
    case SetWorkloads(ws) => v.(workloads := ws)
  }

  class VolumeService {
    var rows: map<string, Row>
    var lvs: map<string, nat>
    var workloads: seq<Workload>

    ghost function View(): State
      reads this
    {
      State(rows, lvs, workloads)
    }

    constructor (v: State)
      ensures View() == v
    {
      rows, lvs, workloads := v.rows, v.lvs, v.workloads;
    }

    /** createVolumeLV: make the volume, format it, and take it back if formatting fails. */
    method CreateLV(name: string, mib: Uint64, env: CreateEnv) returns (ok: bool)
      requires ValidSize(mib)
      modifies this`lvs
      ensures ok <==> env.lvcreateOk && name !in old(lvs) && env.mkfsOk
      ensures lvs == if env.lvcreateOk && name !in old(lvs) && (env.mkfsOk || !env.undoOk)
                     then old(lvs)[name := Want(mib) + env.slack] else old(lvs)
    {
      if !env.lvcreateOk || name in lvs {
        return false;
      }
      lvs := lvs[name := Want(mib) + env.slack];
      if !env.mkfsOk {
        if env.undoOk {
          lvs := lvs - {name};
        }
        return false;
      }
      return true;
    }

    method Create(name: string, mib: Uint64, env: CreateEnv) returns (r: Result)
      modifies this
      ensures (View(), r) == DoCreate(old(View()), name, mib, env)
    {
      var size := EffectiveMiB(mib);
      if !DnsLabel(name) || !ValidSize(size) {
        return Invalid;
      }
      if !env.getOk {
        return StoreFailed;
      }
      if name in rows {
        return AlreadyExists;
      }
      var ok := CreateLV(name, size, env);
      if !ok {
        return CommandFailed;
      }
      if !env.putOk {
        if env.undoOk {
          lvs := lvs - {name};
          assert lvs == old(lvs);
        }
        return StoreFailed;
      }
      rows := rows[name := Row(HostPath(name), env.now)];
      return Ok;
    }

    /** removeVolumeLV: a failure that says "not found" is taken for an absent volume. */
    method RemoveLV(name: string, lvremove: Lvremove) returns (ok: bool)
      modifies this`lvs
      ensures ok <==> lvremove != Fails
      ensures lvs == if lvremove == Works then old(lvs) - {name} else old(lvs)
    {
      if lvremove == Works {
        lvs := lvs - {name};
        return true;
      }
      return lvremove == SaysNotFound;
    }

    method Delete(name: string, force: bool, env: DeleteEnv) returns (r: Result)
      modifies this
      ensures (View(), r) == DoDelete(old(View()), name, force, env)
    {
      if !env.getOk {
        return StoreFailed;
      }
      if name !in rows {
        return Ok;
      }
      if !env.listOk {
        return StoreFailed;
      }
      var users := UsersFromWorkloads(workloads, name);
      if |users| > 0 && !force {
        return InUse;
      }
      var ok := RemoveLV(name, env.lvremove);
      if !ok {
        return CommandFailed;
      }
      if !env.rowOk {
        return StoreFailed;
      }
      rows := rows - {name};
      return Ok;
    }

    method Resize(name: string, mib: Uint64, env: ResizeEnv) returns (r: Result)
      modifies this
      ensures (View(), r) == DoResize(old(View()), name, mib, env)
    {
      if !DnsLabel(name) || !ValidSize(mib) {
        return Invalid;
      }
      if !env.getOk {
        return StoreFailed;
      }
      if name !in rows {
        return NotFound;
      }
      if !env.listOk {
        return StoreFailed;
      }
      var users := UsersFromWorkloads(workloads, name);
      if |users| > 0 {
        return InUse;
      }
      var want := Want(mib);
      if want < env.reading {
        return Shrink;
      }
      if want == env.reading {
        return Ok;
      }
      if !env.lvresizeOk || name !in lvs || want + env.slack < lvs[name] {
        return CommandFailed;
      }
      lvs := lvs[name := want + env.slack];
      return if env.growOk then Ok else CommandFailed;
    }
  }

  // ------------------------------------------------------------------
  // Row and volume stay paired
  // ------------------------------------------------------------------

  /** Every logical volume has its row. */
  predicate Paired(v: State) {
    v.lvs.Keys <= v.rows.Keys
  }

  /** The create makes a volume, fails afterwards, and cannot take it back. */
  predicate CreateStrands(v: State, op: Op)
    requires op.Create?
  {
    && DnsLabel(op.name) && ValidSize(EffectiveMiB(op.mib)) && op.createEnv.getOk
    && op.name !in v.rows && op.name !in v.lvs && op.createEnv.lvcreateOk
    && !(op.createEnv.mkfsOk && op.createEnv.putOk) && !op.createEnv.undoOk
  }

  /** The delete drops the row of a volume that lvremove wrongly says is not there. */
  predicate DeleteStrands(v: State, op: Op)
    requires op.Delete?
  {
    && op.deleteEnv.getOk && op.name in v.rows && op.deleteEnv.listOk
    && (Users(v.workloads, op.name) == [] || op.force)
    && op.name in v.lvs && op.deleteEnv.lvremove == SaysNotFound && op.deleteEnv.rowOk
  }

  predicate Strands(v: State, op: Op) {
    (op.Create? && CreateStrands(v, op)) || (op.Delete? && DeleteStrands(v, op))
  }

  /** One call keeps the pairing exactly when it does not strand a volume. */
  lemma PairedIff(v: State, op: Op)
    requires Paired(v)
    ensures Paired(Step(v, op)) <==> !Strands(v, op)
  {
    if Strands(v, op) {
      assert op.name in Step(v, op).lvs && op.name !in Step(v, op).rows;
    }
  }

  function Run(v: State, ops: seq<Op>): State
    decreases |ops|
  {
    if ops == [] then v else Run(Step(v, ops[0]), ops[1..])
  }

  predicate AlwaysPaired(v: State, ops: seq<Op>)
    decreases |ops|
  {
    Paired(v) && (ops != [] ==> AlwaysPaired(Step(v, ops[0]), ops[1..]))
  }

  predicate NeverStrands(v: State, ops: seq<Op>)
    decreases |ops|
  {
    ops != [] ==> !Strands(v, ops[0]) && NeverStrands(Step(v, ops[0]), ops[1..])
  }

  /** Over a whole run, every volume has its row at every state exactly when no call strands one. */
  lemma {:induction false} AlwaysPairedIff(v: State, ops: seq<Op>)
    requires Paired(v)
    ensures AlwaysPaired(v, ops) <==> NeverStrands(v, ops)
    decreases |ops|
  {
    if ops != [] {
      PairedIff(v, ops[0]);
      if !Strands(v, ops[0]) {
        AlwaysPairedIff(Step(v, ops[0]), ops[1..]);
      }
    }
  }

  /** Compensating removals work, and lvremove says "not found" only of a volume that is not there. */
  predicate HonestRemovals(v: State, ops: seq<Op>)
    decreases |ops|
  {
    ops != [] ==>
      && (ops[0].Create? ==> ops[0].createEnv.undoOk)
      && (ops[0].Delete? && ops[0].deleteEnv.lvremove == SaysNotFound ==> ops[0].name !in v.lvs)
      && HonestRemovals(Step(v, ops[0]), ops[1..])
  }

  /** Whatever else fails, with honest removals no run leaves a volume without a row. */
  lemma {:induction false} RunsStayPaired(v: State, ops: seq<Op>)
    requires Paired(v) && HonestRemovals(v, ops)
    ensures Paired(Run(v, ops))
    decreases |ops|
  {
    if ops != [] {
      PairedIff(v, ops[0]);
      RunsStayPaired(Step(v, ops[0]), ops[1..]);
    }
  }

  /** A delete while the volume group cannot be found reports success and strands the volume. */
  lemma MissingGroupStrandsVolume(row: Row, size: nat)
    ensures var v := State(map["data" := row], map["data" := size], []);
      var (w, r) := DoDelete(v, "data", false, DeleteEnv(true, true, SaysNotFound, true));
      Paired(v) && r == Ok && "data" !in w.rows && "data" in w.lvs
  {
  }

  /** A create whose row write and whose undo both fail strands the volume it made. */
  lemma FailedUndoStrandsVolume(slack: nat)
    ensures var v := State(map[], map[], []);
      var (w, r) := DoCreate(v, "data", 0, CreateEnv(true, true, slack, true, false, false, 0));
      Paired(v) && r == StoreFailed && "data" !in w.rows && "data" in w.lvs
  {
  }

  /** A forced delete is the only call that may take a referenced volume. */
  predicate Forces(op: Op, name: string) {
    op.Delete? && op.name == name && op.force
  }

  predicate ReferencedThroughout(v: State, ops: seq<Op>, name: string)
    decreases |ops|
  {
    Referenced(v.workloads, name) && (ops != [] ==> ReferencedThroughout(Step(v, ops[0]), ops[1..], name))
  }

  lemma ReferencedStep(v: State, op: Op, name: string)
    requires name in v.lvs && name in v.rows && Referenced(v.workloads, name) && !Forces(op, name)
    ensures var w := Step(v, op);
      name in w.lvs && name in w.rows && w.lvs[name] == v.lvs[name] && w.rows[name] == v.rows[name]
  {
    UsersIffReferenced(v.workloads, name);
  }

  /**
   While some workload references it, a volume keeps its row and its exact size through any run
   without a forced delete.
   */
  lemma {:induction false} ReferencedIsSafe(v: State, ops: seq<Op>, name: string)
    requires name in v.lvs && name in v.rows && ReferencedThroughout(v, ops, name)
    requires forall i :: 0 <= i < |ops| ==> !Forces(ops[i], name)
    ensures var w := Run(v, ops);
      name in w.lvs && name in w.rows && w.lvs[name] == v.lvs[name] && w.rows[name] == v.rows[name]
    decreases |ops|
  {
    if ops != [] {
      ReferencedStep(v, ops[0], name);
      ReferencedIsSafe(Step(v, ops[0]), ops[1..], name);
    }
  }

  // ------------------------------------------------------------------
  // Sizes
  // ------------------------------------------------------------------

  /** Accepted sizes are computed exactly: no 64-bit wrap. */
  lemma WantIsExact(mib: Uint64)
    requires ValidSize(mib)
    ensures Want(mib) == mib * MIB && Want(mib) <= 0x100_0000_0000
  {
  }

  /** Whatever was read and requested, a volume that is never deleted never gets smaller, over any run. */
  lemma {:induction false} SizesNeverDecrease(v: State, ops: seq<Op>, name: string)
    requires name in v.lvs && name in v.rows
    requires forall i :: 0 <= i < |ops| ==> !(ops[i].Delete? && ops[i].name == name)
    ensures var w := Run(v, ops); name in w.lvs && w.lvs[name] >= v.lvs[name]
    decreases |ops|
  {
    if ops != [] {
      SizesNeverDecrease(Step(v, ops[0]), ops[1..], name);
    }
  }

  /**
   With the size read right, a resize of a detached volume succeeds exactly on a valid growth (or no
   change) and delivers it.
   */
  lemma ResizeSucceedsIff(v: State, name: string, mib: Uint64, env: ResizeEnv)
    requires Paired(v) && name in v.lvs && env.reading == v.lvs[name]
    ensures var (w, r) := DoResize(v, name, mib, env);
      && (r == Ok <==> DnsLabel(name) && 32 <= mib <= 1048576 && env.getOk && env.listOk && !Referenced(v.workloads,
          name)
                       && (mib * 1048576 == v.lvs[name] || (mib * 1048576 > v.lvs[name] && env.lvresizeOk
                           && env.growOk)))
      && (r == Ok ==> w.lvs[name] >= mib * 1048576)
      && (r == Shrink <==>
          && DnsLabel(name) && 32 <= mib <= 1048576 && env.getOk && env.listOk
          && !Referenced(v.workloads, name) && mib * 1048576 < v.lvs[name])
  {
    UsersIffReferenced(v.workloads, name);
    if ValidSize(mib) {
      WantIsExact(mib);
    }
  }

  /**
   A create succeeds exactly on a free, valid name with every command working, and then the pair is
   there at the asked size.
   */
  lemma CreateSucceedsIff(v: State, name: string, mib: Uint64, env: CreateEnv)
    requires Paired(v)
    ensures var (w, r) := DoCreate(v, name, mib, env); var size := if mib == 0 then 512 else mib;
      && (r == Ok <==> DnsLabel(name) && 32 <= size <= 1048576 && env.getOk && name !in v.rows
                       && env.lvcreateOk && env.mkfsOk && env.putOk)
      && (r == Ok ==> name in w.rows && w.rows[name] == Row("/dev/capsule/vol-" + name, env.now)
                      && name in w.lvs && w.lvs[name] == size * 1048576 + env.slack)
  {
    var size := EffectiveMiB(mib);
    if ValidSize(size) {
      WantIsExact(size);
    }
  }

  /**
   A delete that reports success always drops the row, and leaves the volume exactly when lvremove
   wrongly said "not found".
   */
  lemma DeleteLeavesNothingIff(v: State, name: string, force: bool, env: DeleteEnv)
    requires Paired(v) && DoDelete(v, name, force, env).1 == Ok
    ensures var w := DoDelete(v, name, force, env).0;
      name !in w.rows && (name !in w.lvs <==> !(name in v.lvs && env.lvremove == SaysNotFound))
  {
  }

  /**
   A delete reports success exactly when the store answers and there is no row, or nobody mounts the
   volume (or it is forced) and both removals go through.
   */
  lemma DeleteSucceedsIff(v: State, name: string, force: bool, env: DeleteEnv)
    ensures var r := DoDelete(v, name, force, env).1;
      && (r == Ok <==> env.getOk && (name !in v.rows ||
                                     (env.listOk && (force || !Referenced(v.workloads, name))
                                      && env.lvremove != Fails && env.rowOk)))
      && (r == InUse <==> env.getOk && name in v.rows && env.listOk && !force && Referenced(v.workloads, name))
      && (r != Ok ==> DoDelete(v, name, force, env).0.rows == v.rows)
  {
    UsersIffReferenced(v.workloads, name);
  }

  /** Volumes have their devices to themselves, directly under the volume group's directory. */
  lemma DevicesAreSeparate(a: string, b: string)
    requires DnsLabel(a) && DnsLabel(b)
    ensures HostPath(a) == HostPath(b) ==> a == b
    ensures forall i :: 13 <= i < |HostPath(a)| ==> HostPath(a)[i] != '/' && HostPath(a)[i] != '.'
    ensures HasPrefix(HostPath(a), "/dev/capsule/vol-")
  {
    var prefix := "/dev/capsule/vol-";
    assert HostPath(a)[|prefix|..] == a && HostPath(b)[|prefix|..] == b;
    assert forall i :: |prefix| <= i < |HostPath(a)| ==> HostPath(a)[i] == a[i - |prefix|];
  }

  /** Each refusal of a create says what is wrong, and none changes a row. */
  lemma CreateRefusals(v: State, name: string, mib: Uint64, env: CreateEnv)
    ensures var (w, r) := DoCreate(v, name, mib, env);
      var valid := DnsLabel(name) && (mib == 0 || 32 <= mib <= 1048576);
      && (r == Invalid <==> !valid)
      && (r == AlreadyExists <==> valid && env.getOk && name in v.rows)
      && (r != Ok ==> w.rows == v.rows)
      && r != NotFound && r != InUse && r != Shrink
  {
  }

  /** The same for a resize, which moreover leaves the volume as it was unless its command ran. */
  lemma ResizeRefusals(v: State, name: string, mib: Uint64, env: ResizeEnv)
    ensures var (w, r) := DoResize(v, name, mib, env); var valid := DnsLabel(name) && 32 <= mib <= 1048576;
      && (r == Invalid <==> !valid)
      && (r == NotFound <==> valid && env.getOk && name !in v.rows)
      && (r == InUse <==> valid && env.getOk && name in v.rows && env.listOk && Referenced(v.workloads, name))
      && w.rows == v.rows && (r == Invalid || r == NotFound || r == InUse || r == Shrink || r == StoreFailed ==> w == v)
  {
    UsersIffReferenced(v.workloads, name);
  }

  /** A call changes nothing about any other volume. */
  lemma CallsAreLocal(v: State, op: Op, other: string)
    requires !op.SetWorkloads? && op.name != other
    ensures var w := Step(v, op);
      && (other in w.rows <==> other in v.rows) && (other in v.rows ==> w.rows[other] == v.rows[other])
      && (other in w.lvs <==> other in v.lvs) && (other in v.lvs ==> w.lvs[other] == v.lvs[other])
      && w.workloads == v.workloads
  {
  }

  /** A delete that removed the volume but lost its row write is finished by running it again. */
  lemma DeleteRetries(v: State, name: string, force: bool, env: DeleteEnv, again: DeleteEnv)
    requires Paired(v) && name in v.rows && DoDelete(v, name, force, env) == (v.(lvs := v.lvs - {name}), StoreFailed)
    requires again.getOk && again.listOk && again.rowOk && again.lvremove != Fails
        && (Users(v.workloads, name) == [] || force)
    ensures var (w, r) := DoDelete(DoDelete(v, name, force, env).0, name, force, again);
      r == Ok && name !in w.rows && name !in w.lvs
  {
  }
}
