/**
 The daemon's workload side as one object: store, runtime drivers and wake channel, changed
 in place by the service calls and by the reconciler.
 */
module Capsules {
  import opened Prelude
  import opened Workloads
  import R = Reconciler
  import L = ReconcileLoop
  import WakeChannel

  datatype OpResult = Done | InvalidWorkload | NotFound | NoRuntime | RuntimeFailed | StoreFailed

  class Capsule {
    const cfg: Config
    var store: map<string, Workload>
    var containers: map<string, ContainerEntry>
    var vms: map<string, VmEntry>
    var wake: nat

    ghost function View(): World
      reads this
    {
      World(store, containers, vms)
    }

    constructor (cfg: Config)
      ensures this.cfg == cfg && View() == World(map[], map[], map[]) && wake == 0
    {
      this.cfg := cfg;
      store, containers, vms, wake := map[], map[], map[], 0;
    }

    method Kick()
      modifies this`wake
      ensures wake == WakeChannel.Kicked(old(wake))
    {
      if wake < WakeChannel.CAPACITY {
        wake := wake + 1;
      }
    }

    // ----------------------------------------------------------------
    // Drivers
    // ----------------------------------------------------------------

    /** Remove through the driver of `kind`. */
    method Remove(name: string, kind: Kind, o: Oracle) returns (ok: bool)
      modifies this`containers, this`vms
      ensures View() == old(View()).With(name, RemoveFor(cfg, old(View()).At(name), kind, o).0)
      ensures ok == RemoveFor(cfg, old(View()).At(name), kind, o).1 == RemoveWorks(cfg, kind, o)
    {
      ok := true;
      if kind == MicroVM {
        if cfg.vms {
          vms := vms - {name};
        }
      } else if cfg.containers {
        if o.removeOk {
          containers := containers - {name};
        } else {
          ok := false;
          if name in containers && o.taskGone {
            containers := containers[name := containers[name].(task := NoTask)];
          }
        }
      }
      WithSame(old(View()), View(), name);
    }

    /** EnsureRunning of the container driver. */
    method EnsureContainerRunning(w: Workload, o: Oracle) returns (ok: bool)
      modifies this`containers
      ensures View() == old(View()).With(w.name, EnsureContainer(cfg, old(View()).At(w.name), w, o).0)
      ensures ok == EnsureContainer(cfg, old(View()).At(w.name), w, o).1
    {
      ok := false;
      if w.container.Some? {
        if !o.ensureOk {
          containers := Set(containers, w.name, o.ensureLeft);
        } else {
          var hash := cfg.hash(w.container.value);
          ok := true;
          if w.name !in containers || !ContainerCurrent(containers[w.name], hash) {
            containers := containers[w.name := ContainerEntry(hash, TaskRunning, o.born)];
          }
        }
      }
      WithSame(old(View()), View(), w.name);
    }

    /** EnsureRunning of the VM driver. */
    method EnsureVMRunning(w: Workload, o: Oracle) returns (ok: bool)
      modifies this`vms
      ensures View() == old(View()).With(w.name, EnsureVM(cfg, old(View()).At(w.name), w, o).0)
      ensures ok == EnsureVM(cfg, old(View()).At(w.name), w, o).1
    {
      ok := false;
      if w.vm.Some? {
        if !o.ensureOk {
          vms := Set(vms, w.name, o.ensureVmLeft);
        } else {
          var hash := cfg.hash(w.vm.value);
          ok := true;
          if w.name !in vms || !VmCurrent(vms[w.name], hash) {
            vms := vms[w.name := VmEntry(if o.hashSaved then hash else o.hashLeft, o.born)];
          }
        }
      }
      WithSame(old(View()), View(), w.name);
    }

    // ----------------------------------------------------------------
    // Service calls
    // ----------------------------------------------------------------

    method Apply(w: Workload, o: Oracle) returns (r: OpResult)
      modifies this
      ensures View() == old(View()).With(w.name, OpSlice(cfg, old(View()).At(w.name), Op.Apply(w, o)))
      ensures r == if !Valid(w) then InvalidWorkload else if o.getOk && o.putOk then Done else StoreFailed
      ensures r == Done <==> L.Announces(cfg, old(View()).At(w.name), Op.Apply(w, o))
      ensures wake == if r == Done then WakeChannel.Kicked(old(wake)) else old(wake)
    {
      WithSame(View(), View(), w.name);
      if !Valid(w) {
        return InvalidWorkload;
      }
      if !o.getOk {
        return StoreFailed;
      }
      var merged := w;
      if w.name in store {
        merged := merged.(status := store[w.name].status);
      }
      if !o.putOk {
        return StoreFailed;
      }
      store := store[w.name := merged];
      WithSame(old(View()), View(), w.name);
      Kick();
      return Done;
    }

    /** Marks the row, if it is read, so that the reconciler leaves it alone. */
    method MarkDeleting(name: string, o: Oracle) returns (kind: Kind, ok: bool)
      modifies this`store
      ensures kind == SeenKind(old(View()).At(name), o) && ok == !MarkFails(old(View()).At(name), o)
      ensures View() == old(View()).With(name, if ok && o.getOk then Marked(old(View()).At(name))
                                               else old(View()).At(name))
    {
      kind, ok := NoKind, true;
      WithSame(View(), View(), name);
      if o.getOk && name in store {
        kind := store[name].kind;
        if store[name].desired != Deleting {
          if !o.putOk {
            ok := false;
            return;
          }
          store := store[name := store[name].(desired := Deleting)];
        }
      }
      WithSame(old(View()), View(), name);
    }

    method Delete(name: string, o: Oracle) returns (r: OpResult)
      modifies this
      ensures View() == old(View()).With(name, OpSlice(cfg, old(View()).At(name), Op.Delete(name, o)))
      ensures r == Done <==> DeleteDone(cfg, old(View()).At(name), o)
      ensures r != Done ==>
                r == if MarkFails(old(View()).At(name), o) || RemoveWorks(cfg, SeenKind(old(View()).At(name), o), o)
                     then StoreFailed else RuntimeFailed
      ensures r == Done <==> L.Announces(cfg, old(View()).At(name), Op.Delete(name, o))
      ensures wake == if r == Done then WakeChannel.Kicked(old(wake)) else old(wake)
    {
      ghost var before := View();
      ghost var s := before.At(name);
      var kind, marked := MarkDeleting(name, o);
      if !marked {
        return StoreFailed;
      }
      ghost var m := if o.getOk then Marked(s) else s;
      AtWith(before, name, m, name);
      var ok := Remove(name, kind, o);
      ghost var removed := RemoveFor(cfg, m, kind, o).0;
      WithTwice(before, name, m, removed);
      if !ok {
        return RuntimeFailed;
      }
      if !o.rowOk {
        return StoreFailed;
      }
      ghost var was := View();
      AtWith(before, name, removed, name);
      store := store - {name};
      WithSame(was, View(), name);
      WithTwice(before, name, removed, removed.(row := None));
      Kick();
      return Done;
    }

    method Restart(name: string, o: Oracle) returns (r: OpResult)
      modifies this
      ensures View() == old(View()).With(name, OpSlice(cfg, old(View()).At(name), Op.Restart(name, o)))
      ensures r == if !o.getOk then StoreFailed
                   else if name !in old(store) then NotFound
                   else if !(if old(store)[name].kind == MicroVM then cfg.vms else cfg.containers) then NoRuntime
                   else if RemoveWorks(cfg, old(store)[name].kind, o) then Done else RuntimeFailed
      ensures r == Done <==> L.Announces(cfg, old(View()).At(name), Op.Restart(name, o))
      ensures wake == if r == Done then WakeChannel.Kicked(old(wake)) else old(wake)
    {
      WithSame(View(), View(), name);
      if !o.getOk {
        return StoreFailed;
      }
      if name !in store {
        return NotFound;
      }
      var kind := store[name].kind;
      if if kind == MicroVM then !cfg.vms else !cfg.containers {
        return NoRuntime;
      }
      var ok := Remove(name, kind, o);
      if !ok {
        return RuntimeFailed;
      }
      Kick();
      return Done;
    }

    method Stop(name: string, o: Oracle) returns (r: OpResult)
      modifies this
      ensures View() == old(View()).With(name, OpSlice(cfg, old(View()).At(name), Op.Stop(name, o)))
      ensures r == if !o.getOk then StoreFailed else if name !in old(store) then NotFound
                   else if o.putOk then Done else StoreFailed
      ensures r == Done <==> L.Announces(cfg, old(View()).At(name), Op.Stop(name, o))
      ensures wake == if r == Done then WakeChannel.Kicked(old(wake)) else old(wake)
    {
      WithSame(View(), View(), name);
      if !o.getOk {
        return StoreFailed;
      }
      if name !in store {
        return NotFound;
      }
      if !o.putOk {
        return StoreFailed;
      }
      store := store[name := store[name].(desired := Stopped)];
      WithSame(old(View()), View(), name);
      ghost var marked := View();
      var _ := Remove(name, store[name].kind, o);
      WithTwice(old(View()), name, marked.At(name), View().At(name));
      Kick();
      return Done;
    }

    method Start(name: string, o: Oracle) returns (r: OpResult)
      modifies this
      ensures View() == old(View()).With(name, OpSlice(cfg, old(View()).At(name), Op.Start(name, o)))
      ensures r == if !o.getOk then StoreFailed else if name !in old(store) then NotFound
                   else if o.putOk then Done else StoreFailed
      ensures r == Done <==> L.Announces(cfg, old(View()).At(name), Op.Start(name, o))
      ensures wake == if r == Done then WakeChannel.Kicked(old(wake)) else old(wake)
    {
      WithSame(View(), View(), name);
      if !o.getOk {
        return StoreFailed;
      }
      if name !in store {
        return NotFound;
      }
      if !o.putOk {
        return StoreFailed;
      }
      store := store[name := store[name].(desired := Running, status := Some(Status(PhasePending, "starting")))];
      WithSame(old(View()), View(), name);
      Kick();
      return Done;
    }

    /**
     Records observed state; a row that is gone, or already says so, is left alone, and a store
     error is only logged.
     */
    method RecordStatus(name: string, st: Status, o: Oracle)
      modifies this`store
      ensures View() == old(View()).With(name, if o.getOk && o.putOk then SetStatus(old(View()).At(name), st)
                                               else old(View()).At(name))
    {
      if o.getOk && name in store && store[name].status != Some(st) && o.putOk {
        store := store[name := store[name].(status := Some(st))];
      }
      WithSame(old(View()), View(), name);
    }

    // ----------------------------------------------------------------
    // The reconciler
    // ----------------------------------------------------------------

    /** Between the two driver calls a running task may exit or stall. */
    method TaskMoves(name: string, o: Oracle)
      modifies this`containers
      ensures View() == old(View()).With(name, AfterCrash(old(View()).At(name), o))
    {
      if name in containers && o.crashed.Some? {
        containers := containers[name := containers[name].(task := o.crashed.value)];
      }
      WithSame(old(View()), View(), name);
    }

    method DriveContainer(w: Workload, o: Oracle) returns (observed: Option<Status>)
      requires w.WantsRunning() && w.kind == Container
      modifies this`containers
      ensures View() == old(View()).With(w.name, Drive(cfg, old(View()).At(w.name), w, o).0)
      ensures observed == Drive(cfg, old(View()).At(w.name), w, o).1
    {
      WithSame(View(), View(), w.name);
      if !cfg.containers {
        return Some(Status(PhaseFailed, "no container runtime"));
      }
      ghost var before := View();
      ghost var t := EnsureContainer(cfg, before.At(w.name), w, o).0;
      var ok := EnsureContainerRunning(w, o);
      AtWith(before, w.name, t, w.name);
      if !ok {
        return Some(Status(PhaseFailed, o.error));
      }
      TaskMoves(w.name, o);
      WithTwice(before, w.name, t, AfterCrash(t, o));
      AtWith(before, w.name, AfterCrash(t, o), w.name);
      if !o.statusOk {
        return None;
      }
      return Some(ContainerStatus(if w.name in containers then Some(containers[w.name]) else None));
    }

    method DriveVM(w: Workload, o: Oracle) returns (observed: Option<Status>)
      requires w.WantsRunning() && w.kind == MicroVM
      modifies this`vms
      ensures View() == old(View()).With(w.name, Drive(cfg, old(View()).At(w.name), w, o).0)
      ensures observed == Drive(cfg, old(View()).At(w.name), w, o).1
    {
      WithSame(View(), View(), w.name);
      if !cfg.vms {
        return Some(Status(PhaseFailed, "no vm runtime"));
      }
      var ok := EnsureVMRunning(w, o);
      AtWith(old(View()), w.name, EnsureVM(cfg, old(View()).At(w.name), w, o).0, w.name);
      assert View().At(w.name) == EnsureVM(cfg, old(View()).At(w.name), w, o).0;
      if !ok {
        return Some(Status(PhaseFailed, o.error));
      }
      if !o.statusOk {
        return None;
      }
      return Some(VmStatus(if w.name in vms then Some(vms[w.name]) else None));
    }

    /** The branches of reconcileOne: what is done to the driver, and the status to write. */
    method DriveOne(w: Workload, o: Oracle) returns (observed: Option<Status>)
      modifies this`containers, this`vms
      ensures View() == old(View()).With(w.name, Drive(cfg, old(View()).At(w.name), w, o).0)
      ensures observed == Drive(cfg, old(View()).At(w.name), w, o).1
    {
      WithSame(View(), View(), w.name);
      if w.desired == Deleting {
        return None;
      }
      if w.desired == Stopped {
        if w.kind != NoKind {
          var _ := Remove(w.name, w.kind, o);
        }
        return Some(Status(PhaseStopped, "stopped by operator"));
      }
      match w.kind {
        case NoKind => return Some(Status(PhaseFailed, "unsupported kind"));
        case Container => observed := DriveContainer(w, o);
        case MicroVM => observed := DriveVM(w, o);
      }
    }

    method ReconcileOne(w: Workload, o: Oracle)
      modifies this`store, this`containers, this`vms
      ensures View() == R.Pass(cfg, old(View()), w, o)
    {
      ghost var before := View();
      ghost var t := Drive(cfg, before.At(w.name), w, o).0;
      var observed := DriveOne(w, o);
      AtWith(before, w.name, t, w.name);
      if observed.Some? {
        RecordStatus(w.name, observed.value, o);
        WithTwice(before, w.name, t, if o.getOk && o.putOk then SetStatus(t, observed.value) else t);
      }
    }

    /** Every stored row, once each; the source sorts by name, here any order is allowed. */
    method List() returns (ws: seq<Workload>)
      requires R.GoodStore(store)
      ensures R.IsListing(ws, store)
    {
      ws := [];
      var left := store.Keys;
      while left != {}
        invariant left <= store.Keys
        invariant R.Distinct(ws)
        invariant forall i :: 0 <= i < |ws| ==> ws[i].name in store && store[ws[i].name] == ws[i] && ws[i].name !in left
        invariant forall n :: n in store && n !in left ==> R.Names(ws, n)
        decreases |left|
      {
        var n :| n in left;
        forall m | m in store && m !in left - {n}
          ensures R.Names(ws + [store[n]], m)
        {
          R.NamesSnoc(ws, store[n], m);
        }
        ws := ws + [store[n]];
        left := left - {n};
      }
    }

    /** reconcileOne for each listed row; `env` gives the outcome of each name's calls. */
    method ReconcileAll(listed: seq<Workload>, env: string -> Oracle)
      modifies this`store, this`containers, this`vms
      ensures View() == R.Tick(cfg, old(View()), listed, Outcomes(listed, env))
    {
      var i := 0;
      while i < |listed|
        invariant 0 <= i <= |listed|
        invariant R.Tick(cfg, View(), listed[i..], Outcomes(listed[i..], env))
               == R.Tick(cfg, old(View()), listed, Outcomes(listed, env))
      {
        var w := listed[i];
        ghost var rest := listed[i..];
        assert rest[0] == w && rest[1..] == listed[i + 1..];
        assert Outcomes(rest, env)[0] == env(w.name) && Outcomes(rest, env)[1..] == Outcomes(rest[1..], env);
        ReconcileOne(w, env(w.name));
        i := i + 1;
      }
    }

    /** One reconciliation pass over a listing of the store, or nothing if the listing fails. */
    method Tick(env: string -> Oracle, listOk: bool) returns (ghost ws: seq<Workload>)
      requires R.GoodStore(store)
      modifies this`store, this`containers, this`vms
      ensures if listOk then R.IsListing(ws, old(store)) else ws == []
      ensures View() == R.Tick(cfg, old(View()), ws, Outcomes(ws, env))
    {
      ws := [];
      if listOk {
        var listed := List();
        ws := listed;
        ReconcileAll(listed, env);
      }
    }
  }

  function Outcomes(ws: seq<Workload>, env: string -> Oracle): (os: seq<Oracle>)
    ensures |os| == |ws|
  {
    seq(|ws|, i requires 0 <= i < |ws| => env(ws[i].name))
  }
}
