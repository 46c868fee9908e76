/**
 The level-triggered loop: a Tick lists the store and reconciles each listed row in turn.
 Service calls fall between the passes of a Tick, so a pass may work from a stale snapshot, and
 between the read and the write of a status update, which writes the whole row back.
 */
module Reconciler {
  import opened Prelude
  import opened Workloads

  // ------------------------------------------------------------------
  // One Tick
  // ------------------------------------------------------------------

  function Pass(cfg: Config, world: World, w: Workload, o: Oracle): World {
    world.With(w.name, Reconcile(cfg, world.At(w.name), w, o))
  }

  function Tick(cfg: Config, world: World, ws: seq<Workload>, os: seq<Oracle>): World
    requires |ws| == |os|
    decreases |ws|
  {
    if ws == [] then world else Tick(cfg, Pass(cfg, world, ws[0], os[0]), ws[1..], os[1..])
  }

  predicate Distinct(ws: seq<Workload>) {
    forall i, j :: 0 <= i < j < |ws| ==> ws[i].name != ws[j].name
  }

  predicate Names(ws: seq<Workload>, n: string) {
    exists i :: 0 <= i < |ws| && ws[i].name == n
  }

  lemma NamesSnoc(ws: seq<Workload>, w: Workload, n: string)
    ensures Names(ws + [w], n) <==> Names(ws, n) || w.name == n
  {
    var all := ws + [w];
    assert all[|ws|] == w;
    if Names(ws, n) {
      var i :| 0 <= i < |ws| && ws[i].name == n;
      assert all[i].name == n;
    }
  }

  lemma NamesCons(ws: seq<Workload>, n: string)
    requires ws != []
    ensures Names(ws, n) <==> ws[0].name == n || Names(ws[1..], n)
  {
    assert forall i :: 0 <= i < |ws[1..]| ==> ws[1..][i] == ws[i + 1];
    if Names(ws, n) && ws[0].name != n {
      var i :| 0 <= i < |ws| && ws[i].name == n;
      assert ws[1..][i - 1] == ws[i];
    }
  }

  /** `ws` lists the store: every row once, in some order. */
  predicate IsListing(ws: seq<Workload>, store: map<string, Workload>) {
    && Distinct(ws)
    && (forall i :: 0 <= i < |ws| ==> ws[i].name in store && store[ws[i].name] == ws[i])
    && (forall n :: n in store ==> Names(ws, n))
  }

  /** Rows are filed under their own valid name. */
  predicate GoodStore(store: map<string, Workload>) {
    forall n :: n in store ==> store[n].name == n && Valid(store[n])
  }

  predicate AllSucceed(os: seq<Oracle>) {
    forall i :: 0 <= i < |os| ==> os[i].Succeeds()
  }

  /** A pass touches only its own name. */
  lemma PassIsLocal(cfg: Config, world: World, w: Workload, o: Oracle, n: string)
    ensures Pass(cfg, world, w, o).At(n) == if n == w.name then Reconcile(cfg, world.At(n), w, o) else world.At(n)
  {
    AtWith(world, w.name, Reconcile(cfg, world.At(w.name), w, o), n);
  }

  lemma {:induction false} TickSkips(cfg: Config, world: World, ws: seq<Workload>, os: seq<Oracle>, n: string)
    requires |ws| == |os| && !Names(ws, n)
    ensures Tick(cfg, world, ws, os).At(n) == world.At(n)
    decreases |ws|
  {
    if ws != [] {
      assert ws[0].name != n;
      assert forall i :: 0 <= i < |ws[1..]| ==> ws[1..][i] == ws[i + 1];
      PassIsLocal(cfg, world, ws[0], os[0], n);
      TickSkips(cfg, Pass(cfg, world, ws[0], os[0]), ws[1..], os[1..], n);
    }
  }

  /** A Tick does to each listed name exactly one pass, whatever the order. */
  lemma {:induction false} TickAt(cfg: Config, world: World, ws: seq<Workload>, os: seq<Oracle>, i: nat)
    requires |ws| == |os| && Distinct(ws) && i < |ws|
    ensures Tick(cfg, world, ws, os).At(ws[i].name) == Reconcile(cfg, world.At(ws[i].name), ws[i], os[i])
    decreases |ws|
  {
    var n := ws[i].name;
    var next := Pass(cfg, world, ws[0], os[0]);
    PassIsLocal(cfg, world, ws[0], os[0], n);
    assert forall k :: 0 <= k < |ws[1..]| ==> ws[1..][k] == ws[k + 1];
    if i == 0 {
      TickSkips(cfg, next, ws[1..], os[1..], n);
    } else {
      assert ws[0].name != n;
      TickAt(cfg, next, ws[1..], os[1..], i - 1);
    }
  }

  /**
   One Tick with succeeding drivers converges from an arbitrary runtime state: every stopped
   row is absent from its driver, every wanted row runs the desired or an unrecorded spec,
   tombstones and names without a row are untouched, and no row changes but for its status.
   An entry under the other kind's driver stays, so a name must not change kind.
   */
  lemma TickConverges(cfg: Config, world: World, ws: seq<Workload>, os: seq<Oracle>, n: string)
    requires Wired(cfg) && GoodStore(world.store) && IsListing(ws, world.store) && |ws| == |os| && AllSucceed(os)
    ensures var after := Tick(cfg, world, ws, os);
      && Converged(cfg, after.At(n)) && Identity(after.At(n)) == Identity(world.At(n))
      && (n !in world.store || world.store[n].desired == Deleting ==> after.At(n) == world.At(n))
      && (n in world.store && world.store[n].kind == Container ==> after.At(n).vm == world.At(n).vm)
      && (n in world.store && world.store[n].kind == MicroVM ==> after.At(n).container == world.At(n).container)
  {
    if n in world.store {
      assert Names(ws, n);
      var i :| 0 <= i < |ws| && ws[i].name == n;
      TickAt(cfg, world, ws, os, i);
      PassConverges(cfg, world.At(n), os[i]);
      ReconcileKeepsRow(cfg, world.At(n), ws[i], os[i]);
    } else {
      TickSkips(cfg, world, ws, os, n);
    }
  }

  lemma TickKeepsGoodStore(cfg: Config, world: World, ws: seq<Workload>, os: seq<Oracle>)
    requires GoodStore(world.store) && IsListing(ws, world.store) && |ws| == |os|
    ensures GoodStore(Tick(cfg, world, ws, os).store)
  {
    var after := Tick(cfg, world, ws, os);
    forall n | n in after.store
      ensures after.store[n].name == n && Valid(after.store[n])
    {
      if Names(ws, n) {
        var i :| 0 <= i < |ws| && ws[i].name == n;
        TickAt(cfg, world, ws, os, i);
        ReconcileKeepsRow(cfg, world.At(n), ws[i], os[i]);
      } else {
        TickSkips(cfg, world, ws, os, n);
      }
      assert after.At(n).row == Some(after.store[n]);
      assert Identity(after.At(n)) == Identity(world.At(n));
    }
  }

  /** On a quiet system a second Tick, listing in any order, changes neither store nor runtime. */
  lemma TickIdempotent(cfg: Config, world: World, ws: seq<Workload>, os: seq<Oracle>, ws': seq<Workload>,
      os': seq<Oracle>)
    requires Wired(cfg) && GoodStore(world.store) && IsListing(ws, world.store) && |ws| == |os| && AllSucceed(os)
    requires IsListing(ws', Tick(cfg, world, ws, os).store) && |ws'| == |os'| && AllSucceed(os')
    ensures Tick(cfg, Tick(cfg, world, ws, os), ws', os') == Tick(cfg, world, ws, os)
  {
    var once := Tick(cfg, world, ws, os);
    var twice := Tick(cfg, once, ws', os');
    forall n
      ensures twice.At(n) == once.At(n)
    {
      if n in once.store {
        assert Names(ws', n);
        var j :| 0 <= j < |ws'| && ws'[j].name == n;
        TickAt(cfg, once, ws', os', j);
        TickConverges(cfg, world, ws, os, n);
        assert n in world.store && Names(ws, n);
        var i :| 0 <= i < |ws| && ws[i].name == n;
        TickAt(cfg, world, ws, os, i);
        PassIdempotent(cfg, world.At(n), os[i], os'[j]);
      } else {
        TickSkips(cfg, once, ws', os', n);
      }
    }
    WorldExtensional(twice, once);
  }

  // ------------------------------------------------------------------
  // Runs: service calls interleaved with the steps of a Tick
  // ------------------------------------------------------------------

  /** A status update under way: nothing, a status observed, or the row read and about to be written back. */
  datatype Note = Idle | Observed(name: string, status: Status) | Loaded(row: Workload)

  /** `queue` is what is left of the snapshot the current Tick listed. */
  datatype System = System(world: World, queue: seq<Workload>, note: Note)

  datatype Event = List(ws: seq<Workload>) | Next(oracle: Oracle) | Load(ok: bool) | Save(ok: bool) | Call(op: Op)

  /** SetStatus, first half: the row it will write, if it is there and says something else. */
  function Read(world: World, name: string, st: Status): Note {
    if name in world.store && world.store[name].status != Some(st)
    then Loaded(world.store[name].(status := Some(st))) else Idle
  }

  function Step(cfg: Config, sys: System, e: Event): System {
    match e
    case List(ws) =>
      if sys.queue == [] && sys.note == Idle && IsListing(ws, sys.world.store) then sys.(queue := ws) else sys
    case Next(o) =>
      if sys.queue == [] || sys.note != Idle then sys
      else
        var w := sys.queue[0];
        var (t, observed) := Drive(cfg, sys.world.At(w.name), w, o);
        System(sys.world.With(w.name, t), sys.queue[1..],
               if observed.Some? then Observed(w.name, observed.value) else Idle)
    case Load(ok) =>
      if !sys.note.Observed? then sys
      else sys.(note := if ok then Read(sys.world, sys.note.name, sys.note.status) else Idle)
    case Save(ok) =>
      if !sys.note.Loaded? then sys
      else
        var row := sys.note.row;
        System(if ok then sys.world.With(row.name, sys.world.At(row.name).(row := Some(row))) else sys.world,
               sys.queue, Idle)
    case Call(op) => sys.(world := sys.world.With(op.Name(), OpSlice(cfg, sys.world.At(op.Name()), op)))
  }

  function Run(cfg: Config, sys: System, es: seq<Event>): System
    decreases |es|
  {
    if es == [] then sys else Run(cfg, Step(cfg, sys, es[0]), es[1..])
  }

  lemma {:induction false} RunConcat(cfg: Config, sys: System, a: seq<Event>, b: seq<Event>)
    ensures Run(cfg, sys, a + b) == Run(cfg, Run(cfg, sys, a), b)
    decreases |a|
  {
    if a == [] {
      assert a + b == b;
    } else {
      assert (a + b)[1..] == a[1..] + b;
      RunConcat(cfg, Step(cfg, sys, a[0]), a[1..], b);
    }
  }

  /** The step calls EnsureRunning for `n`. */
  predicate Ensures(cfg: Config, sys: System, e: Event, n: string) {
    e.Next? && sys.note == Idle && sys.queue != [] && sys.queue[0].name == n && CallsEnsure(cfg, sys.queue[0])
  }

  predicate NeverEnsures(cfg: Config, sys: System, es: seq<Event>, n: string)
    decreases |es|
  {
    es != [] ==> !Ensures(cfg, sys, es[0], n) && NeverEnsures(cfg, Step(cfg, sys, es[0]), es[1..], n)
  }

  /** One pass as three steps. */
  function PassEvents(o: Oracle): seq<Event> {
    [Next(o), Load(o.getOk), Save(o.putOk)]
  }

  function Passes(os: seq<Oracle>): seq<Event> {
    if os == [] then [] else PassEvents(os[0]) + Passes(os[1..])
  }

  /** The three steps of a pass, one after another. */
  function AfterPass(cfg: Config, sys: System, o: Oracle): System {
    Step(cfg, Step(cfg, Step(cfg, sys, Next(o)), Load(o.getOk)), Save(o.putOk))
  }

  lemma RunPass(cfg: Config, sys: System, o: Oracle)
    ensures Run(cfg, sys, PassEvents(o)) == AfterPass(cfg, sys, o)
  {
    var es := PassEvents(o);
    var s1 := Step(cfg, sys, es[0]);
    var s2 := Step(cfg, s1, es[1]);
    assert es[1..][1..][1..] == [];
    assert Run(cfg, s2, es[1..][1..]) == Run(cfg, Step(cfg, s2, es[2]), []);
  }

  lemma PassIsPass(cfg: Config, sys: System, o: Oracle)
    requires sys.note == Idle && sys.queue != [] && Filed(sys.world.store)
    ensures AfterPass(cfg, sys, o) == System(Pass(cfg, sys.world, sys.queue[0], o), sys.queue[1..], Idle)
  {
    var w := sys.queue[0];
    var n, s := w.name, sys.world.At(w.name);
    var (t, observed) := Drive(cfg, s, w, o);
    DriveKeepsRow(cfg, s, w, o);
    AtWith(sys.world, n, t, n);
    var world := sys.world.With(n, t);
    assert n in world.store ==> Some(world.store[n]) == t.row;
    if observed.Some? && o.getOk && o.putOk {
      WithTwice(sys.world, n, t, SetStatus(t, observed.value));
    }
  }

  /** A listed Tick, its passes taken step by step without interruption, is the Tick. */
  lemma {:induction false} PassesAreTick(cfg: Config, sys: System, os: seq<Oracle>)
    requires |os| == |sys.queue| && sys.note == Idle && Filed(sys.world.store)
    ensures Run(cfg, sys, Passes(os)) == System(Tick(cfg, sys.world, sys.queue, os), [], Idle)
    decreases |os|
  {
    if os != [] {
      RunConcat(cfg, sys, PassEvents(os[0]), Passes(os[1..]));
      RunPass(cfg, sys, os[0]);
      PassIsPass(cfg, sys, os[0]);
      PassKeepsFiled(cfg, sys.world, sys.queue[0], os[0]);
      PassesAreTick(cfg, AfterPass(cfg, sys, os[0]), os[1..]);
    }
  }

  /** Rows are filed under their own name. */
  predicate Filed(store: map<string, Workload>) {
    forall n :: n in store ==> store[n].name == n
  }

  lemma PassKeepsFiled(cfg: Config, world: World, w: Workload, o: Oracle)
    requires Filed(world.store)
    ensures Filed(Pass(cfg, world, w, o).store)
  {
    var after := Pass(cfg, world, w, o);
    forall n | n in after.store
      ensures after.store[n].name == n
    {
      PassIsLocal(cfg, world, w, o, n);
      ReconcileKeepsRow(cfg, world.At(n), w, o);
      assert after.At(n).row == Some(after.store[n]);
      assert Identity(after.At(n)) == Identity(world.At(n));
    }
  }

  // ------------------------------------------------------------------
  // What every run keeps
  // ------------------------------------------------------------------

  /** What one step does to one name. */
  lemma StepAt(cfg: Config, sys: System, e: Event, n: string)
    ensures var t := Step(cfg, sys, e).world.At(n); var s := sys.world.At(n);
      match e
      case List(_) => t == s
      case Next(o) =>
        if sys.queue != [] && sys.note == Idle && sys.queue[0].name == n
        then t == Drive(cfg, s, sys.queue[0], o).0 else t == s
      case Load(_) => t == s
      case Save(ok) =>
        if ok && sys.note.Loaded? && sys.note.row.name == n then t == s.(row := Some(sys.note.row)) else t == s
      case Call(op) => if op.Name() == n then t == OpSlice(cfg, s, op) else t == s
  {
    if e.Next? && sys.queue != [] {
      var w := sys.queue[0];
      AtWith(sys.world, w.name, Drive(cfg, sys.world.At(w.name), w, e.oracle).0, n);
    } else if e.Save? && sys.note.Loaded? {
      var row := sys.note.row;
      AtWith(sys.world, row.name, sys.world.At(row.name).(row := Some(row)), n);
    } else if e.Call? {
      AtWith(sys.world, e.op.Name(), OpSlice(cfg, sys.world.At(e.op.Name()), e.op), n);
    }
  }

  predicate GoodSlice(s: Slice, n: string) {
    s.row.Some? ==> s.row.value.name == n && Valid(s.row.value)
  }

  /** Every row, stored or about to be written back, is valid; stored ones are filed under their name. */
  predicate Good(sys: System) {
    GoodStore(sys.world.store) && (sys.note.Loaded? ==> Valid(sys.note.row))
  }

  lemma OpKeepsGoodSlice(cfg: Config, s: Slice, op: Op)
    requires GoodSlice(s, op.Name())
    ensures GoodSlice(OpSlice(cfg, s, op), op.Name())
  {
  }

  lemma StepKeepsGood(cfg: Config, sys: System, e: Event)
    requires Good(sys)
    ensures Good(Step(cfg, sys, e))
  {
    var after := Step(cfg, sys, e).world;
    forall n | n in after.store
      ensures after.store[n].name == n && Valid(after.store[n])
    {
      var s := sys.world.At(n);
      assert GoodSlice(s, n);
      assert GoodSlice(after.At(n), n) by {
        StepAt(cfg, sys, e, n);
        if e.Next? && sys.queue != [] {
          DriveKeepsRow(cfg, s, sys.queue[0], e.oracle);
        } else if e.Call? && e.op.Name() == n {
          OpKeepsGoodSlice(cfg, s, e.op);
        }
      }
    }
  }

  /** Every run of calls, passes and status updates keeps rows valid and filed under their name. */
  lemma {:induction false} RunKeepsGood(cfg: Config, sys: System, es: seq<Event>)
    requires Good(sys)
    ensures Good(Run(cfg, sys, es))
    decreases |es|
  {
    if es != [] {
      StepKeepsGood(cfg, sys, es[0]);
      RunKeepsGood(cfg, Step(cfg, sys, es[0]), es[1..]);
    }
  }

  // ------------------------------------------------------------------
  // Stop
  // ------------------------------------------------------------------

  /** Some snapshot still queued would start `n`. */
  predicate StaleStart(cfg: Config, queue: seq<Workload>, n: string) {
    exists i :: 0 <= i < |queue| && queue[i].name == n && CallsEnsure(cfg, queue[i])
  }

  /** A row of `n` that wants to run is about to be written back. */
  predicate StaleNote(note: Note, n: string) {
    note.Loaded? && note.row.name == n && note.row.WantsRunning()
  }

  /** No row, or a row that does not want to run. */
  predicate Resting(world: World, n: string) {
    n in world.store ==> !world.store[n].WantsRunning()
  }

  /** Only Start and Apply ask for `n` to run. */
  predicate AsksToRun(e: Event, n: string) {
    e.Call? && e.op.Name() == n && (e.op.Start? || e.op.Apply?)
  }

  lemma RestingRow(world: World, n: string)
    ensures Resting(world, n) <==> (world.At(n).row.Some? ==> !world.At(n).row.value.WantsRunning())
  {
  }

  lemma OpKeepsResting(cfg: Config, s: Slice, op: Op)
    requires s.row.Some? ==> !s.row.value.WantsRunning()
    requires !op.Start? && !op.Apply?
    ensures var t := OpSlice(cfg, s, op); t.row.Some? ==> !t.row.value.WantsRunning()
  {
  }

  lemma RestingStep(cfg: Config, sys: System, e: Event, n: string)
    requires Good(sys) && Resting(sys.world, n) && !StaleNote(sys.note, n) && !AsksToRun(e, n)
    ensures var t := Step(cfg, sys, e); Resting(t.world, n) && !StaleNote(t.note, n)
  {
    var s := sys.world.At(n);
    StepAt(cfg, sys, e, n);
    RestingRow(sys.world, n);
    RestingRow(Step(cfg, sys, e).world, n);
    if e.Next? && sys.queue != [] {
      DriveKeepsRow(cfg, s, sys.queue[0], e.oracle);
    } else if e.Call? && e.op.Name() == n {
      OpKeepsResting(cfg, s, e.op);
    }
  }

  lemma QueueStep(cfg: Config, sys: System, e: Event, n: string)
    requires Resting(sys.world, n) && !StaleStart(cfg, sys.queue, n)
    ensures !StaleStart(cfg, Step(cfg, sys, e).queue, n)
  {
    if e.Next? && sys.queue != [] {
      assert forall i :: 0 <= i < |sys.queue[1..]| ==> sys.queue[1..][i] == sys.queue[i + 1];
    }
  }

  /**
   Once a name rests and no queued snapshot or half-done status update of it wants it running,
   nothing but Start or Apply of that name ever starts it again or makes its row want to run.
   */
  lemma {:induction false} StoppedStaysStopped(cfg: Config, sys: System, es: seq<Event>, n: string)
    requires Good(sys) && Resting(sys.world, n) && !StaleStart(cfg, sys.queue, n) && !StaleNote(sys.note, n)
    requires forall i :: 0 <= i < |es| ==> !AsksToRun(es[i], n)
    ensures NeverEnsures(cfg, sys, es, n)
    ensures Resting(Run(cfg, sys, es).world, n)
    decreases |es|
  {
    if es != [] {
      StepKeepsGood(cfg, sys, es[0]);
      RestingStep(cfg, sys, es[0], n);
      QueueStep(cfg, sys, es[0], n);
      StoppedStaysStopped(cfg, Step(cfg, sys, es[0]), es[1..], n);
    }
  }

  /** Finishing a listed Tick calls EnsureRunning for a name exactly when a queued snapshot of it wants it running. */
  lemma {:induction false} PassesEnsureIff(cfg: Config, sys: System, os: seq<Oracle>, n: string)
    requires |os| == |sys.queue| && sys.note == Idle
    ensures NeverEnsures(cfg, sys, Passes(os), n) <==> !StaleStart(cfg, sys.queue, n)
    decreases |os|
  {
    if os != [] {
      var q, o := sys.queue, os[0];
      var rest := Passes(os[1..]);
      var s1 := Step(cfg, sys, Next(o));
      var s2 := Step(cfg, s1, Load(o.getOk));
      var s3 := Step(cfg, s2, Save(o.putOk));
      var es := PassEvents(o) + rest;
      assert es[1..] == [Load(o.getOk), Save(o.putOk)] + rest && es[1..][1..] == [Save(o.putOk)] + rest
          && es[1..][1..][1..] == rest;
      assert NeverEnsures(cfg, s2, es[1..][1..], n) <==> NeverEnsures(cfg, s3, rest, n);
      assert NeverEnsures(cfg, s1, es[1..], n) <==> NeverEnsures(cfg, s3, rest, n);
      PassesEnsureIff(cfg, s3, os[1..], n);
      StaleStartCons(cfg, q, n);
    }
  }

  lemma StaleStartCons(cfg: Config, q: seq<Workload>, n: string)
    requires q != []
    ensures StaleStart(cfg, q, n) <==> (q[0].name == n && CallsEnsure(cfg, q[0])) || StaleStart(cfg, q[1..], n)
  {
    assert forall i :: 0 <= i < |q[1..]| ==> q[1..][i] == q[i + 1];
    if StaleStart(cfg, q, n) && !(q[0].name == n && CallsEnsure(cfg, q[0])) {
      var i :| 0 <= i < |q| && q[i].name == n && CallsEnsure(cfg, q[i]);
      assert q[1..][i - 1] == q[i];
    }
  }

  /** Finish the status update under way, then the rest of the Tick. */
  function Drain(os: seq<Oracle>): seq<Event> {
    [Load(true), Save(true)] + Passes(os)
  }

  /** The steps of a Tick change no row but for its status. */
  lemma {:induction false} RowsStay(cfg: Config, sys: System, os: seq<Oracle>, n: string)
    requires Good(sys) && sys.note == Idle && |os| == |sys.queue|
    ensures Identity(Run(cfg, sys, Passes(os)).world.At(n)) == Identity(sys.world.At(n))
    decreases |os|
  {
    if os != [] {
      RunConcat(cfg, sys, PassEvents(os[0]), Passes(os[1..]));
      RunPass(cfg, sys, os[0]);
      PassIsPass(cfg, sys, os[0]);
      PassKeepsGood(cfg, sys, os[0]);
      PassIsLocal(cfg, sys.world, sys.queue[0], os[0], n);
      ReconcileKeepsRow(cfg, sys.world.At(n), sys.queue[0], os[0]);
      RowsStay(cfg, AfterPass(cfg, sys, os[0]), os[1..], n);
    }
  }

  lemma PassKeepsGood(cfg: Config, sys: System, o: Oracle)
    requires Good(sys)
    ensures Good(AfterPass(cfg, sys, o))
  {
    var s1 := Step(cfg, sys, Next(o));
    StepKeepsGood(cfg, sys, Next(o));
    StepKeepsGood(cfg, s1, Load(o.getOk));
    StepKeepsGood(cfg, Step(cfg, s1, Load(o.getOk)), Save(o.putOk));
  }

  /** Draining is finishing the status update, then the passes. */
  lemma DrainSplits(cfg: Config, sys: System, os: seq<Oracle>, n: string)
    requires Good(sys)
    ensures var s := Step(cfg, Step(cfg, sys, Load(true)), Save(true));
      && Good(s) && s.note == Idle && s.queue == sys.queue
      && Run(cfg, sys, Drain(os)) == Run(cfg, s, Passes(os))
      && (NeverEnsures(cfg, sys, Drain(os), n) <==> NeverEnsures(cfg, s, Passes(os), n))
  {
    var es := Drain(os);
    var s1 := Step(cfg, sys, Load(true));
    StepKeepsGood(cfg, sys, Load(true));
    StepKeepsGood(cfg, s1, Save(true));
    assert es[1..] == [Save(true)] + Passes(os) && es[1..][1..] == Passes(os);
  }

  /**
   The condition is exact: when the Tick under way at the moment of a Stop or Delete runs to its
   end, the name is never started and still rests if and only if no queued snapshot and no
   half-done status update of it wanted it running.
   */
  lemma StopSticksIff(cfg: Config, sys: System, os: seq<Oracle>, n: string)
    requires Good(sys) && Resting(sys.world, n) && |os| == |sys.queue|
    ensures NeverEnsures(cfg, sys, Drain(os), n) && Resting(Run(cfg, sys, Drain(os)).world, n) <==>
            !StaleStart(cfg, sys.queue, n) && !StaleNote(sys.note, n)
  {
    if !StaleStart(cfg, sys.queue, n) && !StaleNote(sys.note, n) {
      PassesAskNothing(os, n);
      StoppedStaysStopped(cfg, sys, Drain(os), n);
    } else {
      var s1 := Step(cfg, sys, Load(true));
      var s2 := Step(cfg, s1, Save(true));
      DrainSplits(cfg, sys, os, n);
      PassesEnsureIff(cfg, s2, os, n);
      if StaleNote(sys.note, n) {
        StepAt(cfg, s1, Save(true), n);
        RestingRow(s2.world, n);
        RowsStay(cfg, s2, os, n);
        RestingRow(Run(cfg, s2, Passes(os)).world, n);
      }
    }
  }

  lemma {:induction false} PassesAskNothing(os: seq<Oracle>, n: string)
    ensures forall i :: 0 <= i < |Passes(os)| ==> !Passes(os)[i].Call?
    ensures forall i :: 0 <= i < |Drain(os)| ==> !AsksToRun(Drain(os)[i], n)
    decreases |os|
  {
    if os != [] {
      PassesAskNothing(os[1..], n);
    }
  }

  /** A status that the row shows already is not written, so that it cannot undo anything. */
  lemma UnchangedStatusIsNotWritten(cfg: Config, sys: System, ok: bool)
    requires sys.note.Observed? && sys.note.name in sys.world.store
    requires sys.world.store[sys.note.name].status == Some(sys.note.status)
    ensures var t := Step(cfg, sys, Load(ok)); t.note == Idle && t.world == sys.world
    ensures Step(cfg, Step(cfg, sys, Load(ok)), Save(true)) == Step(cfg, sys, Load(ok))
  {
  }

  /** A Tick has listed a new container workload, started it and read its row to record that it runs. */
  function MidUpdate(cfg: Config, w: Workload, o: Oracle): System {
    Step(cfg, Step(cfg, System(World(map[w.name := w], map[], map[]), [w], Idle), Next(o)), Load(true))
  }

  predicate NewContainer(cfg: Config, w: Workload) {
    cfg.containers && Valid(w) && w.kind == Container && w.WantsRunning() && w.status == None
  }

  lemma MidUpdateHolds(cfg: Config, w: Workload, o: Oracle)
    requires NewContainer(cfg, w) && o.Succeeds()
    ensures var sys := MidUpdate(cfg, w, o);
      && sys.note == Loaded(w.(status := Some(Status(PhaseRunning, "")))) && sys.queue == []
      && sys.world.At(w.name).row == Some(w)
  {
    var listed := System(World(map[w.name := w], map[], map[]), [w], Idle);
    StepAt(cfg, listed, Next(o), w.name);
    DriveKeepsRow(cfg, listed.world.At(w.name), w, o);
    var driven := Step(cfg, listed, Next(o));
    assert driven.world.At(w.name).row == Some(w);
    assert w.name in driven.world.store && driven.world.store[w.name] == w;
  }

  /** A status update that read the row before a Stop and writes it afterwards undoes the Stop. */
  lemma StatusWriteUndoesStop(cfg: Config, w: Workload, o: Oracle)
    requires NewContainer(cfg, w) && o.Succeeds()
    ensures var stopped := Step(cfg, MidUpdate(cfg, w, o), Call(Stop(w.name, o)));
      var saved := Step(cfg, stopped, Save(true)).world;
      Resting(stopped.world, w.name) && !Resting(saved, w.name)
  {
    var sys := MidUpdate(cfg, w, o);
    MidUpdateHolds(cfg, w, o);
    var stopped := Step(cfg, sys, Call(Stop(w.name, o)));
    StepAt(cfg, sys, Call(Stop(w.name, o)), w.name);
    RestingRow(stopped.world, w.name);
    StepAt(cfg, stopped, Save(true), w.name);
    RestingRow(Step(cfg, stopped, Save(true)).world, w.name);
  }

  // ------------------------------------------------------------------
  // Delete
  // ------------------------------------------------------------------

  /** A queued snapshot of `n` that is not a tombstone. */
  predicate Queued(queue: seq<Workload>, n: string) {
    exists i :: 0 <= i < |queue| && queue[i].name == n && queue[i].desired != Deleting
  }

  /** A status update of `n` is under way. */
  predicate NoteOn(note: Note, n: string) {
    (note.Observed? && note.name == n) || (note.Loaded? && note.row.name == n)
  }

  /** Gone, or marked for deletion. */
  predicate Buried(world: World, n: string) {
    n in world.store ==> world.store[n].desired == Deleting
  }

  lemma BuriedStep(cfg: Config, sys: System, e: Event, n: string)
    requires Good(sys) && Buried(sys.world, n) && !Queued(sys.queue, n) && !NoteOn(sys.note, n)
    requires e.Call? ==> e.op.Name() != n
    ensures var t := Step(cfg, sys, e);
      t.world.At(n) == sys.world.At(n) && Buried(t.world, n) && !Queued(t.queue, n) && !NoteOn(t.note, n)
  {
    StepAt(cfg, sys, e, n);
    var t := Step(cfg, sys, e);
    if e.Next? && sys.queue != [] {
      assert forall i :: 0 <= i < |sys.queue[1..]| ==> sys.queue[1..][i] == sys.queue[i + 1];
      assert sys.queue[0].name == n ==> sys.queue[0].desired == Deleting;
    }
    assert t.world.At(n) == sys.world.At(n);
    assert n in t.world.store ==> t.world.At(n).row == Some(t.world.store[n]);
    assert n in sys.world.store ==> sys.world.At(n).row == Some(sys.world.store[n]);
  }

  /**
   A tombstone, and equally a deleted name, is left exactly as it is (row, container and VM)
   by every run of Ticks and of operations on other names.
   */
  lemma {:induction false} TombstoneIsUntouched(cfg: Config, sys: System, es: seq<Event>, n: string)
    requires Good(sys) && Buried(sys.world, n) && !Queued(sys.queue, n) && !NoteOn(sys.note, n)
    requires forall i :: 0 <= i < |es| && es[i].Call? ==> es[i].op.Name() != n
    ensures Run(cfg, sys, es).world.At(n) == sys.world.At(n)
    decreases |es|
  {
    if es != [] {
      StepKeepsGood(cfg, sys, es[0]);
      BuriedStep(cfg, sys, es[0], n);
      TombstoneIsUntouched(cfg, Step(cfg, sys, es[0]), es[1..], n);
    }
  }

  /** A Delete whose removal fails leaves a tombstone; a later Delete that works leaves nothing of that kind. */
  lemma DeleteThenRetry(cfg: Config, sys: System, es: seq<Event>, n: string, fail: Oracle, retry: Oracle)
    requires cfg.containers && Good(sys) && n in sys.world.store && sys.world.store[n].kind == Container
    requires fail.getOk && fail.putOk && !fail.removeOk && retry.getOk && retry.removeOk && retry.rowOk
    requires !Queued(sys.queue, n) && !NoteOn(sys.note, n)
    requires forall i :: 0 <= i < |es| && es[i].Call? ==> es[i].op.Name() != n
    ensures var failed := Step(cfg, sys, Call(Delete(n, fail)));
      var later := Run(cfg, failed, es);
      var gone := Step(cfg, later, Call(Delete(n, retry)));
      && later.world.At(n) == failed.world.At(n) && Buried(later.world, n) && n in later.world.store
      && gone.world.At(n) == Slice(None, None, sys.world.At(n).vm)
  {
    var failed := Step(cfg, sys, Call(Delete(n, fail)));
    StepAt(cfg, sys, Call(Delete(n, fail)), n);
    StepKeepsGood(cfg, sys, Call(Delete(n, fail)));
    assert failed.world.At(n).row == Some(sys.world.store[n].(desired := Deleting));
    assert n in failed.world.store;
    TombstoneIsUntouched(cfg, failed, es, n);
    var later := Run(cfg, failed, es);
    assert later.world.At(n).row.Some? && n in later.world.store;
    StepAt(cfg, later, Call(Delete(n, retry)), n);
  }

  /**
   The queue condition is needed: a snapshot listed before a Delete recreates the container of
   a name that has no row any more, and no later Tick removes it.
   */
  lemma StaleTickOrphansContainer(cfg: Config, w: Workload, o: Oracle, del: Oracle, es: seq<Event>)
    requires cfg.containers && Valid(w) && w.kind == Container && w.WantsRunning() && o.Succeeds() && del.Succeeds()
    requires forall i :: 0 <= i < |es| && es[i].Call? ==> es[i].op.Name() != w.name
    ensures var listed := System(World(map[w.name := w], map[], map[]), [w], Idle);
      var passed := Step(cfg, Step(cfg, Step(cfg, listed, Call(Delete(w.name, del))), Next(o)), Load(true));
      var end := Run(cfg, passed, es).world;
      w.name !in end.store && w.name in end.containers && end.containers[w.name].task == TaskRunning
  {
    var n := w.name;
    var listed := System(World(map[n := w], map[], map[]), [w], Idle);
    var deleted := Step(cfg, listed, Call(Delete(n, del)));
    StepAt(cfg, listed, Call(Delete(n, del)), n);
    StepKeepsGood(cfg, listed, Call(Delete(n, del)));
    assert deleted.world.At(n).row == None && deleted.queue == [w] && deleted.note == Idle;
    StalePassStarts(cfg, deleted, w, o);
    TombstoneIsUntouched(cfg, Step(cfg, Step(cfg, deleted, Next(o)), Load(true)), es, n);
  }

  lemma StalePassStarts(cfg: Config, sys: System, w: Workload, o: Oracle)
    requires cfg.containers && Valid(w) && w.kind == Container && w.WantsRunning() && o.Succeeds()
    requires Good(sys) && sys.world.At(w.name).row == None && sys.queue == [w] && sys.note == Idle
    ensures var t := Step(cfg, Step(cfg, sys, Next(o)), Load(true)); var s := t.world.At(w.name);
      && Good(t) && t.queue == [] && t.note == Idle
      && s.row == None && s.container.Some? && s.container.value.task == TaskRunning
  {
    var driven := Step(cfg, sys, Next(o));
    StepAt(cfg, sys, Next(o), w.name);
    DriveKeepsRow(cfg, sys.world.At(w.name), w, o);
    StepKeepsGood(cfg, sys, Next(o));
    assert driven.world.At(w.name).row == None && w.name !in driven.world.store;
    StepKeepsGood(cfg, driven, Load(true));
  }

  /** A status update has read a row of `n` and will write it back. */
  predicate LoadedNote(note: Note, n: string) {
    note.Loaded? && note.row.name == n
  }

  lemma GoneStep(cfg: Config, sys: System, e: Event, n: string)
    requires Good(sys) && n !in sys.world.store && !LoadedNote(sys.note, n)
    requires !(e.Call? && e.op.Apply? && e.op.Name() == n)
    ensures var t := Step(cfg, sys, e); n !in t.world.store && !LoadedNote(t.note, n)
  {
    StepAt(cfg, sys, e, n);
    if e.Next? && sys.queue != [] {
      DriveKeepsRow(cfg, sys.world.At(n), sys.queue[0], e.oracle);
    }
    assert sys.world.At(n).row == None;
    assert Step(cfg, sys, e).world.At(n).row == None;
  }

  /** A deleted name with no stale snapshot and no row about to be written back stays gone until it is applied again. */
  lemma {:induction false} GoneStaysGone(cfg: Config, sys: System, es: seq<Event>, n: string)
    requires Good(sys) && n !in sys.world.store && !LoadedNote(sys.note, n) && !StaleStart(cfg, sys.queue, n)
    requires forall i :: 0 <= i < |es| ==> !(es[i].Call? && es[i].op.Apply? && es[i].op.Name() == n)
    ensures NeverEnsures(cfg, sys, es, n) && n !in Run(cfg, sys, es).world.store
    decreases |es|
  {
    if es != [] {
      StepKeepsGood(cfg, sys, es[0]);
      GoneStep(cfg, sys, es[0], n);
      QueueStep(cfg, sys, es[0], n);
      GoneStaysGone(cfg, Step(cfg, sys, es[0]), es[1..], n);
    }
  }

  /**
   Exact for deletion: when the Tick under way at a successful Delete runs to its end, the row is
   still gone and the name was never started if and only if no queued snapshot wanted it running
   and no status update had read its row, whatever that row said.
   */
  lemma DeleteSticksIff(cfg: Config, sys: System, os: seq<Oracle>, n: string)
    requires Good(sys) && n !in sys.world.store && |os| == |sys.queue|
    ensures NeverEnsures(cfg, sys, Drain(os), n) && n !in Run(cfg, sys, Drain(os)).world.store <==>
            !StaleStart(cfg, sys.queue, n) && !LoadedNote(sys.note, n)
  {
    if !StaleStart(cfg, sys.queue, n) && !LoadedNote(sys.note, n) {
      DrainCallsNothing(os);
      GoneStaysGone(cfg, sys, Drain(os), n);
    } else {
      var s1 := Step(cfg, sys, Load(true));
      var s2 := Step(cfg, s1, Save(true));
      DrainSplits(cfg, sys, os, n);
      PassesEnsureIff(cfg, s2, os, n);
      if LoadedNote(sys.note, n) {
        StepAt(cfg, s1, Save(true), n);
        RowsStay(cfg, s2, os, n);
        assert Identity(Run(cfg, s2, Passes(os)).world.At(n)).Some?;
      }
    }
  }

  lemma DrainCallsNothing(os: seq<Oracle>)
    ensures forall i :: 0 <= i < |Drain(os)| ==> !Drain(os)[i].Call?
  {
    PassesAskNothing(os, "");
  }

  /** A status update that read the row before a Delete and writes it afterwards brings the row back, wanting to run. */
  lemma StatusWriteUndoesDelete(cfg: Config, w: Workload, o: Oracle)
    requires NewContainer(cfg, w) && o.Succeeds()
    ensures var deleted := Step(cfg, MidUpdate(cfg, w, o), Call(Delete(w.name, o)));
      var saved := Step(cfg, deleted, Save(true)).world;
      w.name !in deleted.world.store && w.name in saved.store && saved.store[w.name].WantsRunning()
  {
    var sys := MidUpdate(cfg, w, o);
    MidUpdateHolds(cfg, w, o);
    var deleted := Step(cfg, sys, Call(Delete(w.name, o)));
    StepAt(cfg, sys, Call(Delete(w.name, o)), w.name);
    assert deleted.world.At(w.name).row == None;
    StepAt(cfg, deleted, Save(true), w.name);
    assert Step(cfg, deleted, Save(true)).world.At(w.name).row == Some(sys.note.row);
  }

  /** A stopped row comes back the same way: it rests, but the deleted name is in the store again. */
  lemma StatusWriteRevivesStoppedRow(cfg: Config, w: Workload, o: Oracle)
    requires cfg.containers && Valid(w) && w.kind == Container && w.desired == Stopped && w.status == None
        && o.Succeeds()
    ensures var listed := System(World(map[w.name := w], map[], map[]), [w], Idle);
      var loaded := Step(cfg, Step(cfg, listed, Next(o)), Load(true));
      var deleted := Step(cfg, loaded, Call(Delete(w.name, o)));
      && w.name !in deleted.world.store && !StaleNote(deleted.note, w.name) && deleted.queue == []
      && w.name in Step(cfg, deleted, Save(true)).world.store
  {
    var n := w.name;
    var listed := System(World(map[n := w], map[], map[]), [w], Idle);
    StepAt(cfg, listed, Next(o), n);
    DriveKeepsRow(cfg, listed.world.At(n), w, o);
    var driven := Step(cfg, listed, Next(o));
    assert driven.world.At(n).row == Some(w);
    var loaded := Step(cfg, driven, Load(true));
    assert loaded.note.Loaded? && loaded.note.row.name == n && loaded.note.row.desired == Stopped;
    var deleted := Step(cfg, loaded, Call(Delete(n, o)));
    StepAt(cfg, loaded, Call(Delete(n, o)), n);
    assert deleted.world.At(n).row == None;
    StepAt(cfg, deleted, Save(true), n);
    assert Step(cfg, deleted, Save(true)).world.At(n).row == Some(loaded.note.row);
  }
}
