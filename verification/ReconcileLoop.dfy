/**
 The whole workload side in one state machine: service calls announce themselves through the wake
 channel, the loop lists and reconciles row by row, and status updates are written back in steps.
 Once calls stop and drivers work, a bounded number of moves of the loop converges every name.
 */
module ReconcileLoop {
  import opened Prelude
  import opened Workloads
  import R = Reconciler
  import W = WakeChannel

  datatype State = State(sys: R.System, wake: nat, loop: W.Loop)

  datatype Event =
    | Call(op: Op)
    | Timer
    | TakeWake
    | List(ws: seq<Workload>)
    | ListFails
    | Work(step: R.Event)
    | Finish

  /** The call succeeded and so kicks the loop. */
  predicate Announces(cfg: Config, s: Slice, op: Op) {
    var o := op.oracle;
    match op
    case Apply(w, _) => Valid(w) && o.getOk && o.putOk
    case Delete(_, _) => DeleteDone(cfg, s, o)
    case Restart(_, _) =>
      && o.getOk && s.row.Some? && (if s.row.value.kind == MicroVM then cfg.vms else cfg.containers)
      && RemoveWorks(cfg, s.row.value.kind, o)
    case Stop(_, _) => o.getOk && s.row.Some? && o.putOk
    case Start(_, _) => o.getOk && s.row.Some? && o.putOk
  }

  /** The loop's own steps within a Tick. */
  predicate IsWork(e: R.Event) {
    e.Next? || e.Load? || e.Save?
  }

  function Step(cfg: Config, s: State, e: Event): State {
    match e
    case Call(op) =>
      State(R.Step(cfg, s.sys, R.Call(op)),
            if Announces(cfg, s.sys.world.At(op.Name()), op) then W.Kicked(s.wake) else s.wake, s.loop)
    case Timer => if s.loop == W.Waiting then s.(loop := W.AboutToList) else s
    case TakeWake => if s.loop == W.Waiting && s.wake > 0 then s.(wake := s.wake - 1, loop := W.AboutToList) else s
    case List(ws) =>
      if s.loop == W.AboutToList && R.IsListing(ws, s.sys.world.store)
      then s.(sys := R.Step(cfg, s.sys, R.List(ws)), loop := W.Reconciling) else s
    case ListFails => if s.loop == W.AboutToList then s.(loop := W.Waiting) else s
    case Work(step) => if s.loop == W.Reconciling && IsWork(step) then s.(sys := R.Step(cfg, s.sys, step)) else s
    case Finish =>
      if s.loop == W.Reconciling && s.sys.queue == [] && s.sys.note == R.Idle then s.(loop := W.Waiting) else s
  }

  function Run(cfg: Config, s: State, es: seq<Event>): State
    decreases |es|
  {
    if es == [] then s else Run(cfg, Step(cfg, s, es[0]), es[1..])
  }

  /** Rows are good, and snapshots and status updates exist only within a Tick. */
  predicate Consistent(s: State) {
    R.Good(s.sys) && (s.loop != W.Reconciling ==> s.sys.queue == [] && s.sys.note == R.Idle)
  }

  lemma StepKeepsConsistent(cfg: Config, s: State, e: Event)
    requires Consistent(s)
    ensures Consistent(Step(cfg, s, e))
  {
    match e
    case Call(op) => R.StepKeepsGood(cfg, s.sys, R.Call(op));
    case List(ws) => R.StepKeepsGood(cfg, s.sys, R.List(ws));
    case Work(step) => R.StepKeepsGood(cfg, s.sys, step);
    case _ =>
  }

  /** Every run of calls, timers, ticks and failures stays consistent. */
  lemma {:induction false} RunKeepsConsistent(cfg: Config, s: State, es: seq<Event>)
    requires Consistent(s)
    ensures Consistent(Run(cfg, s, es))
    decreases |es|
  {
    if es != [] {
      StepKeepsConsistent(cfg, s, es[0]);
      RunKeepsConsistent(cfg, Step(cfg, s, es[0]), es[1..]);
    }
  }

  // ------------------------------------------------------------------
  // A Tick over a fresh listing
  // ------------------------------------------------------------------

  ghost predicate AllConverged(cfg: Config, world: World) {
    forall n :: Converged(cfg, world.At(n))
  }

  /** The snapshot is what the store says. */
  predicate FreshQueue(sys: R.System) {
    && R.Distinct(sys.queue)
    && forall i :: 0 <= i < |sys.queue| ==> sys.world.At(sys.queue[i].name).row == Some(sys.queue[i])
  }

  /** A status update under way is about a name already passed, and would change only its status. */
  predicate FreshNote(sys: R.System) {
    && (sys.note.Observed? ==> !R.Names(sys.queue, sys.note.name))
    && (sys.note.Loaded? ==>
          && !R.Names(sys.queue, sys.note.row.name)
          && Identity(sys.world.At(sys.note.row.name)) == Some(sys.note.row.(status := None)))
  }

  /** Names not waiting in the snapshot have converged. */
  ghost predicate RestConverged(cfg: Config, sys: R.System) {
    forall n :: !R.Names(sys.queue, n) ==> Converged(cfg, sys.world.At(n))
  }

  ghost predicate Current(cfg: Config, sys: R.System) {
    FreshQueue(sys) && FreshNote(sys) && RestConverged(cfg, sys)
  }

  /** Convergence does not look at the status. */
  lemma ConvergedIgnoresStatus(cfg: Config, a: Slice, b: Slice)
    requires Identity(a) == Identity(b) && a.container == b.container && a.vm == b.vm
    ensures Converged(cfg, a) <==> Converged(cfg, b)
  {
  }

  lemma DriveConverges(cfg: Config, s: Slice, o: Oracle)
    requires Wired(cfg) && o.Succeeds() && s.row.Some? && Valid(s.row.value)
    ensures Converged(cfg, Drive(cfg, s, s.row.value, o).0)
  {
    var w := s.row.value;
    PassConverges(cfg, s, o);
    DriveKeepsRow(cfg, s, w, o);
    ConvergedIgnoresStatus(cfg, Drive(cfg, s, w, o).0, Reconcile(cfg, s, w, o));
  }

  lemma ListIsCurrent(cfg: Config, sys: R.System, ws: seq<Workload>)
    requires R.Good(sys) && sys.queue == [] && sys.note == R.Idle && R.IsListing(ws, sys.world.store)
    ensures Current(cfg, R.Step(cfg, sys, R.List(ws)))
  {
    var t := R.Step(cfg, sys, R.List(ws));
    forall n | !R.Names(t.queue, n)
      ensures Converged(cfg, t.world.At(n))
    {
      assert n !in sys.world.store;
    }
  }

  /** The store's slices after a step of a Tick, one name at a time. */
  lemma NextIsCurrent(cfg: Config, sys: R.System, o: Oracle)
    requires Wired(cfg) && R.Good(sys) && Current(cfg, sys) && o.Succeeds()
    requires sys.queue != [] && sys.note == R.Idle
    ensures Current(cfg, R.Step(cfg, sys, R.Next(o)))
  {
    var w, q := sys.queue[0], sys.queue[1..];
    var t := R.Step(cfg, sys, R.Next(o));
    assert forall i :: 0 <= i < |q| ==> q[i] == sys.queue[i + 1];
    assert !R.Names(q, w.name);
    forall i | 0 <= i < |q|
      ensures t.world.At(q[i].name).row == Some(q[i])
    {
      assert q[i].name != w.name;
      R.StepAt(cfg, sys, R.Next(o), q[i].name);
    }
    forall n | !R.Names(q, n)
      ensures Converged(cfg, t.world.At(n))
    {
      R.StepAt(cfg, sys, R.Next(o), n);
      if n == w.name {
        RowIsGood(sys, n);
        DriveConverges(cfg, sys.world.At(n), o);
      } else {
        R.NamesCons(sys.queue, n);
      }
    }
  }

  lemma RowIsGood(sys: R.System, n: string)
    requires R.Good(sys) && sys.world.At(n).row.Some?
    ensures Valid(sys.world.At(n).row.value) && sys.world.At(n).row.value.name == n
  {
    assert n in sys.world.store;
  }

  lemma LoadIsCurrent(cfg: Config, sys: R.System)
    requires R.Good(sys) && Current(cfg, sys)
    ensures Current(cfg, R.Step(cfg, sys, R.Load(true)))
  {
    if sys.note.Observed? && sys.note.name in sys.world.store {
      RowIsGood(sys, sys.note.name);
    }
  }

  lemma SaveIsCurrent(cfg: Config, sys: R.System)
    requires R.Good(sys) && Current(cfg, sys)
    ensures Current(cfg, R.Step(cfg, sys, R.Save(true)))
  {
    if sys.note.Loaded? {
      var t := R.Step(cfg, sys, R.Save(true));
      var row := sys.note.row;
      forall i | 0 <= i < |t.queue|
        ensures t.world.At(t.queue[i].name).row == Some(t.queue[i])
      {
        R.StepAt(cfg, sys, R.Save(true), t.queue[i].name);
      }
      forall n | !R.Names(t.queue, n)
        ensures Converged(cfg, t.world.At(n))
      {
        R.StepAt(cfg, sys, R.Save(true), n);
        ConvergedIgnoresStatus(cfg, t.world.At(n), sys.world.At(n));
      }
    }
  }

  // ------------------------------------------------------------------
  // Quiet runs
  // ------------------------------------------------------------------

  /** No call, and driver and store work; a List may still fail. */
  predicate Quiet(e: Event) {
    && !e.Call?
    && (e.Work? ==>
          && (e.step.Next? ==> e.step.oracle.Succeeds())
          && (e.step.Load? ==> e.step.ok)
          && (e.step.Save? ==> e.step.ok))
  }

  predicate QuietRun(es: seq<Event>) {
    forall i :: 0 <= i < |es| ==> Quiet(es[i])
  }

  lemma QuietKeepsCurrent(cfg: Config, s: State, e: Event)
    requires Wired(cfg) && Consistent(s) && Current(cfg, s.sys) && Quiet(e)
    ensures Current(cfg, Step(cfg, s, e).sys)
  {
    if e.List? && s.loop == W.AboutToList && R.IsListing(e.ws, s.sys.world.store) {
      ListIsCurrent(cfg, s.sys, e.ws);
    } else if e.Work? && s.loop == W.Reconciling && IsWork(e.step) {
      match e.step
      case Next(o) =>
        if s.sys.queue != [] && s.sys.note == R.Idle {
          NextIsCurrent(cfg, s.sys, o);
        }
      case Load(_) => LoadIsCurrent(cfg, s.sys);
      case Save(_) => SaveIsCurrent(cfg, s.sys);
    }
  }

  /** What has converged stays so while nobody calls. */
  lemma QuietKeepsConverged(cfg: Config, s: State, e: Event)
    requires Wired(cfg) && Consistent(s) && Current(cfg, s.sys) && AllConverged(cfg, s.sys.world) && Quiet(e)
    ensures AllConverged(cfg, Step(cfg, s, e).sys.world)
  {
    var t := Step(cfg, s, e).sys;
    if e.Work? && s.loop == W.Reconciling && IsWork(e.step) {
      forall n
        ensures Converged(cfg, t.world.At(n))
      {
        R.StepAt(cfg, s.sys, e.step, n);
        if e.step.Next? && s.sys.queue != [] && s.sys.note == R.Idle && s.sys.queue[0].name == n {
          RowIsGood(s.sys, n);
          DriveConverges(cfg, s.sys.world.At(n), e.step.oracle);
        } else if e.step.Save? && s.sys.note.Loaded? && s.sys.note.row.name == n {
          ConvergedIgnoresStatus(cfg, t.world.At(n), s.sys.world.At(n));
        }
      }
    }
  }

  /** The loop can take this step now, and it takes it on to its next phase. */
  predicate Moves(s: State, e: Event) {
    match s.loop
    case Waiting => e == Timer || (e == TakeWake && s.wake > 0)
    case AboutToList => e == ListFails || (e.List? && R.IsListing(e.ws, s.sys.world.store))
    case Reconciling => e == Finish && s.sys.queue == [] && s.sys.note == R.Idle
  }

  function CountMoves(cfg: Config, s: State, es: seq<Event>): nat
    decreases |es|
  {
    if es == [] then 0 else (if Moves(s, es[0]) then 1 else 0) + CountMoves(cfg, Step(cfg, s, es[0]), es[1..])
  }

  function CountFailures(cfg: Config, s: State, es: seq<Event>): nat
    decreases |es|
  {
    if es == [] then 0
    else
      (if s.loop == W.AboutToList && es[0] == ListFails then 1 else 0)
      + CountFailures(cfg, Step(cfg, s, es[0]), es[1..])
  }

  /** Moves to the end of the next Tick that lists from here on. */
  function Distance(loop: W.Loop): nat {
    match loop
    case AboutToList => 2
    case Waiting => 3
    case Reconciling => 4
  }

  lemma {:induction false} ConvergedStays(cfg: Config, s: State, es: seq<Event>)
    requires Wired(cfg) && Consistent(s) && QuietRun(es)
    requires Current(cfg, s.sys) && AllConverged(cfg, s.sys.world)
    ensures AllConverged(cfg, Run(cfg, s, es).sys.world)
    decreases |es|
  {
    if es != [] {
      assert Quiet(es[0]);
      StepKeepsConsistent(cfg, s, es[0]);
      QuietKeepsCurrent(cfg, s, es[0]);
      QuietKeepsConverged(cfg, s, es[0]);
      ConvergedStays(cfg, Step(cfg, s, es[0]), es[1..]);
    }
  }

  /** A Tick over a fresh listing has converged everything once it finishes. */
  lemma {:induction false} FreshTickConverges(cfg: Config, s: State, es: seq<Event>)
    requires Wired(cfg) && Consistent(s) && QuietRun(es)
    requires Current(cfg, s.sys) && CountMoves(cfg, s, es) >= 1
    ensures AllConverged(cfg, Run(cfg, s, es).sys.world)
    decreases |es|
  {
    if s.sys.queue == [] {
      assert AllConverged(cfg, s.sys.world);
      ConvergedStays(cfg, s, es);
    } else {
      assert Quiet(es[0]) && s.loop == W.Reconciling && !Moves(s, es[0]);
      StepKeepsConsistent(cfg, s, es[0]);
      QuietKeepsCurrent(cfg, s, es[0]);
      FreshTickConverges(cfg, Step(cfg, s, es[0]), es[1..]);
    }
  }

  /**
   From any state the daemon can be in, however stale its snapshot and its status update: once
   calls stop and drivers and store work, every name has converged after four moves of the loop
   (three if it was waiting, two if it was about to list) and two more for each List that fails.
   */
  lemma {:induction false} QuietLoopConverges(cfg: Config, s: State, es: seq<Event>)
    requires Wired(cfg) && Consistent(s) && QuietRun(es)
    requires CountMoves(cfg, s, es) >= Distance(s.loop) + 2 * CountFailures(cfg, s, es)
    ensures AllConverged(cfg, Run(cfg, s, es).sys.world)
    decreases |es|
  {
    var t := Step(cfg, s, es[0]);
    assert Quiet(es[0]);
    StepKeepsConsistent(cfg, s, es[0]);
    if es[0].List? && Moves(s, es[0]) {
      ListIsCurrent(cfg, s.sys, es[0].ws);
      FreshTickConverges(cfg, t, es[1..]);
    } else {
      QuietLoopConverges(cfg, t, es[1..]);
    }
  }

  /** A successful call leaves a token, so the loop needs no timer to get to its next List. */
  lemma AnnouncedCallIsServed(cfg: Config, s: State, op: Op)
    requires Announces(cfg, s.sys.world.At(op.Name()), op) && s.wake <= W.CAPACITY
    ensures var t := Step(cfg, s, Call(op));
      t.wake == W.CAPACITY && (t.loop == W.Waiting ==> Moves(t, TakeWake))
  {
  }
}
