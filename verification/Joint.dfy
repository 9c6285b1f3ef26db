/** A supervisor together with the tasks that it starts: each worker task is a state machine of
    module Lifecycle, driven by its own steps and by what the supervisor does to it. A command
    takes effect one spawn, stop, shutdown message or drop at a time; tasks, timers and clients
    go on in between, and while a stop waits. */
module Joint {
  import opened Types
  import opened Restart
  import opened Spec
  import opened Supervision
  import opened Identity
  import opened World
  import Escalation
  import Generations
  import Lifecycle
  import Rounds

  /** A linked start under way: what the supervisor is going to see of the new task. */
  datatype Await = Await(task: TaskId, init: InitOutcome)

  /** `machines` are the tasks started so far, `done` counts the effects carried out, and `awaits`
      is the handshake that the supervisor waits for. */
  datatype Joint = Joint(world: World, machines: seq<Lifecycle.Machine>, done: nat, awaits: Option<Await>)

  function AtStart(spec: SupervisorSpec, start: Instant): Joint {
    Joint(Opening(spec, start), [], 0, None)
  }

  datatype Move =
    | Outside(event: Step)                         // a client, a timer or the clock
    | Take(later: Instant, init: InitOutcome)      // the loop takes the next command
    | Act                                          // the supervisor carries out its next effect
    | Observe                                      // it receives the handshake, or gives it up
    | Owner(step: Lifecycle.Step)                  // it goes on with the stop under way
    | Task(task: TaskId, step: Lifecycle.Step)     // a worker task takes a step of its own
    | Nested(task: TaskId, reason: ChildExitReason) // a nested supervisor ends and reports

  function Trace(j: Joint): seq<Effect> {
    j.world.sup.trace
  }

  predicate IsOwnerStep(step: Lifecycle.Step) {
    step.BeginStop? || step.Join? || step.TimeoutElapses? || step.JoinAborted?
  }

  predicate IsTaskStep(step: Lifecycle.Step) {
    !IsOwnerStep(step) && !step.DropProcess?
  }

  function SpecOf(j: Joint, t: TaskId): ChildSpec
    requires t < |j.world.sup.spawned|
  {
    j.world.sup.spawned[t]
  }

  /** What the handshake says is what the task has done: success and failure are reported by the
      task itself; a closed channel or a timeout say nothing. */
  predicate Matches(log: seq<Lifecycle.Event>, init: InitOutcome) {
    match init
    case Ready => log != [] && log[0].Initialized?
    case Failed(_) => log != [] && log[0].InitFailed?
    case _ => true
  }

  /** Whether the step of the task agrees with what the supervisor is going to see. */
  predicate AsAwaited(awaits: Option<Await>, t: TaskId, step: Lifecycle.Step) {
    awaits.Some? && awaits.value.task == t ==>
      (step.InitOk? ==> !awaits.value.init.Failed?) && (step.InitErr? ==> !awaits.value.init.Ready?)
  }

  /** The handshake that a command begins. */
  function Awaited(s: Sup, command: Command, init: InitOutcome): Option<Await> {
    if command.StartChildLinked? && Position(s.children, command.worker.id).None? then Some(Await(|s.spawned|, init))
    else None
  }

  predicate CanMove(j: Joint, move: Move) {
    match move
    case Outside(step) => (step.Ask? || step.AskShutdown? || step.Fire? || step.Tick?) && Enabled(j.world, step)
    case Take(later, init) => j.done == |Trace(j)| && j.awaits == None && Enabled(j.world, Handle(later, init))
    case Act =>
      j.done < |Trace(j)|
      && (match Trace(j)[j.done]
          case Spawn(_, _) => true
          case Signal(_) => true
          case Stop(t) => t < |j.machines| && j.machines[t].owner.Stopped?
          case Drop(t) => j.awaits == None && t < |j.machines| && Lifecycle.Enabled(j.machines[t], Lifecycle.DropProcess))
    case Observe =>
      j.awaits.Some? && j.awaits.value.task < |j.machines|
      && Matches(j.machines[j.awaits.value.task].log, j.awaits.value.init)
    case Owner(step) =>
      j.done < |Trace(j)| && Trace(j)[j.done].Stop? && Trace(j)[j.done].task < |j.machines|
      && IsOwnerStep(step) && Lifecycle.Enabled(j.machines[Trace(j)[j.done].task], step)
      && (step.BeginStop? ==> (step.immediate <==> j.world.sup.spec.shutdownTimeout == 0))
    case Task(t, step) =>
      t < |j.machines| && t < |j.world.sup.spawned| && SpecOf(j, t).Worker?
      && IsTaskStep(step) && Lifecycle.Enabled(j.machines[t], step) && AsAwaited(j.awaits, t, step)
    case Nested(t, _) =>
      t < |j.machines| && t < |j.world.sup.spawned| && SpecOf(j, t).Supervisor? && t !in j.world.reported
  }

  function Advance(machines: seq<Lifecycle.Machine>, t: TaskId, step: Lifecycle.Step): seq<Lifecycle.Machine>
    requires t < |machines| && Lifecycle.Enabled(machines[t], step)
  {
    machines[t := Lifecycle.Next(machines[t], step)]
  }

  /** The report of task `t` goes to the end of the queue. */
  function Reported(w: World, t: TaskId, reason: ChildExitReason): World
    requires t < |w.sup.spawned|
  {
    Post(w, ChildTerminated(w.sup.spawned[t].Id(), reason)).(reported := w.reported + {t})
  }

  function Moved(j: Joint, move: Move): Joint
    requires CanMove(j, move)
  {
    match move
    case Outside(step) => j.(world := Next(j.world, step))
    case Take(later, init) =>
      j.(world := Next(j.world, Handle(later, init)), awaits := Awaited(j.world.sup, j.world.queue[0], init))
    case Act =>
      (match Trace(j)[j.done]
       case Spawn(_, _) => j.(machines := j.machines + [Lifecycle.SPAWNED], done := j.done + 1)
       case Drop(t) => j.(machines := Advance(j.machines, t, Lifecycle.DropProcess), done := j.done + 1)
       case _ => j.(done := j.done + 1))
    case Observe => j.(awaits := None)
    case Owner(step) => j.(machines := Advance(j.machines, Trace(j)[j.done].task, step))
    case Task(t, step) =>
      var j' := j.(machines := Advance(j.machines, t, step));
      if step.Report? then j'.(world := Reported(j.world, t, j.machines[t].phase.reason)) else j'
    case Nested(t, reason) => j.(world := Reported(j.world, t, reason))
  }

  ghost predicate Possible(j: Joint, moves: seq<Move>)
    decreases |moves|, 0
  {
    moves == [] || (Possible(j, moves[..|moves| - 1]) && CanMove(Reached(j, moves[..|moves| - 1]), moves[|moves| - 1]))
  }

  ghost function Reached(j: Joint, moves: seq<Move>): Joint
    requires Possible(j, moves)
    decreases |moves|, 1
  {
    if moves == [] then j else Moved(Reached(j, moves[..|moves| - 1]), moves[|moves| - 1])
  }

  // ---- The invariant ----

  /** What the effects carried out so far say of the owner of task `t`. */
  ghost predicate OwnerAgrees(done: seq<Effect>, next: Option<Effect>, t: TaskId, m: Lifecycle.Machine) {
    if Stop(t) in done then m.owner.Stopped?
    else if Effect.Drop(t) in done then m.owner.Dropped?
    else m.owner.Holding? || (next == Some(Stop(t)) && !m.owner.Dropped?)
  }

  function NextEffect(j: Joint): Option<Effect> {
    if j.done < |Trace(j)| then Some(Trace(j)[j.done]) else None
  }

  ghost predicate MachinesAgree(j: Joint)
    requires j.done <= |Trace(j)|
  {
    && |j.machines| == |Generations.SpawnedBy(Trace(j)[..j.done])|
    && (forall t {:trigger j.machines[t]} :: 0 <= t < |j.machines| ==>
          Lifecycle.Reachable(j.machines[t]) && OwnerAgrees(Trace(j)[..j.done], NextEffect(j), t, j.machines[t]))
  }

  /** A worker has reported to the queue exactly when its own run has ended un-aborted. */
  ghost predicate ReportsAgree(j: Joint) {
    && (forall t :: t in j.world.reported ==> t < |j.machines|)
    && |j.machines| <= |j.world.sup.spawned|
    && (forall t {:trigger j.machines[t]} :: 0 <= t < |j.machines| && SpecOf(j, t).Worker? ==>
          (t in j.world.reported <==> j.machines[t].phase.Ended?))
  }

  /** While a handshake is awaited, nothing is left to do but to start its task and, if it fails,
      to drop it; and the task has done nothing else than what will be seen. */
  ghost predicate AwaitAgrees(j: Joint)
    requires j.done <= |Trace(j)|
  {
    match j.awaits
    case None => true
    case Some(Await(t, init)) =>
      && t < |j.world.sup.spawned| && j.world.sup.spawned[t].Worker?
      && if t < |j.machines| then
           && j.machines[t].owner.Holding? && (j.machines[t].log != [] ==> Matches(j.machines[t].log, init))
           && (forall k :: j.done <= k < |Trace(j)| ==> Trace(j)[k] == Effect.Drop(t))
         else
           && j.done < |Trace(j)| && Trace(j)[j.done] == Spawn(t, j.world.sup.spawned[t])
           && (forall k :: j.done < k < |Trace(j)| ==> Trace(j)[k] == Effect.Drop(t))
  }

  ghost predicate Inv(j: Joint) {
    && j.done <= |Trace(j)|
    && Generations.Inv(j.world.sup)
    && MachinesAgree(j) && ReportsAgree(j) && AwaitAgrees(j)
  }

  // ---- What an effect does to the tasks ----

  /** Only tasks that were started are stopped or dropped. */
  lemma {:induction false} ReleasedWereSpawned(trace: seq<Effect>, t: TaskId)
    requires Generations.Orderly(trace) && (Stop(t) in trace || Effect.Drop(t) in trace)
    ensures t < |Generations.SpawnedBy(trace)|
  {
    var n := |trace| - 1;
    var front, e := trace[..n], trace[n];
    assert trace == front + [e] && Generations.Fits(trace[..n], e);
    Generations.LiveAppend(front, e);
    if Stop(t) in front || Effect.Drop(t) in front {
      OrderlyFront(trace, n);
      ReleasedWereSpawned(front, t);
    }
  }

  /** A task that was stopped or dropped is not live any more ... */
  lemma {:induction false} ReleasedNotLive(trace: seq<Effect>, t: TaskId)
    requires Generations.Orderly(trace) && (Stop(t) in trace || Effect.Drop(t) in trace)
    ensures forall c :: c in Generations.Live(trace) ==> c.task != t
  {
    hide Generations.Live, Generations.SpawnedBy;
    var n := |trace| - 1;
    var front, e := trace[..n], trace[n];
    assert trace == front + [e] && Generations.Fits(trace[..n], e);
    Generations.LiveAppend(front, e);
    hide Generations.Orderly;
    if Stop(t) in front || Effect.Drop(t) in front {
      OrderlyFront(trace, n);
      ReleasedWereSpawned(front, t);
      ReleasedNotLive(front, t);
    }
  }

  /** ... and so it is not released in another way again. */
  lemma {:induction false} ReleasedOnce(trace: seq<Effect>, t: TaskId)
    requires Generations.Orderly(trace) && Effect.Drop(t) in trace
    ensures Stop(t) !in trace
  {
    var n := |trace| - 1;
    var front, e := trace[..n], trace[n];
    assert trace == front + [e] && Generations.Fits(trace[..n], e);
    OrderlyFront(trace, n);
    if Effect.Drop(t) in front {
      ReleasedNotLive(front, t);
      ReleasedOnce(front, t);
    } else if Stop(t) in front {
      ReleasedNotLive(front, t);
    }
  }

  lemma OrderlyFront(trace: seq<Effect>, n: nat)
    requires Generations.Orderly(trace) && n <= |trace|
    ensures Generations.Orderly(trace[..n])
  {
    hide Generations.Fits;
    assert forall k :: 0 <= k < n ==> trace[..n][..k] == trace[..k];
  }

  lemma {:induction false} SpawnedByFront(trace: seq<Effect>, n: nat)
    requires n <= |trace|
    ensures Generations.SpawnedBy(trace[..n]) <= Generations.SpawnedBy(trace)
    decreases |trace|
  {
    if n < |trace| {
      var front := trace[..|trace| - 1];
      assert front[..n] == trace[..n];
      SpawnedByFront(front, n);
    } else {
      assert trace[..n] == trace;
    }
  }

  /** What the trace guarantees of the effect that is next. */
  lemma NextFits(j: Joint)
    requires Inv(j) && j.done < |Trace(j)|
    ensures var before, e := Trace(j)[..j.done], Trace(j)[j.done];
      && Trace(j)[..j.done + 1] == before + [e]
      && Generations.Fits(before, e)
      && |Generations.SpawnedBy(before + [e])| <= |j.world.sup.spawned|
      && |Generations.SpawnedBy(before + [e])| == |j.machines| + (if e.Spawn? then 1 else 0)
      && (forall t: TaskId :: Stop(t) in before || Effect.Drop(t) in before ==> t < |j.machines|)
  {
    hide Generations.Fits, Generations.Live, Generations.SpawnedBy, Generations.AlwaysExclusive, Generations.Releases;
    var trace, before, e := Trace(j), Trace(j)[..j.done], Trace(j)[j.done];
    assert trace[..j.done + 1] == before + [e];
    Generations.LiveAppend(before, e);
    SpawnedByFront(trace, j.done + 1);
    OrderlyFront(trace, j.done);
    forall t: TaskId | Stop(t) in before || Effect.Drop(t) in before ensures t < |j.machines| {
      ReleasedWereSpawned(before, t);
    }
  }

  lemma SpawnedReachable()
    ensures Lifecycle.Reachable(Lifecycle.SPAWNED)
  {
    assert Lifecycle.Legal(Lifecycle.SPAWNED, []) && Lifecycle.After(Lifecycle.SPAWNED, []) == Lifecycle.SPAWNED;
  }

  lemma StepReachable(m: Lifecycle.Machine, step: Lifecycle.Step)
    requires Lifecycle.Reachable(m) && Lifecycle.Enabled(m, step)
    ensures Lifecycle.Reachable(Lifecycle.Next(m, step))
  {
    var m' := Lifecycle.ReachableNext(m, step);
  }

  lemma ActKeepsInv(j: Joint)
    requires Inv(j) && CanMove(j, Act)
    ensures Inv(Moved(j, Act))
  {
    hide Generations.Inv, Generations.SpawnedBy, Generations.Live, Lifecycle.Reachable;
    var e := Trace(j)[j.done];
    NextFits(j);
    SpawnedReachable();
    if e.Drop? {
      StepReachable(j.machines[e.task], Lifecycle.DropProcess);
    }
  }

  lemma OwnerKeepsInv(j: Joint, step: Lifecycle.Step)
    requires Inv(j) && CanMove(j, Owner(step))
    ensures Inv(Moved(j, Owner(step)))
  {
    hide Generations.Inv, Generations.SpawnedBy, Lifecycle.Reachable;
    StepReachable(j.machines[Trace(j)[j.done].task], step);
  }

  lemma TaskKeepsInv(j: Joint, t: TaskId, step: Lifecycle.Step)
    requires Inv(j) && CanMove(j, Task(t, step))
    ensures Inv(Moved(j, Task(t, step)))
    ensures step.Report? ==> t !in j.world.reported
    ensures Moved(j, Task(t, step)).world.sup == j.world.sup
  {
    hide Generations.Inv, MachinesAgree, ReportsAgree, AwaitAgrees;
    TaskKeepsMachines(j, t, step);
    TaskKeepsReports(j, t, step);
    TaskKeepsAwait(j, t, step);
  }

  lemma TaskKeepsMachines(j: Joint, t: TaskId, step: Lifecycle.Step)
    requires j.done <= |Trace(j)| && MachinesAgree(j) && CanMove(j, Task(t, step))
    ensures MachinesAgree(Moved(j, Task(t, step)))
  {
    hide Generations.SpawnedBy, Lifecycle.Reachable;
    StepReachable(j.machines[t], step);
  }

  lemma TaskKeepsReports(j: Joint, t: TaskId, step: Lifecycle.Step)
    requires ReportsAgree(j) && CanMove(j, Task(t, step))
    ensures ReportsAgree(Moved(j, Task(t, step))) && (step.Report? ==> t !in j.world.reported)
    ensures Moved(j, Task(t, step)).world.sup == j.world.sup
  {
  }

  lemma TaskKeepsAwait(j: Joint, t: TaskId, step: Lifecycle.Step)
    requires j.done <= |Trace(j)| && MachinesAgree(j) && AwaitAgrees(j) && CanMove(j, Task(t, step))
    ensures AwaitAgrees(Moved(j, Task(t, step)))
  {
    hide Matches, Generations.SpawnedBy, Lifecycle.Reachable, OwnerAgrees;
    if j.awaits.Some? && j.awaits.value.task == t {
      AwaitedTaskStep(j.machines[t], step, j.awaits.value.init);
    }
  }

  /** The first thing that a task does is what the handshake tells, and it is never undone. */
  lemma AwaitedTaskStep(m: Lifecycle.Machine, step: Lifecycle.Step, init: InitOutcome)
    requires Lifecycle.Reachable(m) && Lifecycle.Enabled(m, step) && IsTaskStep(step) && m.owner.Holding?
    requires m.log != [] ==> Matches(m.log, init)
    requires (step.InitOk? ==> !init.Failed?) && (step.InitErr? ==> !init.Ready?)
    ensures var log := Lifecycle.Next(m, step).log; log != [] ==> Matches(log, init)
    ensures Lifecycle.Next(m, step).owner.Holding?
  {
    Lifecycle.ReachableInv(m);
  }

  lemma TakeKeepsInv(j: Joint, later: Instant, init: InitOutcome)
    requires Inv(j) && CanMove(j, Take(later, init))
    ensures Inv(Moved(j, Take(later, init)))
  {
    hide Serve, Answer, Generations.SpawnedBy, Generations.Inv, Lifecycle.Reachable;
    var d := HeadDelivery(j.world, later, init);
    Generations.CommandKeepsInv(j.world.sup, d.command, d.env);
    Generations.HistoryGrows(j.world.sup, d.command, d.env);
    LinkedTrace(j.world.sup, d.command, d.env);
    AllStarted(j);
    var j' := Moved(j, Take(later, init));
    assert Trace(j')[..j.done] == Trace(j) == Trace(j)[..j.done];
  }

  lemma AllStarted(j: Joint)
    requires Inv(j) && j.done == |Trace(j)|
    ensures |j.machines| == |j.world.sup.spawned|
  {
    hide Generations.SpawnedBy, Generations.AlwaysExclusive, Generations.Orderly, Generations.Live;
    assert Trace(j)[..j.done] == Trace(j);
  }

  lemma LinkedTrace(s: Sup, command: Command, env: Env)
    ensures var s' := Serve(s, command, env); var t := |s.spawned|;
      Awaited(s, command, env.init).Some? ==>
        && s'.spawned == s.spawned + [Worker(command.worker)]
        && s'.trace == s.trace + [Spawn(t, Worker(command.worker))] + (if env.init.Ready? then [] else [Effect.Drop(t)])
  {
  }

  lemma ObserveKeepsInv(j: Joint)
    requires Inv(j) && CanMove(j, Observe)
    ensures Inv(Moved(j, Observe))
  {
    hide Generations.Inv, Generations.SpawnedBy, OwnerAgrees, Lifecycle.Reachable;
  }

  lemma OutsideKeepsInv(j: Joint, event: Step)
    requires Inv(j) && CanMove(j, Outside(event))
    ensures Inv(Moved(j, Outside(event)))
  {
    hide Generations.Inv, Generations.SpawnedBy, OwnerAgrees, Lifecycle.Reachable;
  }

  lemma NestedKeepsInv(j: Joint, t: TaskId, reason: ChildExitReason)
    requires Inv(j) && CanMove(j, Nested(t, reason))
    ensures Inv(Moved(j, Nested(t, reason)))
  {
    hide Generations.Inv, Generations.SpawnedBy, OwnerAgrees, Lifecycle.Reachable;
  }

  lemma MoveKeepsInv(j: Joint, move: Move)
    requires Inv(j) && CanMove(j, move)
    ensures Inv(Moved(j, move))
  {
    hide Inv, Moved, CanMove;
    match move {
      case Outside(event) => OutsideKeepsInv(j, event);
      case Take(later, init) => TakeKeepsInv(j, later, init);
      case Act => ActKeepsInv(j);
      case Observe => ObserveKeepsInv(j);
      case Owner(step) => OwnerKeepsInv(j, step);
      case Task(t, step) => TaskKeepsInv(j, t, step);
      case Nested(t, reason) => NestedKeepsInv(j, t, reason);
    }
  }

  lemma BeginningInv(spec: SupervisorSpec, start: Instant)
    requires UniqueSpecIds(spec)
    ensures Inv(AtStart(spec, start))
  {
    hide Generations.Inv, Init;
    Generations.InitKeepsInv(spec, start);
    assert Generations.SpawnedBy([]) == [];
    var j := AtStart(spec, start);
    assert Trace(j)[..0] == [];
  }

  lemma {:induction false} RunKeepsInv(spec: SupervisorSpec, start: Instant, moves: seq<Move>)
    requires UniqueSpecIds(spec) && Possible(AtStart(spec, start), moves)
    ensures Inv(Reached(AtStart(spec, start), moves))
    decreases |moves|
  {
    hide Inv, AtStart, Moved, CanMove;
    if moves == [] {
      BeginningInv(spec, start);
    } else {
      RunKeepsInv(spec, start, moves[..|moves| - 1]);
      MoveKeepsInv(Reached(AtStart(spec, start), moves[..|moves| - 1]), moves[|moves| - 1]);
    }
  }

  // ---- Every command can be carried out ----

  lemma Go(j: Joint, moves: seq<Move>, move: Move) returns (more: seq<Move>)
    requires Possible(j, moves) && Inv(Reached(j, moves)) && CanMove(Reached(j, moves), move)
    ensures moves <= more
    ensures Possible(j, more) && Reached(j, more) == Moved(Reached(j, moves), move) && Inv(Reached(j, more))
  {
    hide Inv, CanMove, Moved;
    more := moves + [move];
    assert more[..|more| - 1] == moves;
    MoveKeepsInv(Reached(j, moves), move);
  }

  /** The same supervisor at the same place, with the same handshake awaited. */
  ghost predicate SamePlace(a: Joint, b: Joint) {
    a.world.sup == b.world.sup && a.done == b.done && a.awaits == b.awaits && |a.machines| == |b.machines|
  }

  /** A task can come to its end while its supervisor waits. */
  lemma {:induction false} TaskEnds(j: Joint, moves: seq<Move>, t: TaskId) returns (more: seq<Move>)
    requires Possible(j, moves) && Inv(Reached(j, moves))
    requires var r := Reached(j, moves);
      r.awaits == None && t < |r.machines| && t < |r.world.sup.spawned| && SpecOf(r, t).Worker?
    ensures moves <= more
    ensures Possible(j, more) && Inv(Reached(j, more)) && SamePlace(Reached(j, moves), Reached(j, more))
    ensures Reached(j, more).machines[t].Over() && Reached(j, more).machines[t].owner == Reached(j, moves).machines[t].owner
    decreases Lifecycle.Remaining(Reached(j, moves).machines[t])
  {
    hide Inv, Possible, Reached;
    var r := Reached(j, moves);
    more := moves;
    if !r.machines[t].Over() {
      var step := match r.machines[t].phase
        case Initializing => Lifecycle.InitErr
        case Selecting => Lifecycle.CheckSignal
        case Polling => Lifecycle.RunOk
        case Cleaning(_) => Lifecycle.HookDone
        case _ => Lifecycle.Step.Report;
      TaskKeepsInv(r, t, step);
      more := Go(j, moves, Task(t, step));
      more := TaskEnds(j, more, t);
    }
  }

  /** A stop can be carried out. */
  lemma StopDone(j: Joint, moves: seq<Move>, t: TaskId) returns (more: seq<Move>)
    requires Possible(j, moves) && Inv(Reached(j, moves)) && NextEffect(Reached(j, moves)) == Some(Stop(t))
    ensures moves <= more
    ensures Possible(j, more) && Inv(Reached(j, more)) && Reached(j, more).world.sup == Reached(j, moves).world.sup
    ensures Reached(j, more).done == Reached(j, moves).done + 1
  {
    hide Inv, Possible, Reached;
    var r := Reached(j, moves);
    StopFacts(r, t);
    more := moves;
    if r.machines[t].owner.Holding? {
      more := Go(j, more, Owner(Lifecycle.BeginStop(r.world.sup.spec.shutdownTimeout == 0)));
    }
    more := TaskEnds(j, more, t);
    var owner := Reached(j, more).machines[t].owner;
    if owner.Waiting? {
      more := Go(j, more, Owner(Lifecycle.Join));
    } else if owner.Joining? {
      more := Go(j, more, Owner(Lifecycle.JoinAborted));
    }
    more := Go(j, more, Act);
  }

  lemma StopFacts(j: Joint, t: TaskId)
    requires Inv(j) && NextEffect(j) == Some(Stop(t))
    ensures t < |j.machines| && t < |j.world.sup.spawned| && SpecOf(j, t).Worker?
    ensures !j.machines[t].owner.Dropped? && j.awaits == None
  {
    hide Generations.Live, Generations.AlwaysExclusive, Generations.SpawnedBy, Lifecycle.Reachable;
    NextFits(j);
    var before := Trace(j)[..j.done];
    SpawnedByFront(Trace(j), j.done);
    OrderlyFront(Trace(j), j.done);
    if Effect.Drop(t) in before {
      ReleasedNotLive(before, t);
    }
  }

  /** The handshake can be received, or given up. */
  lemma HandshakeDone(j: Joint, moves: seq<Move>) returns (more: seq<Move>)
    requires Possible(j, moves) && Inv(Reached(j, moves))
    requires var r := Reached(j, moves); r.awaits.Some? && r.awaits.value.task < |r.machines|
    ensures moves <= more
    ensures Possible(j, more) && Inv(Reached(j, more)) && Reached(j, more).awaits == None
    ensures Reached(j, more).world.sup == Reached(j, moves).world.sup && Reached(j, more).done == Reached(j, moves).done
  {
    hide Inv, Possible, Reached, Matches;
    var r := Reached(j, moves);
    var t, init := r.awaits.value.task, r.awaits.value.init;
    AwaitFacts(r);
    more := moves;
    if !Matches(r.machines[t].log, init) {
      var step := if init.Ready? then Lifecycle.InitOk else Lifecycle.InitErr;
      TaskKeepsInv(r, t, step);
      more := Go(j, moves, Task(t, step));
      MatchedNow(r.machines[t], step, init);
    }
    more := Go(j, more, Observe);
  }

  lemma AwaitFacts(j: Joint)
    requires Inv(j) && j.awaits.Some? && j.awaits.value.task < |j.machines|
    ensures var t, init := j.awaits.value.task, j.awaits.value.init;
      && t < |j.world.sup.spawned| && SpecOf(j, t).Worker?
      && (!Matches(j.machines[t].log, init) ==> j.machines[t].phase.Initializing? && (init.Ready? || init.Failed?)
                                                && j.machines[t].log == [])
  {
    hide Generations.Inv, Generations.SpawnedBy, Lifecycle.Reachable;
    Lifecycle.ReachableInv(j.machines[j.awaits.value.task]);
  }

  lemma MatchedNow(m: Lifecycle.Machine, step: Lifecycle.Step, init: InitOutcome)
    requires m.phase.Initializing? && m.log == [] && (init.Ready? || init.Failed?)
    requires step == if init.Ready? then Lifecycle.InitOk else Lifecycle.InitErr
    ensures Matches(Lifecycle.Next(m, step).log, init)
  {
  }

  /** The effect that is next can be carried out, whatever it is. */
  lemma EffectDone(j: Joint, moves: seq<Move>) returns (more: seq<Move>)
    requires Possible(j, moves) && Inv(Reached(j, moves)) && Reached(j, moves).done < |Trace(Reached(j, moves))|
    ensures moves <= more
    ensures Possible(j, more) && Inv(Reached(j, more)) && Reached(j, more).world.sup == Reached(j, moves).world.sup
    ensures Reached(j, more).done == Reached(j, moves).done + 1
  {
    hide Inv, Possible, Reached;
    var r := Reached(j, moves);
    more := moves;
    match Trace(r)[r.done] {
      case Spawn(_, _) => more := Go(j, more, Act);
      case Signal(_) => more := Go(j, more, Act);
      case Stop(t) => more := StopDone(j, moves, t);
      case Drop(t) =>
        DropFacts(r, t);
        if r.awaits.Some? {
          more := HandshakeDone(j, more);
          DropFacts(Reached(j, more), t);
        }
        more := Go(j, more, Act);
    }
  }

  lemma DropFacts(j: Joint, t: TaskId)
    requires Inv(j) && NextEffect(j) == Some(Effect.Drop(t))
    ensures t < |j.machines| && j.machines[t].owner.Holding?
    ensures j.awaits.Some? ==> j.awaits.value.task < |j.machines|
  {
    hide Generations.Live, Generations.AlwaysExclusive, Generations.SpawnedBy, Lifecycle.Reachable;
    NextFits(j);
    var before := Trace(j)[..j.done];
    OrderlyFront(Trace(j), j.done);
    if Effect.Drop(t) in before || Stop(t) in before {
      ReleasedNotLive(before, t);
    }
  }

  /** From every state that a run can reach, whatever the supervisor has begun can be brought to
      its end, so that it can take the next command. */
  lemma {:induction false} CanCatchUp(j: Joint, moves: seq<Move>) returns (more: seq<Move>)
    requires Possible(j, moves) && Inv(Reached(j, moves))
    ensures moves <= more
    ensures Possible(j, more) && Inv(Reached(j, more))
    ensures var r, r' := Reached(j, moves), Reached(j, more);
      r'.world.sup == r.world.sup && r'.done == |Trace(r')| && r'.awaits == None
    decreases |Trace(Reached(j, moves))| - Reached(j, moves).done
  {
    hide Possible, Reached;
    var r := Reached(j, moves);
    more := moves;
    if r.done < |Trace(r)| {
      more := EffectDone(j, moves);
      more := CanCatchUp(j, more);
    } else if r.awaits.Some? {
      more := HandshakeDone(j, moves);
    }
  }

  // ---- Main results ----

  /** Leaving the task machines out, every run is a run of module World: in particular no task
      reports twice, which the tasks' own machines guarantee. */
  lemma {:induction false} RunsAreWorldRuns(spec: SupervisorSpec, start: Instant, moves: seq<Move>) returns (steps: seq<Step>)
    requires UniqueSpecIds(spec) && Possible(AtStart(spec, start), moves)
    ensures Legal(Opening(spec, start), steps)
    ensures After(Opening(spec, start), steps) == Reached(AtStart(spec, start), moves).world
    decreases |moves|
  {
    hide Inv, Moved, CanMove, Opening, Enabled, Next;
    if moves == [] {
      steps := [];
    } else {
      var front, last := moves[..|moves| - 1], moves[|moves| - 1];
      var j := Reached(AtStart(spec, start), front);
      steps := RunsAreWorldRuns(spec, start, front);
      RunKeepsInv(spec, start, front);
      var step := WorldStep(j, last);
      if step.Some? {
        steps := Extend(Opening(spec, start), steps, step.value);
      }
    }
  }

  /** The step of the world that a move makes, if it makes one. */
  lemma WorldStep(j: Joint, move: Move) returns (step: Option<Step>)
    requires Inv(j) && CanMove(j, move)
    ensures step.Some? ==> Enabled(j.world, step.value) && Moved(j, move).world == Next(j.world, step.value)
    ensures step.None? ==> Moved(j, move).world == j.world
  {
    hide Generations.Inv, MachinesAgree, Serve, Answer;
    match move {
      case Outside(s) => step := Some(s);
      case Take(later, init) => step := Some(Handle(later, init));
      case Act => step := None;
      case Observe => step := None;
      case Owner(_) => step := None;
      case Task(t, s) => step := if s.Report? then Some(Step.Report(t, j.machines[t].phase.reason)) else None;
      case Nested(t, reason) => step := Some(Step.Report(t, reason));
    }
  }

  /** In every run, at every moment, also while a command is being carried out: no worker id has
      two running tasks. */
  lemma NoTwoRunning(spec: SupervisorSpec, start: Instant, moves: seq<Move>, t: TaskId, u: TaskId)
    requires UniqueSpecIds(spec) && Possible(AtStart(spec, start), moves)
    requires var j := Reached(AtStart(spec, start), moves);
      && t < |j.machines| && u < |j.machines|
      && t < |j.world.sup.spawned| && u < |j.world.sup.spawned|
      && SpecOf(j, t).Worker? && SpecOf(j, u).Worker? && SpecOf(j, t).Id() == SpecOf(j, u).Id()
      && Generations.Running(j.machines[t]) && Generations.Running(j.machines[u])
    ensures t == u
  {
    hide AtStart, Reached, Possible, Lifecycle.Reachable, Generations.SpawnedBy, Generations.Tracks;
    RunKeepsInv(spec, start, moves);
    var j := Reached(AtStart(spec, start), moves);
    TasksWitnessed(j);
    Generations.TracedAlone(j.world.sup, j.done, j.machines, t, u);
  }

  lemma TasksWitnessed(j: Joint)
    requires Inv(j)
    ensures Generations.Witnessed(Trace(j)[..j.done], j.machines)
    ensures Generations.SpawnedBy(Trace(j)[..j.done]) <= j.world.sup.spawned
  {
    hide Lifecycle.Reachable, Generations.SpawnedBy, Generations.AlwaysExclusive, Generations.Live, Generations.Orderly;
    SpawnedByFront(Trace(j), j.done);
    var done := Trace(j)[..j.done];
    forall m | m in j.machines ensures Lifecycle.Reachable(m) {
      var t :| 0 <= t < |j.machines| && j.machines[t] == m;
    }
    forall t: TaskId | t < |j.machines| && Effect.Drop(t) in done ensures Stop(t) !in done {
      OrderlyFront(Trace(j), j.done);
      ReleasedOnce(done, t);
    }
  }

  /** A worker that reports a deliberate stop is being stopped, or has been released: the
      supervisor asked for it. */
  lemma ShutdownReportsAreAskedFor(spec: SupervisorSpec, start: Instant, moves: seq<Move>, t: TaskId)
    requires UniqueSpecIds(spec) && Possible(AtStart(spec, start), moves)
    requires var j := Reached(AtStart(spec, start), moves);
      && CanMove(j, Task(t, Lifecycle.Report)) && j.machines[t].phase.reason == Shutdown
    ensures var j := Reached(AtStart(spec, start), moves);
      && j.done <= |Trace(j)|
      && (NextEffect(j) == Some(Stop(t)) || Stop(t) in Trace(j)[..j.done] || Effect.Drop(t) in Trace(j)[..j.done])
  {
    hide AtStart, Reached, Possible, Lifecycle.Reachable, Generations.Inv, Generations.SpawnedBy;
    RunKeepsInv(spec, start, moves);
    var j := Reached(AtStart(spec, start), moves);
    Lifecycle.ReachableInv(j.machines[t]);
  }

  /** Between commands each worker task that is neither stopped nor dropped is held by the list,
      and each stopped one has ended or was aborted. */
  lemma BetweenCommands(spec: SupervisorSpec, start: Instant, moves: seq<Move>, t: TaskId)
    requires UniqueSpecIds(spec) && Possible(AtStart(spec, start), moves)
    requires var j := Reached(AtStart(spec, start), moves); j.done == |Trace(j)| && t < |j.machines|
    ensures var j := Reached(AtStart(spec, start), moves);
      && |j.machines| == |j.world.sup.spawned|
      && (SpecOf(j, t).Worker? ==>
           (Generations.Owned(j.world.sup.children, t) <==> j.machines[t].owner.Holding?))
      && (j.machines[t].owner.Stopped? ==> j.machines[t].Over())
  {
    hide AtStart, Reached, Possible, Lifecycle.Reachable, Generations.Live, Generations.Orderly, Generations.SpawnedBy;
    hide Generations.AlwaysExclusive;
    RunKeepsInv(spec, start, moves);
    var j := Reached(AtStart(spec, start), moves);
    var s, trace := j.world.sup, Trace(j);
    assert trace[..j.done] == trace;
    Lifecycle.StopSettlesTheTask(j.machines[t]);
    if SpecOf(j, t).Worker? {
      if Stop(t) in trace || Effect.Drop(t) in trace {
        ReleasedNotLive(trace, t);
        assert forall c :: c in s.children ==> c in Generations.Elements(s.children);
      } else {
        Generations.LiveUnlessReleased(trace, t);
      }
    }
  }

  /** In every run, whatever the supervisor has begun can be brought to its end; a supervisor that
      runs and has a command waiting can then take it. No effect is ever stuck. */
  lemma NothingIsStuck(spec: SupervisorSpec, start: Instant, moves: seq<Move>) returns (more: seq<Move>)
    requires UniqueSpecIds(spec) && Possible(AtStart(spec, start), moves)
    ensures moves <= more
    ensures Possible(AtStart(spec, start), more)
    ensures var j, j' := Reached(AtStart(spec, start), moves), Reached(AtStart(spec, start), more);
      && j'.world.sup == j.world.sup && j'.done == |Trace(j')|
      && (Running(j'.world) && j'.world.queue != [] ==> forall init :: CanMove(j', Take(j'.world.now, init)))
  {
    hide AtStart, Possible, Reached, Inv;
    RunKeepsInv(spec, start, moves);
    more := CanCatchUp(AtStart(spec, start), moves);
  }

  // ---- Linked starts tell the truth ----

  /** Command number `k` is a linked start that began a handshake: with what, and with which task. */
  function Handshake(spec: SupervisorSpec, start: Instant, served: seq<Delivery>, k: nat): Option<Await>
    requires k < |served|
  {
    var before := ServeAll(Init(spec, start), served[..k]);
    if before.exit == None then Awaited(before, served[k].command, served[k].env.init) else None
  }

  /** Each handshake so far is either awaited or agrees with what its task has done. */
  ghost predicate Told(j: Joint, spec: SupervisorSpec, start: Instant) {
    forall k :: 0 <= k < |j.world.served| && Handshake(spec, start, j.world.served, k).Some? ==>
      var a := Handshake(spec, start, j.world.served, k);
      j.awaits == a || (a.value.task < |j.machines| && Matches(j.machines[a.value.task].log, a.value.init))
  }

  lemma LogGrows(m: Lifecycle.Machine, step: Lifecycle.Step)
    requires Lifecycle.Enabled(m, step)
    ensures m.log <= Lifecycle.Next(m, step).log
  {
  }

  /** Nothing that a task has done is undone. */
  lemma LogsGrow(j: Joint, move: Move)
    requires CanMove(j, move)
    ensures var j' := Moved(j, move);
      |j.machines| <= |j'.machines| && forall t :: 0 <= t < |j.machines| ==> j.machines[t].log <= j'.machines[t].log
  {
    match move {
      case Act =>
        if Trace(j)[j.done].Drop? {
          LogGrows(j.machines[Trace(j)[j.done].task], Lifecycle.DropProcess);
        }
      case Owner(step) => LogGrows(j.machines[Trace(j)[j.done].task], step);
      case Task(t, step) => LogGrows(j.machines[t], step);
      case _ =>
    }
  }

  lemma MoveKeepsTold(j: Joint, move: Move, spec: SupervisorSpec, start: Instant)
    requires Told(j, spec, start) && CanMove(j, move) && j.world.sup == ServeAll(Init(spec, start), j.world.served)
    ensures Told(Moved(j, move), spec, start)
  {
    hide Serve, Answer, ServeAll, Init, Awaited, Lifecycle.Next, Lifecycle.Enabled;
    var j' := Moved(j, move);
    LogsGrow(j, move);
    var served, served' := j.world.served, j'.world.served;
    assert served <= served' && (served' == served || (move.Take? && |served'| == |served| + 1));
    forall k | 0 <= k < |served'| && Handshake(spec, start, served', k).Some?
      ensures var a := Handshake(spec, start, served', k);
        j'.awaits == a || (a.value.task < |j'.machines| && Matches(j'.machines[a.value.task].log, a.value.init))
    {
      assert served'[..k] == if k < |served| then served[..k] else served;
      if k < |served| {
        assert Handshake(spec, start, served', k) == Handshake(spec, start, served, k);
      }
    }
  }

  lemma {:induction false} RunKeepsTold(spec: SupervisorSpec, start: Instant, moves: seq<Move>)
    requires UniqueSpecIds(spec) && Possible(AtStart(spec, start), moves)
    ensures Told(Reached(AtStart(spec, start), moves), spec, start)
    decreases |moves|
  {
    if moves == [] {
      assert Told(AtStart(spec, start), spec, start);
    } else {
      hide Told, Moved, CanMove, AtStart, Opening, Init, ServeAll, Enabled, Next;
      var front := moves[..|moves| - 1];
      RunKeepsTold(spec, start, front);
      var steps := RunsAreWorldRuns(spec, start, front);
      WorldFollows(spec, start, steps);
      MoveKeepsTold(Reached(AtStart(spec, start), front), moves[|moves| - 1], spec, start);
    }
  }

  /** In every run, a linked start that is over was answered with success only if its task's first
      deed was to initialize, and with the task's own error only if that deed was to fail; a task
      that failed to initialize is never answered with success. */
  lemma LinkedStartsTellTheTruth(spec: SupervisorSpec, start: Instant, moves: seq<Move>, k: nat)
    requires UniqueSpecIds(spec) && Possible(AtStart(spec, start), moves)
    requires var j := Reached(AtStart(spec, start), moves);
      j.awaits == None && k < |j.world.served| && Handshake(spec, start, j.world.served, k).Some?
    ensures var j := Reached(AtStart(spec, start), moves);
      var d, before := j.world.served[k], ServeAll(Init(spec, start), j.world.served[..k]);
      var t := |before.spawned|;
      && t < |j.machines|
      && match Answer(before, d.command, d.env)
         case Some(Started(Ok(id))) => j.machines[t].log != [] && j.machines[t].log[0].Initialized?
         case Some(Started(Err(InitializationFailed(id, reason)))) =>
           d.env.init == Failed(reason) ==> j.machines[t].log != [] && j.machines[t].log[0].InitFailed?
         case Some(Started(Err(InitializationTimeout(id, _)))) => d.env.init.Elapsed?
         case _ => false
  {
    hide AtStart, Reached, Possible, ServeAll, Init;
    RunKeepsTold(spec, start, moves);
    RunKeepsInv(spec, start, moves);
    hide Inv;
  }

  // ---- The grace period ----

  /** The grace period of task `t` has run out in the course of `moves`, while it was being stopped. */
  ghost predicate TimedOut(j: Joint, moves: seq<Move>, t: TaskId)
    requires Possible(j, moves)
    decreases |moves|
  {
    moves != []
    && (TimedOut(j, moves[..|moves| - 1], t)
        || (moves[|moves| - 1] == Owner(Lifecycle.TimeoutElapses)
            && NextEffect(Reached(j, moves[..|moves| - 1])) == Some(Stop(t))))
  }

  /** A task that is being stopped, or was, is aborted exactly for one of two reasons. */
  ghost predicate AbortsAgree(j: Joint, timedOut: iset<TaskId>) {
    && (forall t :: t in timedOut ==> t < |j.machines|)
    && (forall t {:trigger j.machines[t]} :: 0 <= t < |j.machines| ==>
          && (j.machines[t].owner.Holding? ==> t !in timedOut)
          && (!j.machines[t].owner.Dropped? ==>
                (j.machines[t].abort <==>
                   t in timedOut || (!j.machines[t].owner.Holding? && j.world.sup.spec.shutdownTimeout == 0))))
  }

  lemma MoveKeepsAborts(j: Joint, move: Move, timedOut: iset<TaskId>)
    requires Inv(j) && AbortsAgree(j, timedOut) && CanMove(j, move)
    requires Moved(j, move).world.sup.spec == j.world.sup.spec
    ensures var next := if move == Owner(Lifecycle.TimeoutElapses) then timedOut + iset{Trace(j)[j.done].task} else timedOut;
      AbortsAgree(Moved(j, move), next)
  {
    hide Generations.Inv, MachinesAgree, ReportsAgree, AwaitAgrees, Serve, Answer;
    match move {
      case Owner(step) => HeldAborts(j, Trace(j)[j.done].task);
      case Act =>
        if Trace(j)[j.done].Drop? {
          HeldAborts(j, Trace(j)[j.done].task);
        }
      case Take(_, _) =>
      case _ =>
    }
  }

  /** Whom nobody has asked to stop is not aborted, and only a wait can time out. */
  lemma HeldAborts(j: Joint, t: TaskId)
    requires Inv(j) && t < |j.machines|
    ensures j.machines[t].owner.Holding? ==> !j.machines[t].abort
    ensures j.machines[t].owner.Waiting? ==> !j.machines[t].abort
    ensures j.machines[t].owner.Stopped? ==> (j.machines[t].abort <==> j.machines[t].owner == Lifecycle.Stopped(false))
  {
    hide Generations.Inv, Generations.SpawnedBy, ReportsAgree, AwaitAgrees, Lifecycle.Reachable;
    Lifecycle.ReachableInv(j.machines[t]);
  }

  lemma SpecKept(j: Joint, move: Move)
    requires CanMove(j, move)
    ensures Moved(j, move).world.sup.spec == j.world.sup.spec
  {
    hide Serve, Answer;
    if move.Take? {
      Escalation.SpecStays(j.world.sup, HeadDelivery(j.world, move.later, move.init));
    }
  }

  /** The tasks whose grace period has run out. */
  ghost function AllTimedOut(j: Joint, moves: seq<Move>): iset<TaskId>
    requires Possible(j, moves)
  {
    iset t | TimedOut(j, moves, t)
  }

  lemma TimedOutNext(j0: Joint, moves: seq<Move>)
    requires Possible(j0, moves) && moves != []
    ensures var front, last := moves[..|moves| - 1], moves[|moves| - 1];
      var j := Reached(j0, front);
      AllTimedOut(j0, moves) == if last == Owner(Lifecycle.TimeoutElapses)
                                then AllTimedOut(j0, front) + iset{Trace(j)[j.done].task} else AllTimedOut(j0, front)
  {
    hide Moved, CanMove;
    TimingOut(Reached(j0, moves[..|moves| - 1]), moves[|moves| - 1]);
  }

  lemma {:induction false} RunKeepsAborts(spec: SupervisorSpec, start: Instant, moves: seq<Move>)
    requires UniqueSpecIds(spec) && Possible(AtStart(spec, start), moves)
    ensures AbortsAgree(Reached(AtStart(spec, start), moves), AllTimedOut(AtStart(spec, start), moves))
    ensures Reached(AtStart(spec, start), moves).world.sup.spec == spec
    decreases |moves|
  {
    hide Inv, Moved, CanMove, AtStart, AbortsAgree, AllTimedOut;
    if moves == [] {
      NoneTimedOut(spec, start);
    } else {
      var front, last := moves[..|moves| - 1], moves[|moves| - 1];
      var j := Reached(AtStart(spec, start), front);
      RunKeepsInv(spec, start, front);
      RunKeepsAborts(spec, start, front);
      SpecKept(j, last);
      MoveKeepsAborts(j, last, AllTimedOut(AtStart(spec, start), front));
      TimedOutNext(AtStart(spec, start), moves);
    }
  }

  lemma NoneTimedOut(spec: SupervisorSpec, start: Instant)
    ensures AbortsAgree(AtStart(spec, start), AllTimedOut(AtStart(spec, start), []))
    ensures AtStart(spec, start).world.sup.spec == spec
  {
    assert AllTimedOut(AtStart(spec, start), []) == iset{};
  }

  lemma TimingOut(j: Joint, move: Move)
    requires CanMove(j, move)
    ensures move == Owner(Lifecycle.TimeoutElapses) ==> j.done < |Trace(j)| && NextEffect(j) == Some(Stop(Trace(j)[j.done].task))
  {
  }

  /** In every run, a worker that was stopped came to its own end exactly if there is a grace period
      and it did not run out: it is aborted for no other reason. */
  lemma StoppedWithinGrace(spec: SupervisorSpec, start: Instant, moves: seq<Move>, t: TaskId)
    requires UniqueSpecIds(spec) && Possible(AtStart(spec, start), moves)
    requires var j := Reached(AtStart(spec, start), moves); t < |j.machines| && j.machines[t].owner.Stopped?
    ensures var m := Reached(AtStart(spec, start), moves).machines[t];
      var graceful := spec.shutdownTimeout > 0 && !TimedOut(AtStart(spec, start), moves, t);
      && m.owner == Lifecycle.Stopped(graceful) && m.Over() && (m.abort <==> !graceful)
      && (graceful ==> m.phase.Ended?)
  {
    hide AtStart, Reached, Possible, TimedOut, Inv, AbortsAgree;
    RunKeepsInv(spec, start, moves);
    RunKeepsAborts(spec, start, moves);
    var j := Reached(AtStart(spec, start), moves);
    StoppedFacts(j, AllTimedOut(AtStart(spec, start), moves), t);
  }

  lemma StoppedFacts(j: Joint, timedOut: iset<TaskId>, t: TaskId)
    requires Inv(j) && AbortsAgree(j, timedOut) && t < |j.machines| && j.machines[t].owner.Stopped?
    ensures var m := j.machines[t]; var graceful := j.world.sup.spec.shutdownTimeout > 0 && t !in timedOut;
      && m.owner == Lifecycle.Stopped(graceful) && m.Over() && (m.abort <==> !graceful)
      && (graceful ==> m.phase.Ended?)
  {
    hide Inv, Lifecycle.Reachable;
    HeldAborts(j, t);
    MachineReachable(j, t);
    Lifecycle.StopSettlesTheTask(j.machines[t]);
  }

  lemma MachineReachable(j: Joint, t: TaskId)
    requires Inv(j) && t < |j.machines|
    ensures Lifecycle.Reachable(j.machines[t])
  {
    hide Generations.Inv, Generations.SpawnedBy, ReportsAgree, AwaitAgrees, Lifecycle.Reachable;
  }

  // ---- One-for-all rounds ----

  /** Serving `d` begins a one-for-all round over the children of `s`. */
  predicate BeginsRoundOverAll(s: Sup, d: Delivery) {
    && s.exit == None && s.spec.restartStrategy == OneForAll
    && match d.command
       case RestartChild(id, strategy) => strategy == OneForAll && Position(s.children, id).Some?
       case ChildTerminated(id, reason) =>
         var p := Position(s.children, id);
         p.Some? && var v := JudgeAt(s, p.value, reason, d.env); v.decision.Restart? && v.decision.delay == 0
       case _ => false
  }

  lemma RoundOverAllTrace(s: Sup, d: Delivery)
    requires BeginsRoundOverAll(s, d) && s.children != []
    ensures Serve(s, d.command, d.env).trace == ApplyRestart(s, 0, OneForAll).trace
  {
  }

  /** What was done before the last command was taken has been carried out. */
  ghost predicate CaughtUp(j: Joint, spec: SupervisorSpec, start: Instant) {
    var n := |j.world.served|;
    n > 0 ==> |ServeAll(Init(spec, start), j.world.served[..n - 1]).trace| <= j.done
  }

  lemma MoveKeepsCaughtUp(j: Joint, move: Move, spec: SupervisorSpec, start: Instant)
    requires CaughtUp(j, spec, start) && CanMove(j, move) && j.world.sup == ServeAll(Init(spec, start), j.world.served)
    ensures CaughtUp(Moved(j, move), spec, start)
  {
    hide Serve, Answer, ServeAll, Init, Lifecycle.Next, Lifecycle.Enabled;
    var j' := Moved(j, move);
    if move.Take? {
      assert j'.world.served[..|j.world.served|] == j.world.served;
    } else {
      assert j'.world.served == j.world.served && j.done <= j'.done;
    }
  }

  lemma {:induction false} RunKeepsCaughtUp(spec: SupervisorSpec, start: Instant, moves: seq<Move>)
    requires UniqueSpecIds(spec) && Possible(AtStart(spec, start), moves)
    ensures var j := Reached(AtStart(spec, start), moves);
      CaughtUp(j, spec, start) && j.world.sup == ServeAll(Init(spec, start), j.world.served)
    decreases |moves|
  {
    var steps := RunsAreWorldRuns(spec, start, moves);
    WorldFollows(spec, start, steps);
    if moves == [] {
      assert CaughtUp(AtStart(spec, start), spec, start);
    } else {
      hide CaughtUp, Moved, CanMove, AtStart, Opening, Init, ServeAll, Enabled, Next;
      RunKeepsCaughtUp(spec, start, moves[..|moves| - 1]);
      MoveKeepsCaughtUp(Reached(AtStart(spec, start), moves[..|moves| - 1]), moves[|moves| - 1], spec, start);
    }
  }

  /** In every run, by the time a one-for-all round starts its first replacement, the task of every
      worker that was listed before the round is over: no old worker runs beside a new one. */
  lemma OneForAllStartsAfterTheEnd(spec: SupervisorSpec, start: Instant, moves: seq<Move>, c: Child)
    requires UniqueSpecIds(spec) && Possible(AtStart(spec, start), moves)
    requires var j := Reached(AtStart(spec, start), moves); var n := |j.world.served|;
      && NextEffect(j).Some? && NextEffect(j).value.Spawn? && n > 0
      && var before := ServeAll(Init(spec, start), j.world.served[..n - 1]);
         BeginsRoundOverAll(before, j.world.served[n - 1]) && c in before.children && c.spec.Worker?
    ensures var j := Reached(AtStart(spec, start), moves);
      c.task < |j.machines| && j.machines[c.task].owner.Stopped? && j.machines[c.task].Over()
  {
    hide AtStart, Reached, Possible, Init, ServeAll, Inv, Serve, BeginsRoundOverAll, ApplyRestart;
    RunKeepsInv(spec, start, moves);
    RunKeepsCaughtUp(spec, start, moves);
    var j := Reached(AtStart(spec, start), moves);
    var n := |j.world.served|;
    var before := ServeAll(Init(spec, start), j.world.served[..n - 1]);
    LastServed(spec, start, j.world.served);
    var i :| 0 <= i < |before.children| && before.children[i] == c;
    RunningBefore(before, j.world.served[n - 1]);
    RoundOverAllTrace(before, j.world.served[n - 1]);
    Rounds.OneForAllStopsBeforeItStarts(before, 0, j.done);
    StoppedAreOver(j, c.task);
  }

  lemma RunningBefore(s: Sup, d: Delivery)
    requires BeginsRoundOverAll(s, d)
    ensures s.exit == None
  {
  }

  lemma LastServed(spec: SupervisorSpec, start: Instant, served: seq<Delivery>)
    requires served != []
    ensures var n := |served| - 1; var before := ServeAll(Init(spec, start), served[..n]);
      before.exit == None ==> ServeAll(Init(spec, start), served) == Serve(before, served[n].command, served[n].env)
  {
  }

  lemma StoppedAreOver(j: Joint, t: TaskId)
    requires Inv(j) && Stop(t) in Trace(j)[..j.done]
    ensures t < |j.machines| && j.machines[t].owner.Stopped? && j.machines[t].Over()
  {
    hide Generations.Live, Generations.AlwaysExclusive, Generations.SpawnedBy, Lifecycle.Reachable;
    OrderlyFront(Trace(j), j.done);
    ReleasedWereSpawned(Trace(j)[..j.done], t);
    Lifecycle.StopSettlesTheTask(j.machines[t]);
  }
}
