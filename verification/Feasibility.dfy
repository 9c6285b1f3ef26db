/** Which runs of the world the task machines can follow: every one in which tasks fail or finish
    while they are listed, and failed linked starts report. The runs that show a claim to be false
    are of this kind. */
module Feasibility {
  import opened Types
  import opened Spec
  import opened Supervision
  import opened Identity
  import opened World
  import opened Joint
  import Generations
  import Lifecycle

  /** Task `t` was the task of a linked start that failed to initialize. */
  ghost predicate FailedStart(w: World, spec: SupervisorSpec, start: Instant, t: TaskId) {
    exists k :: 0 <= k < |w.served| && FailedAt(w.served, spec, start, t, k)
  }

  predicate FailedAt(served: seq<Delivery>, spec: SupervisorSpec, start: Instant, t: TaskId, k: nat)
    requires k < |served|
  {
    var a := Handshake(spec, start, served, k);
    a.Some? && a.value.task == t && a.value.init.Failed?
  }

  /** A report that its task can make at this point. */
  ghost predicate Likely(w: World, step: Step, spec: SupervisorSpec, start: Instant)
    requires Enabled(w, step)
  {
    match step
    case Report(t, reason) =>
      || w.sup.spawned[t].Supervisor?
      || (reason != Shutdown && Generations.Owned(w.sup.children, t))
      || (reason == Abnormal && FailedStart(w, spec, start, t))
    case _ => true
  }

  ghost predicate AllLikely(spec: SupervisorSpec, start: Instant, steps: seq<Step>)
    requires Legal(Opening(spec, start), steps)
    decreases |steps|
  {
    steps == []
    || (AllLikely(spec, start, steps[..|steps| - 1])
        && Likely(After(Opening(spec, start), steps[..|steps| - 1]), steps[|steps| - 1], spec, start))
  }

  // ---- Tasks that keep still ----

  predicate Rested(m: Lifecycle.Machine) {
    m.phase.Initializing? || m.phase.Selecting? || m.phase.Ended?
  }

  /** Every task is where it can be stopped without a report, or has been released; a failed linked
      start is about to report. */
  ghost predicate Still(j: Joint, spec: SupervisorSpec, start: Instant) {
    && Inv(j)
    && (forall t {:trigger j.machines[t]} :: 0 <= t < |j.machines| ==>
          if j.machines[t].owner.Holding? then Rested(j.machines[t])
          else Stop(t) in Trace(j)[..j.done] || Effect.Drop(t) in Trace(j)[..j.done])
    && (forall t: TaskId :: FailedStart(j.world, spec, start, t) && t !in j.world.reported ==>
          || (j.awaits.Some? && j.awaits.value.task == t)
          || (t < |j.machines| && j.machines[t].phase == Lifecycle.Reporting(Abnormal)))
  }

  ghost predicate Calm(j: Joint, spec: SupervisorSpec, start: Instant) {
    Still(j, spec, start) && j.done == |Trace(j)| && j.awaits == None
  }

  /** A task was released by the effect just carried out; nothing else has changed. */
  lemma ReleasedStill(j: Joint, j': Joint, t: TaskId, m: Lifecycle.Machine, spec: SupervisorSpec, start: Instant)
    requires Still(j, spec, start) && Inv(j') && j'.world == j.world
    requires j.done < |Trace(j)| && j'.done == j.done + 1 && (Trace(j)[j.done] == Stop(t) || Trace(j)[j.done] == Effect.Drop(t))
    requires t < |j.machines| && j'.machines == j.machines[t := m] && !m.owner.Holding?
    requires j'.awaits == None && (j.awaits == None || j.awaits.value.task == t)
    requires FailedStart(j.world, spec, start, t) && t !in j.world.reported ==> m.phase == Lifecycle.Reporting(Abnormal)
    ensures Still(j', spec, start)
  {
    hide Inv, FailedStart;
    var before, after := Trace(j)[..j.done], Trace(j)[..j.done + 1];
    assert j.done <= |Trace(j)| && after == before + [Trace(j)[j.done]];
  }

  // ---- Carrying out a command ----

  lemma StopStill(j: Joint, moves: seq<Move>, t: TaskId, spec: SupervisorSpec, start: Instant) returns (more: seq<Move>)
    requires Possible(j, moves) && Still(Reached(j, moves), spec, start) && NextEffect(Reached(j, moves)) == Some(Stop(t))
    ensures moves <= more && Possible(j, more) && Still(Reached(j, more), spec, start)
    ensures Reached(j, more).world == Reached(j, moves).world && Reached(j, more).done == Reached(j, moves).done + 1
    ensures Reached(j, more).awaits == None
  {
    hide Inv, Possible, Reached, FailedStart;
    var r := Reached(j, moves);
    StopFacts(r, t);
    NotYetReleased(r, t);
    HeldFacts(r, t);
    more := StoppedQuietly(j, moves, t);
    more := Go(j, more, Act);
    ReleasedStill(r, Reached(j, more), t, Reached(j, more).machines[t], spec, start);
  }

  /** A task that rests is stopped without a report. */
  lemma StoppedQuietly(j: Joint, moves: seq<Move>, t: TaskId) returns (more: seq<Move>)
    requires Possible(j, moves) && Inv(Reached(j, moves)) && NextEffect(Reached(j, moves)) == Some(Stop(t))
    requires var r := Reached(j, moves);
      && t < |r.machines| && t < |r.world.sup.spawned| && SpecOf(r, t).Worker? && r.awaits == None
      && r.machines[t].owner.Holding? && Rested(r.machines[t])
    ensures moves <= more && Possible(j, more) && Inv(Reached(j, more))
    ensures var r, r' := Reached(j, moves), Reached(j, more);
      && r'.world == r.world && r'.done == r.done && r'.awaits == None
      && |r'.machines| == |r.machines| && r'.machines == r.machines[t := r'.machines[t]] && r'.machines[t].owner.Stopped?
  {
    hide Inv, Possible, Reached;
    var r := Reached(j, moves);
    var immediate := r.world.sup.spec.shutdownTimeout == 0;
    more := Go(j, moves, Owner(Lifecycle.BeginStop(immediate)));
    if r.machines[t].phase.Ended? {
      more := Go(j, more, Owner(if immediate then Lifecycle.JoinAborted else Lifecycle.Join));
    } else {
      more := AbortedQuietly(j, more, t);
    }
  }

  lemma AbortedQuietly(j: Joint, moves: seq<Move>, t: TaskId) returns (more: seq<Move>)
    requires Possible(j, moves) && Inv(Reached(j, moves)) && NextEffect(Reached(j, moves)) == Some(Stop(t))
    requires var r := Reached(j, moves); var m := r.machines;
      && t < |m| && t < |r.world.sup.spawned| && SpecOf(r, t).Worker? && r.awaits == None
      && (m[t].owner.Waiting? || (m[t].owner.Joining? && m[t].abort)) && (m[t].phase.Initializing? || m[t].phase.Selecting?)
    ensures moves <= more && Possible(j, more) && Inv(Reached(j, more))
    ensures var r, r' := Reached(j, moves), Reached(j, more);
      && r'.world == r.world && r'.done == r.done && r'.awaits == None
      && |r'.machines| == |r.machines| && r'.machines == r.machines[t := r'.machines[t]] && r'.machines[t].owner.Stopped?
  {
    hide Inv, Possible, Reached;
    more := moves;
    if Reached(j, moves).machines[t].owner.Waiting? {
      more := Go(j, more, Owner(Lifecycle.TimeoutElapses));
    }
    more := Go(j, more, Task(t, Lifecycle.AbortLands));
    more := Go(j, more, Owner(Lifecycle.JoinAborted));
  }

  lemma NotYetReleased(j: Joint, t: TaskId)
    requires Inv(j) && (NextEffect(j) == Some(Stop(t)) || NextEffect(j) == Some(Effect.Drop(t)))
    ensures Stop(t) !in Trace(j)[..j.done] && Effect.Drop(t) !in Trace(j)[..j.done]
  {
    hide Generations.Live, Generations.AlwaysExclusive, Generations.SpawnedBy, Lifecycle.Reachable;
    NextFits(j);
    OrderlyFront(Trace(j), j.done);
    if Stop(t) in Trace(j)[..j.done] || Effect.Drop(t) in Trace(j)[..j.done] {
      ReleasedNotLive(Trace(j)[..j.done], t);
    }
  }

  lemma HeldFacts(j: Joint, t: TaskId)
    requires Inv(j) && t < |j.machines| && j.machines[t].owner.Holding?
    ensures !j.machines[t].signal && !j.machines[t].abort && !j.machines[t].phase.Aborted?
    ensures j.machines[t].log == [] <==> j.machines[t].phase.Initializing?
  {
    hide Generations.Inv, Generations.SpawnedBy, Lifecycle.Reachable;
    Lifecycle.ReachableInv(j.machines[t]);
  }

  lemma DropStill(j: Joint, moves: seq<Move>, t: TaskId, spec: SupervisorSpec, start: Instant) returns (more: seq<Move>)
    requires Possible(j, moves) && Still(Reached(j, moves), spec, start) && NextEffect(Reached(j, moves)) == Some(Effect.Drop(t))
    requires Awaits(Reached(j, moves), spec, start)
    ensures moves <= more && Possible(j, more) && Still(Reached(j, more), spec, start)
    ensures Reached(j, more).world == Reached(j, moves).world && Reached(j, more).done == Reached(j, moves).done + 1
    ensures Reached(j, more).awaits == None
  {
    hide Inv, Possible, Reached, FailedStart, Matches;
    var r := Reached(j, moves);
    DropFacts(r, t);
    NotYetReleased(r, t);
    HeldFacts(r, t);
    more := moves;
    if r.awaits.Some? {
      AwaitFacts(r);
      DropIsAwaited(r, t);
      var init := r.awaits.value.init;
      if init.Failed? {
        NotToldYet(r, t, spec, start);
        more := Go(j, more, Task(t, Lifecycle.InitErr));
        MatchedNow(r.machines[t], Lifecycle.InitErr, init);
      } else {
        SaysNothing(r.machines[t].log, init);
      }
      more := Go(j, more, Observe);
    }
    more := Go(j, more, Act);
    ReleasedStill(r, Reached(j, more), t, Reached(j, more).machines[t], spec, start);
  }

  /** A handshake that is awaited is that of the last command taken. */
  ghost predicate Awaits(j: Joint, spec: SupervisorSpec, start: Instant) {
    j.awaits.Some? ==>
      && (j.awaits.value.init.Failed? <==> FailedStart(j.world, spec, start, j.awaits.value.task))
      && j.awaits.value.task !in j.world.reported
      && (j.awaits.value.init.Ready? ==> forall k :: j.done <= k < |Trace(j)| ==> !Trace(j)[k].Drop?)
      && (!j.awaits.value.init.Ready? ==> j.done < |Trace(j)| && Trace(j)[|Trace(j)| - 1].Drop?)
  }

  lemma DropIsAwaited(j: Joint, t: TaskId)
    requires Inv(j) && NextEffect(j) == Some(Effect.Drop(t)) && j.awaits.Some?
    ensures j.awaits.value.task == t && t < |j.machines|
  {
    hide Generations.Inv, MachinesAgree, ReportsAgree, Matches;
  }

  lemma SaysNothing(log: seq<Lifecycle.Event>, init: InitOutcome)
    requires !init.Ready? && !init.Failed?
    ensures Matches(log, init)
  {
  }

  lemma NotToldYet(j: Joint, t: TaskId, spec: SupervisorSpec, start: Instant)
    requires Still(j, spec, start) && j.awaits.Some? && j.awaits.value.task == t && t < |j.machines|
    requires j.machines[t].owner.Holding? && j.awaits.value.init.Failed? && t !in j.world.reported
    ensures !Matches(j.machines[t].log, j.awaits.value.init) && j.machines[t].phase.Initializing?
  {
    hide Generations.Inv, Generations.SpawnedBy, Lifecycle.Reachable, FailedStart, OwnerAgrees;
    Lifecycle.ReachableInv(j.machines[t]);
  }

  /** An effect that releases nobody. */
  lemma ActStill(j: Joint, moves: seq<Move>, spec: SupervisorSpec, start: Instant) returns (more: seq<Move>)
    requires Possible(j, moves) && Still(Reached(j, moves), spec, start) && Awaits(Reached(j, moves), spec, start)
    requires NextEffect(Reached(j, moves)).Some?
    requires NextEffect(Reached(j, moves)).value.Spawn? || NextEffect(Reached(j, moves)).value.Signal?
    ensures moves <= more && Possible(j, more) && Still(Reached(j, more), spec, start) && Awaits(Reached(j, more), spec, start)
    ensures Reached(j, more).world == Reached(j, moves).world && Reached(j, more).done == Reached(j, moves).done + 1
  {
    hide Inv, Possible, Reached, FailedStart, Matches;
    var r := Reached(j, moves);
    more := Go(j, moves, Act);
    var r' := Reached(j, more);
    DoneWithin(r);
    assert Trace(r)[..r.done + 1] == Trace(r)[..r.done] + [Trace(r)[r.done]];
  }

  lemma DoneWithin(j: Joint)
    requires Inv(j)
    ensures j.done <= |Trace(j)|
  {
  }

  lemma EffectStill(j: Joint, moves: seq<Move>, spec: SupervisorSpec, start: Instant) returns (more: seq<Move>)
    requires Possible(j, moves) && Still(Reached(j, moves), spec, start) && Awaits(Reached(j, moves), spec, start)
    requires Reached(j, moves).done < |Trace(Reached(j, moves))|
    ensures moves <= more && Possible(j, more) && Still(Reached(j, more), spec, start) && Awaits(Reached(j, more), spec, start)
    ensures Reached(j, more).world == Reached(j, moves).world && Reached(j, more).done == Reached(j, moves).done + 1
  {
    hide Still, Possible, Reached, FailedStart, Matches, CanMove, Moved;
    var r := Reached(j, moves);
    match Trace(r)[r.done] {
      case Spawn(_, _) => more := ActStill(j, moves, spec, start);
      case Signal(_) => more := ActStill(j, moves, spec, start);
      case Stop(t) =>
        StillInv(r, spec, start);
        StopFacts(r, t);
        more := StopStill(j, moves, t, spec, start);
      case Drop(t) => more := DropStill(j, moves, t, spec, start);
    }
  }

  lemma StillInv(j: Joint, spec: SupervisorSpec, start: Instant)
    requires Still(j, spec, start)
    ensures Inv(j)
  {
  }

  /** Whatever the supervisor has begun is brought to its end without a report. */
  lemma {:induction false} CarriedStill(j: Joint, moves: seq<Move>, spec: SupervisorSpec, start: Instant) returns (more: seq<Move>)
    requires Possible(j, moves) && Still(Reached(j, moves), spec, start) && Awaits(Reached(j, moves), spec, start)
    ensures moves <= more && Possible(j, more) && Calm(Reached(j, more), spec, start)
    ensures Reached(j, more).world == Reached(j, moves).world
    decreases |Trace(Reached(j, moves))| - Reached(j, moves).done
  {
    hide Still, Possible, Reached, FailedStart, Matches, CanMove, Moved;
    var r := Reached(j, moves);
    StillInv(r, spec, start);
    DoneWithin(r);
    if r.done < |Trace(r)| {
      more := EffectStill(j, moves, spec, start);
      more := CarriedStill(j, more, spec, start);
    } else if r.awaits.Some? {
      more := ReadyStill(j, moves, spec, start);
    } else {
      more := moves;
    }
  }

  /** The handshake of a linked start that succeeds. */
  lemma ReadyStill(j: Joint, moves: seq<Move>, spec: SupervisorSpec, start: Instant) returns (more: seq<Move>)
    requires Possible(j, moves) && Still(Reached(j, moves), spec, start) && Awaits(Reached(j, moves), spec, start)
    requires var r := Reached(j, moves); r.done == |Trace(r)| && r.awaits.Some?
    ensures moves <= more && Possible(j, more) && Calm(Reached(j, more), spec, start)
    ensures Reached(j, more).world == Reached(j, moves).world
  {
    hide Inv, Possible, Reached, FailedStart, Matches;
    var r := Reached(j, moves);
    var t, init := r.awaits.value.task, r.awaits.value.init;
    AwaitStarted(r);
    AwaitFacts(r);
    HeldFacts(r, t);
    more := moves;
    if !Matches(r.machines[t].log, init) {
      more := Go(j, more, Task(t, Lifecycle.InitOk));
      MatchedNow(r.machines[t], Lifecycle.InitOk, init);
    }
    more := Go(j, more, Observe);
  }

  lemma AwaitStarted(j: Joint)
    requires Inv(j) && j.done == |Trace(j)| && j.awaits.Some?
    ensures j.awaits.value.task < |j.machines| && j.machines[j.awaits.value.task].owner.Holding?
  {
    hide Generations.Inv, MachinesAgree, ReportsAgree, Matches;
  }

  // ---- One step of the world ----

  lemma TakeStill(spec: SupervisorSpec, start: Instant, moves: seq<Move>, later: Instant, init: InitOutcome)
    returns (more: seq<Move>)
    requires UniqueSpecIds(spec) && Possible(AtStart(spec, start), moves)
    requires var j := Reached(AtStart(spec, start), moves);
      Calm(j, spec, start) && Enabled(j.world, Handle(later, init))
    ensures var j0 := AtStart(spec, start);
      && moves <= more && Possible(j0, more)
      && Still(Reached(j0, more), spec, start) && Awaits(Reached(j0, more), spec, start)
      && Reached(j0, more).world == Next(Reached(j0, moves).world, Handle(later, init))
  {
    hide Inv, Possible, Reached, FailedStart, AtStart, Serve, Answer, Matches;
    var j0 := AtStart(spec, start);
    var j := Reached(j0, moves);
    more := Go(j0, moves, Take(later, init));
    var j' := Reached(j0, more);
    var d := HeadDelivery(j.world, later, init);
    Generations.HistoryGrows(j.world.sup, d.command, d.env);
    LinkedTrace(j.world.sup, d.command, d.env);
    AllStarted(j);
    ReportedStarted(j);
    assert Trace(j')[..j.done] == Trace(j) == Trace(j)[..j.done];
    forall t: TaskId
      ensures FailedStart(j'.world, spec, start, t)
         <==> FailedStart(j.world, spec, start, t)
              || (j'.awaits.Some? && j'.awaits.value.task == t && j'.awaits.value.init.Failed?)
      ensures FailedStart(j.world, spec, start, t) ==> t < |j.machines|
    {
      FailuresAfter(spec, start, moves, later, init, t);
    }
  }

  lemma ReportedStarted(j: Joint)
    requires Inv(j)
    ensures forall t :: t in j.world.reported ==> t < |j.machines|
  {
  }

  /** Taking a command adds at most one failed start, and every earlier one has a task. */
  lemma FailuresAfter(spec: SupervisorSpec, start: Instant, moves: seq<Move>, later: Instant, init: InitOutcome, t: TaskId)
    requires UniqueSpecIds(spec) && Possible(AtStart(spec, start), moves)
    requires var j := Reached(AtStart(spec, start), moves); j.awaits == None && Enabled(j.world, Handle(later, init))
    ensures var j := Reached(AtStart(spec, start), moves);
      var a := Awaited(j.world.sup, j.world.queue[0], init);
      && (FailedStart(Next(j.world, Handle(later, init)), spec, start, t)
          <==> FailedStart(j.world, spec, start, t) || (a.Some? && a.value.task == t && a.value.init.Failed?))
      && (FailedStart(j.world, spec, start, t) ==> t < |j.machines|)
  {
    hide Possible, Reached, AtStart, Serve, Answer, ServeAll, Init, Awaited, Matches;
    var j := Reached(AtStart(spec, start), moves);
    RunKeepsTold(spec, start, moves);
    var steps := RunsAreWorldRuns(spec, start, moves);
    WorldFollows(spec, start, steps);
    var served, n := j.world.served, |j.world.served|;
    var served' := Next(j.world, Handle(later, init)).served;
    assert served' == served + [HeadDelivery(j.world, later, init)];
    forall k | 0 <= k < |served'|
      ensures FailedAt(served', spec, start, t, k)
         == if k < n then FailedAt(served, spec, start, t, k)
            else var a := Awaited(j.world.sup, j.world.queue[0], init); a.Some? && a.value.task == t && a.value.init.Failed?
    {
      assert served'[..k] == if k < n then served[..k] else served;
    }
    if FailedStart(j.world, spec, start, t) {
      var k :| 0 <= k < n && FailedAt(served, spec, start, t, k);
      assert FailedAt(served', spec, start, t, k);
    }
    assert FailedAt(served', spec, start, t, n)
       <==> (var a := Awaited(j.world.sup, j.world.queue[0], init); a.Some? && a.value.task == t && a.value.init.Failed?);
  }

  /** A task that is listed is held. */
  lemma OwnedHeld(j: Joint, t: TaskId, spec: SupervisorSpec, start: Instant)
    requires Calm(j, spec, start) && Generations.Owned(j.world.sup.children, t) && t < |j.machines|
    ensures j.machines[t].owner.Holding? && Rested(j.machines[t])
  {
    hide Generations.Live, Generations.AlwaysExclusive, Generations.SpawnedBy, Lifecycle.Reachable, FailedStart, OwnerAgrees;
    assert Trace(j)[..j.done] == Trace(j);
    assert forall c :: c in j.world.sup.children ==> c in Generations.Elements(j.world.sup.children);
    if !j.machines[t].owner.Holding? {
      ReleasedNotLive(Trace(j), t);
    }
  }

  /** A listed worker fails, or finishes. */
  lemma WorkerReports(j: Joint, moves: seq<Move>, t: TaskId, reason: ChildExitReason, spec: SupervisorSpec, start: Instant)
    returns (more: seq<Move>)
    requires Possible(j, moves) && Calm(Reached(j, moves), spec, start) && reason != Shutdown
    requires var r := Reached(j, moves);
      && t < |r.world.sup.spawned| && SpecOf(r, t).Worker? && t !in r.world.reported
      && Generations.Owned(r.world.sup.children, t)
    ensures moves <= more && Possible(j, more) && Calm(Reached(j, more), spec, start)
    ensures Reached(j, more).world == Reported(Reached(j, moves).world, t, reason)
  {
    hide Inv, Possible, Reached, FailedStart, Matches;
    var r := Reached(j, moves);
    AllStarted(r);
    OwnedHeld(r, t, spec, start);
    HeldFacts(r, t);
    EndedReported(r, t);
    more := moves;
    if r.machines[t].phase.Initializing? {
      more := Go(j, more, Task(t, Lifecycle.InitOk));
    }
    more := WorkerFinishes(j, more, t, reason);
    ReportedStill(r, Reached(j, more), t, reason, spec, start);
  }

  lemma WorkerFinishes(j: Joint, moves: seq<Move>, t: TaskId, reason: ChildExitReason) returns (more: seq<Move>)
    requires Possible(j, moves) && Inv(Reached(j, moves)) && reason != Shutdown
    requires var r := Reached(j, moves);
      && t < |r.machines| && t < |r.world.sup.spawned| && SpecOf(r, t).Worker? && r.awaits == None
      && r.machines[t].phase.Selecting? && !r.machines[t].signal
    ensures moves <= more && Possible(j, more) && Inv(Reached(j, more))
    ensures var r, r' := Reached(j, moves), Reached(j, more);
      && |r'.machines| == |r.machines| && r'.machines == r.machines[t := r'.machines[t]]
      && r'.machines[t].phase.Ended? && r'.machines[t].owner == r.machines[t].owner
      && r'.done == r.done && r'.awaits == None && r'.world == Reported(r.world, t, reason)
  {
    hide Inv, Possible, Reached;
    more := Go(j, moves, Task(t, Lifecycle.CheckSignal));
    more := Go(j, more, Task(t, if reason == Normal then Lifecycle.RunOk else Lifecycle.RunErr));
    more := Go(j, more, Task(t, Lifecycle.HookDone));
    more := Go(j, more, Task(t, Lifecycle.Step.Report));
  }

  lemma EndedReported(j: Joint, t: TaskId)
    requires Inv(j) && t < |j.machines| && SpecOf(j, t).Worker?
    ensures t in j.world.reported <==> j.machines[t].phase.Ended?
  {
  }

  lemma ReportedStill(j: Joint, j': Joint, t: TaskId, reason: ChildExitReason, spec: SupervisorSpec, start: Instant)
    requires Calm(j, spec, start) && Inv(j') && t < |j.machines| && t < |j.world.sup.spawned|
    requires |j'.machines| == |j.machines| && j'.machines == j.machines[t := j'.machines[t]] && j'.machines[t].phase.Ended?
    requires j'.machines[t].owner == j.machines[t].owner && j'.done == j.done && j'.awaits == None
    requires j'.world == Reported(j.world, t, reason)
    ensures Calm(j', spec, start)
  {
    hide Inv, FailedAt;
    assert j'.world.served == j.world.served;
    assert forall u: TaskId :: FailedStart(j'.world, spec, start, u) <==> FailedStart(j.world, spec, start, u);
  }

  lemma FailedStartReports(j: Joint, moves: seq<Move>, t: TaskId, spec: SupervisorSpec, start: Instant) returns (more: seq<Move>)
    requires Possible(j, moves) && Calm(Reached(j, moves), spec, start)
    requires var r := Reached(j, moves);
      && t < |r.world.sup.spawned| && SpecOf(r, t).Worker? && t !in r.world.reported && FailedStart(r.world, spec, start, t)
    ensures moves <= more && Possible(j, more) && Calm(Reached(j, more), spec, start)
    ensures Reached(j, more).world == Reported(Reached(j, moves).world, t, Abnormal)
  {
    hide Inv, Possible, Reached, FailedStart, Matches;
    var r := Reached(j, moves);
    more := Go(j, moves, Task(t, Lifecycle.Step.Report));
    ReportedStill(r, Reached(j, more), t, Abnormal, spec, start);
  }

  lemma NestedReports(j: Joint, moves: seq<Move>, t: TaskId, reason: ChildExitReason, spec: SupervisorSpec, start: Instant)
    returns (more: seq<Move>)
    requires Possible(j, moves) && Calm(Reached(j, moves), spec, start)
    requires var r := Reached(j, moves); t < |r.world.sup.spawned| && SpecOf(r, t).Supervisor? && t !in r.world.reported
    ensures moves <= more && Possible(j, more) && Calm(Reached(j, more), spec, start)
    ensures Reached(j, more).world == Reported(Reached(j, moves).world, t, reason)
  {
    hide Inv, Possible, Reached, FailedAt, Matches;
    var r := Reached(j, moves);
    AllStarted(r);
    more := Go(j, moves, Nested(t, reason));
    var r' := Reached(j, more);
    assert r'.world.served == r.world.served;
    assert forall u: TaskId :: FailedStart(r'.world, spec, start, u) <==> FailedStart(r.world, spec, start, u);
  }

  lemma OutsideHappens(j: Joint, moves: seq<Move>, event: Step, spec: SupervisorSpec, start: Instant) returns (more: seq<Move>)
    requires Possible(j, moves) && Calm(Reached(j, moves), spec, start)
    requires (event.Ask? || event.AskShutdown? || event.Fire? || event.Tick?) && Enabled(Reached(j, moves).world, event)
    ensures moves <= more && Possible(j, more) && Calm(Reached(j, more), spec, start)
    ensures Reached(j, more).world == Next(Reached(j, moves).world, event)
  {
    hide Inv, Possible, Reached, FailedAt, Matches;
    var r := Reached(j, moves);
    more := Go(j, moves, Outside(event));
    var r' := Reached(j, more);
    assert r'.world.served == r.world.served && r'.world.sup == r.world.sup;
    assert forall u: TaskId :: FailedStart(r'.world, spec, start, u) <==> FailedStart(r.world, spec, start, u);
  }

  lemma StepHappens(spec: SupervisorSpec, start: Instant, moves: seq<Move>, step: Step) returns (more: seq<Move>)
    requires UniqueSpecIds(spec) && Possible(AtStart(spec, start), moves)
    requires var j := Reached(AtStart(spec, start), moves);
      Calm(j, spec, start) && Enabled(j.world, step) && Likely(j.world, step, spec, start)
    ensures var j0 := AtStart(spec, start);
      && moves <= more && Possible(j0, more) && Calm(Reached(j0, more), spec, start)
      && Reached(j0, more).world == Next(Reached(j0, moves).world, step)
  {
    hide Calm, Still, Possible, Reached, FailedStart, AtStart, Serve, Answer;
    var j0 := AtStart(spec, start);
    var j := Reached(j0, moves);
    match step {
      case Report(t, reason) =>
        assert Next(j.world, step) == Reported(j.world, t, reason);
        if SpecOf(j, t).Supervisor? {
          more := NestedReports(j0, moves, t, reason, spec, start);
        } else if reason != Shutdown && Generations.Owned(j.world.sup.children, t) {
          more := WorkerReports(j0, moves, t, reason, spec, start);
        } else {
          more := FailedStartReports(j0, moves, t, spec, start);
        }
      case Handle(later, init) =>
        more := TakeStill(spec, start, moves, later, init);
        more := CarriedStill(j0, more, spec, start);
      case _ => more := OutsideHappens(j0, moves, step, spec, start);
    }
  }

  lemma BeginningCalm(spec: SupervisorSpec, start: Instant) returns (more: seq<Move>)
    requires UniqueSpecIds(spec)
    ensures var j0 := AtStart(spec, start);
      Possible(j0, more) && Calm(Reached(j0, more), spec, start) && Reached(j0, more).world == Opening(spec, start)
  {
    hide Inv, Init;
    BeginningInv(spec, start);
    more := CarriedStill(AtStart(spec, start), [], spec, start);
  }

  /** Every run of the world in which each task that reports is listed at that time and was not
      asked to stop, or failed its linked start, is a run of supervisor and tasks together. */
  lemma {:induction false} LikelyRunsHappen(spec: SupervisorSpec, start: Instant, steps: seq<Step>) returns (moves: seq<Move>)
    requires UniqueSpecIds(spec) && Legal(Opening(spec, start), steps) && AllLikely(spec, start, steps)
    ensures Possible(AtStart(spec, start), moves)
    ensures Reached(AtStart(spec, start), moves).world == After(Opening(spec, start), steps)
    ensures Calm(Reached(AtStart(spec, start), moves), spec, start)
    decreases |steps|
  {
    hide Calm, Possible, Reached, AtStart, Opening, Enabled, Next, Likely;
    if steps == [] {
      moves := BeginningCalm(spec, start);
    } else {
      moves := LikelyRunsHappen(spec, start, steps[..|steps| - 1]);
      moves := StepHappens(spec, start, moves, steps[|steps| - 1]);
    }
  }

  /** One more step of a run that the tasks can follow. */
  lemma ExtendLikely(spec: SupervisorSpec, start: Instant, steps: seq<Step>, step: Step) returns (more: seq<Step>)
    requires Legal(Opening(spec, start), steps) && AllLikely(spec, start, steps)
    requires Enabled(After(Opening(spec, start), steps), step)
    requires Likely(After(Opening(spec, start), steps), step, spec, start)
    ensures more == steps + [step] && Legal(Opening(spec, start), more) && AllLikely(spec, start, more)
    ensures After(Opening(spec, start), more) == Next(After(Opening(spec, start), steps), step)
  {
    hide Enabled, Next, Likely, Opening;
    more := Extend(Opening(spec, start), steps, step);
    assert more[..|more| - 1] == steps;
  }

  lemma NoSteps(spec: SupervisorSpec, start: Instant)
    ensures Legal(Opening(spec, start), []) && AllLikely(spec, start, [])
    ensures After(Opening(spec, start), []) == Opening(spec, start)
  {
  }

  lemma ExtendQuietly(spec: SupervisorSpec, start: Instant, steps: seq<Step>, step: Step) returns (more: seq<Step>)
    requires Legal(Opening(spec, start), steps) && AllLikely(spec, start, steps)
    requires Enabled(After(Opening(spec, start), steps), step) && !step.Report?
    ensures more == steps + [step] && Legal(Opening(spec, start), more) && AllLikely(spec, start, more)
    ensures After(Opening(spec, start), more) == Next(After(Opening(spec, start), steps), step)
  {
    hide Enabled, Next, Likely, Opening;
    LikelyUnlessReport(After(Opening(spec, start), steps), step, spec, start);
    more := ExtendLikely(spec, start, steps, step);
  }

  /** Steps other than reports are always likely. */
  lemma LikelyUnlessReport(w: World, step: Step, spec: SupervisorSpec, start: Instant)
    requires Enabled(w, step) && !step.Report?
    ensures Likely(w, step, spec, start)
  {
  }

  /** The run `steps` of the world happens with task machines too. */
  ghost predicate Happens(spec: SupervisorSpec, start: Instant, steps: seq<Step>)
    requires Legal(Opening(spec, start), steps)
  {
    exists moves :: Possible(AtStart(spec, start), moves)
                    && Reached(AtStart(spec, start), moves).world == After(Opening(spec, start), steps)
  }

  lemma LikelyHappens(spec: SupervisorSpec, start: Instant, steps: seq<Step>)
    requires UniqueSpecIds(spec) && Legal(Opening(spec, start), steps) && AllLikely(spec, start, steps)
    ensures Happens(spec, start, steps)
  {
    hide Possible, Reached, AtStart, Opening, AllLikely;
    var moves := LikelyRunsHappen(spec, start, steps);
  }
}
