/** The supervisor runtime of `src/supervisor/runtime.rs` and the worker process of
    `src/worker.rs`, in their own imperative form. Every handler is proved equal to the
    corresponding function of module Supervision. */
module Runtime {
  import opened Types
  import opened Restart
  import opened Spec
  import opened SupervisorCommon
  import opened Supervision
  import Lifecycle

  datatype JoinHandle = JoinHandle

  /** A worker with its specification and the handle of its task. `machine` is the state of that
      task when it was last looked at; the task goes on in between. */
  class WorkerProcess {
    const spec: WorkerSpec
    const task: TaskId
    var handle: Option<JoinHandle>
    var shutdownSent: bool
    ghost var machine: Lifecycle.Machine

    ghost predicate Valid()
      reads this
    {
      && Lifecycle.Reachable(machine)
      && (handle.Some? <==> machine.owner.Holding?)
      && (shutdownSent <==> machine.owner.Stopped?)
    }

    constructor Spawn(spec: WorkerSpec, task: TaskId)
      ensures this.spec == spec && this.task == task
      ensures Valid() && handle.Some? && machine == Lifecycle.SPAWNED
    {
      this.spec := spec;
      this.task := task;
      handle := Some(JoinHandle);
      shutdownSent := false;
      machine := Lifecycle.SPAWNED;
      new;
      assert Lifecycle.Legal(Lifecycle.SPAWNED, []) && Lifecycle.After(Lifecycle.SPAWNED, []) == Lifecycle.SPAWNED;
    }

    /** Asks the worker to stop and waits for it, aborting it after `timeout`. `prompt` tells
        whether the task ends within that time, which is up to the task. When this returns the task
        is over, and un-aborted exactly if it was given time and was prompt. */
    method Stop(timeout: Duration, prompt: bool) returns (graceful: bool)
      requires Valid()
      modifies this
      ensures Valid() && handle == None
      ensures old(handle) == None ==> graceful && machine == old(machine)
      ensures old(handle) != None ==>
        && (graceful <==> timeout > 0 && prompt)
        && Lifecycle.Follows(old(machine), machine) && machine.owner == Lifecycle.Stopped(graceful)
        && machine.Over() && (graceful ==> machine.phase.Ended?) && (machine.abort <==> !graceful)
    {
      if handle == None {
        return true;
      }
      handle := None;
      shutdownSent := true;
      if timeout == 0 {
        graceful := false;
      } else {
        graceful := prompt;
      }
      ghost var stopped := Lifecycle.StopReturns(machine, timeout == 0, graceful);
      ghost var after :| Lifecycle.Follows(machine, after) && after.owner == Lifecycle.Stopped(graceful);
      Lifecycle.ReachableFollows(machine, after);
      Lifecycle.StopSettlesTheTask(after);
      machine := after;
    }
  }

  datatype RunningChild =
    | WorkerChild(process: WorkerProcess)
    | SupervisorChild(spec: SupervisorSpec, task: TaskId)
  {
    function View(): Child {
      match this
      case WorkerChild(process) => Child(Worker(process.spec), process.task)
      case SupervisorChild(spec, task) => Child(Supervisor(spec), task)
    }
  }

  function Views(children: seq<RunningChild>): (views: seq<Child>)
    ensures |views| == |children|
  {
    seq(|children|, i requires 0 <= i < |children| => children[i].View())
  }

  function Processes(children: seq<RunningChild>): set<WorkerProcess> {
    set c | c in children && c.WorkerChild? :: c.process
  }

  /** Every listed worker has a process of its own. */
  ghost predicate Distinct(children: seq<RunningChild>) {
    forall i, j :: 0 <= i < j < |children| && children[i].WorkerChild? && children[j].WorkerChild?
      ==> children[i].process != children[j].process
  }

  lemma RemoveKeepsDistinct(children: seq<RunningChild>, p: nat)
    requires Distinct(children) && p < |children|
    ensures var rest := children[..p] + children[p + 1..];
            && Distinct(rest)
            && Views(rest) == Remove(Views(children), p)
            && Processes(rest) <= Processes(children)
            && (children[p].WorkerChild? ==> children[p].process in Processes(children) - Processes(rest))
  {
    var rest := children[..p] + children[p + 1..];
    forall c | c in rest && c.WorkerChild?
      ensures c in children && (children[p].WorkerChild? ==> c.process != children[p].process)
    {
      var i :| 0 <= i < |rest| && rest[i] == c;
      assert c == children[if i < p then i else i + 1];
    }
  }

  lemma AppendKeepsDistinct(children: seq<RunningChild>, child: RunningChild)
    requires Distinct(children) && (child.WorkerChild? ==> child.process !in Processes(children))
    ensures Distinct(children + [child]) && Views(children + [child]) == Views(children) + [child.View()]
    ensures Processes(children + [child]) == Processes(children) + Processes([child])
  {
    assert forall i :: 0 <= i < |children| && children[i].WorkerChild? ==> children[i].process in Processes(children);
  }

  lemma SplitDistinct(children: seq<RunningChild>, p: nat)
    requires Distinct(children) && p <= |children|
    ensures Distinct(children[..p]) && Processes(children[..p]) <= Processes(children)
    ensures Processes(children[p..]) <= Processes(children) - Processes(children[..p]) && Distinct(children[p..])
    ensures Views(children[..p]) == Views(children)[..p] && Views(children[p..]) == Views(children)[p..]
  {
  }

  lemma JoinDistinct(a: seq<RunningChild>, b: seq<RunningChild>)
    requires Distinct(a) && Distinct(b) && Processes(a) !! Processes(b)
    ensures Distinct(a + b) && Views(a + b) == Views(a) + Views(b)
    ensures Processes(a + b) == Processes(a) + Processes(b)
  {
    assert forall i :: 0 <= i < |a| && a[i].WorkerChild? ==> a[i].process in Processes(a);
    assert forall i :: 0 <= i < |b| && b[i].WorkerChild? ==> b[i].process in Processes(b);
  }

  /** What a restart round changes, while it is under way: the children kept so far, and
      the bookkeeping. */
  datatype Book = Book(kept: seq<Child>, spawned: seq<ChildSpec>, trace: seq<Effect>, journal: seq<Entry>,
                       table: BackoffTable)

  /** One turn of a round: the child is stopped now (`rolling`) or was stopped before. */
  function TurnOne(b: Book, c: Child, rolling: bool): Book {
    var kept := Kept(c, |b.spawned|);
    Book(b.kept + kept, b.spawned + Specs(kept),
         (if rolling then b.trace + [Halt(c)] else b.trace) + Spawns(kept),
         b.journal + Gone(c), b.table - DepartedIds([c]))
  }

  function TurnAll(b: Book, children: seq<Child>, rolling: bool): Book {
    if children == [] then b
    else TurnOne(TurnAll(b, children[..|children| - 1], rolling), children[|children| - 1], rolling)
  }

  lemma TurnNext(b: Book, children: seq<Child>, i: nat, rolling: bool)
    requires i < |children|
    ensures TurnAll(b, children[..i + 1], rolling) == TurnOne(TurnAll(b, children[..i], rolling), children[i], rolling)
  {
    assert children[..i + 1][..i] == children[..i];
  }

  /** A whole round, in closed form. */
  function Round(b: Book, children: seq<Child>, rolling: bool): Book {
    var next := |b.spawned|;
    var kept := Renewed(children, next);
    Book(kept, b.spawned + Specs(kept),
         b.trace + (if rolling then Rolling(children, next) else Spawns(kept)),
         b.journal + Departures(children), b.table - DepartedIds(children))
  }

  lemma RoundGrows(b: Book, front: seq<Child>, last: Child, rolling: bool)
    ensures TurnOne(Round(b, front, rolling), last, rolling) == Round(b, front + [last], rolling)
  {
    hide Renewed, Departures, Rolling, DepartedIds, Specs, Spawns, Gone, Kept;
    var children, next := front + [last], |b.spawned|;
    RoundAppend(front, last, next);
    var kept := Renewed(front, next);
    var more := Kept(last, next + |kept|);
    SpecsAppend(kept, more);
    GrowsTrace(b.trace, front, last, next, rolling);
    Associative(b.spawned, Specs(kept), Specs(more));
    Associative(b.journal, Departures(front), Gone(last));
    DepartedAppend(front, last);
    assert b.table - DepartedIds(front) - DepartedIds([last]) == b.table - (DepartedIds(front) + DepartedIds([last]));
  }

  lemma DepartedAppend(front: seq<Child>, last: Child)
    ensures DepartedIds(front + [last]) == DepartedIds(front) + DepartedIds([last])
  {
  }

  lemma SpawnsAppend(a: seq<Child>, b: seq<Child>)
    ensures Spawns(a + b) == Spawns(a) + Spawns(b)
  {
  }

  lemma GrowsTrace(trace: seq<Effect>, front: seq<Child>, last: Child, next: TaskId, rolling: bool)
    ensures var kept := Renewed(front, next); var more := Kept(last, next + |kept|);
      if rolling then trace + Rolling(front, next) + [Halt(last)] + Spawns(more) == trace + Rolling(front + [last], next)
      else trace + Spawns(kept) + Spawns(more) == trace + Spawns(Renewed(front + [last], next))
  {
    hide Renewed, Rolling, Kept, Spawns;
    RoundAppend(front, last, next);
    var kept := Renewed(front, next);
    var more := Kept(last, next + |kept|);
    if rolling {
      Associative(Rolling(front, next), [Halt(last)], Spawns(more));
      Associative(trace, Rolling(front, next) + [Halt(last)], Spawns(more));
      Associative(trace, Rolling(front, next), [Halt(last)]);
    } else {
      SpawnsAppend(kept, more);
      Associative(trace, Spawns(kept), Spawns(more));
    }
  }

  lemma RoundOfNone(b: Book, rolling: bool)
    requires b.kept == []
    ensures Round(b, [], rolling) == b
  {
    assert Renewed([], |b.spawned|) == [] && Specs([]) == [];
  }

  lemma {:induction false} TurnAllIsRound(b: Book, children: seq<Child>, rolling: bool)
    requires b.kept == []
    ensures TurnAll(b, children, rolling) == Round(b, children, rolling)
  {
    hide TurnOne, Round;
    if children == [] {
      RoundOfNone(b, rolling);
    } else {
      var front, last := children[..|children| - 1], children[|children| - 1];
      TurnAllIsRound(b, front, rolling);
      RoundGrows(b, front, last, rolling);
      assert children == front + [last];
    }
  }

  lemma ClockMovesOn(s: Sup, inbox: seq<Delivery>)
    requires inbox != [] && ClockFrom(s.recent, inbox)
    ensures var recent := Serve(s, inbox[0].command, inbox[0].env).recent;
      Sorted(recent) ==> ClockFrom(recent, inbox[1..])
  {
    RecentBounded(s, inbox[0].command, inbox[0].env);
    var recent := Serve(s, inbox[0].command, inbox[0].env).recent;
    forall i | Sorted(recent) && 0 <= i < |inbox| - 1 ensures Sorted(recent + [inbox[1..][i].env.now]) {
      assert inbox[0].env.now <= inbox[i + 1].env.now == inbox[1..][i].env.now;
      assert forall k :: 0 <= k < |recent| ==> recent[k] in recent;
    }
  }

  /** Recorded restart times never run ahead of the clock. */
  lemma RecentBounded(s: Sup, command: Command, env: Env)
    requires Sorted(s.recent + [env.now])
    ensures forall t :: t in Serve(s, command, env).recent ==> t <= env.now
  {
    hide Serve, Since;
    var all := s.recent + [env.now];
    assert forall i :: 0 <= i < |s.recent| ==> s.recent[i] == all[i] <= all[|s.recent|];
    assert forall t :: t in s.recent ==> t <= env.now;
    RecentAfter(s, command, env);
  }

  lemma RecentAfter(s: Sup, command: Command, env: Env)
    ensures var recent := Serve(s, command, env).recent;
      recent == s.recent || recent == Since(s.recent, s.spec.restartIntensity.Cutoff(env.now)) + [env.now]
  {
    match command {
      case ChildTerminated(id, reason) =>
        var found := Position(s.children, id);
        if found.Some? {
          CarriedRecent(s, found.value, JudgeAt(s, found.value, reason, env), env);
        }
      case RestartChild(id, strategy) =>
        var found := Position(s.children, id);
        if found.Some? {
          RoundFrame(s.(rounds := s.rounds.(applied := s.rounds.applied + 1)), found.value, strategy);
        }
      case _ =>
    }
  }

  lemma CarriedRecent(s: Sup, p: nat, v: Verdict, env: Env)
    requires p < |s.children|
    ensures Carry(s, p, v, env).recent == v.recent
  {
  }

  function Stopping(s: Sup, stop: bool): Sup {
    if stop then s.(exit := Some(Abnormal)) else s
  }

  lemma CarryIgnoresOldTrackers(s: Sup, p: nat, v: Verdict, env: Env)
    requires p < |s.children|
    ensures Carry(s.(recent := v.recent, table := v.table), p, v, env) == Carry(s, p, v, env)
  {
  }

  class SupervisorRuntime {
    const spec: SupervisorSpec
    const createdAt: Instant
    const prompt: TaskId -> bool   // which tasks end within the grace period, once asked to stop
    const restartTracker: RestartTracker
    const backoffTracker: BackoffTracker
    var children: seq<RunningChild>
    var timers: seq<Timer>
    var exit: Option<ChildExitReason>
    var spawned: seq<ChildSpec>
    ghost var trace: seq<Effect>
    ghost var worthy: seq<Instant>
    ghost var journal: seq<Entry>
    ghost var rounds: Rounds

    ghost function Model(): Sup
      reads this, restartTracker, backoffTracker
    {
      Sup(spec, createdAt, Views(children), restartTracker.restartTimes, backoffTracker.state, exit, timers,
          spawned, trace, worthy, journal, rounds)
    }

    ghost function Repr(): set<object>
      reads this
    {
      {this, restartTracker, backoffTracker} + Processes(children)
    }

    /** What holds between any two steps: the trackers are configured as specified. */
    ghost predicate Configured()
      reads this, restartTracker, backoffTracker
    {
      && restartTracker.intensity == spec.restartIntensity
      && backoffTracker.backoff == spec.restartBackoff
      && Sorted(restartTracker.restartTimes)
      && Distinct(children)
    }

    /** What holds between commands: each listed worker also holds its own live handle. */
    ghost predicate Valid()
      reads this, restartTracker, backoffTracker, Processes(children)
    {
      && Configured()
      && (forall p :: p in Processes(children) ==> p.Valid() && p.handle.Some?)
    }

    /** Starts the children of `spec` in order. */
    constructor (spec: SupervisorSpec, now: Instant, prompt: TaskId -> bool)
      ensures Valid() && Model() == Init(spec, now) && fresh(Repr())
      ensures this.spec == spec && this.prompt == prompt
    {
      this.spec := spec;
      createdAt := now;
      this.prompt := prompt;
      restartTracker := new RestartTracker(spec.restartIntensity);
      backoffTracker := new BackoffTracker(spec.restartBackoff);
      children := [];
      timers := [];
      exit := None;
      spawned := [];
      trace := [];
      worthy := [];
      journal := [];
      rounds := Rounds(0, 0, 0);
      new;
      StartChildren();
    }

    method StartChildren()
      requires Valid() && children == [] && spawned == [] && trace == []
      modifies this`children, this`spawned, this`trace
      ensures Valid() && fresh(Repr() - old(Repr()))
      ensures var all := Init(spec, createdAt);
        Views(children) == all.children && spawned == all.spawned && trace == all.trace
    {
      var start: seq<RunningChild> := [];
      for i := 0 to |spec.children|
        invariant spawned == spec.children[..i] && trace == Spawns(Views(start))
        invariant Views(start) == Init(spec, createdAt).children[..i] && Distinct(start)
        invariant forall p :: p in Processes(start) ==> fresh(p) && p.Valid() && p.handle.Some?
      {
        var child := SpawnTask(spec.children[i]);
        AppendKeepsDistinct(start, child);
        start := start + [child];
      }
      children := start;
      assert spec.children[..|spec.children|] == spec.children;
    }

    /** Starts a task for `childSpec`; the child is not listed yet. */
    method SpawnTask(childSpec: ChildSpec) returns (child: RunningChild)
      modifies this`spawned, this`trace
      ensures child.View() == Child(childSpec, |old(spawned)|)
      ensures spawned == old(spawned) + [childSpec] && trace == old(trace) + [Spawn(|old(spawned)|, childSpec)]
      ensures child.WorkerChild? ==> fresh(child.process) && child.process.Valid() && child.process.handle.Some?
    {
      if childSpec.Worker? {
        var process := new WorkerProcess.Spawn(childSpec.worker, |spawned|);
        child := WorkerChild(process);
      } else {
        child := SupervisorChild(childSpec.supervisor, |spawned|);
      }
      trace := trace + [Spawn(|spawned|, childSpec)];
      spawned := spawned + [childSpec];
    }

    /** What a worker looks like after it was stopped: its task is over, aborted unless it ended
        within the configured grace period. */
    ghost predicate Wound(process: WorkerProcess)
      reads process
    {
      process.machine.Over() && process.machine.owner == Lifecycle.Stopped(spec.shutdownTimeout > 0 && prompt(process.task))
    }

    /** Stops a worker, waiting for it, or sends a nested supervisor its shutdown message. */
    method Shutdown(child: RunningChild)
      requires child.WorkerChild? ==> child.process.Valid()
      modifies this`trace, Processes([child])
      ensures trace == old(trace) + [Halt(child.View())]
      ensures child.WorkerChild? ==> child.process.Valid() && child.process.handle == None
      ensures child.WorkerChild? && old(child.process.handle).Some? ==> Wound(child.process)
    {
      match child {
        case WorkerChild(process) =>
          assert child in [child];
          var graceful := process.Stop(spec.shutdownTimeout, prompt(process.task));
        case SupervisorChild(_, _) =>
      }
      trace := trace + [Halt(child.View())];
    }

    method FindPosition(id: ChildId) returns (p: Option<nat>)
      ensures p == Position(Views(children), id)
    {
      for i := 0 to |children|
        invariant forall j :: 0 <= j < i ==> Views(children)[j].Id() != id
      {
        if children[i].View().Id() == id {
          assert Views(children)[i].Id() == id;
          return Some(i);
        }
      }
      return None;
    }

    method HandleStartChild(w: WorkerSpec) returns (result: Result<ChildId, SupervisorError>)
      requires Valid()
      modifies this
      ensures Valid() && fresh(Repr() - old(Repr()))
      ensures (Model(), result) == Supervision.HandleStartChild(old(Model()), w)
    {
      var p := FindPosition(w.id);
      if p.Some? {
        return Err(ChildAlreadyExists(w.id));
      }
      var child := SpawnTask(Worker(w));
      children := children + [child];
      assert Views(children) == Views(old(children)) + [child.View()];
      return Ok(w.id);
    }

    method HandleStartChildLinked(w: WorkerSpec, timeout: Duration, init: InitOutcome)
      returns (result: Result<ChildId, SupervisorError>)
      requires Valid()
      modifies this
      ensures Valid() && fresh(Repr() - old(Repr()))
      ensures (Model(), result) == Supervision.HandleStartChildLinked(old(Model()), w, timeout, init)
    {
      var p := FindPosition(w.id);
      if p.Some? {
        return Err(ChildAlreadyExists(w.id));
      }
      var child := SpawnTask(Worker(w));
      match init {
        case Ready =>
          children := children + [child];
          assert Views(children) == Views(old(children)) + [child.View()];
          return Ok(w.id);
        case Failed(reason) =>
          result := Err(InitializationFailed(w.id, reason));
        case ChannelClosed =>
          result := Err(InitializationFailed(w.id, "worker panicked during initialization"));
        case Elapsed =>
          result := Err(InitializationTimeout(w.id, timeout));
      }
      // The process goes out of scope with a live handle.
      trace := trace + [Effect.Drop(child.View().task)];
    }

    method HandleTerminateChild(id: ChildId) returns (result: Result<(), SupervisorError>)
      requires Valid()
      modifies Repr()
      ensures Valid() && Repr() <= old(Repr())
      ensures (Model(), result) == Supervision.HandleTerminateChild(old(Model()), id)
      ensures forall p :: p in old(Processes(children)) && p !in Processes(children) ==> Wound(p)
    {
      hide Position, Remove, Halt, Lifecycle.Reachable, Wound;
      var p := FindPosition(id);
      match p {
        case None => return Err(ChildNotFound(id));
        case Some(position) =>
          var child := children[position];
          RemoveKeepsDistinct(children, position);
          children := children[..position] + children[position + 1..];
          Shutdown(child);
          backoffTracker.ResetChild(id);
          journal := journal + [Left(id)];
          return Ok(());
      }
    }

    method HandleWhichChildren() returns (info: seq<ChildInfo>)
      requires Valid()
      ensures info == Supervision.HandleWhichChildren(Model())
      ensures |info| == |children| && forall i :: 0 <= i < |children| ==>
        match children[i]
        case WorkerChild(process) => info[i] == ChildInfo(process.spec.id, WorkerType, Some(process.spec.restartPolicy))
        case SupervisorChild(nested, _) => info[i] == ChildInfo(nested.name, SupervisorType, Some(Permanent))
    {
      info := [];
      for i := 0 to |children|
        invariant info == Supervision.HandleWhichChildren(Model())[..i]
      {
        var spec := children[i].View().spec;
        info := info + [ChildInfo(spec.Id(), spec.ChildType(), spec.RestartPolicy())];
      }
    }

    method ShutdownChildren()
      requires Valid()
      modifies Repr()
      ensures Valid() && Repr() <= old(Repr())
      ensures Model() == Supervision.ShutdownChildren(old(Model()))
      ensures forall p :: p in old(Processes(children)) ==> Wound(p)
    {
      hide Lifecycle.Reachable, WorkerProcess.Valid, Wound;
      var drained := children;
      children := [];
      for i := 0 to |drained|
        invariant children == []
        invariant forall p :: p in Processes(drained) ==> p.Valid()
        invariant forall k :: 0 <= k < i && drained[k].WorkerChild? ==> Wound(drained[k].process)
        invariant forall k :: i <= k < |drained| && drained[k].WorkerChild? ==> drained[k].process.handle.Some?
        invariant trace == old(trace) + Halts(Views(drained)[..i])
        invariant unchanged(this`timers, this`exit, this`spawned, this`worthy, this`journal, this`rounds)
        invariant unchanged(restartTracker, backoffTracker)
      {
        assert drained[i] in old(children);
        Shutdown(drained[i]);
        assert Halts(Views(drained)[..i + 1]) == Halts(Views(drained)[..i]) + [Halt(Views(drained)[i])];
      }
      assert Views(drained)[..|drained|] == Views(drained);
    }

    method RestartChild(position: nat)
      requires Valid() && position < |children|
      modifies Repr()
      ensures Valid() && fresh(Repr() - old(Repr()))
      ensures Model() == RestartOne(old(Model()), position)
      ensures old(children[position]).WorkerChild? ==> Wound(old(children[position]).process)
    {
      Shutdown(children[position]);
      var child := SpawnTask(children[position].View().spec);
      children := children[position := child];
      assert Views(children) == Views(old(children))[position := child.View()];
    }

    /** State of a restart round that has kept `kept` so far. */
    ghost function BookOf(kept: seq<RunningChild>): Book
      reads this, backoffTracker
    {
      Book(Views(kept), spawned, trace, journal, backoffTracker.state)
    }

    /** Ends a restart round for one child that has been stopped: a temporary child leaves
        supervision, any other is replaced by a fresh task at the end of `kept`. */
    method Settle(stopped: Child, kept: seq<RunningChild>) returns (result: seq<RunningChild>)
      requires Distinct(kept)
      modifies this`spawned, this`trace, this`journal, backoffTracker
      ensures BookOf(result) == TurnOne(old(BookOf(kept)), stopped, false)
      ensures Distinct(result)
      ensures forall p :: p in Processes(result) ==> p in Processes(kept) || (fresh(p) && p.Valid() && p.handle.Some?)
    {
      result := kept;
      if stopped.LeavesSupervision() {
        backoffTracker.ResetChild(stopped.Id());
        journal := journal + [Left(stopped.Id())];
      } else {
        var replacement := SpawnTask(stopped.spec);
        AppendKeepsDistinct(kept, replacement);
        result := kept + [replacement];
      }
    }

    /** First half of a round over all children: every one is stopped. */
    method StopAll()
      requires Valid()
      modifies this`trace, Processes(children)
      ensures trace == old(trace) + Halts(Views(children))
      ensures forall p :: p in Processes(children) ==> Wound(p)
    {
      hide Lifecycle.Reachable, WorkerProcess.Valid, Wound;
      ghost var views := Views(children);
      for i := 0 to |children|
        invariant trace == old(trace) + Halts(views)[..i]
        invariant forall p :: p in Processes(children) ==> p.Valid()
        invariant forall k :: 0 <= k < i && children[k].WorkerChild? ==> Wound(children[k].process)
        invariant forall k :: i <= k < |children| && children[k].WorkerChild? ==> children[k].process.handle.Some?
      {
        assert children[i] in children;
        Shutdown(children[i]);
      }
      assert Halts(views)[..|views|] == Halts(views);
    }

    /** Second half: of the stopped children, those that stay are replaced. */
    method RespawnEach(drained: seq<RunningChild>) returns (kept: seq<RunningChild>)
      modifies this`spawned, this`trace, this`journal, backoffTracker
      ensures BookOf(kept) == TurnAll(old(BookOf([])), Views(drained), false)
      ensures Distinct(kept) && forall p :: p in Processes(kept) ==> fresh(p) && p.Valid() && p.handle.Some?
    {
      kept := [];
      for i := 0 to |drained|
        invariant BookOf(kept) == TurnAll(old(BookOf([])), Views(drained)[..i], false)
        invariant Distinct(kept) && forall p :: p in Processes(kept) ==> fresh(p) && p.Valid() && p.handle.Some?
      {
        TurnNext(old(BookOf([])), Views(drained), i, false);
        kept := Settle(drained[i].View(), kept);
      }
      assert Views(drained)[..|drained|] == Views(drained);
    }

    /** Stops and replaces one child after the other. */
    method RollEach(affected: seq<RunningChild>) returns (kept: seq<RunningChild>)
      requires Distinct(affected) && forall p :: p in Processes(affected) ==> p.Valid() && p.handle.Some?
      modifies this`spawned, this`trace, this`journal, backoffTracker, Processes(affected)
      ensures BookOf(kept) == TurnAll(old(BookOf([])), Views(affected), true)
      ensures forall p :: p in Processes(affected) ==> Wound(p)
      ensures Distinct(kept) && forall p :: p in Processes(kept) ==> fresh(p) && p.Valid() && p.handle.Some?
    {
      hide Lifecycle.Reachable, WorkerProcess.Valid, Wound, Kept, Specs, Spawns, Gone, DepartedIds, Halt;
      kept := [];
      for i := 0 to |affected|
        invariant BookOf(kept) == TurnAll(old(BookOf([])), Views(affected)[..i], true)
        invariant forall p :: p in Processes(affected) ==> p.Valid()
        invariant forall k :: 0 <= k < i && affected[k].WorkerChild? ==> Wound(affected[k].process)
        invariant forall k :: i <= k < |affected| && affected[k].WorkerChild? ==> affected[k].process.handle.Some?
        invariant Distinct(kept) && forall p :: p in Processes(kept) ==> fresh(p) && p.Valid() && p.handle.Some?
      {
        TurnNext(old(BookOf([])), Views(affected), i, true);
        assert affected[i] in affected;
        Shutdown(affected[i]);
        kept := Settle(affected[i].View(), kept);
      }
      assert Views(affected)[..|affected|] == Views(affected);
    }

    method RestartAllChildren()
      requires Valid()
      modifies Repr()
      ensures Valid() && fresh(Repr() - old(Repr()))
      ensures Model() == RestartAll(old(Model()))
      ensures forall p :: p in old(Processes(children)) ==> Wound(p)
    {
      hide TurnAll, Renewed, Rolling, Departures, DepartedIds, Halts, Spawns;
      StopAll();
      var drained := children;
      ghost var views := Views(drained);
      children := [];
      TurnAllIsRound(BookOf([]), views, false);
      var kept := RespawnEach(drained);
      children := kept;
      assert views[0..] == views && views[..0] + Views(kept) == Views(kept);
    }

    method RestartChildrenFrom(position: nat)
      requires Valid() && position <= |children|
      modifies Repr()
      ensures Valid() && fresh(Repr() - old(Repr()))
      ensures Model() == RestartFrom(old(Model()), position)
      ensures forall p :: p in old(Processes(children[position..])) ==> Wound(p)
    {
      SplitDistinct(children, position);
      var affected := children[position..];
      children := children[..position];
      TurnAllIsRound(BookOf([]), Views(affected), true);
      var kept := RollEach(affected);
      JoinDistinct(children, kept);
      children := children + kept;
    }

    method ApplyRestart(position: nat, strategy: RestartStrategy)
      requires Valid() && position < |children|
      modifies Repr()
      ensures Valid() && fresh(Repr() - old(Repr()))
      ensures Model() == Supervision.ApplyRestart(old(Model()), position, strategy)
    {
      match strategy {
        case OneForOne => RestartChild(position);
        case OneForAll => RestartAllChildren();
        case RestForOne => RestartChildrenFrom(position);
      }
    }

    /** Sets a timer that posts the restart command after `delay`. */
    method DeferRestart(id: ChildId, at: Instant, delay: Duration, strategy: RestartStrategy)
      requires Valid()
      modifies this`timers
      ensures Valid()
      ensures Model() == Supervision.DeferRestart(old(Model()), id, at, delay, strategy)
    {
      timers := timers + [Timer(id, strategy, at + delay)];
    }

    /** Drops a child whose policy does not want it back; a live handle is aborted. */
    method DropChild(position: nat)
      requires Valid() && position < |children|
      modifies this
      ensures Valid() && Repr() <= old(Repr())
      ensures var s := old(Model());
        Model() == s.(children := Remove(s.children, position), journal := s.journal + [Left(s.children[position].Id())],
                      trace := s.trace + [Effect.Drop(s.children[position].task)])
    {
      RemoveKeepsDistinct(children, position);
      var child := children[position].View();
      trace := trace + [Effect.Drop(child.task)];
      journal := journal + [Left(child.Id())];
      children := children[..position] + children[position + 1..];
    }

    /** Restarts at once, or after the backoff. */
    method GrantRestart(position: nat, delay: Duration, strategy: RestartStrategy, env: Env)
      requires Valid() && position < |children|
      modifies Repr()
      ensures Valid() && fresh(Repr() - old(Repr()))
      ensures Model() == Carry(old(Model()), position,
        Verdict(Restart(delay, strategy), old(restartTracker.restartTimes), old(backoffTracker.state)), env)
    {
      var id := children[position].View().Id();
      worthy := worthy + [env.now];
      journal := journal + [Granted(id, env.now, env.later, delay)];
      if delay == 0 {
        rounds := rounds.(immediate := rounds.immediate + 1);
        ApplyRestart(position, strategy);
      } else {
        DeferRestart(id, env.later, delay, strategy);
      }
    }

    method Escalate(env: Env)
      requires Valid()
      modifies Repr()
      ensures Valid() && Repr() <= old(Repr())
      ensures Model() == Supervision.ShutdownChildren(old(Model()).(worthy := old(worthy) + [env.now]))
    {
      worthy := worthy + [env.now];
      ShutdownChildren();
    }

    /** Carries out `decision`; `stop` asks the command loop to terminate. */
    method CarryOut(position: nat, decision: RestartDecision, env: Env) returns (stop: bool)
      requires Valid() && position < |children| && exit == None
      modifies Repr()
      ensures Valid() && fresh(Repr() - old(Repr()))
      ensures Stopping(Model(), stop) == Carry(old(Model()), position,
        Verdict(decision, old(restartTracker.restartTimes), old(backoffTracker.state)), env)
      ensures exit == None
    {
      stop := decision.Escalate?;
      match decision {
        case Ignore =>
        case Drop => DropChild(position);
        case Escalate => Escalate(env);
        case Restart(delay, strategy) => GrantRestart(position, delay, strategy, env);
      }
    }

    /** Applies the restart decision; `stop` asks the command loop to terminate. */
    method HandleChildTerminated(id: ChildId, reason: ChildExitReason, env: Env) returns (stop: bool)
      requires Valid() && exit == None && Sorted(restartTracker.restartTimes + [env.now])
      modifies Repr()
      ensures Valid() && fresh(Repr() - old(Repr()))
      ensures Stopping(Model(), stop) == Supervision.HandleChildTerminated(old(Model()), id, reason, env)
      ensures exit == None
    {
      stop := false;
      var found := FindPosition(id);
      if found.Some? {
        ghost var s := Model();
        var policy := children[found.value].View().spec.RestartPolicyForDecision();
        var decision := DecideRestart(policy, reason, spec.restartStrategy, restartTracker, backoffTracker,
                                      id, env.now, env.later);
        CarryIgnoresOldTrackers(s, found.value, Verdict(decision, restartTracker.restartTimes, backoffTracker.state), env);
        stop := CarryOut(found.value, decision, env);
      }
    }

    method HandleRestartChild(id: ChildId, strategy: RestartStrategy)
      requires Valid()
      modifies Repr()
      ensures Valid() && fresh(Repr() - old(Repr()))
      ensures Model() == Supervision.HandleRestartChild(old(Model()), id, strategy)
    {
      hide Supervision.ApplyRestart, Views, WorkerProcess.Valid, Lifecycle.Reachable, Wound;
      var found := FindPosition(id);
      if found == None {
        rounds := rounds.(skipped := rounds.skipped + 1);
        return;
      }
      rounds := rounds.(applied := rounds.applied + 1);
      ApplyRestart(found.value, strategy);
    }

    /** Serves a client request and answers it. */
    method ServeRequest(command: Command, env: Env) returns (reply: Reply)
      requires Valid() && exit == None && command.IsRequest()
      modifies Repr()
      ensures Valid() && fresh(Repr() - old(Repr()))
      ensures Model() == Serve(old(Model()), command, env)
      ensures Some(reply) == Answer(old(Model()), command, env)
    {
      match command {
        case StartChild(w, _) =>
          var result := HandleStartChild(w);
          reply := Started(result);
        case StartChildLinked(w, timeout, _) =>
          var result := HandleStartChildLinked(w, timeout, env.init);
          reply := Started(result);
        case TerminateChild(id, _) =>
          var outcome := HandleTerminateChild(id);
          reply := Terminated(outcome);
        case WhichChildren(_) =>
          var info := HandleWhichChildren();
          reply := Listing(info);
        case GetRestartStrategy(_) =>
          reply := Strategy(spec.restartStrategy);
        case GetUptime(_) =>
          reply := Uptime(SaturatingSince(env.now, createdAt) / NANOS_PER_SEC);
      }
    }

    /** Serves a command that nobody waits for. */
    method ServeEvent(command: Command, env: Env)
      requires Valid() && exit == None && !command.IsRequest()
      requires Sorted(restartTracker.restartTimes + [env.now])
      modifies Repr()
      ensures Valid() && fresh(Repr() - old(Repr()))
      ensures Model() == Serve(old(Model()), command, env)
    {
      match command {
        case ChildTerminated(id, reason) =>
          var stop := HandleChildTerminated(id, reason, env);
          exit := if stop then Some(Abnormal) else None;
        case RestartChild(id, strategy) =>
          HandleRestartChild(id, strategy);
        case ShutdownCommand =>
          ShutdownChildren();
          exit := Some(ChildExitReason.Shutdown);
      }
    }

    /** One turn of the command loop: serves `command` and answers its sender. */
    method Turn(command: Command, env: Env) returns (reply: Option<Reply>)
      requires Valid() && exit == None && Sorted(restartTracker.restartTimes + [env.now])
      modifies Repr()
      ensures Valid() && fresh(Repr() - old(Repr()))
      ensures Model() == Serve(old(Model()), command, env)
      ensures reply == Answer(old(Model()), command, env)
    {
      if command.IsRequest() {
        var answer := ServeRequest(command, env);
        reply := Some(answer);
      } else {
        ServeEvent(command, env);
        reply := None;
      }
    }

    /** The command loop. It ends when a command stops the supervisor; with the inbox used up
        it waits for the next command. */
    method Run(inbox: seq<Delivery>) returns (replies: seq<Option<Reply>>)
      requires Valid() && exit == None && ClockFrom(restartTracker.restartTimes, inbox)
      modifies Repr()
      ensures Model() == ServeAll(old(Model()), inbox)
      ensures Answered(old(Model()), inbox, replies) && (exit == None ==> |replies| == |inbox|)
      ensures exit.Some? ==> 0 < |replies| && ServeAll(old(Model()), inbox[..|replies| - 1]).exit == None
    {
      ghost var s := Model();
      hide Serve, Answer, ServeAll, ClockFrom, Answered;
      ghost var m := s;
      replies := [];
      Begin(s, inbox);
      while |replies| < |inbox| && exit == None
        invariant |replies| <= |inbox|
        invariant Valid() && fresh(Repr() - old(Repr()))
        invariant Model() == m && m == ServeAll(s, inbox[..|replies|])
        invariant ClockFrom(m.recent, inbox[|replies|..])
        invariant Answered(s, inbox, replies)
        invariant m.exit.Some? ==> 0 < |replies| && ServeAll(s, inbox[..|replies| - 1]).exit == None
        decreases |inbox| - |replies|
      {
        var delivery := inbox[|replies|];
        Advance(s, m, inbox, replies);
        var reply := Turn(delivery.command, delivery.env);
        m := Model();
        replies := replies + [reply];
      }
      StoppedStays(s, inbox, |replies|);
    }
  }

  /** The replies given so far are those of the commands served before each. */
  ghost predicate Answered(s: Sup, inbox: seq<Delivery>, replies: seq<Option<Reply>>) {
    |replies| <= |inbox|
    && forall i :: 0 <= i < |replies| ==>
      replies[i] == Answer(ServeAll(s, inbox[..i]), inbox[i].command, inbox[i].env)
  }

  lemma Begin(s: Sup, inbox: seq<Delivery>)
    ensures ServeAll(s, inbox[..0]) == s && Answered(s, inbox, []) && inbox[0..] == inbox
  {
  }

  /** One more delivery served: the fold grows by it and the clock moves on. */
  lemma Advance(s: Sup, m: Sup, inbox: seq<Delivery>, replies: seq<Option<Reply>>)
    requires |replies| < |inbox| && Answered(s, inbox, replies)
    requires m == ServeAll(s, inbox[..|replies|]) && m.exit == None && ClockFrom(m.recent, inbox[|replies|..])
    ensures var n := |replies|; var last := inbox[n]; var m' := Serve(m, last.command, last.env);
      && Sorted(m.recent + [last.env.now])
      && m' == ServeAll(s, inbox[..n + 1])
      && (Sorted(m'.recent) ==> ClockFrom(m'.recent, inbox[n + 1..]))
      && Answered(s, inbox, replies + [Answer(m, last.command, last.env)])
  {
    hide Serve, Answer;
    var n := |replies|;
    assert inbox[n..][0] == inbox[n] && inbox[n..][1..] == inbox[n + 1..] && inbox[..n + 1][..n] == inbox[..n];
    ClockMovesOn(m, inbox[n..]);
  }

  /** Clock readings of the inbox do not go back, and are not behind the recorded restarts. */
  ghost predicate ClockFrom(recent: seq<Instant>, inbox: seq<Delivery>) {
    && (forall i :: 0 <= i < |inbox| ==> Sorted(recent + [inbox[i].env.now]))
    && (forall i, j :: 0 <= i < j < |inbox| ==> inbox[i].env.now <= inbox[j].env.now)
  }

  lemma {:induction false} StoppedStays(s: Sup, deliveries: seq<Delivery>, i: nat)
    requires i <= |deliveries|
    requires i == |deliveries| || ServeAll(s, deliveries[..i]).exit.Some?
    ensures ServeAll(s, deliveries) == ServeAll(s, deliveries[..i])
    decreases |deliveries| - i
  {
    if i < |deliveries| {
      assert deliveries[..i + 1][..i] == deliveries[..i];
      StoppedStays(s, deliveries, i + 1);
    } else {
      assert deliveries[..i] == deliveries;
    }
  }
}
