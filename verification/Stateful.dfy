/** The stateful runtime of `src/supervisor_stateful.rs`, whose workers are built from a shared
    context. It is a runtime of its own in the source; each of its handlers is proved equal to
    the same function of module Supervision as the plain runtime's, on specifications in which
    the context is bound into the worker's factory. */
module Stateful {
  import opened Types
  import opened Restart
  import opened Spec
  import opened SupervisorCommon
  import opened Supervision
  import Runtime
  import Lifecycle
  import Identity
  import Contexts

  // ---- Specifications ----

  datatype StatefulWorkerSpec = StatefulWorkerSpec(id: ChildId, code: nat, restartPolicy: RestartPolicy, context: Context) {
    /** The plain worker whose factory calls this one's with its context. */
    function Bind(): WorkerSpec {
      WorkerSpec(id, WithContext(code, context), restartPolicy)
    }
  }

  datatype StatefulChildSpec =
    | StatefulWorker(worker: StatefulWorkerSpec)
    | StatefulSupervisor(supervisor: StatefulSupervisorSpec)
  {
    function Bind(): ChildSpec {
      match this
      case StatefulWorker(w) => Worker(w.Bind())
      case StatefulSupervisor(s) => Supervisor(s.Bind())
    }
  }

  datatype StatefulSupervisorSpec = StatefulSupervisorSpec(
    name: ChildId,
    children: seq<StatefulChildSpec>,
    restartStrategy: RestartStrategy,
    restartIntensity: RestartIntensity,
    restartBackoff: RestartBackoff,
    shutdownTimeout: Duration,
    context: Context
  ) {
    function Bind(): SupervisorSpec {
      SupervisorSpec(name, seq(|children|, i requires 0 <= i < |children| => children[i].Bind()),
                     restartStrategy, restartIntensity, restartBackoff, shutdownTimeout)
    }

    static function New(name: ChildId, context: Context): StatefulSupervisorSpec {
      var plain := SupervisorSpec.New(name);
      StatefulSupervisorSpec(name, [], plain.restartStrategy, plain.restartIntensity, plain.restartBackoff,
                             plain.shutdownTimeout, context)
    }

    /** Registers a worker with the supervisor's own context. */
    function WithWorker(id: ChildId, code: nat, restartPolicy: RestartPolicy): StatefulSupervisorSpec {
      this.(children := children + [StatefulWorker(StatefulWorkerSpec(id, code, restartPolicy, context))])
    }

    function WithSupervisor(supervisor: StatefulSupervisorSpec): StatefulSupervisorSpec {
      this.(children := children + [StatefulSupervisor(supervisor)])
    }
  }

  /** A worker can be told from its bound form, context included. */
  lemma BindTellsWorkersApart(a: StatefulWorkerSpec, b: StatefulWorkerSpec)
    ensures a.Bind() == b.Bind() <==> a == b
  {
  }

  datatype Build =
    | AddWorker(id: ChildId, code: nat, restartPolicy: RestartPolicy)
    | AddSupervisor(supervisor: StatefulSupervisorSpec)

  function Built(spec: StatefulSupervisorSpec, builds: seq<Build>): StatefulSupervisorSpec {
    if builds == [] then spec
    else
      var before := Built(spec, builds[..|builds| - 1]);
      match builds[|builds| - 1]
      case AddWorker(id, code, restartPolicy) => before.WithWorker(id, code, restartPolicy)
      case AddSupervisor(supervisor) => before.WithSupervisor(supervisor)
  }

  /** The workers that a builder registers share the supervisor's context. */
  lemma {:induction false} BuiltWorkersShareContext(name: ChildId, context: Context, builds: seq<Build>)
    ensures var spec := Built(StatefulSupervisorSpec.New(name, context), builds);
      && spec.context == context && |spec.children| == |builds|
      && forall i :: 0 <= i < |builds| ==>
           match builds[i]
           case AddWorker(id, code, policy) =>
             spec.children[i] == StatefulWorker(StatefulWorkerSpec(id, code, policy, context))
           case AddSupervisor(supervisor) => spec.children[i] == StatefulSupervisor(supervisor)
  {
    if builds != [] {
      BuiltWorkersShareContext(name, context, builds[..|builds| - 1]);
    }
  }

  function BindAll(specs: seq<StatefulChildSpec>): (bound: seq<ChildSpec>)
    ensures |bound| == |specs|
  {
    seq(|specs|, i requires 0 <= i < |specs| => specs[i].Bind())
  }

  datatype StatefulCommand =
    | StartChild(spec: StatefulWorkerSpec, request: RequestId)
    | StartChildLinked(spec: StatefulWorkerSpec, timeout: Duration, request: RequestId)
    | TerminateChild(id: ChildId, request: RequestId)
    | WhichChildren(request: RequestId)
    | GetRestartStrategy(request: RequestId)
    | GetUptime(request: RequestId)
    | ChildTerminated(id: ChildId, reason: ChildExitReason)
    | RestartChild(id: ChildId, strategy: RestartStrategy)
    | ShutdownCommand
  {
    function Bind(): Command {
      match this
      case StartChild(w, r) => Command.StartChild(w.Bind(), r)
      case StartChildLinked(w, timeout, r) => Command.StartChildLinked(w.Bind(), timeout, r)
      case TerminateChild(id, r) => Command.TerminateChild(id, r)
      case WhichChildren(r) => Command.WhichChildren(r)
      case GetRestartStrategy(r) => Command.GetRestartStrategy(r)
      case GetUptime(r) => Command.GetUptime(r)
      case ChildTerminated(id, reason) => Command.ChildTerminated(id, reason)
      case RestartChild(id, strategy) => Command.RestartChild(id, strategy)
      case ShutdownCommand => Command.ShutdownCommand
    }
  }

  // ---- Children ----

  /** A stateful worker with its specification and the handle of its task. */
  class StatefulWorkerProcess {
    const spec: StatefulWorkerSpec
    const task: TaskId
    var handle: Option<Runtime.JoinHandle>
    var shutdownSent: bool
    ghost var machine: Lifecycle.Machine

    ghost predicate Valid()
      reads this
    {
      && Lifecycle.Reachable(machine)
      && (handle.Some? <==> machine.owner.Holding?)
      && (shutdownSent <==> machine.owner.Stopped?)
    }

    constructor Spawn(spec: StatefulWorkerSpec, task: TaskId)
      ensures this.spec == spec && this.task == task
      ensures Valid() && handle.Some? && machine == Lifecycle.SPAWNED
    {
      this.spec := spec;
      this.task := task;
      handle := Some(Runtime.JoinHandle.JoinHandle);
      shutdownSent := false;
      machine := Lifecycle.SPAWNED;
      new;
      assert Lifecycle.Legal(Lifecycle.SPAWNED, []) && Lifecycle.After(Lifecycle.SPAWNED, []) == Lifecycle.SPAWNED;
    }

    /** Asks the worker to stop and waits for it, aborting it after `timeout`. `prompt` tells
        whether the task ends within that time, which is up to the task. When this returns the task
        is over, and un-aborted exactly if it was given time and was prompt. */
    method Stop(timeout: Duration, prompt: bool) returns (graceful: bool)
      requires Valid()
      modifies this
      ensures Valid() && handle == None
      ensures old(handle) == None ==> graceful && machine == old(machine)
      ensures old(handle) != None ==>
        && (graceful <==> timeout > 0 && prompt)
        && Lifecycle.Follows(old(machine), machine) && machine.owner == Lifecycle.Stopped(graceful)
        && machine.Over() && (graceful ==> machine.phase.Ended?) && (machine.abort <==> !graceful)
    {
      if handle == None {
        return true;
      }
      handle := None;
      shutdownSent := true;
      if timeout == 0 {
        graceful := false;
      } else {
        graceful := prompt;
      }
      ghost var stopped := Lifecycle.StopReturns(machine, timeout == 0, graceful);
      ghost var after :| Lifecycle.Follows(machine, after) && after.owner == Lifecycle.Stopped(graceful);
      Lifecycle.ReachableFollows(machine, after);
      Lifecycle.StopSettlesTheTask(after);
      machine := after;
    }
  }

  datatype StatefulChild =
    | WorkerChild(process: StatefulWorkerProcess)
    | SupervisorChild(spec: StatefulSupervisorSpec, task: TaskId)
  {
    function Id(): ChildId {
      match this
      case WorkerChild(process) => process.spec.id
      case SupervisorChild(spec, _) => spec.name
    }

    function ChildType(): ChildType {
      if WorkerChild? then WorkerType else SupervisorType
    }

    function RestartPolicy(): Option<RestartPolicy> {
      match this
      case WorkerChild(process) => Some(process.spec.restartPolicy)
      case SupervisorChild(_, _) => Some(Permanent)
    }

    function RestartPolicyForDecision(): Option<RestartPolicy> {
      match this
      case WorkerChild(process) => Some(process.spec.restartPolicy)
      case SupervisorChild(_, _) => None
    }

    function Task(): TaskId {
      match this
      case WorkerChild(process) => process.task
      case SupervisorChild(_, task) => task
    }

    function Spec(): StatefulChildSpec {
      match this
      case WorkerChild(process) => StatefulWorker(process.spec)
      case SupervisorChild(spec, _) => StatefulSupervisor(spec)
    }

    /** The same child of a plain runtime. */
    function View(): (c: Child)
      ensures c.Id() == Id() && c.spec.ChildType() == ChildType()
      ensures c.spec.RestartPolicy() == RestartPolicy()
      ensures c.spec.RestartPolicyForDecision() == RestartPolicyForDecision()
      ensures c == Child(Spec().Bind(), Task())
    {
      match this
      case WorkerChild(process) => Child(Worker(process.spec.Bind()), process.task)
      case SupervisorChild(spec, task) => Child(Supervisor(spec.Bind()), task)
    }
  }

  function Views(children: seq<StatefulChild>): (views: seq<Child>)
    ensures |views| == |children|
  {
    seq(|children|, i requires 0 <= i < |children| => children[i].View())
  }

  function Processes(children: seq<StatefulChild>): set<StatefulWorkerProcess> {
    set c | c in children && c.WorkerChild? :: c.process
  }

  ghost predicate ProcessesValid(children: seq<StatefulChild>)
    reads Processes(children)
  {
    forall p :: p in Processes(children) ==> p.Valid()
  }

  lemma Append(children: seq<StatefulChild>, child: StatefulChild)
    ensures Views(children + [child]) == Views(children) + [child.View()]
    ensures Processes(children + [child]) == Processes(children) + Processes([child])
  {
  }

  lemma Removal(children: seq<StatefulChild>, p: nat)
    requires p < |children|
    ensures var rest := children[..p] + children[p + 1..];
      Views(rest) == Remove(Views(children), p) && Processes(rest) <= Processes(children)
    ensures Processes([children[p]]) <= Processes(children)
    ensures Views(children)[p] == children[p].View()
  {
  }

  lemma Replacement(children: seq<StatefulChild>, p: nat)
    requires p < |children|
    ensures Processes([children[p]]) <= Processes(children) && Views(children)[p] == children[p].View()
  {
  }

  lemma ReplacementBy(children: seq<StatefulChild>, p: nat, child: StatefulChild)
    requires p < |children|
    ensures Views(children[p := child]) == Views(children)[p := child.View()]
    ensures Processes(children[p := child]) <= Processes(children) + Processes([child])
  {
  }

  lemma Split(children: seq<StatefulChild>, p: nat)
    requires p <= |children|
    ensures Processes(children[..p]) <= Processes(children) && Processes(children[p..]) <= Processes(children)
    ensures Views(children[..p]) == Views(children)[..p] && Views(children[p..]) == Views(children)[p..]
  {
  }

  lemma Join(a: seq<StatefulChild>, b: seq<StatefulChild>)
    ensures Views(a + b) == Views(a) + Views(b) && Processes(a + b) == Processes(a) + Processes(b)
  {
  }

  // ---- The runtime ----

  class StatefulSupervisorRuntime {
    const spec: StatefulSupervisorSpec
    const createdAt: Instant
    const prompt: TaskId -> bool
    const restartTracker: RestartTracker
    const backoffTracker: BackoffTracker
    var children: seq<StatefulChild>
    var timers: seq<Timer>
    var exit: Option<ChildExitReason>
    var spawned: seq<StatefulChildSpec>
    ghost var trace: seq<Effect>
    ghost var worthy: seq<Instant>
    ghost var journal: seq<Entry>
    ghost var rounds: Rounds

    /** The plain supervisor that this runtime behaves as. */
    ghost function Model(): Sup
      reads this, restartTracker, backoffTracker
    {
      Sup(spec.Bind(), createdAt, Views(children), restartTracker.restartTimes, backoffTracker.state, exit, timers,
          BindAll(spawned), trace, worthy, journal, rounds)
    }

    ghost function Repr(): set<object>
      reads this
    {
      {this, restartTracker, backoffTracker} + Processes(children)
    }

    ghost predicate Valid()
      reads this, restartTracker, backoffTracker, Processes(children)
    {
      && restartTracker.intensity == spec.restartIntensity
      && backoffTracker.backoff == spec.restartBackoff
      && Sorted(restartTracker.restartTimes)
      && ProcessesValid(children)
    }

    constructor (spec: StatefulSupervisorSpec, now: Instant, prompt: TaskId -> bool)
      ensures Valid() && Model() == Init(spec.Bind(), now) && fresh(Repr())
      ensures this.spec == spec && this.prompt == prompt
    {
      this.spec := spec;
      createdAt := now;
      this.prompt := prompt;
      restartTracker := new RestartTracker(spec.restartIntensity);
      backoffTracker := new BackoffTracker(spec.restartBackoff);
      children := [];
      timers := [];
      exit := None;
      spawned := [];
      trace := [];
      worthy := [];
      journal := [];
      rounds := Rounds(0, 0, 0);
      new;
      StartChildren();
    }

    method StartChildren()
      requires Valid() && children == [] && spawned == [] && trace == []
      modifies this`children, this`spawned, this`trace
      ensures Valid() && fresh(Repr() - old(Repr()))
      ensures var all := Init(spec.Bind(), createdAt);
        Views(children) == all.children && BindAll(spawned) == all.spawned && trace == all.trace
    {
      var start: seq<StatefulChild> := [];
      for i := 0 to |spec.children|
        invariant spawned == spec.children[..i] && trace == Spawns(Views(start))
        invariant Views(start) == Init(spec.Bind(), createdAt).children[..i]
        invariant forall p :: p in Processes(start) ==> fresh(p) && p.Valid()
      {
        var child := SpawnTask(spec.children[i]);
        Append(start, child);
        start := start + [child];
      }
      children := start;
      assert spec.children[..|spec.children|] == spec.children;
    }

    /** Starts a task for `childSpec`; the child is not listed yet. */
    method SpawnTask(childSpec: StatefulChildSpec) returns (child: StatefulChild)
      modifies this`spawned, this`trace
      ensures child.Spec() == childSpec && child.Task() == |old(spawned)|
      ensures spawned == old(spawned) + [childSpec]
      ensures BindAll(spawned) == BindAll(old(spawned)) + [childSpec.Bind()]
      ensures trace == old(trace) + [Spawn(|old(spawned)|, childSpec.Bind())]
      ensures child.WorkerChild? ==> fresh(child.process) && child.process.Valid()
    {
      if childSpec.StatefulWorker? {
        var process := new StatefulWorkerProcess.Spawn(childSpec.worker, |spawned|);
        child := WorkerChild(process);
      } else {
        child := SupervisorChild(childSpec.supervisor, |spawned|);
      }
      trace := trace + [Spawn(|spawned|, childSpec.Bind())];
      spawned := spawned + [childSpec];
    }

    method Shutdown(child: StatefulChild)
      requires child.WorkerChild? ==> child.process.Valid()
      modifies this`trace, Processes([child])
      ensures trace == old(trace) + [Halt(child.View())]
      ensures child.WorkerChild? ==> child.process.Valid() && child.process.handle == None
      ensures child.WorkerChild? && old(child.process.handle).Some? ==>
        && child.process.machine.Over()
        && child.process.machine.owner == Lifecycle.Stopped(spec.shutdownTimeout > 0 && prompt(child.process.task))
    {
      match child {
        case WorkerChild(process) =>
          assert child in [child];
          var graceful := process.Stop(spec.shutdownTimeout, prompt(process.task));
        case SupervisorChild(_, _) =>
      }
      trace := trace + [Halt(child.View())];
    }

    method FindPosition(id: ChildId) returns (p: Option<nat>)
      ensures p == Position(Views(children), id)
    {
      for i := 0 to |children|
        invariant forall j :: 0 <= j < i ==> Views(children)[j].Id() != id
      {
        if children[i].Id() == id {
          assert Views(children)[i].Id() == id;
          return Some(i);
        }
      }
      return None;
    }

    method HandleStartChild(w: StatefulWorkerSpec) returns (result: Result<ChildId, SupervisorError>)
      requires Valid()
      modifies this
      ensures Valid() && fresh(Repr() - old(Repr()))
      ensures (Model(), result) == Supervision.HandleStartChild(old(Model()), w.Bind())
    {
      var p := FindPosition(w.id);
      if p.Some? {
        return Err(ChildAlreadyExists(w.id));
      }
      var child := SpawnTask(StatefulWorker(w));
      Append(children, child);
      children := children + [child];
      return Ok(w.id);
    }

    method HandleStartChildLinked(w: StatefulWorkerSpec, timeout: Duration, init: InitOutcome)
      returns (result: Result<ChildId, SupervisorError>)
      requires Valid()
      modifies this
      ensures Valid() && fresh(Repr() - old(Repr()))
      ensures (Model(), result) == Supervision.HandleStartChildLinked(old(Model()), w.Bind(), timeout, init)
    {
      hide BindAll, Views, Position, StatefulWorkerProcess.Valid;
      var p := FindPosition(w.id);
      if p.Some? {
        return Err(ChildAlreadyExists(w.id));
      }
      var child := SpawnTask(StatefulWorker(w));
      match init {
        case Ready =>
          Append(children, child);
          children := children + [child];
          return Ok(w.id);
        case Failed(reason) =>
          result := Err(InitializationFailed(w.id, reason));
        case ChannelClosed =>
          result := Err(InitializationFailed(w.id, "worker panicked during initialization"));
        case Elapsed =>
          result := Err(InitializationTimeout(w.id, timeout));
      }
      trace := trace + [Effect.Drop(child.Task())];
    }

    method HandleTerminateChild(id: ChildId) returns (result: Result<(), SupervisorError>)
      requires Valid()
      modifies Repr()
      ensures Valid() && Repr() <= old(Repr())
      ensures (Model(), result) == Supervision.HandleTerminateChild(old(Model()), id)
    {
      hide Views, BindAll, Halt, Position, Remove, StatefulWorkerProcess.Valid;
      var p := FindPosition(id);
      match p {
        case None => return Err(ChildNotFound(id));
        case Some(position) =>
          var child := children[position];
          Removal(children, position);
          children := children[..position] + children[position + 1..];
          Shutdown(child);
          backoffTracker.ResetChild(id);
          journal := journal + [Left(id)];
          return Ok(());
      }
    }

    method HandleWhichChildren() returns (info: seq<ChildInfo>)
      requires Valid()
      ensures info == Supervision.HandleWhichChildren(Model())
      ensures |info| == |children| && forall i :: 0 <= i < |children| ==>
        match children[i]
        case WorkerChild(process) => info[i] == ChildInfo(process.spec.id, WorkerType, Some(process.spec.restartPolicy))
        case SupervisorChild(nested, _) => info[i] == ChildInfo(nested.name, SupervisorType, Some(Permanent))
    {
      info := [];
      for i := 0 to |children|
        invariant info == Supervision.HandleWhichChildren(Model())[..i]
      {
        var c := children[i];
        assert c.View() == Model().children[i];
        info := info + [ChildInfo(c.Id(), c.ChildType(), c.RestartPolicy())];
      }
    }

    method ShutdownChildren()
      requires Valid()
      modifies Repr()
      ensures Valid() && Repr() <= old(Repr())
      ensures Model() == Supervision.ShutdownChildren(old(Model()))
    {
      hide Lifecycle.Reachable, StatefulWorkerProcess.Valid;
      var drained := children;
      children := [];
      for i := 0 to |drained|
        invariant children == [] && ProcessesValid(drained)
        invariant trace == old(trace) + Halts(Views(drained)[..i])
        invariant unchanged(this`timers, this`exit, this`spawned, this`worthy, this`journal, this`rounds)
        invariant unchanged(restartTracker, backoffTracker)
      {
        assert drained[i] in old(children);
        Shutdown(drained[i]);
        assert Halts(Views(drained)[..i + 1]) == Halts(Views(drained)[..i]) + [Halt(Views(drained)[i])];
      }
      assert Views(drained)[..|drained|] == Views(drained);
    }

    method RestartOneChild(position: nat)
      requires Valid() && position < |children|
      modifies Repr()
      ensures Valid() && fresh(Repr() - old(Repr()))
      ensures Model() == RestartOne(old(Model()), position)
    {
      hide BindAll, Views, Halt, StatefulWorkerProcess.Valid;
      Replacement(children, position);
      Shutdown(children[position]);
      var child := SpawnTask(children[position].Spec());
      ReplacementBy(children, position, child);
      children := children[position := child];
    }

    /** State of a restart round that has kept `kept` so far. */
    ghost function BookOf(kept: seq<StatefulChild>): Runtime.Book
      reads this, backoffTracker
    {
      Runtime.Book(Views(kept), BindAll(spawned), trace, journal, backoffTracker.state)
    }

    /** Ends a restart round for one child that has been stopped. */
    method Settle(stopped: StatefulChild, kept: seq<StatefulChild>) returns (result: seq<StatefulChild>)
      modifies this`spawned, this`trace, this`journal, backoffTracker
      ensures BookOf(result) == Runtime.TurnOne(old(BookOf(kept)), stopped.View(), false)
      ensures forall p :: p in Processes(result) ==> p in Processes(kept) || (fresh(p) && p.Valid())
    {
      result := kept;
      if stopped.RestartPolicy() == Some(Temporary) {
        backoffTracker.ResetChild(stopped.Id());
        journal := journal + [Left(stopped.Id())];
      } else {
        var replacement := SpawnTask(stopped.Spec());
        Append(kept, replacement);
        result := kept + [replacement];
      }
    }

    method StopAll()
      requires Valid()
      modifies this`trace, Processes(children)
      ensures trace == old(trace) + Halts(Views(children))
    {
      hide Lifecycle.Reachable, StatefulWorkerProcess.Valid;
      ghost var views := Views(children);
      for i := 0 to |children|
        invariant trace == old(trace) + Halts(views)[..i]
        invariant ProcessesValid(children)
      {
        assert children[i] in children;
        Shutdown(children[i]);
      }
      assert Halts(views)[..|views|] == Halts(views);
    }

    method RespawnEach(drained: seq<StatefulChild>) returns (kept: seq<StatefulChild>)
      modifies this`spawned, this`trace, this`journal, backoffTracker
      ensures BookOf(kept) == Runtime.TurnAll(old(BookOf([])), Views(drained), false)
      ensures forall p :: p in Processes(kept) ==> fresh(p) && p.Valid()
    {
      kept := [];
      for i := 0 to |drained|
        invariant BookOf(kept) == Runtime.TurnAll(old(BookOf([])), Views(drained)[..i], false)
        invariant forall p :: p in Processes(kept) ==> fresh(p) && p.Valid()
      {
        Runtime.TurnNext(old(BookOf([])), Views(drained), i, false);
        kept := Settle(drained[i], kept);
      }
      assert Views(drained)[..|drained|] == Views(drained);
    }

    method RollEach(affected: seq<StatefulChild>) returns (kept: seq<StatefulChild>)
      requires ProcessesValid(affected)
      modifies this`spawned, this`trace, this`journal, backoffTracker, Processes(affected)
      ensures ProcessesValid(affected)
      ensures BookOf(kept) == Runtime.TurnAll(old(BookOf([])), Views(affected), true)
      ensures forall p :: p in Processes(kept) ==> fresh(p) && p.Valid()
    {
      hide Lifecycle.Reachable, StatefulWorkerProcess.Valid;
      kept := [];
      for i := 0 to |affected|
        invariant BookOf(kept) == Runtime.TurnAll(old(BookOf([])), Views(affected)[..i], true)
        invariant ProcessesValid(affected)
        invariant forall p :: p in Processes(kept) ==> fresh(p) && p.Valid()
      {
        Runtime.TurnNext(old(BookOf([])), Views(affected), i, true);
        assert affected[i] in affected;
        Shutdown(affected[i]);
        kept := Settle(affected[i], kept);
      }
      assert Views(affected)[..|affected|] == Views(affected);
    }

    method RestartAllChildren()
      requires Valid()
      modifies Repr()
      ensures Valid() && fresh(Repr() - old(Repr()))
      ensures Model() == RestartAll(old(Model()))
    {
      hide BindAll, Runtime.TurnAll, Renewed, Rolling, Departures, DepartedIds, Halts, Spawns;
      StopAll();
      var drained := children;
      ghost var views := Views(drained);
      children := [];
      Runtime.TurnAllIsRound(BookOf([]), views, false);
      var kept := RespawnEach(drained);
      children := kept;
      assert views[0..] == views && views[..0] + Views(kept) == Views(kept);
    }

    method RestartChildrenFrom(position: nat)
      requires Valid() && position <= |children|
      modifies Repr()
      ensures Valid() && fresh(Repr() - old(Repr()))
      ensures Model() == RestartFrom(old(Model()), position)
    {
      hide BindAll, Views, StatefulWorkerProcess.Valid, Runtime.TurnAll, Renewed, Rolling, Departures, DepartedIds;
      Split(children, position);
      var affected := children[position..];
      children := children[..position];
      Runtime.TurnAllIsRound(BookOf([]), Views(affected), true);
      var kept := RollEach(affected);
      Join(children, kept);
      children := children + kept;
    }

    method ApplyRestart(position: nat, strategy: RestartStrategy)
      requires Valid() && position < |children|
      modifies Repr()
      ensures Valid() && fresh(Repr() - old(Repr()))
      ensures Model() == Supervision.ApplyRestart(old(Model()), position, strategy)
    {
      match strategy {
        case OneForOne => RestartOneChild(position);
        case OneForAll => RestartAllChildren();
        case RestForOne => RestartChildrenFrom(position);
      }
    }

    method DeferRestart(id: ChildId, at: Instant, delay: Duration, strategy: RestartStrategy)
      requires Valid()
      modifies this`timers
      ensures Valid()
      ensures Model() == Supervision.DeferRestart(old(Model()), id, at, delay, strategy)
    {
      timers := timers + [Timer(id, strategy, at + delay)];
    }

    method DropChild(position: nat)
      requires Valid() && position < |children|
      modifies this
      ensures Valid() && Repr() <= old(Repr())
      ensures var s := old(Model());
        Model() == s.(children := Remove(s.children, position), journal := s.journal + [Left(s.children[position].Id())],
                      trace := s.trace + [Effect.Drop(s.children[position].task)])
    {
      var child := children[position];
      trace := trace + [Effect.Drop(child.Task())];
      journal := journal + [Left(child.Id())];
      Removal(children, position);
      children := children[..position] + children[position + 1..];
    }

    method GrantRestart(position: nat, delay: Duration, strategy: RestartStrategy, env: Env)
      requires Valid() && position < |children|
      modifies Repr()
      ensures Valid() && fresh(Repr() - old(Repr()))
      ensures Model() == Carry(old(Model()), position,
        Verdict(Restart(delay, strategy), old(restartTracker.restartTimes), old(backoffTracker.state)), env)
    {
      hide BindAll, Supervision.ApplyRestart, StatefulChildSpec.Bind, StatefulSupervisorSpec.Bind;
      var id := children[position].Id();
      assert id == Views(children)[position].Id();
      worthy := worthy + [env.now];
      journal := journal + [Granted(id, env.now, env.later, delay)];
      if delay == 0 {
        rounds := rounds.(immediate := rounds.immediate + 1);
        ApplyRestart(position, strategy);
      } else {
        DeferRestart(id, env.later, delay, strategy);
      }
    }

    method Escalate(env: Env)
      requires Valid()
      modifies Repr()
      ensures Valid() && Repr() <= old(Repr())
      ensures Model() == Supervision.ShutdownChildren(old(Model()).(worthy := old(worthy) + [env.now]))
    {
      worthy := worthy + [env.now];
      ShutdownChildren();
    }

    method CarryOut(position: nat, decision: RestartDecision, env: Env) returns (stop: bool)
      requires Valid() && position < |children| && exit == None
      modifies Repr()
      ensures Valid() && fresh(Repr() - old(Repr()))
      ensures Runtime.Stopping(Model(), stop) == Carry(old(Model()), position,
        Verdict(decision, old(restartTracker.restartTimes), old(backoffTracker.state)), env)
      ensures exit == None
    {
      stop := decision.Escalate?;
      match decision {
        case Ignore =>
        case Drop => DropChild(position);
        case Escalate => Escalate(env);
        case Restart(delay, strategy) => GrantRestart(position, delay, strategy, env);
      }
    }

    method HandleChildTerminated(id: ChildId, reason: ChildExitReason, env: Env) returns (stop: bool)
      requires Valid() && exit == None && Sorted(restartTracker.restartTimes + [env.now])
      modifies Repr()
      ensures Valid() && fresh(Repr() - old(Repr()))
      ensures Runtime.Stopping(Model(), stop) == Supervision.HandleChildTerminated(old(Model()), id, reason, env)
      ensures exit == None
    {
      stop := false;
      var found := FindPosition(id);
      if found.Some? {
        ghost var s := Model();
        var policy := children[found.value].RestartPolicyForDecision();
        assert policy == s.children[found.value].spec.RestartPolicyForDecision();
        var decision := DecideRestart(policy, reason, spec.restartStrategy, restartTracker, backoffTracker,
                                      id, env.now, env.later);
        Runtime.CarryIgnoresOldTrackers(s, found.value,
          Verdict(decision, restartTracker.restartTimes, backoffTracker.state), env);
        stop := CarryOut(found.value, decision, env);
      }
    }

    method HandleRestartChild(id: ChildId, strategy: RestartStrategy)
      requires Valid()
      modifies Repr()
      ensures Valid() && fresh(Repr() - old(Repr()))
      ensures Model() == Supervision.HandleRestartChild(old(Model()), id, strategy)
    {
      hide BindAll, Views, ProcessesValid, Supervision.ApplyRestart;
      var found := FindPosition(id);
      if found == None {
        rounds := rounds.(skipped := rounds.skipped + 1);
        return;
      }
      rounds := rounds.(applied := rounds.applied + 1);
      ApplyRestart(found.value, strategy);
    }

    /** One turn of the command loop. Its state and its answer are those of the plain runtime
        on the bound specifications. */
    method Turn(command: StatefulCommand, env: Env) returns (reply: Option<Reply>)
      requires Valid() && exit == None && Sorted(restartTracker.restartTimes + [env.now])
      modifies Repr()
      ensures Valid() && fresh(Repr() - old(Repr()))
      ensures Model() == Serve(old(Model()), command.Bind(), env)
      ensures reply == Answer(old(Model()), command.Bind(), env)
    {
      hide Supervision.HandleStartChild, Supervision.HandleStartChildLinked, Supervision.HandleTerminateChild,
           Supervision.HandleWhichChildren, Supervision.HandleChildTerminated, Supervision.HandleRestartChild;
      hide BindAll, Views, Halts, ProcessesValid;
      reply := None;
      match command {
        case StartChild(w, _) =>
          var result := HandleStartChild(w);
          reply := Some(Started(result));
        case StartChildLinked(w, timeout, _) =>
          var result := HandleStartChildLinked(w, timeout, env.init);
          reply := Some(Started(result));
        case TerminateChild(id, _) =>
          var outcome := HandleTerminateChild(id);
          reply := Some(Terminated(outcome));
        case WhichChildren(_) =>
          var info := HandleWhichChildren();
          reply := Some(Listing(info));
        case GetRestartStrategy(_) =>
          reply := Some(Strategy(spec.restartStrategy));
        case GetUptime(_) =>
          reply := Some(Uptime(SaturatingSince(env.now, createdAt) / NANOS_PER_SEC));
        case ChildTerminated(id, reason) =>
          var stop := HandleChildTerminated(id, reason, env);
          exit := if stop then Some(Abnormal) else None;
        case RestartChild(id, strategy) =>
          HandleRestartChild(id, strategy);
        case ShutdownCommand =>
          ShutdownChildren();
          exit := Some(ChildExitReason.Shutdown);
      }
    }

    /** The command loop: whole runs of the two runtimes agree, answers included. */
    method Run(inbox: seq<StatefulDelivery>) returns (replies: seq<Option<Reply>>)
      requires Valid() && exit == None && Runtime.ClockFrom(restartTracker.restartTimes, BindInbox(inbox))
      modifies Repr()
      ensures Model() == ServeAll(old(Model()), BindInbox(inbox))
      ensures Runtime.Answered(old(Model()), BindInbox(inbox), replies) && (exit == None ==> |replies| == |inbox|)
      ensures exit.Some? ==> 0 < |replies| && ServeAll(old(Model()), BindInbox(inbox)[..|replies| - 1]).exit == None
    {
      ghost var s, bound := Model(), BindInbox(inbox);
      hide Serve, Answer, ServeAll, Runtime.ClockFrom, Runtime.Answered;
      ghost var m := s;
      replies := [];
      Runtime.Begin(s, bound);
      while |replies| < |inbox| && exit == None
        invariant |replies| <= |inbox|
        invariant Valid() && fresh(Repr() - old(Repr()))
        invariant Model() == m && m == ServeAll(s, bound[..|replies|])
        invariant Runtime.ClockFrom(m.recent, bound[|replies|..])
        invariant Runtime.Answered(s, bound, replies)
        invariant m.exit.Some? ==> 0 < |replies| && ServeAll(s, bound[..|replies| - 1]).exit == None
        decreases |inbox| - |replies|
      {
        var delivery := inbox[|replies|];
        Runtime.Advance(s, m, bound, replies);
        var reply := Turn(delivery.command, delivery.env);
        m := Model();
        replies := replies + [reply];
      }
      Runtime.StoppedStays(s, bound, |replies|);
    }
  }

  datatype StatefulDelivery = StatefulDelivery(command: StatefulCommand, env: Env)

  function BindInbox(inbox: seq<StatefulDelivery>): (bound: seq<Delivery>)
    ensures |bound| == |inbox|
  {
    seq(|inbox|, i requires 0 <= i < |inbox| => Delivery(inbox[i].command.Bind(), inbox[i].env))
  }

  /** In every run, whatever a restart starts under the id of a listed worker is that very
      worker: same factory, same policy, same context. */
  lemma RespawnsKeepContext(spec: StatefulSupervisorSpec, start: Instant, inbox: seq<StatefulDelivery>,
                            d: StatefulDelivery, listed: StatefulWorkerSpec, respawned: StatefulWorkerSpec)
    requires Identity.UniqueSpecIds(spec.Bind())
    requires var s := ServeAll(Init(spec.Bind(), start), BindInbox(inbox));
      var s' := Serve(s, d.command.Bind(), d.env);
      && s.exit == None && Identity.StartedId(d.command.Bind()) == None
      && (exists c :: c in s.children && c.spec == Worker(listed.Bind()))
      && (exists t :: |s.spawned| <= t < |s'.spawned| && s'.spawned[t] == Worker(respawned.Bind()))
      && respawned.id == listed.id
    ensures respawned == listed
  {
    hide Serve, ServeAll, Init, Contexts.Registry, Identity.UniqueSpecIds, BindInbox;
    var bound := BindInbox(inbox);
    Contexts.EveryGenerationAsRegistered(spec.Bind(), start, bound, Delivery(d.command.Bind(), d.env));
    var s := ServeAll(Init(spec.Bind(), start), bound);
    var c :| c in s.children && c.spec == Worker(listed.Bind());
    var i :| 0 <= i < |s.children| && s.children[i] == c;
    BindTellsWorkersApart(listed, respawned);
  }
}
