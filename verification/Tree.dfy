/** Nested supervisors: how often a whole tree can start its workers before it gives up. */
module Tree {
  import opened Types
  import opened Restart
  import opened Spec
  import opened SupervisorCommon
  import opened Supervision
  import opened Identity
  import opened World
  import Conservation
  import Escalation
  import Pacing
  import Rate

  // ---- Budgets ----

  /** Most workers that one life of `spec` can start, if no supervisor lives longer than `n` of
      its own windows. */
  function Budget(spec: ChildSpec, n: nat): nat
    decreases spec, 0
  {
    match spec
    case Worker(_) => 1
    case Supervisor(s) => SumBudget(s.children, n) + n * s.restartIntensity.maxRestarts * MaxBudget(s.children, n)
  }

  function SumBudget(specs: seq<ChildSpec>, n: nat): nat
    decreases specs, 1
  {
    if specs == [] then 0 else SumBudget(specs[..|specs| - 1], n) + Budget(specs[|specs| - 1], n)
  }

  function MaxBudget(specs: seq<ChildSpec>, n: nat): nat
    decreases specs, 1
  {
    if specs == [] then 0
    else
      var front, last := MaxBudget(specs[..|specs| - 1], n), Budget(specs[|specs| - 1], n);
      if front < last then last else front
  }

  /** One worker under a chain of supervisors. */
  predicate IsChain(spec: ChildSpec) {
    spec.Worker? || (|spec.supervisor.children| == 1 && IsChain(spec.supervisor.children[0]))
  }

  function ChainProduct(spec: ChildSpec): nat
    requires IsChain(spec)
  {
    match spec
    case Worker(_) => 1
    case Supervisor(s) => (s.restartIntensity.maxRestarts + 1) * ChainProduct(s.children[0])
  }

  // ---- Lives ----

  /** One life of a child, from its spawn on. A supervisor's life is a run of its world and
      the lives of the tasks that it spawned, by task number. */
  datatype Life =
    | WorkerLife
    | SupervisorLife(spec: SupervisorSpec, start: Instant, steps: seq<Step>, tasks: seq<Life>)

  ghost function End(life: Life): World
    requires life.SupervisorLife? && Legal(Opening(life.spec, life.start), life.steps)
  {
    After(Opening(life.spec, life.start), life.steps)
  }

  ghost predicate Happened(life: Life) {
    life.SupervisorLife? && Legal(Opening(life.spec, life.start), life.steps)
  }

  /** What a nested supervisor reports is how its own life ended. */
  ghost predicate ReportsExit(tasks: seq<Life>, step: Step) {
    step.Report? && step.task < |tasks| && tasks[step.task].SupervisorLife? ==>
      Happened(tasks[step.task]) && End(tasks[step.task]).sup.exit == Some(step.reason)
  }

  ghost predicate LifeOf(life: Life, spec: ChildSpec)
    decreases life
  {
    if spec.Worker? then life.WorkerLife?
    else
      && Happened(life) && life.spec == spec.supervisor
      && |life.tasks| == |End(life).sup.spawned|
      && (forall i :: 0 <= i < |life.steps| ==> ReportsExit(life.tasks, life.steps[i]))
      && (forall t :: 0 <= t < |life.tasks| ==> LifeOf(life.tasks[t], End(life).sup.spawned[t]))
  }

  /** One-for-one, no child started by a client, and a clock that can go back a whole window. */
  ghost predicate Free(life: Life)
    requires Happened(life)
  {
    && life.spec.restartStrategy == OneForOne
    && NoStarts(life.steps)
    && life.spec.restartIntensity.Window() <= life.start
  }

  /** ... and a life of no more than `n` windows. */
  ghost predicate Confined(life: Life, n: nat)
    requires Happened(life)
  {
    Free(life) && End(life).now <= life.start + n * life.spec.restartIntensity.Window()
  }

  ghost predicate NoStarts(steps: seq<Step>) {
    forall i :: 0 <= i < |steps| && steps[i].Ask? ==> StartedId(steps[i].command) == None
  }

  ghost predicate AllFree(life: Life)
    decreases life
  {
    life.SupervisorLife? ==>
      && Happened(life) && Free(life)
      && (forall t :: 0 <= t < |life.tasks| ==> AllFree(life.tasks[t]))
  }

  ghost predicate AllConfined(life: Life, n: nat)
    decreases life
  {
    life.SupervisorLife? ==>
      && Happened(life) && Confined(life, n)
      && (forall t :: 0 <= t < |life.tasks| ==> AllConfined(life.tasks[t], n))
  }

  function WorkerStarts(life: Life): nat
    decreases life, 0
  {
    if life.WorkerLife? then 1 else AllStarts(life.tasks)
  }

  function AllStarts(lives: seq<Life>): nat
    decreases lives, 1
  {
    if lives == [] then 0 else AllStarts(lives[..|lives| - 1]) + WorkerStarts(lives[|lives| - 1])
  }

  // ---- One supervisor: what it spawns ----

  ghost predicate SpawnsCounted(s: Sup) {
    && s.spec.children <= s.spawned
    && |s.spawned| == |s.spec.children| + s.rounds.immediate + s.rounds.applied
    && (forall t :: 0 <= t < |s.spawned| ==> s.spawned[t] in s.spec.children)
    && (forall i :: 0 <= i < |s.children| ==> s.children[i].spec in s.spec.children)
  }

  ghost predicate Static(w: World) {
    && Pacing.AllOneForOne(w)
    && (forall i :: 0 <= i < |w.queue| ==> StartedId(w.queue[i]) == None)
    && SpawnsCounted(w.sup)
  }

  lemma OneRestartCounted(s: Sup, p: nat, rounds: Rounds)
    requires SpawnsCounted(s) && p < |s.children|
    requires rounds.immediate + rounds.applied == s.rounds.immediate + s.rounds.applied + 1
    ensures SpawnsCounted(RestartOne(s.(rounds := rounds), p))
  {
  }

  lemma SameSpawns(s: Sup, s': Sup)
    requires SpawnsCounted(s) && s'.spec == s.spec && s'.spawned == s.spawned
    requires s'.rounds.immediate == s.rounds.immediate && s'.rounds.applied == s.rounds.applied
    requires forall i :: 0 <= i < |s'.children| ==> s'.children[i] in s.children
    ensures SpawnsCounted(s')
  {
  }

  lemma CarryCounted(s: Sup, p: nat, v: Verdict, env: Env)
    requires SpawnsCounted(s) && p < |s.children|
    requires v.decision.Restart? ==> v.decision.strategy == OneForOne
    ensures SpawnsCounted(Carry(s, p, v, env))
    ensures var timers := Carry(s, p, v, env).timers;
      timers == s.timers || exists due :: timers == s.timers + [Timer(s.children[p].Id(), OneForOne, due)]
  {
    hide SpawnsCounted;
    var s' := Carry(s, p, v, env);
    if v.decision.Restart? && v.decision.delay == 0 {
      var rounds := s.rounds.(immediate := s.rounds.immediate + 1);
      OneRestartCounted(s, p, rounds);
      assert RestartOne(s.(rounds := rounds), p).children == s'.children;
      SameSpawns(RestartOne(s.(rounds := rounds), p), s');
    } else {
      SameSpawns(s, s');
    }
  }

  lemma CommandCounted(s: Sup, c: Command, env: Env)
    requires SpawnsCounted(s) && s.spec.restartStrategy == OneForOne && StartedId(c) == None
    requires c.RestartChild? ==> c.strategy == OneForOne
    ensures var s' := Serve(s, c, env);
      && SpawnsCounted(s') && s'.spec == s.spec
      && (s'.timers == s.timers || exists id, due :: s'.timers == s.timers + [Timer(id, OneForOne, due)])
  {
    hide SpawnsCounted, Carry;
    var s' := Serve(s, c, env);
    Escalation.SpecStays(s, Delivery(c, env));
    match c {
      case ChildTerminated(id, reason) =>
        var found := Position(s.children, id);
        if found.Some? {
          CarryCounted(s, found.value, JudgeAt(s, found.value, reason, env), env);
        }
      case RestartChild(id, strategy) =>
        var found := Position(s.children, id);
        if found.Some? {
          OneRestartCounted(s, found.value, s.rounds.(applied := s.rounds.applied + 1));
        } else {
          SameSpawns(s, s');
        }
      case _ =>
        SameSpawns(s, s');
    }
  }

  lemma StepKeepsStatic(w: World, step: Step)
    requires Static(w) && Enabled(w, step)
    requires step.Ask? ==> StartedId(step.command) == None
    ensures Static(Next(w, step)) && Next(w, step).sup.spec == w.sup.spec
  {
    hide SpawnsCounted, Serve, Answer;
    if step.Handle? {
      var d := HeadDelivery(w, step.later, step.init);
      CommandCounted(w.sup, d.command, d.env);
      assert forall i :: 0 <= i < |w.queue| - 1 ==> w.queue[1..][i] == w.queue[i + 1];
    }
  }

  lemma {:induction false} RunKeepsStatic(spec: SupervisorSpec, start: Instant, steps: seq<Step>)
    requires spec.restartStrategy == OneForOne && NoStarts(steps)
    requires Legal(Opening(spec, start), steps)
    ensures Static(After(Opening(spec, start), steps)) && After(Opening(spec, start), steps).sup.spec == spec
    decreases |steps|
  {
    if steps == [] {
      assert Static(Opening(spec, start));
    } else {
      hide Static, Next, Enabled, Opening;
      RunKeepsStatic(spec, start, steps[..|steps| - 1]);
      StepKeepsStatic(After(Opening(spec, start), steps[..|steps| - 1]), steps[|steps| - 1]);
    }
  }

  // ---- One supervisor: how many restarts it grants ----

  /** Within `n` windows, no more restarts are granted than `n` times the limit. */
  lemma GrantsWithinLimit(life: Life, n: nat)
    requires n > 0 && Happened(life) && Confined(life, n)
    ensures Conservation.Grants(End(life).sup) <= n * life.spec.restartIntensity.maxRestarts
  {
    hide After, Legal, Opening, NoStarts, Conservation.Grants;
    Rate.GrantsOverTime(life.spec, life.start, life.steps, n);
  }

  lemma ServeExits(s: Sup, d: Delivery)
    requires s.exit == None
    ensures Serve(s, d.command, d.env).exit in {None, Some(Abnormal), Some(Shutdown)}
  {
    match d.command {
      case ChildTerminated(id, reason) =>
        var found := Position(s.children, id);
        if found.Some? {
          CarryExits(s, found.value, JudgeAt(s, found.value, reason, d.env), d.env);
        }
      case _ =>
    }
  }

  lemma CarryExits(s: Sup, p: nat, v: Verdict, env: Env)
    requires s.exit == None && p < |s.children|
    ensures Carry(s, p, v, env).exit == if v.decision == Escalate then Some(Abnormal) else None
  {
  }

  lemma {:induction false} ExitReasons(spec: SupervisorSpec, start: Instant, deliveries: seq<Delivery>)
    ensures ServeAll(Init(spec, start), deliveries).exit in {None, Some(Abnormal), Some(Shutdown)}
  {
    if deliveries != [] {
      hide Serve;
      var before := ServeAll(Init(spec, start), deliveries[..|deliveries| - 1]);
      ExitReasons(spec, start, deliveries[..|deliveries| - 1]);
      if before.exit == None {
        ServeExits(before, deliveries[|deliveries| - 1]);
      }
    }
  }

  // ---- One supervisor: which of its tasks have failed ----

  function FailedTasks(steps: seq<Step>): set<TaskId> {
    if steps == [] then {}
    else
      var last := steps[|steps| - 1];
      FailedTasks(steps[..|steps| - 1]) + (if last.Report? && last.reason != Shutdown then {last.task} else {})
  }

  function QueuedFailures(queue: seq<Command>): nat {
    if queue == [] then 0
    else
      var last := queue[|queue| - 1];
      QueuedFailures(queue[..|queue| - 1]) + (if last.ChildTerminated? && last.reason != Shutdown then 1 else 0)
  }

  lemma {:induction false} QueuedFailuresHead(queue: seq<Command>)
    requires queue != []
    ensures QueuedFailures(queue)
         == (if queue[0].ChildTerminated? && queue[0].reason != Shutdown then 1 else 0) + QueuedFailures(queue[1..])
  {
    if |queue| > 1 {
      var n := |queue| - 1;
      QueuedFailuresHead(queue[..n]);
      assert queue[..n][1..] == queue[1..][..n - 1];
    }
  }

  /** Each failure that asked for a restart, or may yet, was reported by a task of its own. */
  ghost predicate FailuresReported(w: World, steps: seq<Step>) {
    && |w.sup.worthy| + QueuedFailures(w.queue) <= |FailedTasks(steps)|
    && FailedTasks(steps) <= w.reported
    && forall t :: t in w.reported ==> t < |w.sup.spawned|
  }

  lemma WorthyIsFailure(s: Sup, c: Command, env: Env)
    ensures var s' := Serve(s, c, env);
      |s'.worthy| <= |s.worthy| + (if c.ChildTerminated? && c.reason != Shutdown then 1 else 0)
      && |s.spawned| <= |s'.spawned|
  {
    hide Position, Renewed, Rolling, Departures, DepartedIds, Halts, Spawns;
  }

  lemma HandleKeepsReported(w: World, steps: seq<Step>, step: Step)
    requires FailuresReported(w, steps) && Enabled(w, step) && step.Handle?
    ensures FailuresReported(Next(w, step), steps + [step])
  {
    hide Serve, Answer;
    assert (steps + [step])[..|steps|] == steps;
    var d := HeadDelivery(w, step.later, step.init);
    QueuedFailuresHead(w.queue);
    WorthyIsFailure(w.sup, d.command, d.env);
  }

  lemma PostKeepsReported(w: World, steps: seq<Step>, step: Step)
    requires FailuresReported(w, steps) && Enabled(w, step) && !step.Handle?
    ensures FailuresReported(Next(w, step), steps + [step])
  {
    hide QueuedFailures, FailedTasks;
    FailedTasksAppend(steps, step);
    var w' := Next(w, step);
    if w'.queue != w.queue {
      QueuedFailuresAppend(w.queue, w'.queue[|w.queue|]);
    }
  }

  lemma FailedTasksAppend(steps: seq<Step>, step: Step)
    ensures var before, after := FailedTasks(steps), FailedTasks(steps + [step]);
      if step.Report? && step.reason != Shutdown
      then after == before + {step.task} && (step.task !in before ==> |after| == |before| + 1)
      else after == before
  {
    assert (steps + [step])[..|steps|] == steps;
  }

  lemma QueuedFailuresAppend(queue: seq<Command>, c: Command)
    ensures QueuedFailures(queue + [c])
         == QueuedFailures(queue) + (if c.ChildTerminated? && c.reason != Shutdown then 1 else 0)
  {
    assert (queue + [c])[..|queue|] == queue;
  }

  lemma {:induction false} RunKeepsReported(spec: SupervisorSpec, start: Instant, steps: seq<Step>)
    requires Legal(Opening(spec, start), steps)
    ensures FailuresReported(After(Opening(spec, start), steps), steps)
    decreases |steps|
  {
    if steps == [] {
      assert FailuresReported(Opening(spec, start), steps);
    } else {
      hide FailuresReported, Next, Enabled, Opening;
      var front, last := steps[..|steps| - 1], steps[|steps| - 1];
      RunKeepsReported(spec, start, front);
      if last.Handle? {
        HandleKeepsReported(After(Opening(spec, start), front), front, last);
      } else {
        PostKeepsReported(After(Opening(spec, start), front), front, last);
      }
      assert steps == front + [last];
    }
  }

  lemma {:induction false} FailedReport(steps: seq<Step>, task: TaskId) returns (i: nat)
    requires task in FailedTasks(steps)
    ensures i < |steps| && steps[i].Report? && steps[i].task == task && steps[i].reason != Shutdown
  {
    i := |steps| - 1;
    if !(steps[i].Report? && steps[i].task == task && steps[i].reason != Shutdown) {
      i := FailedReport(steps[..i], task);
    }
  }

  // ---- Sums ----

  lemma {:induction false} EachUnderMax(specs: seq<ChildSpec>, spec: ChildSpec, n: nat)
    requires spec in specs
    ensures Budget(spec, n) <= MaxBudget(specs, n)
  {
    var last := |specs| - 1;
    if specs[last] != spec {
      assert spec in specs[..last] by {
        var i :| 0 <= i < |specs| && specs[i] == spec;
        assert specs[..last][i] == spec;
      }
      EachUnderMax(specs[..last], spec, n);
    }
  }

  /** The first tasks are the children themselves; each later one costs at most the maximum. */
  lemma {:induction false} SumOfSpawned(children: seq<ChildSpec>, spawned: seq<ChildSpec>, n: nat)
    requires children <= spawned && forall t :: 0 <= t < |spawned| ==> spawned[t] in children
    ensures SumBudget(spawned, n) <= SumBudget(children, n) + (|spawned| - |children|) * MaxBudget(children, n)
    decreases |spawned|
  {
    if |spawned| == |children| {
      assert spawned == children;
    } else {
      hide MaxBudget, Budget;
      var last := |spawned| - 1;
      SumOfSpawned(children, spawned[..last], n);
      EachUnderMax(children, spawned[last], n);
      OneMore(SumBudget(spawned[..last], n), SumBudget(children, n), Budget(spawned[last], n), last - |children|, MaxBudget(children, n));
    }
  }

  lemma OneMore(sum: nat, base: nat, last: nat, n: nat, most: nat)
    requires sum <= base + n * most && last <= most
    ensures sum + last <= base + (n + 1) * most
  {
    MulSucc(n, most);
  }

  lemma MulBound(a: nat, b: nat, m: nat)
    requires a <= b
    ensures a * m <= b * m
  {
  }

  /** What one supervisor spawns fits its budget, if each of its tasks fits its own. */
  lemma SpawnsFitBudget(life: Life, n: nat)
    requires n > 0 && Happened(life) && Confined(life, n)
    ensures SumBudget(End(life).sup.spawned, n) <= Budget(Supervisor(life.spec), n)
  {
    hide After, Legal, Opening, Conservation.Grants, NoStarts, SumBudget, MaxBudget;
    var s, limit := End(life).sup, n * life.spec.restartIntensity.maxRestarts;
    GrantsWithinLimit(life, n);
    Conservation.GrantsConserved(life.spec, life.start, life.steps);
    RunKeepsStatic(life.spec, life.start, life.steps);
    SumOfSpawned(life.spec.children, s.spawned, n);
    MulBound(|s.spawned| - |life.spec.children|, limit, MaxBudget(life.spec.children, n));
  }

  // ---- Whole trees ----

  /** With one-for-one everywhere, no child started by a client, and each supervisor's life no
      longer than `n` of its own windows, one life of a tree starts no more workers than its
      budget: the sum over the children and, for `n` times the limit, the most expensive one. */
  lemma {:induction false} TreeBudget(life: Life, spec: ChildSpec, n: nat)
    requires n > 0 && LifeOf(life, spec) && AllConfined(life, n)
    ensures WorkerStarts(life) <= Budget(spec, n)
    decreases life, 0
  {
    if life.SupervisorLife? {
      hide Confined, End;
      SpawnsFitBudget(life, n);
      LivesBudget(life.tasks, End(life).sup.spawned, n);
    }
  }

  lemma {:induction false} LivesBudget(lives: seq<Life>, specs: seq<ChildSpec>, n: nat)
    requires n > 0 && |lives| == |specs|
    requires forall t :: 0 <= t < |lives| ==> LifeOf(lives[t], specs[t]) && AllConfined(lives[t], n)
    ensures AllStarts(lives) <= SumBudget(specs, n)
    decreases lives, 1
  {
    if lives != [] {
      hide LifeOf, AllConfined;
      var last := |lives| - 1;
      LivesBudget(lives[..last], specs[..last], n);
      TreeBudget(lives[last], specs[last], n);
    }
  }

  // ---- A chain that gives up ----

  lemma SingleBudget(specs: seq<ChildSpec>)
    requires |specs| == 1
    ensures SumBudget(specs, 1) == MaxBudget(specs, 1) == Budget(specs[0], 1)
  {
    hide Budget;
    assert specs[..0] == [];
  }

  lemma {:induction false} ChainBudget(spec: ChildSpec)
    requires IsChain(spec)
    ensures Budget(spec, 1) == ChainProduct(spec)
  {
    if spec.Supervisor? {
      var children := spec.supervisor.children;
      hide SumBudget, MaxBudget;
      ChainBudget(children[0]);
      SingleBudget(children);
      MulSucc(spec.supervisor.restartIntensity.maxRestarts, Budget(children[0], 1));
    }
  }

  ghost predicate GaveUp(life: Life) {
    life.SupervisorLife? ==> Happened(life) && End(life).sup.exit == Some(Abnormal)
  }

  lemma FullSet(s: set<nat>, n: nat, t: nat)
    requires (forall i :: i in s ==> i < n) && |s| >= n && t < n
    ensures t in s
  {
    if t !in s {
      Conservation.BoundedSet(s + {t}, n);
    }
  }

  /** A supervisor over a single child that gives up has seen more of its tasks fail than its
      limit allows. */
  lemma ManyTasksFailed(life: Life)
    requires Happened(life) && Free(life) && End(life).sup.exit == Some(Abnormal) && |life.spec.children| == 1
    ensures var spawned, failed := End(life).sup.spawned, FailedTasks(life.steps);
      && |failed| > life.spec.restartIntensity.maxRestarts
      && (forall t :: t in failed ==> t < |spawned|)
      && (forall t :: 0 <= t < |spawned| ==> spawned[t] == life.spec.children[0])
  {
    hide After, Legal, Opening, NoStarts, FailedTasks, QueuedFailures;
    Rate.EscalationExceeds(life.spec, life.start, life.steps);
    RunKeepsStatic(life.spec, life.start, life.steps);
    RunKeepsReported(life.spec, life.start, life.steps);
  }

  /** Within one window it has started it exactly once more than its limit, and every one of
      those tasks has failed. */
  lemma AllTasksFailed(life: Life)
    requires Happened(life) && Confined(life, 1) && End(life).sup.exit == Some(Abnormal) && |life.spec.children| == 1
    ensures var n, spawned := life.spec.restartIntensity.maxRestarts + 1, End(life).sup.spawned;
      && |spawned| == n
      && (forall t :: 0 <= t < n ==> spawned[t] == life.spec.children[0])
      && (forall t :: 0 <= t < n ==> t in FailedTasks(life.steps))
  {
    hide After, Legal, Opening, Conservation.Grants, NoStarts, FailedTasks;
    ManyTasksFailed(life);
    GrantsWithinLimit(life, 1);
    Conservation.GrantsConserved(life.spec, life.start, life.steps);
    RunKeepsStatic(life.spec, life.start, life.steps);
    var spawned, failed := End(life).sup.spawned, FailedTasks(life.steps);
    Conservation.BoundedSet(failed, |spawned|);
    forall t: nat | t < |spawned| ensures t in failed {
      FullSet(failed, |spawned|, t);
    }
  }

  /** A task that failed, and was a supervisor, gave up. */
  lemma FailedMeansGaveUp(life: Life, task: TaskId)
    requires life.SupervisorLife? && task < |life.tasks| && task in FailedTasks(life.steps)
    requires forall i :: 0 <= i < |life.steps| ==> ReportsExit(life.tasks, life.steps[i])
    ensures GaveUp(life.tasks[task])
  {
    hide Opening, After, Legal, FailedTasks, ServeAll, Init;
    var i := FailedReport(life.steps, task);
    assert ReportsExit(life.tasks, life.steps[i]);
    var child := life.tasks[task];
    if child.SupervisorLife? {
      WorldFollows(child.spec, child.start, child.steps);
      ExitReasons(child.spec, child.start, End(child).served);
    }
  }

  /** Every life of a chain that ends by giving up has started its worker exactly as often
      as the product of all the limits, each plus one, says: the budget is used up. */
  lemma {:induction false} ChainAttains(life: Life, spec: ChildSpec)
    requires IsChain(spec) && LifeOf(life, spec) && AllConfined(life, 1) && GaveUp(life)
    ensures WorkerStarts(life) == ChainProduct(spec) == Budget(spec, 1)
    decreases life, 0
  {
    hide Confined, End, FailedTasks, ReportsExit;
    ChainBudget(spec);
    if life.SupervisorLife? {
      AllTasksFailed(life);
      forall t: nat | t < |life.tasks| ensures GaveUp(life.tasks[t]) {
        FailedMeansGaveUp(life, t);
      }
      ChainLives(life.tasks, life.spec.children[0]);
      assert spec == Supervisor(life.spec);
    }
  }

  lemma {:induction false} ChainLives(lives: seq<Life>, spec: ChildSpec)
    requires IsChain(spec)
    requires forall t :: 0 <= t < |lives| ==> LifeOf(lives[t], spec) && AllConfined(lives[t], 1) && GaveUp(lives[t])
    ensures AllStarts(lives) == |lives| * ChainProduct(spec)
    decreases lives, 1
  {
    hide LifeOf, AllConfined, GaveUp, ChainProduct, IsChain;
    if lives != [] {
      var n := |lives| - 1;
      ChainLives(lives[..n], spec);
      ChainAttains(lives[n], spec);
      MulSucc(n, ChainProduct(spec));
    }
  }

  lemma MulSucc(n: nat, m: nat)
    ensures n * m + m == (n + 1) * m
  {
  }

  /** However long it lives, a chain that gives up has started its worker at least that often. */
  lemma {:induction false} ChainStartsAtLeast(life: Life, spec: ChildSpec)
    requires IsChain(spec) && LifeOf(life, spec) && AllFree(life) && GaveUp(life)
    ensures WorkerStarts(life) >= ChainProduct(spec)
    decreases life, 0
  {
    hide Free, End, FailedTasks, ReportsExit;
    if life.SupervisorLife? {
      var failed := FailedTasks(life.steps);
      ManyTasksFailed(life);
      forall t | t in failed ensures GaveUp(life.tasks[t]) {
        FailedMeansGaveUp(life, t);
      }
      FailedStartAtLeast(life.tasks, life.spec.children[0], failed);
      var product := ChainProduct(life.spec.children[0]);
      MulBound(life.spec.restartIntensity.maxRestarts + 1, |failed|, product);
      assert spec == Supervisor(life.spec);
    }
  }

  lemma {:induction false} FailedStartAtLeast(lives: seq<Life>, spec: ChildSpec, failed: set<TaskId>)
    requires IsChain(spec) && forall t :: t in failed ==> t < |lives|
    requires forall t :: 0 <= t < |lives| ==> LifeOf(lives[t], spec) && AllFree(lives[t])
    requires forall t :: t in failed ==> GaveUp(lives[t])
    ensures AllStarts(lives) >= |failed| * ChainProduct(spec)
    decreases lives, 1
  {
    hide LifeOf, AllFree, GaveUp, ChainProduct, IsChain;
    if lives == [] {
      assert failed == {};
    } else {
      var n := |lives| - 1;
      FailedStartAtLeast(lives[..n], spec, failed - {n});
      if n in failed {
        ChainStartsAtLeast(lives[n], spec);
        assert |failed| == |failed - {n}| + 1;
        MulSucc(|failed| - 1, ChainProduct(spec));
      } else {
        assert failed - {n} == failed;
      }
    }
  }
}
