/** What each command does to a supervisor, as functions on values. The runtime class is
    proved against these functions; the theorems are proved about them. */
module Supervision {
  import opened Types
  import opened Restart
  import opened Spec
  import opened SupervisorCommon

  /** Identity of a spawned task. Tasks are numbered in spawn order. */
  type TaskId = nat

  /** A listed child: what it is, and the task that currently runs it. */
  datatype Child = Child(spec: ChildSpec, task: TaskId) {
    function Id(): ChildId {
      spec.Id()
    }

    /** Whether a child stopped by a restart round is gone for good. */
    predicate LeavesSupervision() {
      spec.RestartPolicy() == Some(Temporary)
    }
  }

  /** What a supervisor does to tasks: start one, stop a worker and wait for its end, ask a
      nested supervisor to shut down without waiting, or drop a worker's handle (abort). */
  datatype Effect =
    | Spawn(task: TaskId, spec: ChildSpec)
    | Stop(task: TaskId)
    | Signal(task: TaskId)
    | Drop(task: TaskId)

  /** A deferred restart: a message to itself that the supervisor set for `due` or later. */
  datatype Timer = Timer(id: ChildId, strategy: RestartStrategy, due: nat)

  /** History of the restart bookkeeping: a restart granted to a child, or a child's departure. */
  datatype Entry =
    | Granted(id: ChildId, recordedAt: Instant, at: Instant, delay: Duration)
    | Left(id: ChildId)

  /** How granted restarts were carried out so far. */
  datatype Rounds = Rounds(immediate: nat, applied: nat, skipped: nat)

  datatype Sup = Sup(
    spec: SupervisorSpec,
    createdAt: Instant,
    children: seq<Child>,
    recent: seq<Instant>,
    table: BackoffTable,
    exit: Option<ChildExitReason>,
    // History. No decision turns on it; the length of `spawned` numbers the next task:
    timers: seq<Timer>,
    spawned: seq<ChildSpec>,
    trace: seq<Effect>,
    worthy: seq<Instant>,
    journal: seq<Entry>,
    rounds: Rounds
  )

  // ---- Lists of children ----

  function Ids(children: seq<Child>): seq<ChildId> {
    seq(|children|, i requires 0 <= i < |children| => children[i].Id())
  }

  function Specs(children: seq<Child>): (specs: seq<ChildSpec>)
    ensures |specs| == |children|
  {
    seq(|children|, i requires 0 <= i < |children| => children[i].spec)
  }

  /** Index of the first child called `id`. */
  function Position(children: seq<Child>, id: ChildId): (p: Option<nat>)
    ensures p.Some? ==> p.value < |children| && children[p.value].Id() == id
    ensures p.Some? ==> forall i :: 0 <= i < p.value ==> children[i].Id() != id
    ensures p.None? ==> forall i :: 0 <= i < |children| ==> children[i].Id() != id
  {
    if children == [] then None
    else if children[0].Id() == id then Some(0)
    else
      match Position(children[1..], id)
      case None => None
      case Some(p) => Some(p + 1)
  }

  function Remove(children: seq<Child>, p: nat): seq<Child>
    requires p < |children|
  {
    children[..p] + children[p + 1..]
  }

  function Halt(c: Child): Effect {
    if c.spec.Worker? then Stop(c.task) else Signal(c.task)
  }

  function Halts(children: seq<Child>): seq<Effect> {
    seq(|children|, i requires 0 <= i < |children| => Halt(children[i]))
  }

  function Spawns(children: seq<Child>): seq<Effect> {
    seq(|children|, i requires 0 <= i < |children| => Spawn(children[i].task, children[i].spec))
  }

  /** What a restart round makes of one child: a replacement run by `next`, or a departure. */
  function Kept(c: Child, next: TaskId): seq<Child> {
    if c.LeavesSupervision() then [] else [Child(c.spec, next)]
  }

  function Gone(c: Child): seq<Entry> {
    if c.LeavesSupervision() then [Left(c.Id())] else []
  }

  /** The children that a restart round keeps, in order, each run by a fresh task. */
  function Renewed(children: seq<Child>, next: TaskId): (kept: seq<Child>)
    ensures |kept| <= |children|
  {
    if children == [] then []
    else
      var kept := Renewed(children[..|children| - 1], next);
      kept + Kept(children[|children| - 1], next + |kept|)
  }

  /** The children that a restart round lets go, in order. */
  function Departures(children: seq<Child>): seq<Entry> {
    if children == [] then []
    else Departures(children[..|children| - 1]) + Gone(children[|children| - 1])
  }

  function DepartedIds(children: seq<Child>): set<ChildId> {
    set c | c in children && c.LeavesSupervision() :: c.Id()
  }

  /** Stop one child and start its replacement, if it has one. */
  function RollOne(c: Child, next: TaskId): seq<Effect> {
    [Halt(c)] + Spawns(Kept(c, next))
  }

  /** Stop and respawn one child after the other. */
  function Rolling(children: seq<Child>, next: TaskId): seq<Effect> {
    if children == [] then []
    else
      var front := children[..|children| - 1];
      Rolling(front, next) + RollOne(children[|children| - 1], next + |Renewed(front, next)|)
  }

  lemma SpecsAppend(a: seq<Child>, b: seq<Child>)
    ensures Specs(a + b) == Specs(a) + Specs(b)
  {
  }

  /** One more child in a round: replaced or gone, after all that was done for the others. */
  lemma RoundAppend(front: seq<Child>, last: Child, next: TaskId)
    ensures var n := next + |Renewed(front, next)|;
      && Renewed(front + [last], next) == Renewed(front, next) + Kept(last, n)
      && Rolling(front + [last], next) == Rolling(front, next) + RollOne(last, n)
      && Departures(front + [last]) == Departures(front) + Gone(last)
  {
    hide *;
    var all := front + [last];
    assert all[..|all| - 1] == front && all[|all| - 1] == last;
    RoundUnfold(all, next);
  }

  lemma RoundUnfold(all: seq<Child>, next: TaskId)
    requires all != []
    ensures var front, last := all[..|all| - 1], all[|all| - 1];
      var n := next + |Renewed(front, next)|;
      && Renewed(all, next) == Renewed(front, next) + Kept(last, n)
      && Rolling(all, next) == Rolling(front, next) + RollOne(last, n)
      && Departures(all) == Departures(front) + Gone(last)
  {
    hide Kept, RollOne, Gone;
  }

  // ---- Starting a supervisor ----

  function Init(spec: SupervisorSpec, now: Instant): Sup {
    var n := |spec.children|;
    var children := seq(n, i requires 0 <= i < n => Child(spec.children[i], i));
    Sup(spec, now, children, [], map[], None, [], spec.children, Spawns(children), [], [], Rounds(0, 0, 0))
  }

  // ---- Commands ----

  datatype SupervisorError =
    | ShuttingDown(name: ChildId)
    | ChildAlreadyExists(id: ChildId)
    | ChildNotFound(id: ChildId)
    | InitializationFailed(id: ChildId, reason: string)
    | InitializationTimeout(id: ChildId, timeout: Duration)

  datatype ChildInfo = ChildInfo(id: ChildId, childType: ChildType, restartPolicy: Option<RestartPolicy>)

  /** Number of the client request that waits for the answer. */
  type RequestId = nat

  datatype Command =
    | StartChild(worker: WorkerSpec, request: RequestId)
    | StartChildLinked(worker: WorkerSpec, timeout: Duration, request: RequestId)
    | TerminateChild(id: ChildId, request: RequestId)
    | WhichChildren(request: RequestId)
    | GetRestartStrategy(request: RequestId)
    | GetUptime(request: RequestId)
    | ChildTerminated(id: ChildId, reason: ChildExitReason)
    | RestartChild(id: ChildId, strategy: RestartStrategy)
    | ShutdownCommand
  {
    /** Whether a client waits for an answer. */
    predicate IsRequest() {
      !ChildTerminated? && !RestartChild? && !ShutdownCommand?
    }
  }

  datatype Reply =
    | Started(result: Result<ChildId, SupervisorError>)
    | Terminated(outcome: Result<(), SupervisorError>)
    | Listing(children: seq<ChildInfo>)
    | Strategy(strategy: RestartStrategy)
    | Uptime(seconds: nat)
    | Refused(error: SupervisorError)

  /** What a linked start observes of the new worker's `initialize`. */
  datatype InitOutcome = Ready | Failed(reason: string) | ChannelClosed | Elapsed

  /** What a command observes while it is served: two clock readings, in order, and the
      outcome of a linked initialization. */
  datatype Env = Env(now: Instant, later: Instant, init: InitOutcome)

  function Launch(s: Sup, w: WorkerSpec): Sup {
    s.(spawned := s.spawned + [Worker(w)], trace := s.trace + [Spawn(|s.spawned|, Worker(w))])
  }

  function Start(s: Sup, w: WorkerSpec): Sup {
    Launch(s, w).(children := s.children + [Child(Worker(w), |s.spawned|)])
  }

  function HandleStartChild(s: Sup, w: WorkerSpec): (Sup, Result<ChildId, SupervisorError>) {
    if Position(s.children, w.id).Some? then (s, Err(ChildAlreadyExists(w.id)))
    else (Start(s, w), Ok(w.id))
  }

  function HandleStartChildLinked(s: Sup, w: WorkerSpec, timeout: Duration, init: InitOutcome)
    : (Sup, Result<ChildId, SupervisorError>)
  {
    if Position(s.children, w.id).Some? then (s, Err(ChildAlreadyExists(w.id)))
    else if init.Ready? then (Start(s, w), Ok(w.id))
    else
      var s1 := Launch(s, w);
      (s1.(trace := s1.trace + [Effect.Drop(|s.spawned|)]),
       match init
       case Failed(reason) => Err(InitializationFailed(w.id, reason))
       case ChannelClosed => Err(InitializationFailed(w.id, "worker panicked during initialization"))
       case _ => Err(InitializationTimeout(w.id, timeout)))
  }

  function HandleTerminateChild(s: Sup, id: ChildId): (Sup, Result<(), SupervisorError>) {
    match Position(s.children, id)
    case None => (s, Err(ChildNotFound(id)))
    case Some(p) =>
      (s.(children := Remove(s.children, p), trace := s.trace + [Halt(s.children[p])],
          table := s.table - {id}, journal := s.journal + [Left(id)]),
       Ok(()))
  }

  function HandleWhichChildren(s: Sup): seq<ChildInfo> {
    seq(|s.children|, i requires 0 <= i < |s.children| =>
      var spec := s.children[i].spec; ChildInfo(spec.Id(), spec.ChildType(), spec.RestartPolicy()))
  }

  function ShutdownChildren(s: Sup): Sup {
    s.(children := [], trace := s.trace + Halts(s.children))
  }

  function RestartOne(s: Sup, p: nat): Sup
    requires p < |s.children|
  {
    var c := s.children[p];
    var next := |s.spawned|;
    s.(children := s.children[p := Child(c.spec, next)], spawned := s.spawned + [c.spec],
       trace := s.trace + [Halt(c), Spawn(next, c.spec)])
  }

  /** The list, tables and spawned tasks after the children from `p` on were renewed. */
  function Renew(s: Sup, p: nat): Sup
    requires p <= |s.children|
  {
    var affected := s.children[p..];
    var kept := Renewed(affected, |s.spawned|);
    s.(children := s.children[..p] + kept, spawned := s.spawned + Specs(kept),
       table := s.table - DepartedIds(affected), journal := s.journal + Departures(affected))
  }

  function RestartFrom(s: Sup, p: nat): Sup
    requires p <= |s.children|
  {
    Renew(s, p).(trace := s.trace + Rolling(s.children[p..], |s.spawned|))
  }

  function RestartAll(s: Sup): Sup {
    var kept := Renewed(s.children, |s.spawned|);
    Renew(s, 0).(trace := s.trace + Halts(s.children) + Spawns(kept))
  }

  function ApplyRestart(s: Sup, p: nat, strategy: RestartStrategy): Sup
    requires p < |s.children|
  {
    match strategy
    case OneForOne => RestartOne(s, p)
    case OneForAll => RestartAll(s)
    case RestForOne => RestartFrom(s, p)
  }

  /** A restart round touches neither the intensity window nor the timers. */
  lemma RoundFrame(s: Sup, p: nat, strategy: RestartStrategy)
    requires p < |s.children|
    ensures var r := ApplyRestart(s, p, strategy);
      && r.spec == s.spec && r.createdAt == s.createdAt && r.recent == s.recent && r.timers == s.timers
      && r.exit == s.exit && r.worthy == s.worthy && r.rounds == s.rounds
  {
  }

  function DeferRestart(s: Sup, id: ChildId, at: Instant, delay: Duration, strategy: RestartStrategy): Sup {
    s.(timers := s.timers + [Timer(id, strategy, at + delay)])
  }

  function JudgeAt(s: Sup, p: nat, reason: ChildExitReason, env: Env): Verdict
    requires p < |s.children|
  {
    Judge(s.children[p].spec.RestartPolicyForDecision(), reason, s.spec.restartStrategy,
          s.spec.restartIntensity, s.spec.restartBackoff, s.recent, s.table, s.children[p].Id(),
          env.now, env.later)
  }

  /** Carries the verdict on the child at `p` into the supervisor's state. */
  function Carry(s: Sup, p: nat, v: Verdict, env: Env): Sup
    requires p < |s.children|
  {
    var id := s.children[p].Id();
    var s1 := s.(recent := v.recent, table := v.table);
    match v.decision
    case Ignore => s1
    case Drop =>
      s1.(children := Remove(s.children, p), trace := s.trace + [Effect.Drop(s.children[p].task)],
          journal := s.journal + [Left(id)])
    case Escalate => ShutdownChildren(s1.(worthy := s.worthy + [env.now])).(exit := Some(Abnormal))
    case Restart(delay, strategy) =>
      var s2 := s1.(worthy := s.worthy + [env.now],
                    journal := s.journal + [Granted(id, env.now, env.later, delay)]);
      if delay == 0
      then ApplyRestart(s2.(rounds := s.rounds.(immediate := s.rounds.immediate + 1)), p, strategy)
      else DeferRestart(s2, id, env.later, delay, strategy)
  }

  function HandleChildTerminated(s: Sup, id: ChildId, reason: ChildExitReason, env: Env): Sup {
    match Position(s.children, id)
    case None => s
    case Some(p) => Carry(s, p, JudgeAt(s, p, reason, env), env)
  }

  function HandleRestartChild(s: Sup, id: ChildId, strategy: RestartStrategy): Sup {
    match Position(s.children, id)
    case None => s.(rounds := s.rounds.(skipped := s.rounds.skipped + 1))
    case Some(p) => ApplyRestart(s.(rounds := s.rounds.(applied := s.rounds.applied + 1)), p, strategy)
  }

  /** The supervisor after serving one command. */
  function Serve(s: Sup, command: Command, env: Env): Sup {
    match command
    case StartChild(w, _) => HandleStartChild(s, w).0
    case StartChildLinked(w, timeout, _) => HandleStartChildLinked(s, w, timeout, env.init).0
    case TerminateChild(id, _) => HandleTerminateChild(s, id).0
    case WhichChildren(_) => s
    case GetRestartStrategy(_) => s
    case GetUptime(_) => s
    case ChildTerminated(id, reason) => HandleChildTerminated(s, id, reason, env)
    case RestartChild(id, strategy) => HandleRestartChild(s, id, strategy)
    case ShutdownCommand => ShutdownChildren(s).(exit := Some(Shutdown))
  }

  /** The answer to the client that sent `command`, if it was a request. */
  function Answer(s: Sup, command: Command, env: Env): Option<Reply> {
    match command
    case StartChild(w, _) => Some(Started(HandleStartChild(s, w).1))
    case StartChildLinked(w, timeout, _) => Some(Started(HandleStartChildLinked(s, w, timeout, env.init).1))
    case TerminateChild(id, _) => Some(Terminated(HandleTerminateChild(s, id).1))
    case WhichChildren(_) => Some(Listing(HandleWhichChildren(s)))
    case GetRestartStrategy(_) => Some(Strategy(s.spec.restartStrategy))
    case GetUptime(_) => Some(Uptime(SaturatingSince(env.now, s.createdAt) / NANOS_PER_SEC))
    case ChildTerminated(_, _) => None
    case RestartChild(_, _) => None
    case ShutdownCommand => None
  }

  /** A command taken from the queue, with what was observed while it was served. */
  datatype Delivery = Delivery(command: Command, env: Env)

  /** The command loop: commands are served in order until one makes the supervisor stop. */
  function ServeAll(s: Sup, deliveries: seq<Delivery>): Sup {
    if deliveries == [] then s
    else
      var before := ServeAll(s, deliveries[..|deliveries| - 1]);
      var last := deliveries[|deliveries| - 1];
      if before.exit.Some? then before else Serve(before, last.command, last.env)
  }
}
