/** What a child was registered with, it keeps: every generation runs the same factory (and,
    in the stateful runtime, the same context) under the same policy. And since no command
    looks inside a factory, erasing all contexts changes nothing else. */
module Contexts {
  import opened Types
  import opened Restart
  import opened Spec
  import opened SupervisorCommon
  import opened Supervision
  import opened Identity

  // ---- Every generation as registered ----

  /** The specification with which each id was last registered: by the supervisor's own
      specification, or by the last start command that succeeded. */
  function Registry(spec: SupervisorSpec, start: Instant, deliveries: seq<Delivery>): map<ChildId, ChildSpec> {
    if deliveries == [] then Original(spec.children)
    else
      var front, last := deliveries[..|deliveries| - 1], deliveries[|deliveries| - 1];
      var before := ServeAll(Init(spec, start), front);
      Registered(Registry(spec, start, front), before, last)
  }

  function Original(specs: seq<ChildSpec>): map<ChildId, ChildSpec> {
    if specs == [] then map[]
    else Original(specs[..|specs| - 1])[specs[|specs| - 1].Id() := specs[|specs| - 1]]
  }

  function StartedWorker(command: Command): Option<WorkerSpec> {
    match command
    case StartChild(w, _) => Some(w)
    case StartChildLinked(w, _, _) => Some(w)
    case _ => None
  }

  function Registered(registry: map<ChildId, ChildSpec>, s: Sup, d: Delivery): map<ChildId, ChildSpec> {
    var w := StartedWorker(d.command);
    if s.exit == None && w.Some? && Answer(s, d.command, d.env) == Some(Started(Ok(w.value.id)))
    then registry[w.value.id := Worker(w.value)] else registry
  }

  ghost predicate AsRegistered(children: seq<Child>, registry: map<ChildId, ChildSpec>) {
    forall i :: 0 <= i < |children| ==> children[i].Id() in registry && registry[children[i].Id()] == children[i].spec
  }

  /** The tasks from number `from` on run what is registered under their ids. */
  ghost predicate SpawnsRegistered(spawned: seq<ChildSpec>, from: nat, registry: map<ChildId, ChildSpec>) {
    forall t :: from <= t < |spawned| ==> spawned[t].Id() in registry && registry[spawned[t].Id()] == spawned[t]
  }

  lemma {:induction false} OriginalCovers(specs: seq<ChildSpec>)
    requires forall i, j :: 0 <= i < j < |specs| ==> specs[i].Id() != specs[j].Id()
    ensures forall i :: 0 <= i < |specs| ==> specs[i].Id() in Original(specs) && Original(specs)[specs[i].Id()] == specs[i]
  {
    if specs != [] {
      OriginalCovers(specs[..|specs| - 1]);
      assert forall i :: 0 <= i < |specs| - 1 ==> specs[..|specs| - 1][i] == specs[i];
    }
  }

  lemma {:induction false} RenewalKeepsSpecs(children: seq<Child>, next: TaskId, registry: map<ChildId, ChildSpec>)
    requires AsRegistered(children, registry)
    ensures AsRegistered(Renewed(children, next), registry)
  {
    if children != [] {
      RenewalKeepsSpecs(children[..|children| - 1], next, registry);
    }
  }

  /** What a command that starts nothing leaves behind. */
  ghost predicate Faithful(s: Sup, s': Sup, registry: map<ChildId, ChildSpec>) {
    && AsRegistered(s'.children, registry)
    && s.spawned <= s'.spawned && SpawnsRegistered(s'.spawned, |s.spawned|, registry)
  }

  lemma RoundFaithful(s: Sup, p: nat, strategy: RestartStrategy, registry: map<ChildId, ChildSpec>)
    requires p < |s.children| && AsRegistered(s.children, registry)
    ensures Faithful(s, ApplyRestart(s, p, strategy), registry)
  {
    hide Renewed, Rolling, Departures, DepartedIds, Halts, Spawns;
    RenewalKeepsSpecs(s.children[p..], |s.spawned|, registry);
    RenewalKeepsSpecs(s.children, |s.spawned|, registry);
    assert s.children[0..] == s.children;
  }

  lemma CarryFaithful(s: Sup, p: nat, v: Verdict, env: Env, registry: map<ChildId, ChildSpec>)
    requires p < |s.children| && AsRegistered(s.children, registry)
    ensures Faithful(s, Carry(s, p, v, env), registry)
  {
    hide ApplyRestart;
    match v.decision {
      case Restart(delay, strategy) =>
        RoundFaithful(s.(recent := v.recent, table := v.table, worthy := s.worthy + [env.now],
                         journal := s.journal + [Granted(s.children[p].Id(), env.now, env.later, delay)],
                         rounds := s.rounds.(immediate := s.rounds.immediate + 1)), p, strategy, registry);
      case _ =>
    }
  }

  lemma CommandFaithful(s: Sup, d: Delivery, registry: map<ChildId, ChildSpec>)
    requires s.exit == None && UniqueIds(s.children) && AsRegistered(s.children, registry)
    ensures var s' := Serve(s, d.command, d.env);
      && AsRegistered(s'.children, Registered(registry, s, d))
      && (StartedWorker(d.command) == None ==> Faithful(s, s', registry))
      && (StartedWorker(d.command).Some? ==>
            s'.spawned == s.spawned || s'.spawned == s.spawned + [Worker(StartedWorker(d.command).value)])
  {
    hide Carry, ApplyRestart, UniqueIds, Position;
    match d.command {
      case ChildTerminated(id, reason) =>
        var found := Position(s.children, id);
        if found.Some? {
          CarryFaithful(s, found.value, JudgeAt(s, found.value, reason, d.env), d.env, registry);
        }
      case RestartChild(id, strategy) =>
        var found := Position(s.children, id);
        if found.Some? {
          RoundFaithful(s.(rounds := s.rounds.(applied := s.rounds.applied + 1)), found.value, strategy, registry);
        }
      case _ =>
    }
  }

  ghost predicate Inv(s: Sup, registry: map<ChildId, ChildSpec>) {
    UniqueIds(s.children) && AsRegistered(s.children, registry)
  }

  lemma {:induction false} RunKeepsInv(spec: SupervisorSpec, start: Instant, deliveries: seq<Delivery>)
    requires UniqueSpecIds(spec)
    ensures Inv(ServeAll(Init(spec, start), deliveries), Registry(spec, start, deliveries))
  {
    IdsStayUnique(spec, start, deliveries);
    if deliveries == [] {
      OriginalCovers(spec.children);
    } else {
      hide Serve, Answer, Init, UniqueIds, StartedWorker;
      var front, last := deliveries[..|deliveries| - 1], deliveries[|deliveries| - 1];
      RunKeepsInv(spec, start, front);
      if ServeAll(Init(spec, start), front).exit == None {
        CommandFaithful(ServeAll(Init(spec, start), front), last, Registry(spec, start, front));
      }
    }
  }

  /** In every run, every listed child is what its id was last registered as, and every task
      started by a restart runs exactly that: same factory, same context, same policy. */
  lemma EveryGenerationAsRegistered(spec: SupervisorSpec, start: Instant, deliveries: seq<Delivery>, d: Delivery)
    requires UniqueSpecIds(spec) && ServeAll(Init(spec, start), deliveries).exit == None
    ensures var s, registry := ServeAll(Init(spec, start), deliveries), Registry(spec, start, deliveries);
      var s' := Serve(s, d.command, d.env);
      && AsRegistered(s.children, registry)
      && s.spawned <= s'.spawned
      && (StartedWorker(d.command) == None ==> SpawnsRegistered(s'.spawned, |s.spawned|, registry))
      && (StartedWorker(d.command).Some? ==>
            forall t :: |s.spawned| <= t < |s'.spawned| ==> s'.spawned[t] == Worker(StartedWorker(d.command).value))
  {
    hide Serve, Answer, Init, ServeAll, Registry, UniqueIds, StartedWorker;
    RunKeepsInv(spec, start, deliveries);
    CommandFaithful(ServeAll(Init(spec, start), deliveries), d, Registry(spec, start, deliveries));
  }

  // ---- Erasing contexts ----

  function EraseWorker(w: WorkerSpec): WorkerSpec {
    w.(factory := Plain(w.factory.code))
  }

  function EraseSpec(spec: ChildSpec): (erased: ChildSpec)
    ensures erased.Id() == spec.Id() && erased.ChildType() == spec.ChildType()
    ensures erased.RestartPolicy() == spec.RestartPolicy()
    ensures erased.RestartPolicyForDecision() == spec.RestartPolicyForDecision()
    ensures erased.Worker? == spec.Worker?
  {
    match spec
    case Worker(w) => Worker(EraseWorker(w))
    case Supervisor(s) => Supervisor(EraseSupervisor(s))
  }

  function EraseSupervisor(s: SupervisorSpec): (erased: SupervisorSpec)
    ensures erased.name == s.name
  {
    s.(children := seq(|s.children|, i requires 0 <= i < |s.children| => EraseSpec(s.children[i])))
  }

  function EraseSpecs(specs: seq<ChildSpec>): seq<ChildSpec> {
    seq(|specs|, i requires 0 <= i < |specs| => EraseSpec(specs[i]))
  }

  function EraseChild(c: Child): (erased: Child)
    ensures erased.Id() == c.Id() && erased.LeavesSupervision() == c.LeavesSupervision() && erased.task == c.task
    ensures Halt(erased) == Halt(c)
  {
    Child(EraseSpec(c.spec), c.task)
  }

  function EraseChildren(children: seq<Child>): (erased: seq<Child>)
    ensures |erased| == |children|
  {
    seq(|children|, i requires 0 <= i < |children| => EraseChild(children[i]))
  }

  function EraseEffect(e: Effect): Effect {
    match e
    case Spawn(task, spec) => Spawn(task, EraseSpec(spec))
    case _ => e
  }

  function EraseTrace(trace: seq<Effect>): seq<Effect> {
    seq(|trace|, i requires 0 <= i < |trace| => EraseEffect(trace[i]))
  }

  function Erase(s: Sup): Sup {
    s.(spec := EraseSupervisor(s.spec), children := EraseChildren(s.children),
       spawned := EraseSpecs(s.spawned), trace := EraseTrace(s.trace))
  }

  function EraseCommand(command: Command): Command {
    match command
    case StartChild(w, r) => StartChild(EraseWorker(w), r)
    case StartChildLinked(w, timeout, r) => StartChildLinked(EraseWorker(w), timeout, r)
    case _ => command
  }

  lemma TraceAppend(a: seq<Effect>, b: seq<Effect>)
    ensures EraseTrace(a + b) == EraseTrace(a) + EraseTrace(b)
  {
  }

  lemma {:induction false} PositionErased(children: seq<Child>, id: ChildId)
    ensures Position(EraseChildren(children), id) == Position(children, id)
  {
    if children != [] {
      assert EraseChildren(children)[1..] == EraseChildren(children[1..]);
      PositionErased(children[1..], id);
    }
  }

  lemma KeptErased(c: Child, next: TaskId)
    ensures Kept(EraseChild(c), next) == EraseChildren(Kept(c, next))
    ensures RollOne(EraseChild(c), next) == EraseTrace(RollOne(c, next))
    ensures Gone(EraseChild(c)) == Gone(c)
  {
  }

  lemma ChildrenAppend(a: seq<Child>, b: seq<Child>)
    ensures EraseChildren(a + b) == EraseChildren(a) + EraseChildren(b)
  {
  }

  lemma ChildrenFront(children: seq<Child>)
    requires children != []
    ensures var n := |children| - 1;
      EraseChildren(children)[..n] == EraseChildren(children[..n]) && EraseChildren(children)[n] == EraseChild(children[n])
  {
  }

  lemma {:induction false} RoundErased(children: seq<Child>, next: TaskId)
    ensures Renewed(EraseChildren(children), next) == EraseChildren(Renewed(children, next))
    ensures Departures(EraseChildren(children)) == Departures(children)
    ensures Rolling(EraseChildren(children), next) == EraseTrace(Rolling(children, next))
  {
    hide Kept, RollOne, Gone;
    if children != [] {
      hide EraseChildren, EraseTrace, Renewed, Rolling, Departures;
      var n := |children| - 1;
      var front, last := children[..n], children[n];
      ChildrenFront(children);
      RoundErased(front, next);
      RoundUnfold(children, next);
      RoundUnfold(EraseChildren(children), next);
      var m := next + |Renewed(front, next)|;
      KeptErased(last, m);
      ChildrenAppend(Renewed(front, next), Kept(last, m));
      TraceAppend(Rolling(front, next), RollOne(last, m));
    }
  }

  lemma ListErased(children: seq<Child>, p: nat)
    requires p <= |children|
    ensures EraseChildren(children)[..p] == EraseChildren(children[..p])
    ensures EraseChildren(children)[p..] == EraseChildren(children[p..])
    ensures Specs(EraseChildren(children)) == EraseSpecs(Specs(children))
    ensures Halts(EraseChildren(children)) == EraseTrace(Halts(children))
    ensures Spawns(EraseChildren(children)) == EraseTrace(Spawns(children))
  {
  }

  lemma DepartedErased(children: seq<Child>)
    ensures DepartedIds(EraseChildren(children)) == DepartedIds(children)
  {
    var erased := EraseChildren(children);
    forall c | c in children && c.LeavesSupervision() ensures c.Id() in DepartedIds(erased) {
      var i :| 0 <= i < |children| && children[i] == c;
      assert erased[i] == EraseChild(c);
    }
    forall e | e in erased && e.LeavesSupervision() ensures e.Id() in DepartedIds(children) {
      var i :| 0 <= i < |erased| && erased[i] == e;
      assert e == EraseChild(children[i]);
    }
  }

  lemma RemoveErased(children: seq<Child>, p: nat)
    requires p < |children|
    ensures Remove(EraseChildren(children), p) == EraseChildren(Remove(children, p))
  {
  }

  lemma SpecsErasedAppend(a: seq<ChildSpec>, b: seq<ChildSpec>)
    ensures EraseSpecs(a + b) == EraseSpecs(a) + EraseSpecs(b)
  {
  }

  lemma RenewErased(s: Sup, p: nat)
    requires p <= |s.children|
    ensures Renew(Erase(s), p) == Erase(Renew(s, p))
  {
    hide Renewed, Rolling, Departures, DepartedIds, EraseChildren, EraseSpecs, Specs;
    var affected := s.children[p..];
    var kept := Renewed(affected, |s.spawned|);
    ListErased(s.children, p);
    RoundErased(affected, |s.spawned|);
    DepartedErased(affected);
    ListErased(kept, 0);
    ChildrenAppend(s.children[..p], kept);
    SpecsErasedAppend(s.spawned, Specs(kept));
    LengthKept(s.spawned);
  }

  lemma LengthKept(specs: seq<ChildSpec>)
    ensures |EraseSpecs(specs)| == |specs|
  {
  }

  lemma RestartRoundErased(s: Sup, p: nat, strategy: RestartStrategy)
    requires p < |s.children|
    ensures ApplyRestart(Erase(s), p, strategy) == Erase(ApplyRestart(s, p, strategy))
  {
    match strategy {
      case OneForOne => OneErased(s, p);
      case OneForAll => AllErased(s);
      case RestForOne => FromErased(s, p);
    }
  }

  lemma OneErased(s: Sup, p: nat)
    requires p < |s.children|
    ensures RestartOne(Erase(s), p) == Erase(RestartOne(s, p))
  {
    var c, next := s.children[p], |s.spawned|;
    assert EraseChildren(s.children[p := Child(c.spec, next)])
        == EraseChildren(s.children)[p := Child(EraseSpec(c.spec), next)];
    SpecsErasedAppend(s.spawned, [c.spec]);
    TraceAppend(s.trace, [Halt(c), Spawn(next, c.spec)]);
  }

  lemma AllErased(s: Sup)
    ensures RestartAll(Erase(s)) == Erase(RestartAll(s))
  {
    hide Renew, Renewed, Rolling, Halts, Spawns, EraseChildren, EraseSpecs, EraseTrace;
    var kept := Renewed(s.children, |s.spawned|);
    RenewErased(s, 0);
    LengthKept(s.spawned);
    RoundErased(s.children, |s.spawned|);
    ListErased(s.children, 0);
    ListErased(kept, 0);
    TraceAppend(s.trace, Halts(s.children));
    TraceAppend(s.trace + Halts(s.children), Spawns(kept));
  }

  lemma FromErased(s: Sup, p: nat)
    requires p <= |s.children|
    ensures RestartFrom(Erase(s), p) == Erase(RestartFrom(s, p))
  {
    hide Renew, Renewed, Rolling, EraseChildren, EraseSpecs, EraseTrace;
    RenewErased(s, p);
    LengthKept(s.spawned);
    ListErased(s.children, p);
    RoundErased(s.children[p..], |s.spawned|);
    TraceAppend(s.trace, Rolling(s.children[p..], |s.spawned|));
  }

  lemma CarryErased(s: Sup, p: nat, v: Verdict, env: Env)
    requires p < |s.children|
    ensures Carry(Erase(s), p, v, env) == Erase(Carry(s, p, v, env))
  {
    hide ApplyRestart, EraseChildren, EraseTrace, EraseSpecs, EraseChild, Halts, Remove;
    ElementErased(s.children, p);
    match v.decision {
      case Ignore =>
      case Drop =>
        RemoveErased(s.children, p);
        DropErased(s.trace, s.children[p].task);
      case Escalate =>
        ListErased(s.children, 0);
        TraceAppend(s.trace, Halts(s.children));
        NoneErased();
      case Restart(delay, strategy) =>
        var id := s.children[p].Id();
        RestartRoundErased(s.(recent := v.recent, table := v.table, worthy := s.worthy + [env.now],
                              journal := s.journal + [Granted(id, env.now, env.later, delay)],
                              rounds := s.rounds.(immediate := s.rounds.immediate + 1)), p, strategy);
    }
  }

  lemma ElementErased(children: seq<Child>, p: nat)
    requires p < |children|
    ensures var e := EraseChildren(children)[p]; var c := children[p];
      e.Id() == c.Id() && e.task == c.task && Halt(e) == Halt(c)
      && e.spec.RestartPolicyForDecision() == c.spec.RestartPolicyForDecision()
  {
  }

  lemma NoneErased()
    ensures EraseChildren([]) == []
  {
  }

  lemma DropErased(trace: seq<Effect>, task: TaskId)
    ensures EraseTrace(trace + [Effect.Drop(task)]) == EraseTrace(trace) + [Effect.Drop(task)]
  {
    TraceAppend(trace, [Effect.Drop(task)]);
  }

  lemma StopErased(trace: seq<Effect>, c: Child)
    ensures EraseTrace(trace + [Halt(c)]) == EraseTrace(trace) + [Halt(c)]
  {
    TraceAppend(trace, [Halt(c)]);
  }

  lemma LaunchErased(s: Sup, w: WorkerSpec)
    ensures Launch(Erase(s), EraseWorker(w)) == Erase(Launch(s, w))
    ensures Start(Erase(s), EraseWorker(w)) == Erase(Start(s, w))
  {
    SpecsErasedAppend(s.spawned, [Worker(w)]);
    TraceAppend(s.trace, [Spawn(|s.spawned|, Worker(w))]);
    ChildrenAppend(s.children, [Child(Worker(w), |s.spawned|)]);
  }

  lemma ListingErased(s: Sup)
    ensures HandleWhichChildren(Erase(s)) == HandleWhichChildren(s)
  {
  }

  lemma StartsErased(s: Sup, w: WorkerSpec, timeout: Duration, init: InitOutcome)
    ensures var (t, r) := HandleStartChild(s, w); HandleStartChild(Erase(s), EraseWorker(w)) == (Erase(t), r)
    ensures var (t, r) := HandleStartChildLinked(s, w, timeout, init);
      HandleStartChildLinked(Erase(s), EraseWorker(w), timeout, init) == (Erase(t), r)
  {
    hide Launch, Start, EraseChildren, EraseTrace, EraseSpecs, Position;
    PositionErased(s.children, w.id);
    LaunchErased(s, w);
    LengthKept(s.spawned);
    DropErased(Launch(s, w).trace, |s.spawned|);
  }

  lemma TerminateErased(s: Sup, id: ChildId)
    ensures var (t, r) := HandleTerminateChild(s, id); HandleTerminateChild(Erase(s), id) == (Erase(t), r)
  {
    hide EraseChildren, EraseTrace, EraseSpecs, Position, EraseChild, Halt, Remove;
    PositionErased(s.children, id);
    var p := Position(s.children, id);
    if p.Some? {
      ElementErased(s.children, p.value);
      RemoveErased(s.children, p.value);
      StopErased(s.trace, s.children[p.value]);
    }
  }

  /** A command on the erased state gives the erased state, and the same answer. */
  lemma ErasureCommutes(s: Sup, command: Command, env: Env)
    ensures Serve(Erase(s), EraseCommand(command), env) == Erase(Serve(s, command, env))
    ensures Answer(Erase(s), EraseCommand(command), env) == Answer(s, command, env)
  {
    hide HandleStartChild, HandleStartChildLinked, HandleTerminateChild, HandleWhichChildren, Carry, ApplyRestart;
    hide EraseChildren, EraseTrace, EraseSpecs, Position, Halts, Judge;
    match command {
      case StartChild(w, _) => StartsErased(s, w, 0, env.init);
      case StartChildLinked(w, timeout, _) => StartsErased(s, w, timeout, env.init);
      case TerminateChild(id, _) => TerminateErased(s, id);
      case WhichChildren(_) => ListingErased(s);
      case ChildTerminated(id, reason) =>
        PositionErased(s.children, id);
        var p := Position(s.children, id);
        if p.Some? {
          ElementErased(s.children, p.value);
          CarryErased(s, p.value, JudgeAt(s, p.value, reason, env), env);
        }
      case RestartChild(id, strategy) =>
        PositionErased(s.children, id);
        var p := Position(s.children, id);
        if p.Some? {
          RestartRoundErased(s.(rounds := s.rounds.(applied := s.rounds.applied + 1)), p.value, strategy);
        }
      case ShutdownCommand =>
        ListErased(s.children, 0);
        TraceAppend(s.trace, Halts(s.children));
        NoneErased();
      case _ =>
    }
  }

  function EraseDeliveries(deliveries: seq<Delivery>): (erased: seq<Delivery>)
    ensures |erased| == |deliveries|
  {
    seq(|deliveries|, i requires 0 <= i < |deliveries| =>
      Delivery(EraseCommand(deliveries[i].command), deliveries[i].env))
  }

  lemma InitErased(spec: SupervisorSpec, start: Instant)
    ensures Init(EraseSupervisor(spec), start) == Erase(Init(spec, start))
  {
    var s, e := Init(spec, start), Init(EraseSupervisor(spec), start);
    assert e.children == EraseChildren(s.children);
    assert e.trace == EraseTrace(s.trace);
  }

  /** Whole runs commute with erasure: contexts decide nothing about supervision. */
  lemma {:induction false} RunsCommuteWithErasure(spec: SupervisorSpec, start: Instant, deliveries: seq<Delivery>)
    ensures ServeAll(Init(EraseSupervisor(spec), start), EraseDeliveries(deliveries))
         == Erase(ServeAll(Init(spec, start), deliveries))
  {
    if deliveries == [] {
      InitErased(spec, start);
    } else {
      hide Serve, Init, Erase, EraseCommand;
      var n := |deliveries| - 1;
      RunsCommuteWithErasure(spec, start, deliveries[..n]);
      var before := ServeAll(Init(spec, start), deliveries[..n]);
      assert EraseDeliveries(deliveries)[..n] == EraseDeliveries(deliveries[..n]);
      ErasureCommutes(before, deliveries[n].command, deliveries[n].env);
      ExitErased(before);
    }
  }

  lemma ExitErased(s: Sup)
    ensures Erase(s).exit == s.exit
  {
  }
}
