/** A temporary child is never restarted, unless its id is taken over while a deferred restart
    is pending. */
module Temporary {
  import opened Types
  import opened Restart
  import opened Spec
  import opened SupervisorCommon
  import opened Supervision
  import opened Identity
  import opened World
  import Feasibility
  import opened Resurrection

  /** A restart of `id` has been deferred and its message has not been served. */
  ghost predicate Pending(w: World, id: ChildId) {
    || (exists i: nat :: i < |w.sup.timers| && i !in w.fired && w.sup.timers[i].id == id)
    || (exists c :: c in w.queue && c.RestartChild? && c.id == id)
  }

  /** No listed child called `id` is temporary. */
  ghost predicate NoTemporary(children: seq<Child>, id: ChildId) {
    forall c :: c in children && c.Id() == id ==> !IsTemporary(c.spec)
  }

  ghost predicate PendingNotTemporary(w: World) {
    && UniqueIds(w.sup.children)
    && forall id :: Pending(w, id) ==> NoTemporary(w.sup.children, id)
  }

  /** No start command was served for an id whose deferred restart was pending. */
  ghost predicate NoReuseWhilePending(w: World, steps: seq<Step>)
    requires Legal(w, steps)
    decreases |steps|
  {
    steps == []
    || (var front, last := steps[..|steps| - 1], steps[|steps| - 1];
        var before := After(w, front);
        NoReuseWhilePending(w, front)
        && (last.Handle? && StartedId(before.queue[0]).Some? ==> !Pending(before, StartedId(before.queue[0]).value)))
  }

  lemma {:induction false} RenewedSpecsListed(children: seq<Child>, next: TaskId, c: Child)
    requires c in Renewed(children, next)
    ensures exists d :: d in children && d.spec == c.spec
  {
    var front, last := children[..|children| - 1], children[|children| - 1];
    if c in Renewed(front, next) {
      RenewedSpecsListed(front, next, c);
      var d :| d in front && d.spec == c.spec;
      assert d in children;
    } else {
      assert last in children && c.spec == last.spec;
    }
  }

  lemma RoundKeepsSpecs(s: Sup, p: nat, strategy: RestartStrategy, c: Child)
    requires p < |s.children| && c in ApplyRestart(s, p, strategy).children
    ensures exists d :: d in s.children && d.spec == c.spec
  {
    if strategy.OneForOne? {
      if c !in s.children {
        assert c.spec == s.children[p].spec;
      }
    } else {
      var q := if strategy.OneForAll? then 0 else p;
      if c in s.children[..q] {
        assert c in s.children;
      } else {
        RenewedSpecsListed(s.children[q..], |s.spawned|, c);
        var d :| d in s.children[q..] && d.spec == c.spec;
        assert d in s.children;
      }
    }
  }

  lemma CarryKeepsSpecs(s: Sup, p: nat, v: Verdict, env: Env, c: Child)
    requires p < |s.children| && c in Carry(s, p, v, env).children
    ensures exists d :: d in s.children && d.spec == c.spec
  {
    hide ApplyRestart;
    match v.decision {
      case Restart(delay, strategy) =>
        if delay == 0 {
          RoundKeepsSpecs(s.(recent := v.recent, table := v.table, worthy := s.worthy + [env.now],
                             journal := s.journal + [Granted(s.children[p].Id(), env.now, env.later, delay)],
                             rounds := s.rounds.(immediate := s.rounds.immediate + 1)), p, strategy, c);
        }
      case _ =>
    }
  }

  /** Every child listed after a command was listed before with the same specification, or is
      the one that the command started. */
  lemma CommandKeepsSpecs(s: Sup, command: Command, env: Env, c: Child)
    requires c in Serve(s, command, env).children
    ensures StartedId(command) == Some(c.Id()) || exists d :: d in s.children && d.spec == c.spec
  {
    hide ApplyRestart, Carry;
    match command {
      case ChildTerminated(id, reason) =>
        var found := Position(s.children, id);
        if found.Some? {
          CarryKeepsSpecs(s, found.value, JudgeAt(s, found.value, reason, env), env, c);
        }
      case RestartChild(id, strategy) =>
        var found := Position(s.children, id);
        if found.Some? {
          RoundKeepsSpecs(s.(rounds := s.rounds.(applied := s.rounds.applied + 1)), found.value, strategy, c);
        }
      case _ =>
    }
  }

  /** A new timer is for a child that is listed and not temporary. */
  lemma TimersForListed(s: Sup, command: Command, env: Env)
    requires UniqueIds(s.children)
    ensures var s' := Serve(s, command, env);
      && s.timers <= s'.timers
      && forall i :: |s.timers| <= i < |s'.timers| ==> NoTemporary(s.children, s'.timers[i].id)
  {
    hide ApplyRestart;
    TimersOf(s, command, env);
    if command.ChildTerminated? {
      var found := Position(s.children, command.id);
      if found.Some? {
        var p := found.value;
        var v := JudgeAt(s, p, command.reason, env);
        if v.decision.Restart? {
          forall c | c in s.children && c.Id() == command.id ensures c == s.children[p] {
            var i :| 0 <= i < |s.children| && s.children[i] == c;
            assert Ids(s.children)[i] == Ids(s.children)[p];
          }
        }
      }
    }
  }

  lemma TimersOf(s: Sup, command: Command, env: Env)
    ensures var s' := Serve(s, command, env);
      && s.timers <= s'.timers
      && (|s'.timers| > |s.timers| ==>
            && command.ChildTerminated? && Position(s.children, command.id).Some?
            && JudgeAt(s, Position(s.children, command.id).value, command.reason, env).decision.Restart?
            && |s'.timers| == |s.timers| + 1 && s'.timers[|s.timers|].id == command.id)
  {
    hide ApplyRestart, JudgeAt;
    if command.ChildTerminated? {
      var found := Position(s.children, command.id);
      if found.Some? {
        var v := JudgeAt(s, found.value, command.reason, env);
        if v.decision.Restart? {
          RoundFrame(s.(recent := v.recent, table := v.table, worthy := s.worthy + [env.now],
            journal := s.journal + [Granted(s.children[found.value].Id(), env.now, env.later, v.decision.delay)],
            rounds := s.rounds.(immediate := s.rounds.immediate + 1)), found.value, v.decision.strategy);
        }
      }
    } else if command.RestartChild? {
      var found := Position(s.children, command.id);
      if found.Some? {
        RoundFrame(s.(rounds := s.rounds.(applied := s.rounds.applied + 1)), found.value, command.strategy);
      }
    }
  }

  lemma HandleKeepsPending(w: World, step: Step)
    requires PendingNotTemporary(w) && Enabled(w, step) && step.Handle?
    requires StartedId(w.queue[0]).Some? ==> !Pending(w, StartedId(w.queue[0]).value)
    ensures PendingNotTemporary(Next(w, step))
    ensures StartedId(w.queue[0]) == None ==> !SpawnsTemporary(w.sup, Next(w, step).sup)
  {
    var w' := Next(w, step);
    var d := HeadDelivery(w, step.later, step.init);
    CommandKeepsIdsUnique(w.sup, d.command, d.env);
    TimersForListed(w.sup, d.command, d.env);
    if StartedId(d.command) == None {
      HandleSpawnsNoTemporary(w, d);
    }
    hide Serve, Answer, SpawnsTemporary, UniqueIds;
    forall id | Pending(w', id) ensures NoTemporary(w'.sup.children, id) {
      assert Pending(w, id) || NoTemporary(w.sup.children, id) by {
        if i: nat :| i < |w'.sup.timers| && i !in w'.fired && w'.sup.timers[i].id == id {
          if i < |w.sup.timers| {
            assert w.sup.timers[i] == w'.sup.timers[i];
          }
        } else {
          var c :| c in w'.queue && c.RestartChild? && c.id == id;
          assert c in w.queue;
        }
      }
      forall c | c in w'.sup.children && c.Id() == id ensures !IsTemporary(c.spec) {
        CommandKeepsSpecs(w.sup, d.command, d.env, c);
        if StartedId(d.command) == Some(id) {
          StartedPending(w, w', d, id, c);
        }
      }
    }
  }

  /** The command that starts `id` leaves no pending restart of `id`, if there was none. */
  lemma StartedPending(w: World, w': World, d: Delivery, id: ChildId, c: Child)
    requires StartedId(d.command) == Some(id) && w'.sup == Serve(w.sup, d.command, d.env)
    requires w'.fired == w.fired && (forall q :: q in w'.queue ==> q in w.queue)
    requires Pending(w', id)
    ensures Pending(w, id)
  {
    assert w'.sup.timers == w.sup.timers;
  }

  lemma HandleSpawnsNoTemporary(w: World, d: Delivery)
    requires PendingNotTemporary(w) && w.queue != [] && d.command == w.queue[0] && StartedId(d.command) == None
    ensures !SpawnsTemporary(w.sup, Serve(w.sup, d.command, d.env))
  {
    hide UniqueIds;
    match d.command {
      case ChildTerminated(id, reason) => ReportSpawnsNoTemporary(w.sup, id, reason, d.env);
      case RestartChild(id, strategy) =>
        DeferredSpawnsTemporaryIff(w.sup, id, strategy);
        assert w.queue[0] in w.queue && Pending(w, id);
        var found := Position(w.sup.children, id);
        if found.Some? {
          assert w.sup.children[found.value] in w.sup.children;
        }
      case _ =>
    }
  }

  lemma PostKeepsPending(w: World, step: Step)
    requires PendingNotTemporary(w) && Enabled(w, step) && !step.Handle?
    ensures PendingNotTemporary(Next(w, step))
  {
    hide UniqueIds, NoTemporary;
    var w' := Next(w, step);
    forall id | Pending(w', id) ensures Pending(w, id) {
      if i: nat :| i < |w'.sup.timers| && i !in w'.fired && w'.sup.timers[i].id == id {
        assert i !in w.fired;
      } else {
        var c :| c in w'.queue && c.RestartChild? && c.id == id;
        if c !in w.queue {
          assert w.sup.timers[step.timer].id == id;
        }
      }
    }
  }

  lemma {:induction false} RunKeepsPending(spec: SupervisorSpec, start: Instant, steps: seq<Step>)
    requires UniqueSpecIds(spec) && Legal(Opening(spec, start), steps)
    requires NoReuseWhilePending(Opening(spec, start), steps)
    ensures PendingNotTemporary(After(Opening(spec, start), steps))
    decreases |steps|
  {
    var w0 := Opening(spec, start);
    if steps == [] {
      IdsStayUnique(spec, start, []);
      assert ServeAll(Init(spec, start), []) == w0.sup;
    } else {
      hide PendingNotTemporary, Next, Enabled, Opening, Pending;
      var front, last := steps[..|steps| - 1], steps[|steps| - 1];
      RunKeepsPending(spec, start, front);
      if last.Handle? {
        HandleKeepsPending(After(w0, front), last);
      } else {
        PostKeepsPending(After(w0, front), last);
      }
    }
  }

  /** In every run that does not take over an id while its deferred restart is pending, the only
      commands that ever start a temporary child are the clients' start commands. */
  lemma NoTemporaryRespawned(spec: SupervisorSpec, start: Instant, steps: seq<Step>, step: Step)
    requires UniqueSpecIds(spec) && Legal(Opening(spec, start), steps)
    requires NoReuseWhilePending(Opening(spec, start), steps)
    requires step.Handle? && Enabled(After(Opening(spec, start), steps), step)
    requires StartedId(After(Opening(spec, start), steps).queue[0]) == None
    ensures var w := After(Opening(spec, start), steps); !SpawnsTemporary(w.sup, Next(w, step).sup)
  {
    hide Opening, Next, SpawnsTemporary;
    RunKeepsPending(spec, start, steps);
    HandleKeepsPending(After(Opening(spec, start), steps), step);
  }

  // The run that shows why the proviso is needed.
  const GONE := WorkerSpec("w", Plain(0), Permanent)
  const AGAIN := WorkerSpec("w", Plain(1), Temporary)
  const SOLE := SupervisorSpec("sup", [Worker(GONE)], OneForOne, RestartIntensity(1, 0), RestartBackoff(1, 1), 0)

  ghost predicate Waiting(w: World, children: seq<Child>, asked: nat) {
    && Running(w) && w.sup.children == children && w.sup.timers == [Timer("w", OneForOne, 1)]
    && w.queue == [] && w.fired == {} && w.now == 0 && w.asked == asked
  }

  lemma FailureDefers()
    ensures var w := Opening(SOLE, 0);
      && Enabled(w, Report(0, Abnormal)) && Enabled(Next(w, Report(0, Abnormal)), Handle(0, Ready))
      && Waiting(Next(Next(w, Report(0, Abnormal)), Handle(0, Ready)), [Child(Worker(GONE), 0)], 0)
  {
    hide Serve, Answer, Init;
    ServingDefers();
  }

  lemma ServingDefers()
    ensures Init(SOLE, 0).exit == None && Init(SOLE, 0).spawned == [Worker(GONE)]
    ensures var s' := Serve(Init(SOLE, 0), ChildTerminated("w", Abnormal), Env(0, 0, Ready));
      s'.exit == None && s'.children == [Child(Worker(GONE), 0)] && s'.timers == [Timer("w", OneForOne, 1)]
  {
    hide Serve;
    assert Init(SOLE, 0).children == [Child(Worker(GONE), 0)];
    LoneFailureDefers(Init(SOLE, 0), GONE);
  }

  lemma LoneFailureDefers(s: Sup, w: WorkerSpec)
    requires s.exit == None && s.children == [Child(Worker(w), 0)] && w.restartPolicy == Permanent
    requires s.recent == [] && s.table == map[] && s.timers == []
    requires s.spec.restartStrategy == OneForOne && s.spec.restartIntensity.maxRestarts == 1
    requires s.spec.restartBackoff == RestartBackoff(1, 1)
    ensures var s' := Serve(s, ChildTerminated(w.id, Abnormal), Env(0, 0, Ready));
      s'.exit == None && s'.children == s.children && s'.timers == [Timer(w.id, OneForOne, 1)]
  {
    assert RestartBackoff(1, 1).DelayForAttempt(0) == 1;
    assert s.children[0].Id() == w.id && Position(s.children, w.id) == Some(0);
    assert Since([], s.spec.restartIntensity.Cutoff(0)) == [];
  }

  lemma TerminateRemoves(w: World)
    requires Waiting(w, [Child(Worker(GONE), 0)], 0)
    ensures var step := Ask(TerminateChild("w", 0));
      Enabled(w, step) && Enabled(Next(w, step), Handle(0, Ready)) && Waiting(Next(Next(w, step), Handle(0, Ready)), [], 1)
  {
  }

  lemma StartReplaces(w: World)
    requires Waiting(w, [], 1)
    ensures var step := Ask(StartChild(AGAIN, 1)); var w' := Next(Next(w, step), Handle(0, Ready));
      && Enabled(w, step) && Enabled(Next(w, step), Handle(0, Ready))
      && Waiting(w', [Child(Worker(AGAIN), |w.sup.spawned|)], 2)
  {
  }

  lemma TimerRestarts(w: World, task: TaskId)
    requires Waiting(w, [Child(Worker(AGAIN), task)], 2)
    ensures var w8 := Next(Next(w, Tick(1)), Fire(0)); var step := Handle(1, Ready);
      && Enabled(w, Tick(1)) && Enabled(Next(w, Tick(1)), Fire(0)) && Enabled(w8, step)
      && w8.queue != [] && StartedId(w8.queue[0]) == None && SpawnsTemporary(w8.sup, Next(w8, step).sup)
  {
    hide ApplyRestart;
    DeferredSpawnsTemporaryIff(w.sup, "w", OneForOne);
    assert Position(w.sup.children, "w") == Some(0);
  }

  /** A run of the supervisor with its tasks whose last step is a command other than a start, and
      starts a temporary child. */
  ghost predicate RestartsTemporary(spec: SupervisorSpec, steps: seq<Step>, step: Step) {
    && UniqueSpecIds(spec) && Legal(Opening(spec, 0), steps)
    && Legal(Opening(spec, 0), steps + [step]) && Feasibility.Happens(spec, 0, steps + [step])
    && var w := After(Opening(spec, 0), steps);
       && step.Handle? && Enabled(w, step) && w.queue != [] && StartedId(w.queue[0]) == None
       && SpawnsTemporary(w.sup, Next(w, step).sup)
  }

  /** Without that proviso the claim is false: a worker fails and its restart is deferred; it is
      terminated, a temporary worker is started under the same id, and the old timer restarts it. */
  lemma TemporaryCanBeRespawned()
    ensures exists spec, steps, step :: RestartsTemporary(spec, steps, step)
  {
    hide Legal, After, Next, Enabled, Opening, Waiting, SpawnsTemporary, Feasibility.Likely, Feasibility.AllLikely;
    hide Feasibility.Happens;
    var w0 := Opening(SOLE, 0);
    Feasibility.NoSteps(SOLE, 0);
    FailureDefers();
    FailureLikely();
    var steps := Feasibility.ExtendLikely(SOLE, 0, [], Report(0, Abnormal));
    steps := Feasibility.ExtendQuietly(SOLE, 0, steps, Handle(0, Ready));
    TerminateRemoves(After(w0, steps));
    steps := Feasibility.ExtendQuietly(SOLE, 0, steps, Ask(TerminateChild("w", 0)));
    steps := Feasibility.ExtendQuietly(SOLE, 0, steps, Handle(0, Ready));
    var task := |After(w0, steps).sup.spawned|;
    StartReplaces(After(w0, steps));
    steps := Feasibility.ExtendQuietly(SOLE, 0, steps, Ask(StartChild(AGAIN, 1)));
    steps := Feasibility.ExtendQuietly(SOLE, 0, steps, Handle(0, Ready));
    TimerRestarts(After(w0, steps), task);
    steps := Feasibility.ExtendQuietly(SOLE, 0, steps, Tick(1));
    steps := Feasibility.ExtendQuietly(SOLE, 0, steps, Fire(0));
    var last := Handle(1, Ready);
    var all := Feasibility.ExtendQuietly(SOLE, 0, steps, last);
    SoleIsUnique();
    Feasibility.LikelyHappens(SOLE, 0, all);
    assert RestartsTemporary(SOLE, steps, last);
  }

  lemma SoleIsUnique()
    ensures UniqueSpecIds(SOLE)
  {
  }

  lemma FailureLikely()
    requires Enabled(Opening(SOLE, 0), Report(0, Abnormal))
    ensures Feasibility.Likely(Opening(SOLE, 0), Report(0, Abnormal), SOLE, 0)
  {
    hide Feasibility.FailedStart;
    assert Init(SOLE, 0).children[0] in Init(SOLE, 0).children;
  }
}
