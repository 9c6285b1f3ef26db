/** What a restart round amounts to, by strategy, and that deferring it changes nothing. */
module Rounds {
  import opened Types
  import opened Restart
  import opened Spec
  import opened Supervision
  import Generations
  import Identity

  /** The specifications of the children that are not temporary, in order. */
  function Staying(children: seq<Child>): seq<ChildSpec> {
    if children == [] then []
    else
      (if children[0].spec.RestartPolicy() == Some(Temporary) then [] else [children[0].spec])
      + Staying(children[1..])
  }

  lemma {:induction false} StayingAppend(children: seq<Child>, c: Child)
    ensures Staying(children + [c]) == Staying(children) + Staying([c])
  {
    if children == [] {
      assert [] + [c] == [c];
    } else {
      StayingAppend(children[1..], c);
      assert (children + [c])[1..] == children[1..] + [c];
    }
  }

  lemma OneStaying(c: Child, next: TaskId)
    ensures Staying([c]) == Specs(Kept(c, next))
  {
    assert [c][1..] == [];
  }

  /** A round keeps exactly the children that are not temporary, in order, each on a new task. */
  lemma RenewedAreStaying(children: seq<Child>, next: TaskId)
    ensures Specs(Renewed(children, next)) == Staying(children)
    ensures forall i :: 0 <= i < |Renewed(children, next)| ==> Renewed(children, next)[i].task == next + i
  {
    hide Renewed, Staying;
    RenewedSpecs(children, next);
    Generations.RenewedTasks(children, next);
  }

  lemma {:induction false} RenewedSpecs(children: seq<Child>, next: TaskId)
    ensures Specs(Renewed(children, next)) == Staying(children)
  {
    hide Kept;
    if children != [] {
      hide Renewed;
      var front, last := children[..|children| - 1], children[|children| - 1];
      RenewedSpecs(front, next);
      StayingAppend(front, last);
      RoundAppend(front, last, next);
      assert children == front + [last];
      SpecsAppend(Renewed(front, next), Kept(last, next + |Renewed(front, next)|));
      OneStaying(last, next + |Renewed(front, next)|);
    }
  }

  /** Rest-for-one at `p`: the children before `p` keep their tasks, those from `p` on are
      replaced or gone, and nothing else about the list changes. */
  lemma RestForOneResult(s: Sup, p: nat)
    requires p < |s.children|
    ensures var s' := ApplyRestart(s, p, RestForOne);
      && |s'.children| >= p && s'.children[..p] == s.children[..p]
      && Specs(s'.children[p..]) == Staying(s.children[p..])
      && (forall i :: p <= i < |s'.children| ==> s'.children[i].task == |s.spawned| + i - p)
      && s'.spawned == s.spawned + Staying(s.children[p..])
  {
    RenewedAreStaying(s.children[p..], |s.spawned|);
    var kept := Renewed(s.children[p..], |s.spawned|);
    var s' := RestartFrom(s, p);
    assert s'.children[p..] == kept && s'.children[..p] == s.children[..p];
  }

  /** One-for-all ends with the same list, tables and tasks as rest-for-one at the first child,
      wherever the failure was; only the order of stops and starts differs. */
  lemma OneForAllIsRestForOneAtZero(s: Sup, p: nat)
    requires p < |s.children|
    ensures var all, rest := ApplyRestart(s, p, OneForAll), ApplyRestart(s, 0, RestForOne);
      && all.(trace := rest.trace) == rest
      && Specs(all.children) == Staying(s.children)
  {
    RenewedAreStaying(s.children, |s.spawned|);
    assert s.children[0..] == s.children && s.children[..0] == [];
    assert RestartAll(s).children == Renewed(s.children, |s.spawned|);
  }

  /** Rest-for-one deals with the children one at a time: everything done for the first `n` of
      them comes before the next one is stopped. */
  lemma {:induction false} RestForOneRolls(affected: seq<Child>, n: nat, next: TaskId)
    requires n < |affected|
    ensures Rolling(affected[..n], next) + [Halt(affected[n])] <= Rolling(affected, next)
    decreases |affected|
  {
    var front := affected[..|affected| - 1];
    if n < |affected| - 1 {
      RestForOneRolls(front, n, next);
      assert front[..n] == affected[..n];
    }
  }

  /** Whether a round at `p` concerns the child at `i`. */
  predicate Affected(strategy: RestartStrategy, p: nat, i: nat) {
    match strategy
    case OneForOne => i == p
    case OneForAll => true
    case RestForOne => p <= i
  }

  /** In the course of a round each child that it concerns is stopped exactly once, and no
      other child is; afterwards only the others still run on their old tasks. */
  lemma EachAffectedStoppedOnce(s: Sup, p: nat, strategy: RestartStrategy, i: nat)
    requires Generations.Inv(s) && p < |s.children| && i < |s.children|
    ensures var s' := ApplyRestart(s, p, strategy); var task := s.children[i].task;
      && Generations.Releases(s'.trace, task) == Generations.Releases(s.trace, task)
                                                 + (if Affected(strategy, p, i) then 1 else 0)
      && (Generations.Owned(s'.children, task) <==> !Affected(strategy, p, i))
  {
    hide Generations.Releases, Generations.Live, Generations.AlwaysExclusive, Generations.SpawnedBy, Generations.Orderly;
    hide Renewed, Rolling, Departures, DepartedIds, Halts, Spawns, Staying, Identity.UniqueIds;
    var s', task := ApplyRestart(s, p, strategy), s.children[i].task;
    Generations.RoundKeepsInv(s, p, strategy);
    assert s.children[i] in s.children;
    RenewedAreStaying(s.children, |s.spawned|);
    RenewedAreStaying(s.children[p..], |s.spawned|);
    assert s.children[0..] == s.children && s.children[..0] == [];
    if Affected(strategy, p, i) {
      assert forall c :: c in s'.children ==> c.task != task;
    } else {
      assert s'.children[i] == s.children[i] && s'.children[i] in s'.children;
    }
  }

  // ---- In which order ----

  lemma {:induction false} HaltsSpawnNothing(trace: seq<Effect>, children: seq<Child>)
    ensures Generations.SpawnedBy(trace + Halts(children)) == Generations.SpawnedBy(trace)
    decreases |children|
  {
    if children == [] {
      assert trace + Halts(children) == trace;
    } else {
      var front, last := children[..|children| - 1], children[|children| - 1];
      HaltsSpawnNothing(trace, front);
      assert trace + Halts(children) == (trace + Halts(front)) + [Halt(last)];
      Generations.LiveAppend(trace + Halts(front), Halt(last));
    }
  }

  /** One-for-all stops every child, and only then starts the first: whatever the round releases,
      it has started nothing before; and whatever it starts, it has released every child before. */
  lemma OneForAllStopsBeforeItStarts(s: Sup, p: nat, n: nat)
    requires p < |s.children|
    requires |s.trace| <= n < |ApplyRestart(s, p, OneForAll).trace|
    ensures var trace := ApplyRestart(s, p, OneForAll).trace;
      && s.trace <= trace
      && (!trace[n].Spawn? ==> Generations.SpawnedBy(trace[..n]) == Generations.SpawnedBy(s.trace))
      && (trace[n].Spawn? ==> forall i :: 0 <= i < |s.children| ==>
            (if s.children[i].spec.Worker? then Stop(s.children[i].task) else Signal(s.children[i].task)) in trace[..n])
  {
    hide Generations.SpawnedBy;
    var k := n - |s.trace|;
    var trace, halts := ApplyRestart(s, p, OneForAll).trace, Halts(s.children);
    if k < |s.children| {
      assert trace[..n] == s.trace + Halts(s.children[..k]);
      HaltsSpawnNothing(s.trace, s.children[..k]);
    } else {
      assert trace[..|s.trace| + |halts|] == s.trace + halts;
      forall i | 0 <= i < |s.children|
        ensures (if s.children[i].spec.Worker? then Stop(s.children[i].task) else Signal(s.children[i].task)) in trace[..n]
      {
        assert trace[..n][|s.trace| + i] == halts[i];
      }
    }
  }

  lemma {:induction false} RolledFront(affected: seq<Child>, next: TaskId, trace: seq<Effect>)
    ensures Generations.SpawnedBy(trace + Rolling(affected, next)) == Generations.SpawnedBy(trace) + Staying(affected)
    decreases |affected|
  {
    hide *;
    if affected == [] {
      RolledNone(next, trace);
    } else {
      var front, last := affected[..|affected| - 1], affected[|affected| - 1];
      RolledFront(front, next, trace);
      RoundAppend(front, last, next);
      StayingAppend(front, last);
      assert affected == front + [last];
      var n := next + |Renewed(front, next)|;
      Associative(trace, Rolling(front, next), RollOne(last, n));
      RolledOne(trace + Rolling(front, next), last, n);
      Associative(Generations.SpawnedBy(trace), Staying(front), Staying([last]));
    }
  }

  lemma RolledNone(next: TaskId, trace: seq<Effect>)
    ensures Generations.SpawnedBy(trace + Rolling([], next)) == Generations.SpawnedBy(trace) + Staying([])
  {
    assert trace + Rolling([], next) == trace;
  }

  lemma RolledOne(trace: seq<Effect>, c: Child, next: TaskId)
    ensures Generations.SpawnedBy(trace + RollOne(c, next)) == Generations.SpawnedBy(trace) + Staying([c])
  {
    hide Generations.SpawnedBy;
    Generations.LiveAppend(trace, Halt(c));
    assert [c][1..] == [];
    if c.LeavesSupervision() {
      assert trace + RollOne(c, next) == trace + [Halt(c)];
    } else {
      assert trace + RollOne(c, next) == (trace + [Halt(c)]) + [Spawn(next, c.spec)];
      Generations.LiveAppend(trace + [Halt(c)], Spawn(next, c.spec));
    }
  }

  /** Rest-for-one works child by child: by the time it releases the child at `p + i` it has
      replaced each of those from `p` up to it that stays, and none after it. */
  lemma RestForOneReplacesInTurn(s: Sup, p: nat, i: nat)
    requires p < |s.children| && i < |s.children| - p
    ensures var trace, c := ApplyRestart(s, p, RestForOne).trace, s.children[p + i];
      exists n ::
        && |s.trace| <= n < |trace| && s.trace <= trace
        && trace[n] == (if c.spec.Worker? then Stop(c.task) else Signal(c.task))
        && Generations.SpawnedBy(trace[..n]) == Generations.SpawnedBy(s.trace) + Staying(s.children[p..p + i])
  {
    hide Generations.SpawnedBy, Rolling, Renewed, Staying;
    var affected, next := s.children[p..], |s.spawned|;
    var trace := ApplyRestart(s, p, RestForOne).trace;
    RestForOneRolls(affected, i, next);
    RolledFront(affected[..i], next, s.trace);
    assert affected[..i] == s.children[p..p + i] && affected[i] == s.children[p + i];
    var n := |s.trace| + |Rolling(affected[..i], next)|;
    assert trace == s.trace + Rolling(affected, next);
    var done := Rolling(affected[..i], next) + [Halt(affected[i])];
    assert Rolling(affected, next)[..|done|] == done;
    assert trace[n] == Rolling(affected, next)[|done| - 1] == done[|done| - 1];
    assert trace[..n] == s.trace + Rolling(affected[..i], next);
  }

  /** Shutting down releases the children one by one, in their order, and starts nothing. */
  lemma ShutdownInOrder(s: Sup)
    ensures var s' := ShutdownChildren(s);
      && s'.children == [] && s'.spawned == s.spawned && s.trace <= s'.trace && |s'.trace| == |s.trace| + |s.children|
      && forall i :: 0 <= i < |s.children| ==>
           s'.trace[|s.trace| + i] == if s.children[i].spec.Worker? then Stop(s.children[i].task) else Signal(s.children[i].task)
  {
  }

  // ---- Which round a failure leads to ----

  /** A failure that is granted a restart leads to a round of the configured strategy: at once if
      there is no delay, and otherwise by a timer that carries the strategy and is due after it. */
  lemma GrantFollowsStrategy(s: Sup, id: ChildId, reason: ChildExitReason, env: Env)
    requires Generations.Inv(s) && s.exit == None
    requires var p := Position(s.children, id);
      p.Some? && JudgeAt(s, p.value, reason, env).decision.Restart?
    ensures var p := Position(s.children, id).value; var s' := Serve(s, ChildTerminated(id, reason), env);
      var delay := JudgeAt(s, p, reason, env).decision.delay; var strategy := s.spec.restartStrategy;
      && s'.exit == None
      && Granted(id, env.now, env.later, delay) in s'.journal
      && (delay == 0 ==> s'.timers == s.timers)
      && (delay == 0 ==> forall i :: 0 <= i < |s.children| ==>
            (Generations.Owned(s'.children, s.children[i].task) <==> !Affected(strategy, p, i)))
      && (delay > 0 ==> s'.timers == s.timers + [Timer(id, strategy, env.later + delay)])
      && (delay > 0 ==> s'.children == s.children && s'.trace == s.trace)
  {
    hide Generations.Inv, Affected, Generations.Owned, ApplyRestart;
    var p := Position(s.children, id).value;
    var v := JudgeAt(s, p, reason, env);
    var entry := Granted(id, env.now, env.later, v.decision.delay);
    var s2 := s.(recent := v.recent, table := v.table, worthy := s.worthy + [env.now], journal := s.journal + [entry],
                 rounds := s.rounds.(immediate := s.rounds.immediate + 1));
    assert entry in s2.journal;
    SameTrace(s, s2);
    forall i: nat | i < |s.children| && v.decision.delay == 0
      ensures Generations.Owned(ApplyRestart(s2, p, s.spec.restartStrategy).children, s.children[i].task)
         <==> !Affected(s.spec.restartStrategy, p, i)
    {
      EachAffectedStoppedOnce(s2, p, s.spec.restartStrategy, i);
    }
    RoundFrame(s2, p, s.spec.restartStrategy);
    RoundKeepsJournal(s2, p, s.spec.restartStrategy);
  }

  lemma SameTrace(s: Sup, s2: Sup)
    requires Generations.Inv(s) && s2.trace == s.trace && s2.children == s.children && s2.spawned == s.spawned
    ensures Generations.Inv(s2)
  {
  }

  lemma RoundKeepsJournal(s: Sup, p: nat, strategy: RestartStrategy)
    requires p < |s.children|
    ensures s.journal <= ApplyRestart(s, p, strategy).journal
  {
    hide Renewed, Rolling, Departures, DepartedIds, Halts, Spawns;
  }

  // ---- Deferral ----

  /** A deferred restart served with nothing in between leaves what an immediate one would have
      left, but for the timer it needed and the way it is counted. */
  lemma DeferralIsTransparent(s: Sup, id: ChildId, reason: ChildExitReason, env: Env)
    requires Position(s.children, id).Some?
    requires JudgeAt(s, Position(s.children, id).value, reason, env).decision.Restart?
    ensures var p := Position(s.children, id).value;
      var v := JudgeAt(s, p, reason, env);
      var atOnce := Carry(s, p, v.(decision := v.decision.(delay := 0)), env);
      var deferred := HandleChildTerminated(s, id, reason, env);
      var served := HandleRestartChild(deferred, id, v.decision.strategy);
      v.decision.delay != 0 ==>
        && deferred.children == s.children && deferred.trace == s.trace
        && served.timers == s.timers + [Timer(id, v.decision.strategy, env.later + v.decision.delay)]
        && served.children == atOnce.children && served.trace == atOnce.trace && served.spawned == atOnce.spawned
        && served.table == atOnce.table && served.recent == atOnce.recent && served.exit == atOnce.exit
  {
    hide RestartOne, RestartAll, RestartFrom;
    var p := Position(s.children, id).value;
    var v := JudgeAt(s, p, reason, env);
    if v.decision.delay != 0 {
      var deferred := HandleChildTerminated(s, id, reason, env);
      assert Position(deferred.children, id) == Some(p);
      var atOnce := Carry(s, p, v.(decision := v.decision.(delay := 0)), env);
      RoundLooksAtFewFields(deferred.(rounds := deferred.rounds.(applied := deferred.rounds.applied + 1)),
        s.(recent := v.recent, table := v.table, worthy := s.worthy + [env.now],
           journal := s.journal + [Granted(id, env.now, env.later, 0)],
           rounds := s.rounds.(immediate := s.rounds.immediate + 1)), p, v.decision.strategy);
    }
  }

  lemma RoundLooksAtFewFields(a: Sup, b: Sup, p: nat, strategy: RestartStrategy)
    requires a.children == b.children && a.spawned == b.spawned && a.trace == b.trace && a.table == b.table
    requires a.recent == b.recent && a.exit == b.exit && p < |a.children|
    ensures var a', b' := ApplyRestart(a, p, strategy), ApplyRestart(b, p, strategy);
      && a'.children == b'.children && a'.spawned == b'.spawned && a'.trace == b'.trace && a'.table == b'.table
      && a'.recent == b'.recent && a'.exit == b'.exit && a'.timers == a.timers
  {
  }

  // ---- Stops that the supervisor asked for ----

  predicate Quiet(command: Command) {
    match command
    case ChildTerminated(_, reason) => reason == Shutdown
    case WhichChildren(_) => true
    case GetRestartStrategy(_) => true
    case GetUptime(_) => true
    case _ => false
  }

  /** Reports of deliberate stops, and queries, change nothing at all, however many there are:
      a restart round cannot set off another one. */
  lemma {:induction false} NoRestartStorm(s: Sup, deliveries: seq<Delivery>)
    requires forall i :: 0 <= i < |deliveries| ==> Quiet(deliveries[i].command)
    ensures ServeAll(s, deliveries) == s
  {
    if deliveries != [] {
      NoRestartStorm(s, deliveries[..|deliveries| - 1]);
      QuietChangesNothing(s, deliveries[|deliveries| - 1]);
    }
  }

  lemma QuietChangesNothing(s: Sup, d: Delivery)
    requires Quiet(d.command)
    ensures Serve(s, d.command, d.env) == s
  {
  }
}
