/** Children that left supervision stay away, and temporary children are not restarted. */
module Resurrection {
  import opened Types
  import opened Restart
  import opened Spec
  import opened SupervisorCommon
  import opened Supervision
  import opened Identity

  /** No task spawned from position `from` on runs a child called `id`. */
  ghost predicate NotSpawnedSince(spawned: seq<ChildSpec>, from: nat, id: ChildId) {
    forall t :: from <= t < |spawned| ==> spawned[t].Id() != id
  }

  lemma {:induction false} RenewalSpawnsListed(children: seq<Child>, next: TaskId, id: ChildId)
    requires id !in Ids(children)
    ensures forall i :: 0 <= i < |Renewed(children, next)| ==> Renewed(children, next)[i].Id() != id
  {
    if children != [] {
      var front, last := children[..|children| - 1], children[|children| - 1];
      assert forall i :: 0 <= i < |front| ==> Ids(front)[i] == Ids(children)[i];
      assert Ids(children)[|front|] == last.Id();
      RenewalSpawnsListed(front, next, id);
    }
  }

  /** A restart round spawns only ids that are listed. */
  lemma RoundSpawnsListed(s: Sup, p: nat, strategy: RestartStrategy, id: ChildId)
    requires p < |s.children| && id !in Ids(s.children)
    ensures var s' := ApplyRestart(s, p, strategy);
      s.spawned <= s'.spawned && NotSpawnedSince(s'.spawned, |s.spawned|, id)
  {
    hide Renewed, Rolling, Halts, Spawns, Departures, DepartedIds, Ids, NotSpawnedSince, Child.Id, ChildSpec.Id;
    IdsOfSuffix(s.children, p, id);
    IdsOfSuffix(s.children, 0, id);
    match strategy {
      case OneForOne =>
        assert s.children[p].Id() != id;
        SpawnedListed(s.spawned, [s.children[p]], id);
        assert Specs([s.children[p]]) == [s.children[p].spec];
      case OneForAll =>
        RenewalSpawnsListed(s.children[0..], |s.spawned|, id);
        assert s.children[0..] == s.children;
        SpawnedListed(s.spawned, Renewed(s.children, |s.spawned|), id);
      case RestForOne =>
        RenewalSpawnsListed(s.children[p..], |s.spawned|, id);
        SpawnedListed(s.spawned, Renewed(s.children[p..], |s.spawned|), id);
    }
  }

  lemma IdsOfSuffix(children: seq<Child>, p: nat, id: ChildId)
    requires p <= |children| && id !in Ids(children)
    ensures id !in Ids(children[p..]) && forall i :: 0 <= i < |children| ==> children[i].Id() != id
  {
    assert forall i :: 0 <= i < |children| ==> Ids(children)[i] == children[i].Id();
    assert forall i :: 0 <= i < |children| - p ==> Ids(children[p..])[i] == Ids(children)[p + i];
  }

  lemma SpawnedListed(spawned: seq<ChildSpec>, started: seq<Child>, id: ChildId)
    requires forall i :: 0 <= i < |started| ==> started[i].Id() != id
    ensures NotSpawnedSince(spawned + Specs(started), |spawned|, id)
  {
  }

  lemma UnlistedStays(s: Sup, command: Command, env: Env, id: ChildId)
    requires id !in Ids(s.children) && StartedId(command) != Some(id)
    ensures id !in Ids(Serve(s, command, env).children)
  {
    hide Serve, Ids;
    CommandKeepsOrder(s, command, env);
    var after := Ids(Serve(s, command, env).children);
    if Subsequence(after, Ids(s.children)) {
      SubsequenceSelects(after, Ids(s.children));
    }
  }

  /** A command other than a start of `id` neither lists nor spawns an unlisted `id`. */
  lemma CommandKeepsAway(s: Sup, command: Command, env: Env, id: ChildId)
    requires id !in Ids(s.children) && StartedId(command) != Some(id)
    ensures var s' := Serve(s, command, env);
      id !in Ids(s'.children) && s.spawned <= s'.spawned && NotSpawnedSince(s'.spawned, |s.spawned|, id)
  {
    UnlistedStays(s, command, env, id);
    hide Ids, ApplyRestart, Carry;
    match command {
      case ChildTerminated(other, reason) =>
        var found := Position(s.children, other);
        if found.Some? {
          CarrySpawnsListed(s, found.value, JudgeAt(s, found.value, reason, env), env, id);
        }
      case RestartChild(other, strategy) =>
        var found := Position(s.children, other);
        if found.Some? {
          RoundSpawnsListed(s.(rounds := s.rounds.(applied := s.rounds.applied + 1)), found.value, strategy, id);
        }
      case _ =>
    }
  }

  lemma CarrySpawnsListed(s: Sup, p: nat, v: Verdict, env: Env, id: ChildId)
    requires p < |s.children| && id !in Ids(s.children)
    ensures var s' := Carry(s, p, v, env);
      s.spawned <= s'.spawned && NotSpawnedSince(s'.spawned, |s.spawned|, id)
  {
    hide ApplyRestart;
    match v.decision {
      case Restart(delay, strategy) =>
        RoundSpawnsListed(s.(recent := v.recent, table := v.table, worthy := s.worthy + [env.now],
                             journal := s.journal + [Granted(s.children[p].Id(), env.now, env.later, delay)],
                             rounds := s.rounds.(immediate := s.rounds.immediate + 1)), p, strategy, id);
      case _ =>
    }
  }

  /** Once an id is not listed it is not spawned again until a command to start it is served,
      whatever timers fire and whatever reports arrive. */
  lemma {:induction false} NoResurrection(s: Sup, deliveries: seq<Delivery>, id: ChildId)
    requires id !in Ids(s.children)
    requires forall i :: 0 <= i < |deliveries| ==> StartedId(deliveries[i].command) != Some(id)
    ensures var s' := ServeAll(s, deliveries);
      id !in Ids(s'.children) && s.spawned <= s'.spawned && NotSpawnedSince(s'.spawned, |s.spawned|, id)
  {
    if deliveries != [] {
      hide Serve, Ids, StartedId;
      var front, last := deliveries[..|deliveries| - 1], deliveries[|deliveries| - 1];
      NoResurrection(s, front, id);
      CommandKeepsAway(ServeAll(s, front), last.command, last.env, id);
    }
  }

  /** A successful terminate, and a decision to drop the child, leave the id unlisted. */
  lemma GoneMeansUnlisted(s: Sup, id: ChildId, reason: ChildExitReason, env: Env)
    requires UniqueIds(s.children) && Position(s.children, id).Some?
    ensures HandleTerminateChild(s, id).1 == Ok(())
    ensures id !in Ids(HandleTerminateChild(s, id).0.children)
    ensures JudgeAt(s, Position(s.children, id).value, reason, env).decision.Drop?
      ==> id !in Ids(HandleChildTerminated(s, id, reason, env).children)
  {
    var p := Position(s.children, id).value;
    var rest := Remove(s.children, p);
    assert forall i :: 0 <= i < |rest| ==> Ids(rest)[i] == Ids(s.children)[if i < p then i else i + 1];
    assert Ids(s.children)[p] == id;
  }

  // ---- Temporary children ----

  predicate IsTemporary(spec: ChildSpec) {
    spec.RestartPolicy() == Some(Temporary)
  }

  ghost predicate SpawnsTemporary(s: Sup, s': Sup) {
    exists t :: |s.spawned| <= t < |s'.spawned| && IsTemporary(s'.spawned[t])
  }

  lemma {:induction false} RenewalDropsTemporary(children: seq<Child>, next: TaskId)
    ensures forall i :: 0 <= i < |Renewed(children, next)| ==> !IsTemporary(Renewed(children, next)[i].spec)
  {
    if children != [] {
      RenewalDropsTemporary(children[..|children| - 1], next);
    }
  }

  /** A round starts a temporary child exactly when it is a one-for-one round on that child:
      the other strategies let temporary children go, this one does not look at the policy. */
  lemma RoundSpawnsTemporaryIff(s: Sup, p: nat, strategy: RestartStrategy)
    requires p < |s.children|
    ensures SpawnsTemporary(s, ApplyRestart(s, p, strategy)) <==> strategy == OneForOne && IsTemporary(s.children[p].spec)
  {
    var s' := ApplyRestart(s, p, strategy);
    if strategy.OneForOne? {
      assert s'.spawned[|s.spawned|] == s.children[p].spec;
    } else {
      var affected := s.children[if strategy.OneForAll? then 0 else p..];
      RenewalDropsTemporary(affected, |s.spawned|);
      forall t | |s.spawned| <= t < |s'.spawned| ensures !IsTemporary(s'.spawned[t]) {
        assert s'.spawned[t] == Renewed(affected, |s.spawned|)[t - |s.spawned|].spec;
      }
    }
  }

  /** A deferred restart starts a temporary child exactly when it is one-for-one and the child
      listed under its id by the time it is served is temporary. */
  lemma DeferredSpawnsTemporaryIff(s: Sup, id: ChildId, strategy: RestartStrategy)
    ensures SpawnsTemporary(s, HandleRestartChild(s, id, strategy))
       <==> var found := Position(s.children, id);
            strategy == OneForOne && found.Some? && IsTemporary(s.children[found.value].spec)
  {
    hide ApplyRestart;
    var found := Position(s.children, id);
    if found.Some? {
      var counted := s.(rounds := s.rounds.(applied := s.rounds.applied + 1));
      RoundSpawnsTemporaryIff(counted, found.value, strategy);
      var s' := HandleRestartChild(s, id, strategy);
      assert SpawnsTemporary(s, s') == SpawnsTemporary(counted, s');
    }
  }

  /** A report never starts a temporary child. */
  lemma ReportSpawnsNoTemporary(s: Sup, id: ChildId, reason: ChildExitReason, env: Env)
    ensures !SpawnsTemporary(s, HandleChildTerminated(s, id, reason, env))
  {
    var found := Position(s.children, id);
    if found.Some? {
      var p := found.value;
      var v := JudgeAt(s, p, reason, env);
      if v.decision.Restart? {
        RoundSpawnsTemporaryIff(s.(recent := v.recent, table := v.table, worthy := s.worthy + [env.now],
          journal := s.journal + [Granted(s.children[p].Id(), env.now, env.later, v.decision.delay)],
          rounds := s.rounds.(immediate := s.rounds.immediate + 1)), p, v.decision.strategy);
      }
    }
  }
}
