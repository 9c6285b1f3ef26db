/** Every restart granted is accounted for: carried out at once, waiting for its timer, waiting
    in the queue, carried out late, or skipped. */
module Conservation {
  import opened Types
  import opened Restart
  import opened Spec
  import opened SupervisorCommon
  import opened Supervision
  import opened World
  import opened Escalation

  function Grants(s: Sup): nat {
    |GrantTimes(s.journal)|
  }

  /** Reported terminations that were not deliberate stops. */
  function Failures(deliveries: seq<Delivery>): nat {
    if deliveries == [] then 0
    else
      var last := deliveries[|deliveries| - 1].command;
      Failures(deliveries[..|deliveries| - 1]) + (if last.ChildTerminated? && last.reason != Shutdown then 1 else 0)
  }

  function QueuedRestarts(queue: seq<Command>): nat {
    if queue == [] then 0
    else QueuedRestarts(queue[..|queue| - 1]) + (if queue[|queue| - 1].RestartChild? then 1 else 0)
  }

  /** What one command does to the counts. */
  ghost predicate Counted(s: Sup, s': Sup, grants: nat, immediate: nat, timers: nat, late: nat) {
    && Grants(s') == Grants(s) + grants
    && s'.rounds.immediate == s.rounds.immediate + immediate
    && |s'.timers| == |s.timers| + timers && s.timers <= s'.timers
    && s'.rounds.applied + s'.rounds.skipped == s.rounds.applied + s.rounds.skipped + late
  }

  lemma RoundCounts(s: Sup, p: nat, strategy: RestartStrategy)
    requires p < |s.children|
    ensures Counted(s, ApplyRestart(s, p, strategy), 0, 0, 0, 0)
  {
    RoundFrame(s, p, strategy);
    RoundKeepsGrants(s, p, strategy);
  }

  lemma CarryCounts(s: Sup, p: nat, v: Verdict, env: Env)
    requires p < |s.children|
    ensures var s' := Carry(s, p, v, env);
      match v.decision
      case Restart(delay, _) =>
        if delay == 0 then Counted(s, s', 1, 1, 0, 0) else Counted(s, s', 1, 0, 1, 0)
      case _ => Counted(s, s', 0, 0, 0, 0)
  {
    hide ApplyRestart, GrantTimes;
    var id := s.children[p].Id();
    match v.decision {
      case Ignore =>
      case Drop => GrantTimesAppend(s.journal, Left(id));
      case Escalate =>
      case Restart(delay, strategy) =>
        GrantTimesAppend(s.journal, Granted(id, env.now, env.later, delay));
        RoundCounts(s.(recent := v.recent, table := v.table, worthy := s.worthy + [env.now],
                       journal := s.journal + [Granted(id, env.now, env.later, delay)],
                       rounds := s.rounds.(immediate := s.rounds.immediate + 1)), p, strategy);
    }
  }

  /** Only a failure grants a restart, and each grant is carried out at once or sets a timer;
      only a timer's message is carried out late or skipped, and each is one of the two. */
  lemma CommandCounts(s: Sup, command: Command, env: Env)
    ensures var s' := Serve(s, command, env);
      match command
      case ChildTerminated(_, reason) =>
        || Counted(s, s', 0, 0, 0, 0)
        || (reason != Shutdown && (Counted(s, s', 1, 1, 0, 0) || Counted(s, s', 1, 0, 1, 0)))
      case RestartChild(_, _) => Counted(s, s', 0, 0, 0, 1)
      case _ => Counted(s, s', 0, 0, 0, 0)
  {
    hide ApplyRestart, GrantTimes, Carry;
    match command {
      case TerminateChild(id, _) => GrantTimesAppend(s.journal, Left(id));
      case ChildTerminated(id, reason) =>
        var found := Position(s.children, id);
        if found.Some? {
          CarryCounts(s, found.value, JudgeAt(s, found.value, reason, env), env);
        }
      case RestartChild(id, strategy) =>
        var found := Position(s.children, id);
        if found.Some? {
          RoundCounts(s.(rounds := s.rounds.(applied := s.rounds.applied + 1)), found.value, strategy);
        }
      case _ =>
    }
  }

  // ---- In the world of timers and queues ----

  ghost predicate Inv(w: World) {
    && Grants(w.sup) == w.sup.rounds.immediate + |w.sup.timers|
    && Grants(w.sup) <= Failures(w.served)
    && (forall i :: i in w.fired ==> i < |w.sup.timers|)
    && w.sup.rounds.applied + w.sup.rounds.skipped <= |w.fired|
    && (Running(w) ==> |w.fired| == QueuedRestarts(w.queue) + w.sup.rounds.applied + w.sup.rounds.skipped)
  }

  lemma QueuedAppend(queue: seq<Command>, c: Command)
    ensures QueuedRestarts(queue + [c]) == QueuedRestarts(queue) + (if c.RestartChild? then 1 else 0)
  {
    assert (queue + [c])[..|queue|] == queue;
  }

  lemma {:induction false} QueuedHead(queue: seq<Command>)
    requires queue != []
    ensures QueuedRestarts(queue) == (if queue[0].RestartChild? then 1 else 0) + QueuedRestarts(queue[1..])
  {
    if |queue| > 1 {
      var n := |queue| - 1;
      QueuedHead(queue[..n]);
      assert queue[..n][1..] == queue[1..][..n - 1];
    }
  }

  lemma PostKeepsInv(w: World, step: Step)
    requires Inv(w) && Enabled(w, step) && !step.Handle?
    ensures Inv(Next(w, step))
  {
    hide Grants, Failures;
    var w' := Next(w, step);
    if w'.queue != w.queue {
      QueuedAppend(w.queue, w'.queue[|w.queue|]);
    }
  }

  lemma HandleKeepsInv(w: World, step: Step)
    requires Inv(w) && Enabled(w, step) && step.Handle?
    ensures Inv(Next(w, step))
  {
    hide Grants, Serve, Answer, QueuedRestarts;
    var d := HeadDelivery(w, step.later, step.init);
    CommandCounts(w.sup, d.command, d.env);
    QueuedHead(w.queue);
    assert (w.served + [d])[..|w.served|] == w.served;
  }

  lemma {:induction false} RunKeepsInv(spec: SupervisorSpec, start: Instant, steps: seq<Step>)
    requires Legal(Opening(spec, start), steps)
    ensures Inv(After(Opening(spec, start), steps))
    decreases |steps|
  {
    if steps == [] {
      assert Inv(Opening(spec, start));
    } else {
      hide Inv, Next, Enabled, Opening;
      var front, last := steps[..|steps| - 1], steps[|steps| - 1];
      RunKeepsInv(spec, start, front);
      if last.Handle? {
        HandleKeepsInv(After(Opening(spec, start), front), last);
      } else {
        PostKeepsInv(After(Opening(spec, start), front), last);
      }
    }
  }

  lemma {:induction false} BoundedSet(s: set<nat>, n: nat)
    requires forall i :: i in s ==> i < n
    ensures |s| <= n
  {
    if n > 0 {
      var less := s - {n - 1};
      BoundedSet(less, n - 1);
      assert s <= less + {n - 1};
      assert |less + {n - 1}| == |less| + 1;
      Subset(s, less + {n - 1});
    } else {
      assert s == {};
    }
  }

  lemma {:induction false} Subset<T>(s: set<T>, t: set<T>)
    requires s <= t
    ensures |s| <= |t|
  {
    assert t == s + (t - s);
  }

  /** In every run of a supervisor that has not stopped, the restarts granted are those carried
      out at once, those whose timer has not fired, those whose message waits in the queue,
      those carried out late, and those skipped; and no more are granted than failures reported. */
  lemma GrantsConserved(spec: SupervisorSpec, start: Instant, steps: seq<Step>)
    requires Legal(Opening(spec, start), steps)
    ensures var w := After(Opening(spec, start), steps);
      && Grants(w.sup) <= Failures(w.served)
      && w.sup.rounds.immediate + w.sup.rounds.applied + w.sup.rounds.skipped <= Grants(w.sup)
      && (Running(w) ==>
            Grants(w.sup) == w.sup.rounds.immediate + (|w.sup.timers| - |w.fired|) + QueuedRestarts(w.queue)
                             + w.sup.rounds.applied + w.sup.rounds.skipped)
  {
    hide Opening, After, Legal;
    RunKeepsInv(spec, start, steps);
    var w := After(Opening(spec, start), steps);
    BoundedSet(w.fired, |w.sup.timers|);
  }

  // ---- Deferred rounds ----

  ghost predicate Follow(s: Sup) {
    forall i :: 0 <= i < |s.timers| ==> s.timers[i].strategy == s.spec.restartStrategy
  }

  lemma CommandKeepsFollow(s: Sup, d: Delivery)
    requires Follow(s)
    ensures Follow(Serve(s, d.command, d.env)) && Serve(s, d.command, d.env).spec == s.spec
  {
    hide ApplyRestart, Position;
    SpecStays(s, d);
    match d.command {
      case ChildTerminated(id, reason) =>
        var found := Position(s.children, id);
        if found.Some? {
          var p := found.value;
          var v := JudgeAt(s, p, reason, d.env);
          if v.decision.Restart? {
            RoundFrame(s.(recent := v.recent, table := v.table, worthy := s.worthy + [d.env.now],
                          journal := s.journal + [Granted(s.children[p].Id(), d.env.now, d.env.later, v.decision.delay)],
                          rounds := s.rounds.(immediate := s.rounds.immediate + 1)), p, v.decision.strategy);
          }
        }
      case RestartChild(id, strategy) =>
        var found := Position(s.children, id);
        if found.Some? {
          RoundFrame(s.(rounds := s.rounds.(applied := s.rounds.applied + 1)), found.value, strategy);
        }
      case _ =>
    }
  }

  ghost predicate AllFollow(w: World) {
    && Follow(w.sup)
    && (forall i :: 0 <= i < |w.queue| && w.queue[i].RestartChild? ==> w.queue[i].strategy == w.sup.spec.restartStrategy)
    && (forall k :: 0 <= k < |w.served| && w.served[k].command.RestartChild? ==>
          w.served[k].command.strategy == w.sup.spec.restartStrategy)
  }

  lemma StepKeepsFollow(w: World, step: Step)
    requires AllFollow(w) && Enabled(w, step)
    ensures AllFollow(Next(w, step)) && Next(w, step).sup.spec == w.sup.spec
  {
    hide Serve, Answer, Follow;
    if step.Handle? {
      CommandKeepsFollow(w.sup, HeadDelivery(w, step.later, step.init));
      assert forall i :: 0 <= i < |w.queue| - 1 ==> w.queue[1..][i] == w.queue[i + 1];
    } else if step.Fire? {
      FollowsAt(w.sup, step.timer);
    }
  }

  lemma FollowsAt(s: Sup, i: nat)
    requires Follow(s) && i < |s.timers|
    ensures s.timers[i].strategy == s.spec.restartStrategy
  {
  }

  /** In every run, each restart that was deferred is carried out with the configured strategy. */
  lemma {:induction false} DeferredRoundsFollowStrategy(spec: SupervisorSpec, start: Instant, steps: seq<Step>)
    requires Legal(Opening(spec, start), steps)
    ensures var w := After(Opening(spec, start), steps);
      && AllFollow(w) && w.sup.spec == spec
    decreases |steps|
  {
    if steps == [] {
      assert AllFollow(Opening(spec, start));
    } else {
      hide AllFollow, Next, Enabled, Opening;
      DeferredRoundsFollowStrategy(spec, start, steps[..|steps| - 1]);
      StepKeepsFollow(After(Opening(spec, start), steps[..|steps| - 1]), steps[|steps| - 1]);
    }
  }

  // ---- How a supervisor stops ----

  /** A running supervisor ends with `Shutdown` by a shutdown command and nothing else, and with
      `Abnormal` by a failure that asks for a restart beyond the limit and nothing else; either way
      no child is left. */
  lemma StopsOnlyWhen(s: Sup, d: Delivery)
    requires s.exit == None
    ensures var s' := Serve(s, d.command, d.env);
      && (s'.exit == Some(Shutdown) <==> d.command.ShutdownCommand?)
      && (s'.exit == Some(Abnormal) <==> Worthy(s, d) && |s'.recent| > s.spec.restartIntensity.maxRestarts)
      && s'.exit != Some(Normal) && (s'.exit.Some? ==> s'.children == [])
  {
    hide ApplyRestart, Position;
    match d.command {
      case ChildTerminated(id, reason) =>
        var found := Position(s.children, id);
        if found.Some? {
          var p := found.value;
          var v := JudgeAt(s, p, reason, d.env);
          if v.decision.Restart? {
            RoundFrame(s.(recent := v.recent, table := v.table, worthy := s.worthy + [d.env.now],
                          journal := s.journal + [Granted(s.children[p].Id(), d.env.now, d.env.later, v.decision.delay)],
                          rounds := s.rounds.(immediate := s.rounds.immediate + 1)), p, v.decision.strategy);
          }
        }
      case RestartChild(id, strategy) =>
        var found := Position(s.children, id);
        if found.Some? {
          RoundFrame(s.(rounds := s.rounds.(applied := s.rounds.applied + 1)), found.value, strategy);
        }
      case _ =>
    }
  }
}
