/** A linked start that fails: what it leaves behind, and when the failed worker's own report
    still counts against somebody. */
module LinkedStart {
  import opened Types
  import opened Restart
  import opened Spec
  import opened Supervision
  import opened Identity
  import opened World
  import Feasibility

  /** The supervisor but for the history of its tasks. */
  function Bookkeeping(s: Sup): Sup {
    s.(spawned := [], trace := [])
  }

  /** A failed initialization is answered with an error, and leaves the child list, both
      trackers and the timers as they were; its task is dropped. */
  lemma FailedStartChangesNothing(s: Sup, w: WorkerSpec, timeout: Duration, request: RequestId, env: Env)
    requires !env.init.Ready? && w.id !in Ids(s.children)
    ensures var command := StartChildLinked(w, timeout, request); var s' := Serve(s, command, env);
      && Bookkeeping(s') == Bookkeeping(s)
      && s'.spawned == s.spawned + [Worker(w)]
      && s'.trace == s.trace + [Spawn(|s.spawned|, Worker(w)), Effect.Drop(|s.spawned|)]
      && Answer(s, command, env) == Some(Started(Err(match env.init
           case Failed(reason) => InitializationFailed(w.id, reason)
           case ChannelClosed => InitializationFailed(w.id, "worker panicked during initialization")
           case _ => InitializationTimeout(w.id, timeout))))
  {
    ListedIff(s.children, w.id);
  }

  /** The part of the supervisor on which its decisions turn. */
  function Visible(s: Sup): Sup {
    s.(timers := [], spawned := [], trace := [], worthy := [], journal := [], rounds := Rounds(0, 0, 0))
  }

  /** A report is without effect exactly when it tells of a deliberate stop, or its id is not
      listed at the moment it is served. A report carries no task number, so the failed start of
      `w` is held against whatever has been started under the same id since: it consumes restart
      intensity, or removes the child. */
  lemma ReportIgnoredIff(s: Sup, id: ChildId, reason: ChildExitReason, env: Env)
    ensures var s' := Serve(s, ChildTerminated(id, reason), env);
      && (Visible(s') == Visible(s) <==> reason == Shutdown || id !in Ids(s.children))
      && (reason == Shutdown || id !in Ids(s.children) ==> s' == s)
  {
    hide Ids;
    ListedIff(s.children, id);
    var p := Position(s.children, id);
    if p.Some? && reason != Shutdown {
      CarriedChanges(s, p.value, reason, env);
    }
  }

  lemma CarriedChanges(s: Sup, p: nat, reason: ChildExitReason, env: Env)
    requires p < |s.children| && reason != Shutdown
    ensures var s' := Carry(s, p, JudgeAt(s, p, reason, env), env);
      s'.recent != s.recent || |s'.children| < |s.children|
  {
    hide ApplyRestart;
    var v := JudgeAt(s, p, reason, env);
    RecordingChanges(s.recent, s.spec.restartIntensity, env.now);
    if v.decision.Restart? {
      RoundFrame(s.(recent := v.recent, table := v.table, worthy := s.worthy + [env.now],
                    journal := s.journal + [Granted(s.children[p].Id(), env.now, env.later, v.decision.delay)],
                    rounds := s.rounds.(immediate := s.rounds.immediate + 1)), p, v.decision.strategy);
    }
  }

  /** Recording a failure always changes the deque: it drops a reading or holds one more. */
  lemma RecordingChanges(recent: seq<Instant>, intensity: RestartIntensity, now: Instant)
    ensures Since(recent, intensity.Cutoff(now)) + [now] != recent
  {
    var cutoff := intensity.Cutoff(now);
    var after := Since(recent, cutoff) + [now];
    if after == recent {
      assert forall t :: t in after ==> cutoff <= t;
      assert forall i :: 0 <= i < |recent| ==> recent[i] in after;
      SinceKeepsRecent(recent, cutoff);
      assert false;
    }
  }

  /** So a failed start can cost its successor a restart: the id is started again before the
      report of the failed task is served. */
  lemma FailedStartCountsAgainstSuccessor(s: Sup, w: WorkerSpec, timeout: Duration, request: RequestId,
                                          env: Env, next: Env, last: Env)
    requires !env.init.Ready? && w.id !in Ids(s.children) && w.restartPolicy != Temporary
    ensures var s1 := Serve(s, StartChildLinked(w, timeout, request), env);
      var s2 := Serve(s1, StartChild(w, request + 1), next);
      var s3 := Serve(s2, ChildTerminated(w.id, Abnormal), last);
      && Answer(s1, StartChild(w, request + 1), next) == Some(Started(Ok(w.id)))
      && s2.exit == s.exit && s2.worthy == s.worthy && s3.worthy == s.worthy + [last.now]
      && s3.recent == Since(s.recent, s.spec.restartIntensity.Cutoff(last.now)) + [last.now]
  {
    FailedStartChangesNothing(s, w, timeout, request, env);
    var s1 := Serve(s, StartChildLinked(w, timeout, request), env);
    var s2 := Serve(s1, StartChild(w, request + 1), next);
    assert s1.children == s.children;
    ListedIff(s.children, w.id);
    assert s2.children == s.children + [Child(Worker(w), |s1.spawned|)];
    FoundLast(s.children, Child(Worker(w), |s1.spawned|));
    CarriedWorthy(s2, |s.children|, last);
  }

  lemma FoundLast(children: seq<Child>, c: Child)
    requires c.Id() !in Ids(children)
    ensures Position(children + [c], c.Id()) == Some(|children|)
  {
    hide Position, Child.Id;
    assert forall i :: 0 <= i < |children| ==> children[i].Id() == Ids(children)[i];
    FirstFound(children + [c], |children|);
  }

  lemma FirstFound(children: seq<Child>, p: nat)
    requires p < |children| && forall i :: 0 <= i < p ==> children[i].Id() != children[p].Id()
    ensures Position(children, children[p].Id()) == Some(p)
  {
    hide Position, Child.Id;
    var found := Position(children, children[p].Id());
  }

  lemma CarriedWorthy(s: Sup, p: nat, env: Env)
    requires p < |s.children| && s.children[p].spec.Worker? && s.children[p].spec.worker.restartPolicy != Temporary
    ensures var s' := Carry(s, p, JudgeAt(s, p, Abnormal, env), env);
      s'.worthy == s.worthy + [env.now] && s'.recent == Since(s.recent, s.spec.restartIntensity.Cutoff(env.now)) + [env.now]
  {
    hide ApplyRestart;
    var v := JudgeAt(s, p, Abnormal, env);
    if v.decision.Restart? {
      RoundFrame(s.(recent := v.recent, table := v.table, worthy := s.worthy + [env.now],
                    journal := s.journal + [Granted(s.children[p].Id(), env.now, env.later, v.decision.delay)],
                    rounds := s.rounds.(immediate := s.rounds.immediate + 1)), p, v.decision.strategy);
    }
  }

  /** A client asks for `w` twice, linked and then plain; the linked one fails to initialize, and
      its report is posted while the second request waits. */
  function TwoStarts(spec: SupervisorSpec, start: Instant, w: WorkerSpec, timeout: Duration, reason: string): seq<Step> {
    [Ask(StartChildLinked(w, timeout, 0)), Ask(StartChild(w, 1)), Handle(start, Failed(reason)),
     Report(|spec.children|, Abnormal), Handle(start, Ready), Handle(start, Ready)]
  }

  /** This run can happen under every supervisor that does not list `w` at first, whatever its
      settings: the second start is answered with success, and then loses a restart to the first. */
  lemma FailedStartChargedInRun(spec: SupervisorSpec, start: Instant, w: WorkerSpec, timeout: Duration, reason: string)
    requires w.restartPolicy != Temporary && forall i :: 0 <= i < |spec.children| ==> spec.children[i].Id() != w.id
    ensures var w0, steps := Opening(spec, start), TwoStarts(spec, start, w, timeout, reason);
      && Legal(w0, steps) && Feasibility.AllLikely(spec, start, steps)
      && After(w0, steps).replies == map[0 := Started(Err(InitializationFailed(w.id, reason))), 1 := Started(Ok(w.id))]
      && After(w0, steps).sup.recent == [start]
  {
    hide Legal, After, Enabled, Next, Opening, Feasibility.Likely, Feasibility.AllLikely, FailedOnce;
    var w0, w2 := Opening(spec, start), Asked(spec, start, w, timeout);
    var first, second := Ask(StartChildLinked(w, timeout, 0)), Ask(StartChild(w, 1));
    Feasibility.NoSteps(spec, start);
    AskedTwice(spec, start, w, timeout);
    var steps := Feasibility.ExtendQuietly(spec, start, [], first);
    steps := Feasibility.ExtendQuietly(spec, start, steps, second);
    ServedOnce(spec, start, w, timeout, reason);
    steps := Feasibility.ExtendQuietly(spec, start, steps, Handle(start, Failed(reason)));
    steps := Feasibility.ExtendLikely(spec, start, steps, Report(|spec.children|, Abnormal));
    ServedTwice(spec, start, w, timeout, reason);
    steps := Feasibility.ExtendQuietly(spec, start, steps, Handle(start, Ready));
    steps := Feasibility.ExtendQuietly(spec, start, steps, Handle(start, Ready));
    assert steps == TwoStarts(spec, start, w, timeout, reason);
  }

  /** ... and the tasks can follow it: the failed task reports by itself. */
  lemma FailedStartChargedWithTasks(spec: SupervisorSpec, start: Instant, w: WorkerSpec, timeout: Duration, reason: string)
    requires w.restartPolicy != Temporary && forall i :: 0 <= i < |spec.children| ==> spec.children[i].Id() != w.id
    requires UniqueSpecIds(spec)
    ensures var steps := TwoStarts(spec, start, w, timeout, reason);
      Legal(Opening(spec, start), steps) && Feasibility.Happens(spec, start, steps)
  {
    hide Legal, After, Opening, Feasibility.AllLikely, Feasibility.Happens;
    FailedStartChargedInRun(spec, start, w, timeout, reason);
    Feasibility.LikelyHappens(spec, start, TwoStarts(spec, start, w, timeout, reason));
  }

  function Asked(spec: SupervisorSpec, start: Instant, w: WorkerSpec, timeout: Duration): World {
    Opening(spec, start).(queue := [StartChildLinked(w, timeout, 0), StartChild(w, 1)], asked := 2)
  }

  lemma AskedTwice(spec: SupervisorSpec, start: Instant, w: WorkerSpec, timeout: Duration)
    ensures var w0, first, second := Opening(spec, start), Ask(StartChildLinked(w, timeout, 0)), Ask(StartChild(w, 1));
      && Enabled(w0, first) && Enabled(Next(w0, first), second)
      && Next(Next(w0, first), second) == Asked(spec, start, w, timeout)
  {
  }

  /** The failed start served and reported. */
  function FailedOnce(spec: SupervisorSpec, start: Instant, w: WorkerSpec, timeout: Duration, reason: string): World {
    var w2 := Asked(spec, start, w, timeout);
    var d := Delivery(StartChildLinked(w, timeout, 0), Env(start, start, Failed(reason)));
    w2.(sup := Serve(w2.sup, d.command, d.env), served := [d],
        replies := map[0 := Started(Err(InitializationFailed(w.id, reason)))],
        queue := [StartChild(w, 1), ChildTerminated(w.id, Abnormal)], reported := {|spec.children|})
  }

  lemma ServedOnce(spec: SupervisorSpec, start: Instant, w: WorkerSpec, timeout: Duration, reason: string)
    requires forall i :: 0 <= i < |spec.children| ==> spec.children[i].Id() != w.id
    ensures var w2, step, report := Asked(spec, start, w, timeout), Handle(start, Failed(reason)), Report(|spec.children|, Abnormal);
      && Enabled(w2, step) && Enabled(Next(w2, step), report)
      && Next(Next(w2, step), report) == FailedOnce(spec, start, w, timeout, reason)
      && Feasibility.Likely(Next(w2, step), report, spec, start)
  {
    hide Serve, Answer;
    var env := Env(start, start, Failed(reason));
    Unlisted(spec, start, w.id);
    FailedStartChangesNothing(Init(spec, start), w, timeout, 0, env);
    ReportsFailure(spec, start, w, timeout, reason);
  }

  lemma ReportsFailure(spec: SupervisorSpec, start: Instant, w: WorkerSpec, timeout: Duration, reason: string)
    requires w.id !in Ids(Init(spec, start).children)
    ensures var served := [Delivery(StartChildLinked(w, timeout, 0), Env(start, start, Failed(reason)))];
      Feasibility.FailedAt(served, spec, start, |spec.children|, 0)
  {
    ListedIff(Init(spec, start).children, w.id);
    var served := [Delivery(StartChildLinked(w, timeout, 0), Env(start, start, Failed(reason)))];
    assert served[..0] == [] && ServeAll(Init(spec, start), []) == Init(spec, start);
  }

  lemma Unlisted(spec: SupervisorSpec, start: Instant, id: ChildId)
    requires forall i :: 0 <= i < |spec.children| ==> spec.children[i].Id() != id
    ensures id !in Ids(Init(spec, start).children)
  {
    var children := Init(spec, start).children;
    assert forall i :: 0 <= i < |children| ==> Ids(children)[i] == spec.children[i].Id();
  }

  lemma ServedTwice(spec: SupervisorSpec, start: Instant, w: WorkerSpec, timeout: Duration, reason: string)
    requires w.restartPolicy != Temporary && forall i :: 0 <= i < |spec.children| ==> spec.children[i].Id() != w.id
    ensures var w4, step := FailedOnce(spec, start, w, timeout, reason), Handle(start, Ready);
      && Enabled(w4, step) && Enabled(Next(w4, step), step)
      && var w6 := Next(Next(w4, step), step);
         && w6.replies == map[0 := Started(Err(InitializationFailed(w.id, reason))), 1 := Started(Ok(w.id))]
         && w6.sup.recent == [start]
  {
    hide Serve, Answer;
    var env, next := Env(start, start, Failed(reason)), Env(start, start, Ready);
    Unlisted(spec, start, w.id);
    FailedStartChangesNothing(Init(spec, start), w, timeout, 0, env);
    FailedStartCountsAgainstSuccessor(Init(spec, start), w, timeout, 0, env, next, next);
  }
}
