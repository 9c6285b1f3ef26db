/** Whom a report is charged to. A report names a child, not a task, so one that is served late
    can meet another generation of its child. */
module Reports {
  import opened Types
  import opened Restart
  import opened Spec
  import opened Supervision
  import opened Identity
  import opened World
  import Feasibility
  import Generations
  import LinkedStart
  import Requests

  // ---- Who posted what ----

  function Posted(w: World, step: Step): seq<Option<TaskId>> {
    if !Running(w) then []
    else
      match step
      case Report(task, _) => [Some(task)]
      case Tick(_) => []
      case Handle(_, _) => []
      case _ => [None]
  }

  /** For each command ever queued, in order: the task whose report it is, if it is one. */
  ghost function Senders(w: World, steps: seq<Step>): seq<Option<TaskId>>
    requires Legal(w, steps)
    decreases |steps|
  {
    if steps == [] then []
    else Senders(w, steps[..|steps| - 1]) + Posted(After(w, steps[..|steps| - 1]), steps[|steps| - 1])
  }

  /** Each command that is served or waits was posted by its sender. */
  ghost predicate Attributed(w: World, senders: seq<Option<TaskId>>) {
    && |Requests.Line(w)| <= |senders|
    && (Running(w) ==> |Requests.Line(w)| == |senders|)
    && (forall i :: 0 <= i < |Requests.Line(w)| ==>
          match senders[i]
          case Some(t) =>
            && t < |w.sup.spawned| && t in w.reported && Requests.Line(w)[i].ChildTerminated?
            && Requests.Line(w)[i].id == w.sup.spawned[t].Id()
          case None => !Requests.Line(w)[i].ChildTerminated?)
    && (forall i, j :: 0 <= i < j < |senders| && senders[i].Some? ==> senders[i] != senders[j])
    && (forall i :: 0 <= i < |senders| && senders[i].Some? ==> senders[i].value in w.reported)
  }

  lemma HandleKeepsAttributed(w: World, step: Step, senders: seq<Option<TaskId>>)
    requires Attributed(w, senders) && Enabled(w, step) && step.Handle?
    ensures Attributed(Next(w, step), senders)
  {
    hide Serve, Answer;
    var w' := Next(w, step);
    var d := HeadDelivery(w, step.later, step.init);
    Generations.HistoryGrows(w.sup, d.command, d.env);
    var line := Requests.Line(w);
    assert Requests.Commands(w.served + [d]) == Requests.Commands(w.served) + [w.queue[0]];
    assert line == Requests.Commands(w.served) + [w.queue[0]] + w.queue[1..];
    assert Requests.Line(w') <= line;
  }

  lemma PostKeepsAttributed(w: World, step: Step, senders: seq<Option<TaskId>>)
    requires Attributed(w, senders) && Enabled(w, step) && !step.Handle?
    ensures Attributed(Next(w, step), senders + Posted(w, step))
  {
    var w' := Next(w, step);
    if w'.queue != w.queue {
      assert Requests.Line(w') == Requests.Line(w) + [w'.queue[|w.queue|]];
    } else {
      assert Requests.Line(w') == Requests.Line(w);
    }
  }

  lemma {:induction false} RunKeepsAttributed(spec: SupervisorSpec, start: Instant, steps: seq<Step>)
    requires Legal(Opening(spec, start), steps)
    ensures Attributed(After(Opening(spec, start), steps), Senders(Opening(spec, start), steps))
    decreases |steps|
  {
    if steps == [] {
      assert Attributed(Opening(spec, start), []);
    } else {
      hide Attributed, Next, Enabled, Opening;
      var front, last := steps[..|steps| - 1], steps[|steps| - 1];
      var w := After(Opening(spec, start), front);
      RunKeepsAttributed(spec, start, front);
      if last.Handle? {
        HandleKeepsAttributed(w, last, Senders(Opening(spec, start), front));
        assert Posted(w, last) == [];
      } else {
        PostKeepsAttributed(w, last, Senders(Opening(spec, start), front));
      }
    }
  }

  // ---- Where a report ends up ----

  datatype Fate = Own | Other | Nobody

  /** Whom the supervisor holds a failure reported under `id` against. */
  function Charged(s: Sup, id: ChildId, task: TaskId): Fate {
    match Position(s.children, id)
    case None => Nobody
    case Some(p) => if s.children[p].task == task then Own else Other
  }

  /** In every run, when the report of task `t` is served, it is held against `t` itself exactly
      when `t` has not been released, and against another generation exactly when `t` has been
      released and its id is listed; otherwise, and if it tells of a deliberate stop, it is ignored. */
  lemma ReportFate(spec: SupervisorSpec, start: Instant, steps: seq<Step>, t: TaskId, env: Env)
    requires UniqueSpecIds(spec) && Legal(Opening(spec, start), steps)
    requires var w := After(Opening(spec, start), steps);
      && Running(w) && w.queue != []
      && |w.served| < |Senders(Opening(spec, start), steps)|
      && Senders(Opening(spec, start), steps)[|w.served|] == Some(t)
    ensures var w := After(Opening(spec, start), steps); var s := w.sup;
      && t < |s.spawned| && w.queue[0].ChildTerminated? && w.queue[0].id == s.spawned[t].Id()
      && var id, reason := w.queue[0].id, w.queue[0].reason;
         var released := Generations.Releases(s.trace, t) > 0;
         && (Charged(s, id, t) == Own <==> !released)
         && (Charged(s, id, t) == Other <==> released && id in Ids(s.children))
         && (Charged(s, id, t) == Nobody || reason == Shutdown <==>
               LinkedStart.Visible(Serve(s, w.queue[0], env)) == LinkedStart.Visible(s))
  {
    hide Opening, After, Legal, Init, ServeAll, Senders, Generations.Releases, Generations.Live, Serve;
    hide Generations.Orderly, Generations.SpawnedBy, Ids, LinkedStart.Visible;
    var w := After(Opening(spec, start), steps);
    RunKeepsAttributed(spec, start, steps);
    WorldFollows(spec, start, steps);
    assert Requests.Line(w)[|w.served|] == w.queue[0];
    Generations.EveryTaskAccountedFor(spec, start, w.served, t);
    IdsStayUnique(spec, start, w.served);
    ListedIff(w.sup.children, w.queue[0].id);
    LinkedStart.ReportIgnoredIff(w.sup, w.queue[0].id, w.queue[0].reason, env);
    OwnerFound(w.sup, t);
  }

  /** A listed task is found under its id. */
  lemma OwnerFound(s: Sup, t: TaskId)
    requires UniqueIds(s.children) && Generations.OwnTasks(s.children, s.spawned) && t < |s.spawned|
    ensures Generations.Owned(s.children, t)
       <==> Position(s.children, s.spawned[t].Id()).Some?
            && s.children[Position(s.children, s.spawned[t].Id()).value].task == t
  {
    hide Position;
    var id := s.spawned[t].Id();
    var found := Position(s.children, id);
    if Generations.Owned(s.children, t) {
      var c :| c in s.children && c.task == t;
      var i :| 0 <= i < |s.children| && s.children[i] == c;
      assert Ids(s.children)[i] == id;
      assert forall j :: 0 <= j < |s.children| ==> Ids(s.children)[j] == s.children[j].Id();
    } else if found.Some? {
      assert s.children[found.value] in s.children;
    }
  }

  // ---- Such runs exist ----

  /** A worker fails while a request to terminate it waits, and is started again under its id. */
  function Replaced(start: Instant, w: WorkerSpec, again: WorkerSpec): seq<Step> {
    [Ask(TerminateChild(w.id, 0)), Ask(StartChild(again, 1)), Report(0, Abnormal),
     Handle(start, Ready), Handle(start, Ready), Handle(start, Ready)]
  }

  ghost predicate FirstIs(spec: SupervisorSpec, w: WorkerSpec) {
    UniqueSpecIds(spec) && spec.children != [] && spec.children[0] == Worker(w)
  }

  /** The report of the old task is then charged to the new one, under every supervisor that lists
      `w` first, whatever its settings. */
  lemma StaleReportCharged(spec: SupervisorSpec, start: Instant, w: WorkerSpec, again: WorkerSpec)
    requires FirstIs(spec, w) && again.id == w.id && again.restartPolicy != Temporary
    ensures var w0, steps := Opening(spec, start), Replaced(start, w, again);
      && Legal(w0, steps) && Feasibility.AllLikely(spec, start, steps)
      && After(w0, steps).replies == map[0 := Terminated(Ok(())), 1 := Started(Ok(w.id))]
      && After(w0, steps).sup.recent == [start]
  {
    hide Legal, After, Enabled, Next, Opening, FirstIs, Feasibility.Likely, Feasibility.AllLikely, Asked;
    var w0 := Opening(spec, start);
    var first, second, last := Ask(TerminateChild(w.id, 0)), Ask(StartChild(again, 1)), Handle(start, Ready);
    Feasibility.NoSteps(spec, start);
    AllAsked(spec, start, w, again);
    var steps := Feasibility.ExtendQuietly(spec, start, [], first);
    steps := Feasibility.ExtendQuietly(spec, start, steps, second);
    steps := Feasibility.ExtendLikely(spec, start, steps, Report(0, Abnormal));
    AllServed(spec, start, w, again);
    steps := Feasibility.ExtendQuietly(spec, start, steps, last);
    steps := Feasibility.ExtendQuietly(spec, start, steps, last);
    steps := Feasibility.ExtendQuietly(spec, start, steps, last);
    assert steps == Replaced(start, w, again);
  }

  /** ... and the tasks can follow it. */
  lemma StaleReportChargedWithTasks(spec: SupervisorSpec, start: Instant, w: WorkerSpec, again: WorkerSpec)
    requires FirstIs(spec, w) && again.id == w.id && again.restartPolicy != Temporary
    ensures var steps := Replaced(start, w, again);
      Legal(Opening(spec, start), steps) && Feasibility.Happens(spec, start, steps)
  {
    hide Legal, After, Opening, Feasibility.AllLikely, Feasibility.Happens;
    StaleReportCharged(spec, start, w, again);
    Feasibility.LikelyHappens(spec, start, Replaced(start, w, again));
  }

  function Asked(spec: SupervisorSpec, start: Instant, w: WorkerSpec, again: WorkerSpec): World {
    Opening(spec, start).(queue := [TerminateChild(w.id, 0), StartChild(again, 1), ChildTerminated(w.id, Abnormal)],
                          asked := 2, reported := {0})
  }

  lemma AllAsked(spec: SupervisorSpec, start: Instant, w: WorkerSpec, again: WorkerSpec)
    requires FirstIs(spec, w)
    ensures var w0, first, second := Opening(spec, start), Ask(TerminateChild(w.id, 0)), Ask(StartChild(again, 1));
      && Enabled(w0, first) && Enabled(Next(w0, first), second)
      && Enabled(Next(Next(w0, first), second), Report(0, Abnormal))
      && Next(Next(Next(w0, first), second), Report(0, Abnormal)) == Asked(spec, start, w, again)
      && Feasibility.Likely(Next(Next(w0, first), second), Report(0, Abnormal), spec, start)
  {
    hide Feasibility.FailedStart;
    assert Init(spec, start).children[0] in Init(spec, start).children;
  }

  lemma AllServed(spec: SupervisorSpec, start: Instant, w: WorkerSpec, again: WorkerSpec)
    requires FirstIs(spec, w) && again.id == w.id && again.restartPolicy != Temporary
    ensures var w3, step := Asked(spec, start, w, again), Handle(start, Ready);
      && Enabled(w3, step) && Enabled(Next(w3, step), step) && Enabled(Next(Next(w3, step), step), step)
      && var w6 := Next(Next(Next(w3, step), step), step);
         && w6.replies == map[0 := Terminated(Ok(())), 1 := Started(Ok(w.id))]
         && w6.sup.recent == [start]
  {
    hide Serve, Answer;
    ServedInTurn(spec, start, w, again, Env(start, start, Ready));
  }

  lemma ServedInTurn(spec: SupervisorSpec, start: Instant, w: WorkerSpec, again: WorkerSpec, env: Env)
    requires FirstIs(spec, w) && again.id == w.id && again.restartPolicy != Temporary && env.now == start
    ensures var s := Init(spec, start); var c1, c2 := TerminateChild(w.id, 0), StartChild(again, 1);
      var s1 := Serve(s, c1, env); var s2 := Serve(s1, c2, env);
      && s1.exit == None && s2.exit == None
      && Answer(s, c1, env) == Some(Terminated(Ok(()))) && Answer(s1, c2, env) == Some(Started(Ok(w.id)))
      && Serve(s2, ChildTerminated(w.id, Abnormal), env).recent == [start]
  {
    hide Serve, Answer, UniqueIds;
    var s := Init(spec, start);
    IdsStayUnique(spec, start, []);
    assert ServeAll(s, []) == s;
    assert Ids(s.children)[0] == w.id;
    Requests.TerminateAnsweredIff(s, w.id, 0, env);
    var s1 := Serve(s, TerminateChild(w.id, 0), env);
    Requests.StartAnsweredIff(s1, again, 0, 1, env, false);
    var s2 := Serve(s1, StartChild(again, 1), env);
    Untouched(s, w.id, again, env);
    LinkedStart.FoundLast(s1.children, Child(Worker(again), |s1.spawned|));
    LinkedStart.CarriedWorthy(s2, |s1.children|, env);
    FailureCarried(s2, w.id, |s1.children|, env);
  }

  lemma Untouched(s: Sup, id: ChildId, again: WorkerSpec, env: Env)
    ensures var s1 := Serve(s, TerminateChild(id, 0), env); var s2 := Serve(s1, StartChild(again, 1), env);
      s1.exit == s.exit && s2.exit == s.exit && s1.recent == s.recent && s2.recent == s.recent && s2.spec == s.spec
  {
  }

  lemma FailureCarried(s: Sup, id: ChildId, p: nat, env: Env)
    requires Position(s.children, id) == Some(p)
    ensures Serve(s, ChildTerminated(id, Abnormal), env) == Carry(s, p, JudgeAt(s, p, Abnormal, env), env)
  {
    hide Carry;
  }
}
