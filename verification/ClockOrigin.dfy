/** While the clock reads less than a window the restart limit does not hold: a run with as many
    restarts, one nanosecond apart, as the window has nanoseconds. */
module ClockOrigin {
  import opened Types
  import opened Restart
  import opened Spec
  import opened Supervision
  import opened Identity
  import opened World
  import opened Escalation
  import Feasibility
  import GivingUp

  const CRASHING := Worker(WorkerSpec("w", Plain(0), Permanent))

  /** One worker that is restarted without delay. */
  function Sole(intensity: RestartIntensity): SupervisorSpec {
    SupervisorSpec("sup", [CRASHING], OneForOne, intensity, RestartBackoff(0, 0), 0)
  }

  function UpTo(n: nat): seq<nat> {
    seq(n, i => i + 1)
  }

  /** The worker was restarted at each reading up to `n`, and task number `n` runs. */
  ghost predicate Restarted(w: World, spec: SupervisorSpec, n: nat) {
    && w.now == n && w.queue == [] && w.sup.spec == spec && w.sup.exit == None
    && w.sup.children == [Child(CRASHING, n)] && |w.sup.spawned| == n + 1 && w.sup.spawned[n] == CRASHING
    && (forall t :: t in w.reported ==> t < n)
    && (forall t :: t in w.sup.recent ==> t <= n)
    && GrantTimes(w.sup.journal) == UpTo(n)
  }

  lemma NextRestart(w: World, intensity: RestartIntensity, n: nat)
    requires Restarted(w, Sole(intensity), n) && intensity.maxRestarts > 0 && n + 1 < intensity.Window()
    ensures Enabled(w, Tick(n + 1)) && Enabled(Next(w, Tick(n + 1)), Report(n, Abnormal))
    ensures Enabled(Next(Next(w, Tick(n + 1)), Report(n, Abnormal)), Handle(n + 1, Ready))
    ensures Restarted(Next(Next(Next(w, Tick(n + 1)), Report(n, Abnormal)), Handle(n + 1, Ready)), Sole(intensity), n + 1)
  {
    hide Serve, Answer, GrantTimes;
    assert w.sup.spawned[n].Id() == "w";
    Served(w.sup, intensity, n);
    assert UpTo(n + 1) == UpTo(n) + [n + 1];
  }

  lemma Served(s: Sup, intensity: RestartIntensity, n: nat)
    requires s.spec == Sole(intensity) && s.exit == None && s.children == [Child(CRASHING, n)] && |s.spawned| == n + 1
    requires (forall t :: t in s.recent ==> t <= n) && intensity.maxRestarts > 0 && n + 1 < intensity.Window()
    ensures var s' := Serve(s, ChildTerminated("w", Abnormal), Env(n + 1, n + 1, Ready));
      && s'.spec == s.spec && s'.exit == None && s'.children == [Child(CRASHING, n + 1)]
      && s'.spawned == s.spawned + [CRASHING] && s'.recent == [n + 1]
      && GrantTimes(s'.journal) == GrantTimes(s.journal) + [n + 1]
  {
    hide Serve, GrantTimes, Worthy, Since;
    var env := Env(n + 1, n + 1, Ready);
    var d := Delivery(ChildTerminated("w", Abnormal), env);
    assert s.children[0].Id() == "w";
    FailureWorthy(s, d);
    GrantedNearClockOrigin(s, d);
    GivingUp.FailureAlone(s, Abnormal, env);
    assert RestartBackoff(0, 0).DelayForAttempt(AttemptAt(RestartBackoff(0, 0), Lookup(s.table, "w"), n + 1)) == 0;
  }

  lemma FailureWorthy(s: Sup, d: Delivery)
    requires |s.children| == 1 && s.children[0].spec == CRASHING && d.command == ChildTerminated("w", Abnormal)
    ensures Worthy(s, d)
  {
    assert s.children[0].Id() == "w";
  }

  /** Against any limit, and in any window longer than `n`: the worker fails and is restarted at
      each of the readings 1 to `n`, task after task, and the supervisor never gives up. */
  lemma {:induction false} LimitOverrun(intensity: RestartIntensity, n: nat) returns (steps: seq<Step>)
    requires intensity.maxRestarts > 0 && n < intensity.Window()
    ensures var spec := Sole(intensity);
      && Legal(Opening(spec, 0), steps) && Feasibility.AllLikely(spec, 0, steps)
      && Restarted(After(Opening(spec, 0), steps), spec, n)
  {
    hide Restarted, Opening, Next, Enabled, Feasibility.Likely, Feasibility.AllLikely;
    var spec := Sole(intensity);
    if n == 0 {
      Feasibility.NoSteps(spec, 0);
      steps := [];
      Unstarted(intensity);
    } else {
      steps := LimitOverrun(intensity, n - 1);
      var w := After(Opening(spec, 0), steps);
      NextRestart(w, intensity, n - 1);
      FailureLikely(w, intensity, n - 1);
      steps := Feasibility.ExtendQuietly(spec, 0, steps, Tick(n));
      steps := Feasibility.ExtendLikely(spec, 0, steps, Report(n - 1, Abnormal));
      steps := Feasibility.ExtendQuietly(spec, 0, steps, Handle(n, Ready));
    }
  }

  lemma Unstarted(intensity: RestartIntensity)
    ensures Restarted(Opening(Sole(intensity), 0), Sole(intensity), 0)
  {
    assert Init(Sole(intensity), 0).children == [Child(CRASHING, 0)];
  }

  lemma FailureLikely(w: World, intensity: RestartIntensity, n: nat)
    requires Restarted(w, Sole(intensity), n) && n < INSTANT_MAX && Enabled(w, Tick(n + 1))
    requires Enabled(Next(w, Tick(n + 1)), Report(n, Abnormal))
    ensures Feasibility.Likely(Next(w, Tick(n + 1)), Report(n, Abnormal), Sole(intensity), 0)
  {
    hide GrantTimes, Feasibility.FailedStart;
    assert w.sup.children[0] in w.sup.children;
  }

  /** So the limit is overrun in a run of the supervisor with its tasks: more restarts than any
      limit, all within one window. */
  lemma LimitOverrunNearClockOrigin(intensity: RestartIntensity) returns (steps: seq<Step>)
    requires 0 < intensity.maxRestarts < intensity.Window() - 1
    ensures Legal(Opening(Sole(intensity), 0), steps) && Feasibility.Happens(Sole(intensity), 0, steps)
    ensures var times := GrantTimes(After(Opening(Sole(intensity), 0), steps).sup.journal);
      && |times| == intensity.maxRestarts + 1
      && forall i :: 0 <= i < |times| ==> 0 < times[i] < intensity.Window()
  {
    hide GrantTimes, Legal, Opening, After, Feasibility.Happens, Feasibility.AllLikely;
    steps := LimitOverrun(intensity, intensity.maxRestarts + 1);
    SoleIsUnique(intensity);
    Feasibility.LikelyHappens(Sole(intensity), 0, steps);
  }

  lemma SoleIsUnique(intensity: RestartIntensity)
    ensures UniqueSpecIds(Sole(intensity))
  {
  }
}
