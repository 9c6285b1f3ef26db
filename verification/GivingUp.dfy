/** When a chain of supervisors over one worker can give up: exactly when at every level the
    failures of the fastest crash loop fit the window. */
module GivingUp {
  import opened Types
  import opened Restart
  import opened Backoff
  import opened Spec
  import opened SupervisorCommon
  import opened Supervision
  import opened Identity
  import opened World
  import opened Tree
  import Pacing

  // ---- The fastest crash loop ----

  function NextAttempt(a: U32): U32 {
    Min(a + 1, U32_MAX)
  }

  /** Least time that a child takes to be restarted `n` more times and to fail once more, if each
      of its lives lasts at least `life` and its next delay is the one for attempt `a`. Running
      for the whole ceiling starts the delays over, so running longer can be faster in the end. */
  function Fastest(b: RestartBackoff, life: nat, n: nat, a: U32): nat
    decreases n
  {
    if n == 0 then life
    else
      var over := (if life < b.maxDelay then b.maxDelay else life)
                  + b.DelayForAttempt(0) + Fastest(b, life, n - 1, NextAttempt(0));
      if life < b.maxDelay
      then Min(life + b.DelayForAttempt(a) + Fastest(b, life, n - 1, NextAttempt(a)), over)
      else over
  }

  /** Least time in which a chain can give up. */
  function CrashTime(spec: ChildSpec): nat
    requires IsChain(spec)
  {
    match spec
    case Worker(_) => 0
    case Supervisor(s) => Fastest(s.restartBackoff, CrashTime(s.children[0]), s.restartIntensity.maxRestarts, 0)
  }

  /** Time between the first failure of the fastest crash loop and the last. */
  function Span(b: RestartBackoff, life: nat, n: nat): nat {
    if n == 0 then 0 else b.DelayForAttempt(0) + Fastest(b, life, n - 1, NextAttempt(0))
  }

  /** Whether a failure of the child can ask for a restart. */
  predicate Restartable(spec: ChildSpec) {
    spec.Worker? ==> spec.worker.restartPolicy != Temporary
  }

  /** One-for-one, a worker that is restarted when it fails, and at each level a window that the
      failures of the fastest crash loop fit. */
  predicate CanGiveUp(spec: ChildSpec)
    requires IsChain(spec)
  {
    match spec
    case Worker(w) => Restartable(spec)
    case Supervisor(s) =>
      && s.restartStrategy == OneForOne && CanGiveUp(s.children[0])
      && Span(s.restartBackoff, CrashTime(s.children[0]), s.restartIntensity.maxRestarts) <= s.restartIntensity.Window()
  }

  /** ... with a window at each level that the whole crash loop fits, from its start on. */
  predicate FitsWindows(spec: ChildSpec)
    requires IsChain(spec)
  {
    match spec
    case Worker(w) => true
    case Supervisor(s) => FitsWindows(s.children[0]) && CrashTime(spec) <= s.restartIntensity.Window()
  }

  // ---- Time between the levels ----

  /** The clock when the task that a command starts is started: after the decision that grants
      it, or after the command is taken from the queue. */
  function SpawnTime(w: World, later: Instant): Instant
    requires w.queue != []
  {
    if w.queue[0].ChildTerminated? then later else w.now
  }

  ghost predicate StartsFrom(tasks: seq<Life>, t: TaskId, time: Instant) {
    t < |tasks| && (tasks[t].SupervisorLife? ==> time <= tasks[t].start)
  }

  ghost predicate Ends(tasks: seq<Life>, t: TaskId, time: Instant) {
    t < |tasks| && (tasks[t].SupervisorLife? ==> Happened(tasks[t]) && End(tasks[t]).now <= time)
  }

  /** A life starts no earlier than it is spawned, and has ended when it is reported. */
  ghost predicate StepTimed(w: World, step: Step, tasks: seq<Life>)
    requires Enabled(w, step)
  {
    match step
    case Report(t, _) => Ends(tasks, t, w.now)
    case Handle(later, _) =>
      forall t :: |w.sup.spawned| <= t < |Next(w, step).sup.spawned| ==> StartsFrom(tasks, t, SpawnTime(w, later))
    case _ => true
  }

  ghost predicate RunTimed(spec: SupervisorSpec, start: Instant, steps: seq<Step>, tasks: seq<Life>)
    requires Legal(Opening(spec, start), steps)
    decreases |steps|
  {
    if steps == [] then forall t :: 0 <= t < |spec.children| ==> StartsFrom(tasks, t, start)
    else
      && RunTimed(spec, start, steps[..|steps| - 1], tasks)
      && StepTimed(After(Opening(spec, start), steps[..|steps| - 1]), steps[|steps| - 1], tasks)
  }

  ghost predicate AllTimed(life: Life)
    decreases life
  {
    life.SupervisorLife? ==>
      && Happened(life) && RunTimed(life.spec, life.start, life.steps, life.tasks)
      && (forall t :: 0 <= t < |life.tasks| ==> AllTimed(life.tasks[t]))
  }

  /** A life of the chain, of any length, that gives up. */
  ghost predicate GivesUp(life: Life, spec: ChildSpec) {
    LifeOf(life, spec) && AllFree(life) && AllTimed(life) && GaveUp(life)
  }

  ghost function LengthOf(life: Life): int
    requires life.SupervisorLife? ==> Happened(life)
  {
    if life.SupervisorLife? then End(life).now - life.start else 0
  }

  // ---- No life is faster ----

  /** One more failure, at `f`: whichever way the delays go on, no time is gained. */
  lemma NoGain(b: RestartBackoff, life: nat, n: nat, a: U32, began: nat, f: nat)
    requires n > 0 && began + life <= f
    ensures var attempt := if f - began >= b.maxDelay then 0 else a;
      began + Fastest(b, life, n, a) <= f + b.DelayForAttempt(attempt) + Fastest(b, life, n - 1, NextAttempt(attempt))
  {
  }

  /** Later attempts never make the crash loop faster. */
  lemma {:induction false} FastestMonotone(b: RestartBackoff, life: nat, n: nat, a1: U32, a2: U32)
    requires a1 <= a2
    ensures Fastest(b, life, n, a1) <= Fastest(b, life, n, a2)
    decreases n
  {
    if n > 0 {
      hide RestartBackoff.DelayForAttempt;
      DelayMonotone(b, a1, a2);
      FastestMonotone(b, life, n - 1, NextAttempt(a1), NextAttempt(a2));
    }
  }

  /** From the start to the last failure: one life, and then the span. */
  lemma FastestFromStart(b: RestartBackoff, life: nat, n: nat)
    ensures Fastest(b, life, n, 0) == life + Span(b, life, n)
  {
  }

  /** Each failed life of the single child `c` lasts at least `least`. */
  ghost predicate Lasting(tasks: seq<Life>, failed: set<TaskId>, c: ChildSpec, least: nat) {
    && (c.Worker? ==> least == 0)
    && (c.Supervisor? ==> forall t :: t in failed && t < |tasks| ==>
          tasks[t].SupervisorLife? && Happened(tasks[t]) && tasks[t].start + least <= End(tasks[t]).now)
  }

  /** From each failure that is still recorded, what is left of the crash loop takes the rest of
      its span. */
  ghost predicate Owing(b: RestartBackoff, limit: nat, recent: seq<Instant>, least: nat, began: nat, a: U32) {
    |recent| <= limit
    && forall i :: 0 <= i < |recent| ==>
         recent[i] + Span(b, least, limit) <= began + Fastest(b, least, limit - (|recent| - i), a)
  }

  /** What the state says of a crash loop under way: the delays so far, and the time they took.
      `began` is when the current generation starts, or later, and `a` its next attempt. */
  ghost predicate Chasing(w: World, start: Instant, tasks: seq<Life>, least: nat,
                          token: Pacing.Token, began: nat, a: U32)
  {
    var s := w.sup;
    var b, limit := s.spec.restartBackoff, s.spec.restartIntensity.maxRestarts;
    && s.exit == None && |s.spec.children| == 1 && |s.children| == 1 && s.children[0].spec == s.spec.children[0]
    && Pacing.OnlyToken(w, s.spec.children[0].Id(), token)
    && Sorted(s.recent) && (forall i :: 0 <= i < |s.recent| ==> start + least <= s.recent[i] <= w.now)
    && Counting(Lookup(s.table, s.spec.children[0].Id()), |s.recent|, start, began, a) && start <= began
    && Owing(b, limit, s.recent, least, began, a)
    && match token
       case Nothing => true
       case Task(t) => began <= w.now && (t < |tasks| && tasks[t].SupervisorLife? ==> began <= tasks[t].start)
       case Failure(_) => began + least <= w.now
       case Sleeping(i) => i < |s.timers| && began <= s.timers[i].due
       case Message(_) => began <= w.now
  }

  ghost predicate Counting(entry: Option<BackoffState>, grants: nat, start: Instant, began: nat, a: U32) {
    if grants == 0 then entry == None && a == 0 && began == start
    else entry.Some? && entry.value.attempts == a && (began <= INSTANT_MAX ==> entry.value.startedAt == began)
  }

  ghost predicate Racing(w: World, start: Instant, tasks: seq<Life>, least: nat) {
    var s := w.sup;
    || (s.children == [] && s.exit != Some(Abnormal))
    || (s.exit == Some(Abnormal) && |s.spec.children| == 1 && Restartable(s.spec.children[0])
        && Span(s.spec.restartBackoff, least, s.spec.restartIntensity.maxRestarts) <= s.spec.restartIntensity.Window()
        && start + Fastest(s.spec.restartBackoff, least, s.spec.restartIntensity.maxRestarts, 0) <= w.now)
    || (exists token, began, a :: Chasing(w, start, tasks, least, token, began, a))
  }

  lemma PostKeepsRacing(w: World, step: Step, start: Instant, tasks: seq<Life>, failed: set<TaskId>, least: nat)
    requires Static(w) && Racing(w, start, tasks, least) && Enabled(w, step) && !step.Handle?
    requires StepTimed(w, step, tasks) && |w.sup.spec.children| == 1 && Lasting(tasks, failed, w.sup.spec.children[0], least)
    requires step.Report? && step.reason != Shutdown ==> step.task in failed
    ensures Racing(Next(w, step), start, tasks, least)
  {
    hide Pacing.OnlyToken, Fastest, Span, Owing, Pacing.AllOneForOne;
    var w' := Next(w, step);
    if token, began, a :| Chasing(w, start, tasks, least, token, began, a) {
      Pacing.PostMovesToken(w, step, w.sup.spec.children[0].Id(), token);
      PostKeepsChasing(w, step, start, tasks, failed, least, token, began, a);
      assert Chasing(w', start, tasks, least, Pacing.TokenAfterPost(w, step, w.sup.spec.children[0].Id(), token), began, a);
    }
  }

  lemma PostKeepsChasing(w: World, step: Step, start: Instant, tasks: seq<Life>, failed: set<TaskId>, least: nat,
                         token: Pacing.Token, began: nat, a: U32)
    requires Static(w) && Chasing(w, start, tasks, least, token, began, a) && Enabled(w, step) && !step.Handle?
    requires StepTimed(w, step, tasks) && Lasting(tasks, failed, w.sup.spec.children[0], least)
    requires step.Report? && step.reason != Shutdown ==> step.task in failed
    requires var id := w.sup.spec.children[0].Id();
      Pacing.OnlyToken(Next(w, step), id, Pacing.TokenAfterPost(w, step, id, token))
    ensures Chasing(Next(w, step), start, tasks, least,
                    Pacing.TokenAfterPost(w, step, w.sup.spec.children[0].Id(), token), began, a)
  {
    hide Fastest, Span, Owing, Counting, Happened, End, After, Legal;
    if step.Report? {
      assert w.sup.spawned[step.task] == w.sup.spec.children[0];
      assert token == Pacing.Task(step.task);
    }
  }

  // ---- Serving a command of a supervisor with a single child ----

  lemma Found(s: Sup)
    requires |s.children| == 1
    ensures Position(s.children, s.children[0].Id()) == Some(0)
  {
  }

  lemma OtherAlone(s: Sup, c: Command, env: Env)
    requires |s.children| == 1 && s.exit == None && StartedId(c) == None
    requires !Pacing.IsFailure(c, s.children[0].Id()) && !Pacing.IsRestart(c, s.children[0].Id())
    ensures var s' := Serve(s, c, env);
      || (s'.children == [] && s'.exit != Some(Abnormal))
      || (s'.children == s.children && s'.recent == s.recent && s'.table == s.table && s'.timers == s.timers
          && s'.spawned == s.spawned && s'.exit == None && s'.spec == s.spec)
  {
    hide Restart.Since, ApplyRestart;
  }

  lemma RestartAlone(s: Sup, env: Env)
    requires |s.children| == 1 && s.exit == None
    ensures var c := s.children[0]; var s' := Serve(s, RestartChild(c.Id(), OneForOne), env);
      && s'.children == [Child(c.spec, |s.spawned|)] && s'.spawned == s.spawned + [c.spec]
      && s'.recent == s.recent && s'.table == s.table && s'.timers == s.timers && s'.exit == None && s'.spec == s.spec
  {
    Found(s);
  }

  /** The restart that a failure of the single child is granted. */
  ghost predicate GrantAlone(s: Sup, s': Sup, env: Env)
    requires |s.children| == 1
  {
    var c := s.children[0];
    var prior := Lookup(s.table, c.Id());
    var delay := DelayAt(s.spec.restartBackoff, prior, env.later);
    && s'.exit == None && s'.spec == s.spec
    && s'.children == (if delay == 0 then [Child(c.spec, |s.spawned|)] else s.children)
    && s'.recent == Since(s.recent, s.spec.restartIntensity.Cutoff(env.now)) + [env.now]
    && |s'.recent| <= s.spec.restartIntensity.maxRestarts
    && Lookup(s'.table, c.Id()) == Some(StateAfter(s.spec.restartBackoff, prior, env.later))
    && if delay == 0 then s'.spawned == s.spawned + [c.spec] && s'.timers == s.timers
       else s'.spawned == s.spawned && s'.timers == s.timers + [Timer(c.Id(), OneForOne, env.later + delay)]
  }

  lemma FailureAlone(s: Sup, reason: ChildExitReason, env: Env)
    requires |s.children| == 1 && s.exit == None && s.spec.restartStrategy == OneForOne && reason != Shutdown
    ensures var s' := Serve(s, ChildTerminated(s.children[0].Id(), reason), env);
      || (s'.children == [] && s'.exit == None && !RestartWorthy(s.children[0].spec.RestartPolicyForDecision(), reason))
      || (s'.exit == Some(Abnormal) && s'.spec == s.spec && s'.spawned == s.spawned && Restartable(s.children[0].spec)
          && |Since(s.recent, s.spec.restartIntensity.Cutoff(env.now))| + 1 > s.spec.restartIntensity.maxRestarts)
      || GrantAlone(s, s', env)
  {
    hide Since, AttemptAt, StateAfter, RestartBackoff.DelayForAttempt;
    Found(s);
  }

  // ---- The token when a command is served ----

  ghost predicate Taken(w: World, w': World) {
    && w.queue != [] && w'.queue == w.queue[1..] && w'.reported == w.reported && w'.fired == w.fired
  }

  lemma NothingAdded(w: World, w': World, id: ChildId, token: Pacing.Token)
    requires Pacing.OnlyToken(w, id, token) && Taken(w, w')
    requires w'.sup.spawned == w.sup.spawned && w'.sup.timers == w.sup.timers
    ensures Pacing.OnlyToken(w', id, Pacing.Shift(token))
  {
    assert forall i :: 0 <= i < |w'.queue| ==> w'.queue[i] == w.queue[i + 1];
  }

  lemma TaskAdded(w: World, w': World, id: ChildId, token: Pacing.Token, spec: ChildSpec)
    requires Pacing.OnlyToken(w, id, token) && Taken(w, w') && (token == Pacing.Failure(0) || token == Pacing.Message(0))
    requires w'.sup.spawned == w.sup.spawned + [spec] && w'.sup.timers == w.sup.timers
    ensures Pacing.OnlyToken(w', id, Pacing.Task(|w.sup.spawned|))
  {
    assert forall i :: 0 <= i < |w'.queue| ==> w'.queue[i] == w.queue[i + 1];
    assert forall t :: 0 <= t < |w.sup.spawned| ==> w'.sup.spawned[t] == w.sup.spawned[t];
  }

  lemma TimerAdded(w: World, w': World, id: ChildId, timer: Timer)
    requires Pacing.OnlyToken(w, id, Pacing.Failure(0)) && Taken(w, w')
    requires w'.sup.spawned == w.sup.spawned && w'.sup.timers == w.sup.timers + [timer]
    ensures Pacing.OnlyToken(w', id, Pacing.Sleeping(|w.sup.timers|))
  {
    assert forall i :: 0 <= i < |w'.queue| ==> w'.queue[i] == w.queue[i + 1];
    assert forall i :: 0 <= i < |w.sup.timers| ==> w'.sup.timers[i] == w.sup.timers[i];
  }

  // ---- Serving keeps the race ----

  lemma NobodyLeft(s: Sup, c: Command, env: Env)
    requires s.children == [] && s.exit == None && StartedId(c) == None
    ensures Serve(s, c, env).children == [] && Serve(s, c, env).exit != Some(Abnormal)
  {
  }

  /** One more failure: what is owed from each failure still recorded, and from the new one. */
  lemma OwingAfter(b: RestartBackoff, limit: nat, recent: seq<Instant>, least: nat, began: nat, a: U32,
                   recent': seq<Instant>, k: nat, now: Instant, f: Instant)
    requires Owing(b, limit, recent, least, began, a) && k <= |recent| && recent' == recent[k..] + [now]
    requires |recent'| <= limit && now <= f && began + least <= f
    ensures var attempt := if f - began >= b.maxDelay then 0 else a;
      Owing(b, limit, recent', least, f + b.DelayForAttempt(attempt), NextAttempt(attempt))
  {
    hide RestartBackoff.DelayForAttempt, Fastest, Span;
    var attempt: U32 := if f - began >= b.maxDelay then 0 else a;
    var began', n := f + b.DelayForAttempt(attempt), |recent'|;
    forall i | 0 <= i < n
      ensures recent'[i] + Span(b, least, limit) <= began' + Fastest(b, least, limit - (n - i), NextAttempt(attempt))
    {
      if i < n - 1 {
        assert recent'[i] == recent[k + i];
        NoGain(b, least, limit - (|recent| - (k + i)), a, began, f);
      } else {
        SpanAtLeast(b, least, limit, attempt);
      }
    }
  }

  lemma SpanAtLeast(b: RestartBackoff, least: nat, limit: nat, attempt: U32)
    requires limit > 0
    ensures Span(b, least, limit) <= b.DelayForAttempt(attempt) + Fastest(b, least, limit - 1, NextAttempt(attempt))
  {
    hide RestartBackoff.DelayForAttempt;
    DelayMonotone(b, 0, attempt);
    FastestMonotone(b, least, limit - 1, NextAttempt(0), NextAttempt(attempt));
  }

  /** The window forgets the oldest failures only. */
  lemma {:induction false} ForgetsOldest(times: seq<Instant>, cutoff: Instant) returns (k: nat)
    requires Sorted(times)
    ensures k <= |times| && Since(times, cutoff) == times[k..]
  {
    if times != [] && times[0] < cutoff {
      SinceDropsOldHead(times, cutoff);
      k := ForgetsOldest(times[1..], cutoff);
      k := k + 1;
    } else {
      k := 0;
      SinceKeepsRecent(times, cutoff);
      assert times[0..] == times;
    }
  }

  /** What a granted restart leaves to be run. */
  lemma GrantKeepsChasing(w: World, step: Step, start: Instant, tasks: seq<Life>, least: nat,
                          token: Pacing.Token, began: nat, a: U32)
    requires Chasing(w, start, tasks, least, token, began, a) && Enabled(w, step) && step.Handle?
    requires Pacing.IsFailure(w.queue[0], w.sup.spec.children[0].Id())
    requires GrantAlone(w.sup, Next(w, step).sup, Env(w.now, step.later, step.init)) && StepTimed(w, step, tasks)
    ensures Racing(Next(w, step), start, tasks, least)
  {
    hide Pacing.OnlyToken, Fastest, Span, Owing, Serve, Answer, RestartBackoff.DelayForAttempt, Since;
    var s, s', later, w' := w.sup, Next(w, step).sup, step.later, Next(w, step);
    var c, b, id := s.spec.children[0], s.spec.restartBackoff, s.spec.children[0].Id();
    FailureIsToken(w, id, token);
    var attempt := AttemptAt(b, Lookup(s.table, id), later);
    var delay := b.DelayForAttempt(attempt);
    var k := ForgetsOldest(s.recent, s.spec.restartIntensity.Cutoff(w.now));
    AttemptReached(b, Lookup(s.table, id), |s.recent|, start, began, a, later, least);
    OwingAfter(b, s.spec.restartIntensity.maxRestarts, s.recent, least, began, a, s'.recent, k, w.now, later);
    assert Taken(w, w');
    if delay == 0 {
      TaskAdded(w, w', id, token, c);
      assert StartsFrom(tasks, |s.spawned|, SpawnTime(w, later));
      assert Chasing(w', start, tasks, least, Pacing.Task(|s.spawned|), later, NextAttempt(attempt));
    } else {
      TimerAdded(w, w', id, Timer(id, OneForOne, later + delay));
      assert Chasing(w', start, tasks, least, Pacing.Sleeping(|s.timers|), later + delay, NextAttempt(attempt));
    }
  }

  lemma FailureIsToken(w: World, id: ChildId, token: Pacing.Token)
    requires Pacing.OnlyToken(w, id, token) && w.queue != []
    ensures Pacing.IsFailure(w.queue[0], id) ==> token == Pacing.Failure(0)
    ensures Pacing.IsRestart(w.queue[0], id) ==> token == Pacing.Message(0)
  {
  }

  /** Nothing recorded in one window is forgotten. */
  lemma KeepsAll(recent: seq<Instant>, first: nat, intensity: RestartIntensity, now: Instant)
    requires forall i :: 0 <= i < |recent| ==> first <= recent[i]
    requires intensity.Window() <= now <= first + intensity.Window()
    ensures Since(recent, intensity.Cutoff(now)) == recent
  {
    SinceKeepsRecent(recent, intensity.Cutoff(now));
  }

  lemma AttemptReached(b: RestartBackoff, entry: Option<BackoffState>, grants: nat, start: Instant, began: nat, a: U32,
                       f: Instant, least: nat)
    requires Counting(entry, grants, start, began, a) && began + least <= f
    ensures AttemptAt(b, entry, f) == if f - began >= b.maxDelay then 0 else a
  {
  }

  lemma RestartKeepsChasing(w: World, step: Step, start: Instant, tasks: seq<Life>, least: nat,
                            token: Pacing.Token, began: nat, a: U32)
    requires Chasing(w, start, tasks, least, token, began, a) && Enabled(w, step) && step.Handle? && Static(w)
    requires Pacing.IsRestart(w.queue[0], w.sup.spec.children[0].Id()) && StepTimed(w, step, tasks)
    ensures Racing(Next(w, step), start, tasks, least)
  {
    hide Pacing.OnlyToken, Fastest, Span, Owing, Serve, Answer, Counting;
    var s, w', id := w.sup, Next(w, step), w.sup.spec.children[0].Id();
    FailureIsToken(w, id, token);
    assert w.queue[0] == RestartChild(id, OneForOne);
    RestartAlone(s, Env(w.now, step.later, step.init));
    TaskAdded(w, w', id, token, s.spec.children[0]);
    assert StartsFrom(tasks, |s.spawned|, SpawnTime(w, step.later));
    assert Chasing(w', start, tasks, least, Pacing.Task(|s.spawned|), began, a);
  }

  lemma OtherKeepsChasing(w: World, step: Step, start: Instant, tasks: seq<Life>, least: nat,
                          token: Pacing.Token, began: nat, a: U32)
    requires Chasing(w, start, tasks, least, token, began, a) && Enabled(w, step) && step.Handle? && Static(w)
    requires !Pacing.IsFailure(w.queue[0], w.sup.spec.children[0].Id())
    requires !Pacing.IsRestart(w.queue[0], w.sup.spec.children[0].Id())
    ensures Racing(Next(w, step), start, tasks, least)
  {
    hide Pacing.OnlyToken, Fastest, Span, Owing, Serve, Answer, Counting;
    var s, w', id := w.sup, Next(w, step), w.sup.spec.children[0].Id();
    OtherAlone(s, w.queue[0], Env(w.now, step.later, step.init));
    if w'.sup.children != [] {
      NothingAdded(w, w', id, token);
      assert Chasing(w', start, tasks, least, Pacing.Shift(token), began, a);
    }
  }

  /** One failure too many: it comes within a window of the first of as many as the limit. */
  lemma EscalationTakes(w: World, start: Instant, tasks: seq<Life>, least: nat, token: Pacing.Token, began: nat, a: U32)
    requires Chasing(w, start, tasks, least, token, began, a) && began + least <= w.now
    requires var s := w.sup; var intensity := s.spec.restartIntensity;
      intensity.Window() <= w.now && |Since(s.recent, intensity.Cutoff(w.now))| + 1 > intensity.maxRestarts
    ensures var s := w.sup; var b, limit := s.spec.restartBackoff, s.spec.restartIntensity.maxRestarts;
      && Span(b, least, limit) <= s.spec.restartIntensity.Window()
      && start + Fastest(b, least, limit, 0) <= w.now
  {
    hide Pacing.OnlyToken, Counting, Since, Fastest, Span, Owing;
    var s := w.sup;
    LimitSpans(s.spec.restartBackoff, s.spec.restartIntensity, s.recent, least, began, a, start, w.now);
  }

  lemma LimitSpans(b: RestartBackoff, intensity: RestartIntensity, recent: seq<Instant>, least: nat, began: nat, a: U32,
                   start: Instant, now: Instant)
    requires Owing(b, intensity.maxRestarts, recent, least, began, a) && start <= began && began + least <= now
    requires Sorted(recent) && forall i :: 0 <= i < |recent| ==> start + least <= recent[i]
    requires intensity.Window() <= now && |Since(recent, intensity.Cutoff(now))| + 1 > intensity.maxRestarts
    ensures Span(b, least, intensity.maxRestarts) <= intensity.Window()
    ensures start + Fastest(b, least, intensity.maxRestarts, 0) <= now
  {
    hide Fastest, Span, Since;
    var limit, cutoff := intensity.maxRestarts, intensity.Cutoff(now);
    FastestFromStart(b, least, limit);
    FastestOfNone(b, least, a);
    NoSpan(b, least);
    if limit > 0 {
      var k := ForgetsOldest(recent, cutoff);
      assert recent[k..] == recent;
      assert recent[0] in Since(recent, cutoff);
    }
  }

  lemma NoSpan(b: RestartBackoff, least: nat)
    ensures Span(b, least, 0) == 0
  {
  }

  lemma HandleKeepsRacing(w: World, step: Step, start: Instant, tasks: seq<Life>, least: nat)
    requires Static(w) && Racing(w, start, tasks, least) && Enabled(w, step) && step.Handle?
    requires w.sup.spec.restartIntensity.Window() <= start <= w.now && |w.sup.spec.children| == 1
    requires StepTimed(w, step, tasks)
    ensures Racing(Next(w, step), start, tasks, least)
  {
    hide Pacing.OnlyToken, Fastest, Span, Owing, Serve, Answer, Counting, StepTimed;
    var s, env := w.sup, Env(w.now, step.later, step.init);
    if s.children == [] {
      NobodyLeft(s, w.queue[0], env);
    } else {
      var token, began, a :| Chasing(w, start, tasks, least, token, began, a);
      if Pacing.IsFailure(w.queue[0], s.spec.children[0].Id()) {
        FailureAlone(s, w.queue[0].reason, env);
        FailureIsToken(w, s.spec.children[0].Id(), token);
        if GrantAlone(s, Next(w, step).sup, env) {
          GrantKeepsChasing(w, step, start, tasks, least, token, began, a);
        } else if Next(w, step).sup.exit == Some(Abnormal) {
          EscalationTakes(w, start, tasks, least, token, began, a);
        }
      } else if Pacing.IsRestart(w.queue[0], s.spec.children[0].Id()) {
        RestartKeepsChasing(w, step, start, tasks, least, token, began, a);
      } else {
        OtherKeepsChasing(w, step, start, tasks, least, token, began, a);
      }
    }
  }

  lemma FastestOfNone(b: RestartBackoff, least: nat, a: U32)
    ensures Fastest(b, least, 0, a) == least
  {
  }

  // ---- Whole lives ----

  lemma OpeningRaces(spec: SupervisorSpec, start: Instant, tasks: seq<Life>, least: nat)
    requires |spec.children| == 1 && StartsFrom(tasks, 0, start)
    ensures Racing(Opening(spec, start), start, tasks, least)
  {
    hide Fastest, Span;
    var w := Opening(spec, start);
    assert w.sup.children == [Child(spec.children[0], 0)];
    assert Chasing(w, start, tasks, least, Pacing.Task(0), start, 0);
  }

  lemma ClockForward(w: World, step: Step)
    requires Enabled(w, step)
    ensures w.now <= Next(w, step).now
  {
    hide Serve, Answer;
  }

  lemma {:induction false} RunKeepsRacing(spec: SupervisorSpec, start: Instant, steps: seq<Step>, tasks: seq<Life>,
                                          failed: set<TaskId>, least: nat)
    requires |spec.children| == 1 && spec.restartStrategy == OneForOne && NoStarts(steps)
    requires Legal(Opening(spec, start), steps) && RunTimed(spec, start, steps, tasks)
    requires FailedTasks(steps) <= failed && Lasting(tasks, failed, spec.children[0], least)
    requires spec.restartIntensity.Window() <= start
    ensures Racing(After(Opening(spec, start), steps), start, tasks, least) && start <= After(Opening(spec, start), steps).now
    decreases |steps|
  {
    hide Racing, Next, Enabled, Opening, Static, StepTimed, Lasting;
    if steps == [] {
      OpeningRaces(spec, start, tasks, least);
      OpeningNow(spec, start);
    } else {
      var front, last := steps[..|steps| - 1], steps[|steps| - 1];
      var w := After(Opening(spec, start), front);
      ClockForward(w, last);
      RunKeepsRacing(spec, start, front, tasks, failed, least);
      RunKeepsStatic(spec, start, front);
      if last.Handle? {
        HandleKeepsRacing(w, last, start, tasks, least);
      } else {
        PostKeepsRacing(w, last, start, tasks, failed, least);
      }
    }
  }

  lemma OpeningNow(spec: SupervisorSpec, start: Instant)
    ensures Opening(spec, start).now == start
  {
  }

  lemma AbnormalRace(w: World, start: Instant, tasks: seq<Life>, least: nat)
    requires Racing(w, start, tasks, least) && w.sup.exit == Some(Abnormal) && |w.sup.spec.children| == 1
    ensures Restartable(w.sup.spec.children[0])
    ensures var b, limit := w.sup.spec.restartBackoff, w.sup.spec.restartIntensity.maxRestarts;
      && Span(b, least, limit) <= w.sup.spec.restartIntensity.Window()
      && start + Fastest(b, least, limit, 0) <= w.now
  {
    hide Fastest, Span, Owing;
  }

  /** What giving up takes at one level, if it takes at least `least` at the level below. */
  lemma LevelTakes(life: Life, least: nat)
    requires Happened(life) && Free(life) && End(life).sup.exit == Some(Abnormal) && |life.spec.children| == 1
    requires RunTimed(life.spec, life.start, life.steps, life.tasks)
    requires Lasting(life.tasks, FailedTasks(life.steps), life.spec.children[0], least)
    ensures var b, limit := life.spec.restartBackoff, life.spec.restartIntensity.maxRestarts;
      && Span(b, least, limit) <= life.spec.restartIntensity.Window()
      && life.start + Fastest(b, least, limit, 0) <= End(life).now
    ensures Restartable(life.spec.children[0])
  {
    hide After, Legal, Opening, Racing, Fastest, Span, NoStarts, Lasting, RunTimed, Static, FailedTasks;
    RunKeepsRacing(life.spec, life.start, life.steps, life.tasks, FailedTasks(life.steps), least);
    RunKeepsStatic(life.spec, life.start, life.steps);
    AbnormalRace(End(life), life.start, life.tasks, least);
  }

  /** No life of a chain, however long, gives up in less than the time of the fastest crash loop,
      and a chain that gives up is able to. */
  lemma {:induction false} NoFaster(life: Life, spec: ChildSpec)
    requires IsChain(spec) && GivesUp(life, spec)
    ensures CrashTime(spec) <= LengthOf(life)
    ensures spec.Supervisor? ==> CanGiveUp(spec)
    decreases life
  {
    hide Free, End, FailedTasks, ReportsExit, Fastest, Span, RunTimed;
    if spec.Supervisor? {
      var c := life.spec.children[0];
      var least := CrashTime(c);
      var failed := FailedTasks(life.steps);
      ManyTasksFailed(life);
      forall t | t in failed ensures GivesUp(life.tasks[t], c) {
        FailedMeansGaveUp(life, t);
      }
      forall t | t in failed ensures least <= LengthOf(life.tasks[t]) && (c.Supervisor? ==> CanGiveUp(c)) {
        NoFaster(life.tasks[t], c);
      }
      TasksLast(life.tasks, failed, c, least);
      LevelTakes(life, least);
      IsOneForOne(life);
      var one :| one in failed;
      assert GivesUp(life.tasks[one], c);
    }
  }

  lemma IsOneForOne(life: Life)
    requires Happened(life) && Free(life)
    ensures life.spec.restartStrategy == OneForOne
  {
  }

  lemma TasksLast(tasks: seq<Life>, failed: set<TaskId>, c: ChildSpec, least: nat)
    requires IsChain(c) && least == CrashTime(c) && forall t :: t in failed ==> t < |tasks|
    requires forall t :: t in failed ==> GivesUp(tasks[t], c) && least <= LengthOf(tasks[t])
    ensures Lasting(tasks, failed, c, least)
  {
    hide After, Legal, Opening, Fastest;
    forall t | t in failed && c.Supervisor?
      ensures tasks[t].SupervisorLife? && Happened(tasks[t]) && tasks[t].start + least <= End(tasks[t]).now
    {
      assert GivesUp(tasks[t], c);
    }
  }

  /** What a life of one window has room for. */
  lemma {:induction false} ConfinedFits(life: Life, spec: ChildSpec)
    requires IsChain(spec) && GivesUp(life, spec) && AllConfined(life, 1)
    ensures FitsWindows(spec)
    decreases life
  {
    hide Confined, End, FailedTasks, ReportsExit, Fastest, RunTimed, Span;
    if spec.Supervisor? {
      AllTasksFailed(life);
      FailedMeansGaveUp(life, 0);
      ConfinedFits(life.tasks[0], life.spec.children[0]);
      NoFaster(life, spec);
      ConfinedLength(life);
    }
  }

  lemma ConfinedLength(life: Life)
    requires Happened(life) && Confined(life, 1)
    ensures LengthOf(life) <= life.spec.restartIntensity.Window()
  {
    hide After, Legal, Opening, NoStarts;
  }

  // ---- A life that is as fast ----

  /** How long the next life lasts in the fastest crash loop, and which attempt it leads to. */
  lemma Choose(b: RestartBackoff, life: nat, n: nat, a: U32) returns (uptime: nat, attempt: U32)
    requires n > 0
    ensures Fastest(b, life, n, a)
         == uptime + b.DelayForAttempt(attempt) + Fastest(b, life, n - 1, NextAttempt(attempt))
    ensures life <= uptime && attempt == if uptime >= b.maxDelay then 0 else a
  {
    uptime, attempt := life, a;
    if life >= b.maxDelay {
      attempt := 0;
    } else if Fastest(b, life, n, a) != life + b.DelayForAttempt(a) + Fastest(b, life, n - 1, NextAttempt(a)) {
      uptime, attempt := b.maxDelay, 0;
    }
  }

  /** Task number `n` of the crash loop starts now, with `a` the attempt that its failure leads to. */
  ghost predicate Poised(w: World, spec: SupervisorSpec, start: Instant, first: nat, n: nat, a: U32) {
    && Looping(w, spec, start, first, n, n)
    && Lookup(w.sup.table, spec.children[0].Id()) == (if n == 0 then None else Some(BackoffState(a, w.now)))
    && (n == 0 ==> a == 0)
    && (forall t :: t in w.reported ==> t < n)
  }

  /** `grants` restarts granted, task number `n` the last one. */
  ghost predicate Looping(w: World, spec: SupervisorSpec, start: Instant, first: nat, n: nat, grants: nat) {
    && |spec.children| == 1 && w.queue == [] && w.sup.spec == spec && w.sup.exit == None && start <= w.now
    && w.sup.children == [Child(spec.children[0], n)] && |w.sup.spawned| == n + 1
    && (forall t :: 0 <= t <= n ==> w.sup.spawned[t] == spec.children[0])
    && |w.sup.recent| == grants && (forall i :: 0 <= i < grants ==> first <= w.sup.recent[i])
    && (forall i :: i in w.fired <==> 0 <= i < |w.sup.timers|)
  }

  /** A restart granted but not yet due. */
  ghost predicate BackingOff(w: World, spec: SupervisorSpec, start: Instant, first: nat, n: nat, a: U32, due: Instant) {
    && |spec.children| == 1 && |w.sup.timers| > 0 && |w.sup.timers| - 1 !in w.fired && w.now <= due
    && w.sup.timers[|w.sup.timers| - 1] == Timer(spec.children[0].Id(), OneForOne, due)
    && Looping(w.(fired := w.fired + {|w.sup.timers| - 1}), spec, start, first, n, n + 1)
    && Lookup(w.sup.table, spec.children[0].Id()) == Some(BackoffState(a, due))
    && (forall t :: t in w.reported ==> t <= n)
  }

  predicate Suited(spec: SupervisorSpec) {
    |spec.children| == 1 && spec.restartStrategy == OneForOne && Restartable(spec.children[0])
  }

  /** Task `n` fails at `f`. */
  lemma FailWhileLooping(w: World, w': World, spec: SupervisorSpec, start: Instant, first: nat, n: nat, a: U32, f: Instant)
    requires Poised(w, spec, start, first, n, a) && Suited(spec) && w.now <= f == w'.now && first <= f
    requires GrantAlone(w.sup, w'.sup, Env(f, f, Ready)) && Since(w.sup.recent, spec.restartIntensity.Cutoff(f)) == w.sup.recent
    requires w'.queue == [] && w'.fired == w.fired && w'.reported == w.reported + {n}
    ensures var attempt: U32 := if f - w.now >= spec.restartBackoff.maxDelay then 0 else a;
      var delay := spec.restartBackoff.DelayForAttempt(attempt);
      f + delay <= INSTANT_MAX ==>
        if delay == 0 then Poised(w', spec, start, first, n + 1, NextAttempt(attempt))
        else BackingOff(w', spec, start, first, n, NextAttempt(attempt), f + delay)
  {
    hide RestartBackoff.DelayForAttempt, StateAfter, AttemptAt;
    hide Poised, Looping, BackingOff;
    PoisedEntry(w, spec, start, first, n, a);
    EntryAfter(spec.restartBackoff, Lookup(w.sup.table, spec.children[0].Id()), w.now, n, a, f);
    var attempt: U32 := if f - w.now >= spec.restartBackoff.maxDelay then 0 else a;
    var delay := spec.restartBackoff.DelayForAttempt(attempt);
    if f + delay <= INSTANT_MAX {
      if delay == 0 {
        FailAtOnce(w, w', spec, start, first, n, a, NextAttempt(attempt));
      } else {
        FailAndWait(w, w', spec, start, first, n, a, NextAttempt(attempt), f + delay);
      }
    }
  }

  lemma PoisedEntry(w: World, spec: SupervisorSpec, start: Instant, first: nat, n: nat, a: U32)
    requires Poised(w, spec, start, first, n, a)
    ensures |spec.children| == 1 && |w.sup.children| == 1 && w.sup.spec == spec && w.sup.children[0].spec == spec.children[0]
    ensures Lookup(w.sup.table, spec.children[0].Id()) == (if n == 0 then None else Some(BackoffState(a, w.now)))
    ensures n == 0 ==> a == 0
  {
  }

  lemma FailAtOnce(w: World, w': World, spec: SupervisorSpec, start: Instant, first: nat, n: nat, a: U32, a': U32)
    requires Poised(w, spec, start, first, n, a) && w.now <= w'.now && first <= w'.now
    requires w'.sup.spec == spec && w'.sup.exit == None && w'.sup.recent == w.sup.recent + [w'.now]
    requires w'.sup.children == [Child(spec.children[0], |w.sup.spawned|)]
    requires w'.sup.spawned == w.sup.spawned + [spec.children[0]] && w'.sup.timers == w.sup.timers
    requires Lookup(w'.sup.table, spec.children[0].Id()) == Some(BackoffState(a', w'.now))
    requires w'.queue == [] && w'.fired == w.fired && w'.reported == w.reported + {n}
    ensures Poised(w', spec, start, first, n + 1, a')
  {
    assert forall t :: 0 <= t <= n ==> w'.sup.spawned[t] == w.sup.spawned[t];
  }

  lemma FailAndWait(w: World, w': World, spec: SupervisorSpec, start: Instant, first: nat, n: nat, a: U32, a': U32, due: Instant)
    requires Poised(w, spec, start, first, n, a) && w.now <= w'.now <= due && first <= w'.now
    requires w'.sup.spec == spec && w'.sup.exit == None && w'.sup.recent == w.sup.recent + [w'.now]
    requires w'.sup.children == w.sup.children && w'.sup.spawned == w.sup.spawned
    requires w'.sup.timers == w.sup.timers + [Timer(spec.children[0].Id(), OneForOne, due)]
    requires Lookup(w'.sup.table, spec.children[0].Id()) == Some(BackoffState(a', due))
    requires w'.queue == [] && w'.fired == w.fired && w'.reported == w.reported + {n}
    ensures BackingOff(w', spec, start, first, n, a', due)
  {
  }

  lemma EntryAfter(b: RestartBackoff, entry: Option<BackoffState>, began: Instant, n: nat, a: U32, f: Instant)
    requires entry == (if n == 0 then None else Some(BackoffState(a, began))) && (n == 0 ==> a == 0) && began <= f
    ensures var attempt: U32 := if f - began >= b.maxDelay then 0 else a;
      var delay := b.DelayForAttempt(attempt);
      && DelayAt(b, entry, f) == delay
      && (f + delay <= INSTANT_MAX ==> StateAfter(b, entry, f) == BackoffState(NextAttempt(attempt), f + delay))
  {
    hide RestartBackoff.DelayForAttempt;
  }

  lemma Fail(w: World, spec: SupervisorSpec, start: Instant, first: nat, n: nat, a: U32, f: Instant)
    requires Poised(w, spec, start, first, n, a) && Suited(spec) && w.now <= f
    requires spec.restartIntensity.Window() <= start && first <= f <= first + spec.restartIntensity.Window()
    requires n <= spec.restartIntensity.maxRestarts
    ensures Enabled(w, Tick(f)) && Enabled(Next(w, Tick(f)), Report(n, Abnormal))
    ensures Enabled(Next(Next(w, Tick(f)), Report(n, Abnormal)), Handle(f, Ready))
    ensures var w' := Next(Next(Next(w, Tick(f)), Report(n, Abnormal)), Handle(f, Ready));
      var attempt: U32 := if f - w.now >= spec.restartBackoff.maxDelay then 0 else a;
      var delay := spec.restartBackoff.DelayForAttempt(attempt);
      && w'.now == f
      && if n == spec.restartIntensity.maxRestarts then w'.sup.exit == Some(Abnormal) && w'.sup.spawned == w.sup.spawned
         else f + delay <= INSTANT_MAX ==>
           if delay == 0 then Poised(w', spec, start, first, n + 1, NextAttempt(attempt))
           else BackingOff(w', spec, start, first, n, NextAttempt(attempt), f + delay)
  {
    hide Serve, Answer, RestartBackoff.DelayForAttempt;
    hide BackingOff;
    FailureAlone(w.sup, Abnormal, Env(f, f, Ready));
    KeepsAll(w.sup.recent, first, spec.restartIntensity, f);
    var w' := Next(Next(Next(w, Tick(f)), Report(n, Abnormal)), Handle(f, Ready));
    if n < spec.restartIntensity.maxRestarts {
      FailWhileLooping(w, w', spec, start, first, n, a, f);
    }
  }

  /** The restart becomes due, and is carried out at once. */
  lemma Resume(w: World, spec: SupervisorSpec, start: Instant, first: nat, n: nat, a: U32, due: Instant)
    requires BackingOff(w, spec, start, first, n, a, due)
    ensures var last := |w.sup.timers| - 1;
      && Enabled(w, Tick(due)) && Enabled(Next(w, Tick(due)), Fire(last))
      && Enabled(Next(Next(w, Tick(due)), Fire(last)), Handle(due, Ready))
      && Poised(Next(Next(Next(w, Tick(due)), Fire(last)), Handle(due, Ready)), spec, start, first, n + 1, a)
      && Next(Next(Next(w, Tick(due)), Fire(last)), Handle(due, Ready)).now == due
  {
    hide Serve, Answer;
    RestartAlone(w.sup, Env(due, due, Ready));
  }

  /** The run so far can be part of a life with these tasks, all failing as they are reported. */
  ghost predicate Under(spec: SupervisorSpec, start: Instant, steps: seq<Step>, tasks: seq<Life>) {
    && Legal(Opening(spec, start), steps) && NoStarts(steps) && RunTimed(spec, start, steps, tasks)
    && forall i :: 0 <= i < |steps| && steps[i].Report? ==>
         steps[i].task < |tasks| && steps[i].reason == Abnormal && GaveUp(tasks[steps[i].task])
  }

  lemma {:induction false} TasksAdded(spec: SupervisorSpec, start: Instant, steps: seq<Step>, tasks: seq<Life>, more: seq<Life>)
    requires Legal(Opening(spec, start), steps) && RunTimed(spec, start, steps, tasks)
    ensures RunTimed(spec, start, steps, tasks + more)
    decreases |steps|
  {
    hide Opening, Next, Enabled, StepTimed, StartsFrom;
    if steps == [] {
      forall t: nat | t < |spec.children| ensures StartsFrom(tasks + more, t, start) {
        TaskStill(tasks, more, t, start);
      }
    } else {
      var front := steps[..|steps| - 1];
      TasksAdded(spec, start, front, tasks, more);
      StepTimedStill(After(Opening(spec, start), front), steps[|steps| - 1], tasks, more);
    }
  }

  lemma StepTimedStill(w: World, step: Step, tasks: seq<Life>, more: seq<Life>)
    requires Enabled(w, step) && StepTimed(w, step, tasks)
    ensures StepTimed(w, step, tasks + more)
  {
    hide Next, StartsFrom, Ends;
    match step {
      case Report(t, _) => TaskStill(tasks, more, t, w.now);
      case Handle(later, _) =>
        forall t: nat | StartsFrom(tasks, t, SpawnTime(w, later)) ensures StartsFrom(tasks + more, t, SpawnTime(w, later)) {
          TaskStill(tasks, more, t, SpawnTime(w, later));
        }
      case _ =>
    }
  }

  lemma TaskStill(tasks: seq<Life>, more: seq<Life>, t: TaskId, time: Instant)
    ensures StartsFrom(tasks, t, time) ==> StartsFrom(tasks + more, t, time)
    ensures Ends(tasks, t, time) ==> Ends(tasks + more, t, time)
  {
    if t < |tasks| {
      assert (tasks + more)[t] == tasks[t];
    }
  }

  lemma Take(spec: SupervisorSpec, start: Instant, steps: seq<Step>, tasks: seq<Life>, step: Step) returns (more: seq<Step>)
    requires Under(spec, start, steps, tasks) && !step.Ask?
    requires Enabled(After(Opening(spec, start), steps), step) && StepTimed(After(Opening(spec, start), steps), step, tasks)
    requires step.Report? ==> step.task < |tasks| && step.reason == Abnormal && GaveUp(tasks[step.task])
    ensures Legal(Opening(spec, start), more) && Under(spec, start, more, tasks)
    ensures After(Opening(spec, start), more) == Next(After(Opening(spec, start), steps), step)
  {
    hide Opening, Enabled, Next, StepTimed, GaveUp;
    more := Extend(Opening(spec, start), steps, step);
    assert more[..|more| - 1] == steps;
  }

  /** What a life spent at `n` gives the tasks: the current one ends at `f`, the next starts at `due`. */
  ghost predicate Planned(tasks: seq<Life>, n: nat, f: Instant, due: Instant) {
    Ends(tasks, n, f) && GaveUp(tasks[n]) && StartsFrom(tasks, n + 1, due)
  }

  lemma NextGeneration(spec: SupervisorSpec, start: Instant, steps: seq<Step>, tasks: seq<Life>, first: nat,
                       n: nat, a: U32, f: Instant, due: Instant) returns (more: seq<Step>)
    requires Suited(spec) && n < spec.restartIntensity.maxRestarts && Under(spec, start, steps, tasks)
    requires Poised(After(Opening(spec, start), steps), spec, start, first, n, a)
    requires After(Opening(spec, start), steps).now <= f && Planned(tasks, n, f, due)
    requires spec.restartIntensity.Window() <= start && first <= f <= first + spec.restartIntensity.Window()
    requires var b := spec.restartBackoff;
      due == f + b.DelayForAttempt(if f - After(Opening(spec, start), steps).now >= b.maxDelay then 0 else a)
    ensures Under(spec, start, more, tasks)
    ensures var attempt: U32 :=
        if f - After(Opening(spec, start), steps).now >= spec.restartBackoff.maxDelay then 0 else a;
      Poised(After(Opening(spec, start), more), spec, start, first, n + 1, NextAttempt(attempt))
    ensures After(Opening(spec, start), more).now == due
  {
    hide Opening, Enabled, Next, StepTimed, RestartBackoff.DelayForAttempt, After, Legal, Happened, End, GaveUp;
    hide NoStarts, RunTimed;
    var w := After(Opening(spec, start), steps);
    var attempt: U32 := if f - w.now >= spec.restartBackoff.maxDelay then 0 else a;
    Fail(w, spec, start, first, n, a, f);
    FailTimed(w, spec, start, first, n, a, f, tasks);
    more := Take(spec, start, steps, tasks, Tick(f));
    more := Take(spec, start, more, tasks, Report(n, Abnormal));
    more := Take(spec, start, more, tasks, Handle(f, Ready));
    if due > f {
      var w3 := After(Opening(spec, start), more);
      Resume(w3, spec, start, first, n, NextAttempt(attempt), due);
      ResumeTimed(w3, spec, start, first, n, NextAttempt(attempt), due, tasks);
      var last := |w3.sup.timers| - 1;
      more := Take(spec, start, more, tasks, Tick(due));
      more := Take(spec, start, more, tasks, Fire(last));
      more := Take(spec, start, more, tasks, Handle(due, Ready));
    }
  }

  lemma FailTimed(w: World, spec: SupervisorSpec, start: Instant, first: nat, n: nat, a: U32, f: Instant, tasks: seq<Life>)
    requires Poised(w, spec, start, first, n, a) && w.now <= f && Enabled(w, Tick(f))
    requires Enabled(Next(w, Tick(f)), Report(n, Abnormal))
    requires Enabled(Next(Next(w, Tick(f)), Report(n, Abnormal)), Handle(f, Ready))
    requires Ends(tasks, n, f)
    requires var w' := Next(Next(Next(w, Tick(f)), Report(n, Abnormal)), Handle(f, Ready));
      |w'.sup.spawned| <= n + 1 || (|w'.sup.spawned| == n + 2 && StartsFrom(tasks, n + 1, f))
    ensures StepTimed(w, Tick(f), tasks) && StepTimed(Next(w, Tick(f)), Report(n, Abnormal), tasks)
    ensures StepTimed(Next(Next(w, Tick(f)), Report(n, Abnormal)), Handle(f, Ready), tasks)
  {
    hide Serve, Answer, Happened, End, GaveUp;
  }

  lemma ResumeTimed(w: World, spec: SupervisorSpec, start: Instant, first: nat, n: nat, a: U32, due: Instant, tasks: seq<Life>)
    requires BackingOff(w, spec, start, first, n, a, due) && StartsFrom(tasks, n + 1, due)
    requires var last := |w.sup.timers| - 1;
      && Enabled(w, Tick(due)) && Enabled(Next(w, Tick(due)), Fire(last))
      && Enabled(Next(Next(w, Tick(due)), Fire(last)), Handle(due, Ready))
      && Poised(Next(Next(Next(w, Tick(due)), Fire(last)), Handle(due, Ready)), spec, start, first, n + 1, a)
    ensures var last := |w.sup.timers| - 1;
      && StepTimed(w, Tick(due), tasks) && StepTimed(Next(w, Tick(due)), Fire(last), tasks)
      && StepTimed(Next(Next(w, Tick(due)), Fire(last)), Handle(due, Ready), tasks)
  {
    hide Serve, Answer;
  }

  lemma LastGeneration(spec: SupervisorSpec, start: Instant, steps: seq<Step>, tasks: seq<Life>, first: nat, n: nat, a: U32,
                       f: Instant)
    returns (more: seq<Step>)
    requires Suited(spec) && n == spec.restartIntensity.maxRestarts && Under(spec, start, steps, tasks)
    requires Poised(After(Opening(spec, start), steps), spec, start, first, n, a)
    requires After(Opening(spec, start), steps).now <= f && Ends(tasks, n, f) && GaveUp(tasks[n])
    requires spec.restartIntensity.Window() <= start && first <= f <= first + spec.restartIntensity.Window()
    ensures Legal(Opening(spec, start), more) && Under(spec, start, more, tasks)
    ensures var w := After(Opening(spec, start), more);
      && w.sup.exit == Some(Abnormal) && w.now == f
      && w.sup.spawned == After(Opening(spec, start), steps).sup.spawned
  {
    hide Opening, Enabled, Next, StepTimed, RestartBackoff.DelayForAttempt, After, Legal, Happened, End, GaveUp;
    hide NoStarts, RunTimed;
    var w := After(Opening(spec, start), steps);
    Fail(w, spec, start, first, n, a, f);
    FailTimed(w, spec, start, first, n, a, f, tasks);
    more := Take(spec, start, steps, tasks, Tick(f));
    more := Take(spec, start, more, tasks, Report(n, Abnormal));
    more := Take(spec, start, more, tasks, Handle(f, Ready));
  }

  lemma {:induction false} FastestAtLeast(b: RestartBackoff, life: nat, n: nat, a: U32)
    ensures life <= Fastest(b, life, n, a)
    decreases n
  {
    if n > 0 {
      FastestAtLeast(b, life, n - 1, NextAttempt(0));
      FastestAtLeast(b, life, n - 1, NextAttempt(a));
    }
  }

  /** The clock can go back a whole window at every level. */
  predicate WindowsBefore(spec: ChildSpec, start: Instant)
    requires IsChain(spec)
  {
    spec.Worker?
    || (spec.supervisor.restartIntensity.Window() <= start && WindowsBefore(spec.supervisor.children[0], start))
  }

  /** The clock can be read throughout the fastest crash loop from `start` on. */
  predicate Readable(spec: ChildSpec, start: Instant)
    requires IsChain(spec)
  {
    WindowsBefore(spec, start) && start + CrashTime(spec) <= INSTANT_MAX
  }

  /** A life that gives up, having started its worker as often as the product of the limits says,
      and, if the windows have room for it, within one window at each level. */
  ghost predicate Spent(life: Life, spec: ChildSpec)
    requires IsChain(spec)
  {
    && GivesUp(life, spec) && WorkerStarts(life) == ChainProduct(spec)
    && (FitsWindows(spec) ==> AllConfined(life, 1))
  }

  ghost predicate AllSpent(tasks: seq<Life>, c: ChildSpec)
    requires IsChain(c)
  {
    forall t :: 0 <= t < |tasks| ==> Spent(tasks[t], c)
  }

  /** A run over the single child `c` that has taken the fastest course so far ... */
  ghost predicate Underway(s: SupervisorSpec, c: ChildSpec, start: Instant, steps: seq<Step>, tasks: seq<Life>,
                           n: nat, a: U32, life: nat, end: nat)
    requires IsChain(c)
  {
    && n <= s.restartIntensity.maxRestarts && |tasks| == n + 1 && AllSpent(tasks, c) && Under(s, start, steps, tasks)
    && var w := After(Opening(s, start), steps);
       && Poised(w, s, start, start + life, n, a)
       && w.now + life <= INSTANT_MAX && Ends(tasks, n, w.now + life)
       && w.now + Fastest(s.restartBackoff, life, s.restartIntensity.maxRestarts - n, a) == end
  }

  /** ... and one that has given up. */
  ghost predicate Over(s: SupervisorSpec, c: ChildSpec, start: Instant, steps: seq<Step>, tasks: seq<Life>, end: nat)
    requires IsChain(c)
  {
    && |tasks| == s.restartIntensity.maxRestarts + 1 && AllSpent(tasks, c) && Under(s, start, steps, tasks)
    && var w := After(Opening(s, start), steps);
       && w.sup.exit == Some(Abnormal) && w.now == end && |w.sup.spawned| == |tasks|
       && forall t :: 0 <= t < |tasks| ==> w.sup.spawned[t] == c
  }

  lemma {:induction false} WindowsLater(spec: ChildSpec, start: Instant, later: Instant)
    requires IsChain(spec) && WindowsBefore(spec, start) && start <= later
    ensures WindowsBefore(spec, later)
  {
    if spec.Supervisor? {
      WindowsLater(spec.supervisor.children[0], start, later);
    }
  }

  /** Every chain that can give up has a life that does, as fast as can be. */
  lemma {:induction false} Build(spec: ChildSpec, start: Instant) returns (life: Life)
    requires IsChain(spec) && CanGiveUp(spec) && Readable(spec, start)
    ensures Spent(life, spec) && LengthOf(life) == CrashTime(spec)
    ensures life.SupervisorLife? ==> life.start == start
    decreases spec, 1, 0
  {
    hide Spent, Poised, Under, Fastest, Span;
    match spec {
      case Worker(_) =>
        life := WorkerLife;
        WorkerSpent(spec);
      case Supervisor(s) =>
        FastestAtLeast(s.restartBackoff, CrashTime(s.children[0]), s.restartIntensity.maxRestarts, 0);
        var first := Build(s.children[0], start);
        StartPoised(s, start, first, CrashTime(s.children[0]));
        assert Underway(s, s.children[0], start, [], [first], 0, 0, CrashTime(s.children[0]), start + CrashTime(spec));
        var steps, tasks := Continue(spec, start, [], [first], 0, 0);
        life := SupervisorLife(s, start, steps, tasks);
        Assembled(life, spec);
    }
  }

  lemma WorkerSpent(spec: ChildSpec)
    requires spec.Worker?
    ensures Spent(WorkerLife, spec)
  {
  }

  lemma StartPoised(s: SupervisorSpec, start: Instant, first: Life, least: nat)
    requires |s.children| == 1 && IsChain(s.children[0]) && Spent(first, s.children[0])
    requires first.SupervisorLife? ==> first.start == start
    requires LengthOf(first) == least
    ensures Legal(Opening(s, start), []) && Under(s, start, [], [first])
    ensures var w := After(Opening(s, start), []);
      && Poised(w, s, start, start + least, 0, 0) && w.now == start && Ends([first], 0, start + least)
  {
    assert After(Opening(s, start), []) == Opening(s, start);
    assert Opening(s, start).sup.children == [Child(s.children[0], 0)];
  }

  lemma {:induction false} Continue(spec: ChildSpec, start: Instant, steps: seq<Step>, tasks: seq<Life>, n: nat, a: U32)
    returns (all: seq<Step>, lives: seq<Life>)
    requires spec.Supervisor? && IsChain(spec) && CanGiveUp(spec) && Readable(spec, start)
    requires Underway(spec.supervisor, spec.supervisor.children[0], start, steps, tasks, n, a,
                      CrashTime(spec.supervisor.children[0]), start + CrashTime(spec))
    ensures Over(spec.supervisor, spec.supervisor.children[0], start, all, lives, start + CrashTime(spec))
    decreases spec, 0, spec.supervisor.restartIntensity.maxRestarts - n
  {
    hide Opening, RestartBackoff.DelayForAttempt, After, Legal, Happened, End, Fastest, Span, NoStarts, RunTimed, LifeOf;
    hide AllFree, AllTimed, GaveUp, Looping, FitsWindows, WorkerStarts, AllConfined;
    var s := spec.supervisor;
    var b, c, limit := s.restartBackoff, s.children[0], s.restartIntensity.maxRestarts;
    var life := CrashTime(c);
    var w := After(Opening(s, start), steps);
    SuitedLevel(spec);
    FastestFromStart(b, life, limit);
    AllTheSame(w, s, start, start + life, n, a);
    assert Spent(tasks[n], c);
    if n == limit {
      FastestOfNone(b, life, a);
      all := LastGeneration(s, start, steps, tasks, start + life, n, a, w.now + life);
      lives := tasks;
    } else {
      var uptime, attempt := Choose(b, life, limit - n, a);
      var f := w.now + uptime;
      var due := f + b.DelayForAttempt(attempt);
      FastestAtLeast(b, life, limit - n - 1, NextAttempt(attempt));
      WindowsLater(c, start, due);
      var next := Build(c, due);
      lives := tasks + [next];
      TasksAdded(s, start, steps, tasks, [next]);
      TasksGrown(tasks, next, n, w.now + life, f, due, c);
      assert Under(s, start, steps, lives);
      var more := NextGeneration(s, start, steps, lives, start + life, n, a, f, due);
      all, lives := Continue(spec, start, more, lives, n + 1, NextAttempt(attempt));
    }
  }

  lemma AllTheSame(w: World, s: SupervisorSpec, start: Instant, first: nat, n: nat, a: U32)
    requires Poised(w, s, start, first, n, a)
    ensures start <= w.now && |w.sup.spawned| == n + 1 && forall t :: 0 <= t <= n ==> w.sup.spawned[t] == s.children[0]
  {
  }

  lemma SuitedLevel(spec: ChildSpec)
    requires spec.Supervisor? && IsChain(spec) && CanGiveUp(spec)
    ensures Suited(spec.supervisor)
  {
    assert CanGiveUp(spec.supervisor.children[0]);
  }

  lemma TasksGrown(tasks: seq<Life>, next: Life, n: nat, early: nat, f: Instant, due: Instant, c: ChildSpec)
    requires IsChain(c) && |tasks| == n + 1 && AllSpent(tasks, c) && Spent(next, c)
    requires early <= f && Ends(tasks, n, early) && (next.SupervisorLife? ==> next.start == due)
    requires LengthOf(next) == CrashTime(c) && due + CrashTime(c) <= INSTANT_MAX
    ensures var lives := tasks + [next];
      AllSpent(lives, c) && Planned(lives, n, f, due) && Ends(lives, n + 1, due + CrashTime(c))
  {
    hide After, Legal, Opening, LifeOf, AllFree, AllTimed, AllConfined, WorkerStarts, FitsWindows, Fastest;
    var lives := tasks + [next];
    assert lives[n] == tasks[n] && lives[n + 1] == next;
    assert Spent(tasks[n], c);
  }

  /** The run and the lives of its tasks make a life. */
  lemma Assembled(life: Life, spec: ChildSpec)
    requires spec.Supervisor? && IsChain(spec) && CanGiveUp(spec) && life.SupervisorLife? && life.spec == spec.supervisor
    requires Readable(spec, life.start)
    requires Over(life.spec, life.spec.children[0], life.start, life.steps, life.tasks, life.start + CrashTime(spec))
    ensures Spent(life, spec) && LengthOf(life) == CrashTime(spec)
  {
    hide Opening, After, Legal, Fastest, Span, NoStarts, RunTimed, WorkerStarts, ChainProduct;
    assert forall t :: 0 <= t < |life.tasks| ==> Spent(life.tasks[t], life.spec.children[0]);
    assert Happened(life) && Free(life);
    SpentStarts(life, spec);
    if FitsWindows(spec) {
      assert Confined(life, 1);
    }
  }

  lemma SpentStarts(life: Life, spec: ChildSpec)
    requires spec.Supervisor? && IsChain(spec) && life.SupervisorLife?
    requires AllSpent(life.tasks, spec.supervisor.children[0])
    requires |life.tasks| == spec.supervisor.restartIntensity.maxRestarts + 1
    ensures WorkerStarts(life) == ChainProduct(spec)
  {
    hide Spent;
    AllStartsOf(life.tasks, spec.supervisor.children[0]);
  }

  lemma {:induction false} AllStartsOf(lives: seq<Life>, c: ChildSpec)
    requires IsChain(c) && AllSpent(lives, c)
    ensures AllStarts(lives) == |lives| * ChainProduct(c)
  {
    if lives != [] {
      hide GivesUp, FitsWindows, AllConfined, ChainProduct, WorkerStarts;
      var n := |lives| - 1;
      AllStartsOf(lives[..n], c);
      assert Spent(lives[n], c);
      MulSucc(n, ChainProduct(c));
    }
  }

  /** A chain of supervisors over one worker has a life, of any length, that gives up, exactly when
      every level is one-for-one, the worker is not temporary, and at each level the failures of
      the fastest crash loop fit the window. There is then one that starts the worker exactly as
      often as the product of the limits, each plus one, and none that starts it less often. */
  lemma ChainGivesUpIff(spec: ChildSpec, start: Instant)
    requires IsChain(spec) && spec.Supervisor? && Readable(spec, start)
    ensures (exists life :: GivesUp(life, spec) && life.SupervisorLife? && life.start == start) <==> CanGiveUp(spec)
    ensures CanGiveUp(spec) ==>
      exists life :: GivesUp(life, spec) && life.SupervisorLife? && life.start == start && WorkerStarts(life) == ChainProduct(spec)
    ensures forall life :: GivesUp(life, spec) ==> WorkerStarts(life) >= ChainProduct(spec)
  {
    hide GivesUp, CanGiveUp, Readable;
    if CanGiveUp(spec) {
      var life := Build(spec, start);
      IsSupervisorLife(life, spec);
    }
    forall life | GivesUp(life, spec) ensures CanGiveUp(spec) && WorkerStarts(life) >= ChainProduct(spec) {
      NoFaster(life, spec);
      GivesUpStarts(life, spec);
    }
  }

  lemma IsSupervisorLife(life: Life, spec: ChildSpec)
    requires spec.Supervisor? && GivesUp(life, spec)
    ensures life.SupervisorLife?
  {
  }

  lemma GivesUpStarts(life: Life, spec: ChildSpec)
    requires IsChain(spec) && GivesUp(life, spec)
    ensures WorkerStarts(life) >= ChainProduct(spec)
  {
    ChainStartsAtLeast(life, spec);
  }

  /** It has such a life within one window of each level's own start exactly when the whole of the
      fastest crash loop fits. */
  lemma ConfinedChainGivesUpIff(spec: ChildSpec, start: Instant)
    requires IsChain(spec) && spec.Supervisor? && Readable(spec, start)
    ensures (exists life :: GivesUp(life, spec) && AllConfined(life, 1) && life.SupervisorLife? && life.start == start
                            && WorkerStarts(life) == ChainProduct(spec))
       <==> CanGiveUp(spec) && FitsWindows(spec)
  {
    hide GivesUp, CanGiveUp, FitsWindows, Readable, AllConfined;
    if CanGiveUp(spec) && FitsWindows(spec) {
      var life := Build(spec, start);
      IsSupervisorLife(life, spec);
    }
    forall life | GivesUp(life, spec) && AllConfined(life, 1) ensures CanGiveUp(spec) && FitsWindows(spec) {
      NoFaster(life, spec);
      ConfinedFits(life, spec);
    }
  }

  // ---- How the fastest crash loop compares with the delays ----

  /** Failing at once every time takes no more than the lives and the first `n` delays. */
  lemma {:induction false} FastestAtMost(b: RestartBackoff, life: nat, n: nat, a: U32, k: nat)
    requires a <= k
    ensures Fastest(b, life, n, a) + TotalDelay(b, k) <= (n + 1) * life + TotalDelay(b, k + n)
    decreases n
  {
    if n > 0 {
      hide RestartBackoff.DelayForAttempt;
      var here := Min(k, U32_MAX);
      DelayMonotone(b, a, here);
      DelayMonotone(b, 0, here);
      FastestAtMost(b, life, n - 1, NextAttempt(a), k + 1);
      FastestAtMost(b, life, n - 1, NextAttempt(0), k + 1);
      MulSucc(n, life);
    }
  }

  /** But failing at once is not always fastest: here one life of the whole ceiling, after two
      restarts, starts the delays over and saves more than it costs. */
  lemma WaitingCanBeFaster()
    ensures var b := RestartBackoff(1, 4); Fastest(b, 0, 4, 0) == 10 < TotalDelay(b, 4) == 11
  {
    var b := RestartBackoff(1, 4);
    assert Pow2(1) == 2 && Pow2(2) == 4 && Pow2(3) == 8;
    assert b.DelayForAttempt(0) == 1 && b.DelayForAttempt(1) == 2 && b.DelayForAttempt(2) == 4 && b.DelayForAttempt(3) == 4;
    assert TotalDelay(b, 4) == 11;
    assert Fastest(b, 0, 1, 1) == 2 && Fastest(b, 0, 1, 2) == 4 && Fastest(b, 0, 1, 3) == 4;
    assert Fastest(b, 0, 2, 1) == 6 && Fastest(b, 0, 2, 2) == 7;
    assert Fastest(b, 0, 3, 1) == 9;
  }

  lemma {:induction false} TotalDelayAtMost(b: RestartBackoff, k: nat)
    ensures TotalDelay(b, k) <= k * b.maxDelay
  {
    if k > 0 {
      TotalDelayAtMost(b, k - 1);
      DelayClosedForm(b, Min(k - 1, U32_MAX));
      MulSucc(k - 1, b.maxDelay);
    }
  }

  /** One supervisor over one worker, whatever its backoff: if the first delays, as many as the
      limit, add up to no more than the window, the crash loop fits. */
  lemma DelaysInWindow(s: SupervisorSpec)
    requires s.restartStrategy == OneForOne && |s.children| == 1 && s.children[0].Worker? && Restartable(s.children[0])
    requires TotalDelay(s.restartBackoff, s.restartIntensity.maxRestarts) <= s.restartIntensity.Window()
    ensures CanGiveUp(Supervisor(s)) && FitsWindows(Supervisor(s))
  {
    FastestAtMost(s.restartBackoff, 0, s.restartIntensity.maxRestarts, 0, 0);
    FastestFromStart(s.restartBackoff, 0, s.restartIntensity.maxRestarts);
  }

  /** A worker that always crashes, under a supervisor that gives up after two restarts without
      delay, under one that allows a hundred restarts in a minute and waits 50 ms before each. */
  const DOOMED := Worker(WorkerSpec("doomed", Plain(0), Permanent))
  const NESTED := SupervisorSpec("nested", [DOOMED], OneForOne, RestartIntensity(2, 60), RestartBackoff(0, 0), 5 * NANOS_PER_SEC)
  const PARENT := SupervisorSpec("parent", [Supervisor(NESTED)], OneForOne, RestartIntensity(100, 60),
                                 RestartBackoff(50_000_000, 50_000_000), 5 * NANOS_PER_SEC)

  /** The parent restarts the nested supervisor each time it gives up, until it gives up itself:
      the worker is started 303 times. */
  lemma NestedSupervisorIsRestarted() returns (life: Life)
    ensures GivesUp(life, Supervisor(PARENT)) && AllConfined(life, 1) && WorkerStarts(life) == 303
  {
    hide GivesUp, IsChain, CanGiveUp, FitsWindows, Readable, ChainProduct;
    var start := 60 * NANOS_PER_SEC;
    ParentFits(start);
    life := Build(Supervisor(PARENT), start);
  }

  lemma NestedFits()
    ensures var nested := Supervisor(NESTED);
      IsChain(nested) && CanGiveUp(nested) && FitsWindows(nested) && CrashTime(nested) == 0 && ChainProduct(nested) == 3
  {
    hide Fastest, TotalDelay;
    TotalDelayAtMost(RestartBackoff(0, 0), 2);
    FastestAtMost(RestartBackoff(0, 0), 0, 2, 0, 0);
    assert IsChain(DOOMED) && ChainProduct(DOOMED) == 1 && CrashTime(DOOMED) == 0;
    assert TotalDelay(RestartBackoff(0, 0), 0) == 0 && TotalDelay(RestartBackoff(0, 0), 2) == 0;
    DelaysInWindow(NESTED);
  }

  lemma ParentFits(start: Instant)
    requires start == 60 * NANOS_PER_SEC
    ensures var parent := Supervisor(PARENT);
      IsChain(parent) && CanGiveUp(parent) && FitsWindows(parent) && Readable(parent, start) && ChainProduct(parent) == 303
  {
    hide Fastest, TotalDelay;
    NestedFits();
    var b := PARENT.restartBackoff;
    FastestAtMost(b, 0, 100, 0, 0);
    TotalDelayAtMost(b, 100);
    assert Fastest(b, 0, 100, 0) <= 5 * NANOS_PER_SEC;
    assert CrashTime(Supervisor(PARENT)) == Fastest(b, 0, 100, 0);
    FastestFromStart(b, 0, 100);
    assert PARENT.restartIntensity.Window() == start && NESTED.restartIntensity.Window() == start;
    assert WindowsBefore(DOOMED, start) && WindowsBefore(Supervisor(NESTED), start);
  }

  /** With the default settings: a worker that always crashes is restarted after 100, 200 and 400
      milliseconds, and the supervisor gives up at its fourth failure, 0.7 seconds after the first. */
  lemma DefaultSupervisorGivesUp(name: ChildId, w: WorkerSpec)
    requires w.restartPolicy != Temporary
    ensures var s := SupervisorSpec.New(name).(children := [Worker(w)]); var b := s.restartBackoff;
      && IsChain(Supervisor(s)) && CanGiveUp(Supervisor(s)) && ChainProduct(Supervisor(s)) == 4
      && b.DelayForAttempt(0) == 100_000_000 && b.DelayForAttempt(1) == 200_000_000 && b.DelayForAttempt(2) == 400_000_000
      && CrashTime(Supervisor(s)) == 700_000_000
      && s.restartIntensity.Window() == 5_000_000_000 && s.shutdownTimeout == 5_000_000_000
  {
    var s := SupervisorSpec.New(name).(children := [Worker(w)]);
    var b := s.restartBackoff;
    assert Pow2(1) == 2 && Pow2(2) == 4;
    hide RestartBackoff.DelayForAttempt;
    DefaultDelays(b);
    assert Fastest(b, 0, 1, 2) == 400_000_000;
    assert Fastest(b, 0, 2, 1) == 600_000_000;
    assert Fastest(b, 0, 3, 0) == 700_000_000;
    assert IsChain(Worker(w)) && CrashTime(Worker(w)) == 0 && ChainProduct(Worker(w)) == 1;
    FastestFromStart(b, 0, 3);
  }

  lemma DefaultDelays(b: RestartBackoff)
    requires b == RestartBackoff(100_000_000, 30_000_000_000)
    ensures b.DelayForAttempt(0) == 100_000_000 && b.DelayForAttempt(1) == 200_000_000 && b.DelayForAttempt(2) == 400_000_000
  {
    assert Pow2(1) == 2 && Pow2(2) == 4;
  }
}
