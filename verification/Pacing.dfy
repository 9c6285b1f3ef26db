/** A crash loop is slowed down by the backoff: when its restarts can come at the earliest. */
module Pacing {
  import opened Types
  import opened Restart
  import opened Backoff
  import opened Spec
  import opened SupervisorCommon
  import opened Supervision
  import opened Identity
  import opened World
  import BackoffTable
  import Resurrection

  // ---- What the result talks about ----

  /** Tasks spawned for `id`. */
  function SpawnsOf(spawned: seq<ChildSpec>, id: ChildId): nat {
    if spawned == [] then 0
    else SpawnsOf(spawned[..|spawned| - 1], id) + (if spawned[|spawned| - 1].Id() == id then 1 else 0)
  }

  /** Restarts granted to `id`. */
  function GrantsOf(journal: seq<Entry>, id: ChildId): nat {
    if journal == [] then 0
    else
      var e := journal[|journal| - 1];
      GrantsOf(journal[..|journal| - 1], id) + (if e.Granted? && e.id == id then 1 else 0)
  }

  /** When the first restart of `id` was granted; its failure was not later. */
  function FirstGrant(journal: seq<Entry>, id: ChildId): Instant {
    if journal == [] then 0
    else
      var front, e := journal[..|journal| - 1], journal[|journal| - 1];
      if GrantsOf(front, id) == 0 && e.Granted? && e.id == id then e.at else FirstGrant(front, id)
  }

  /** `id` was never granted a restart after it had run for the whole ceiling. */
  ghost predicate NoHealthyGap(s: Sup, id: ChildId) {
    forall k :: 0 <= k < |s.journal| && s.journal[k].Granted?
      ==> !BackoffTable.Ends(s.journal, s.spec.restartBackoff.maxDelay, id, k)
  }

  predicate StartsOrTerminates(step: Step, id: ChildId) {
    step.Ask? && (StartedId(step.command) == Some(id) || (step.command.TerminateChild? && step.command.id == id))
  }

  /** A run that neither starts nor terminates `id`, and never sees it healthy. */
  ghost predicate CrashLoop(w: World, steps: seq<Step>, id: ChildId)
    requires Legal(w, steps)
  {
    && NoHealthyGap(After(w, steps).sup, id)
    && (forall i :: 0 <= i < |steps| ==> !StartsOrTerminates(steps[i], id))
  }

  // ---- At most one thing can lead to the next restart of `id` ----

  datatype Token =
    | Nothing
    | Task(task: TaskId)      // a task that has not reported
    | Failure(at: nat)        // a failure reported, in the queue
    | Sleeping(timer: nat)    // a timer that has not fired
    | Message(at: nat)        // a timer's message, in the queue

  predicate IsFailure(c: Command, id: ChildId) {
    c.ChildTerminated? && c.id == id && c.reason != Shutdown
  }

  predicate IsRestart(c: Command, id: ChildId) {
    c.RestartChild? && c.id == id
  }

  ghost predicate OnlyToken(w: World, id: ChildId, token: Token) {
    && (forall t {:trigger w.sup.spawned[t]} :: 0 <= t < |w.sup.spawned| && t !in w.reported && w.sup.spawned[t].Id() == id
          ==> token == Task(t))
    && (forall i :: 0 <= i < |w.queue| && IsFailure(w.queue[i], id) ==> token == Failure(i))
    && (forall i :: 0 <= i < |w.queue| && IsRestart(w.queue[i], id) ==> token == Message(i))
    && (forall i {:trigger w.sup.timers[i]} :: 0 <= i < |w.sup.timers| && i !in w.fired && w.sup.timers[i].id == id
          ==> token == Sleeping(i))
  }

  /** The token, the number of restarts, and the time that has passed. */
  ghost predicate OnPace(w: World, id: ChildId, token: Token) {
    var b, grants, spawns := w.sup.spec.restartBackoff, GrantsOf(w.sup.journal, id), SpawnsOf(w.sup.spawned, id);
    var first := FirstGrant(w.sup.journal, id);
    var done := grants - (if token.Sleeping? || token.Message? then 1 else 0);
    && 0 <= done && spawns <= done + 1
    && (done > 0 ==> w.now >= first + TotalDelay(b, done))
    && (token.Sleeping? ==> token.timer < |w.sup.timers| && w.sup.timers[token.timer].due >= first + TotalDelay(b, grants))
    && (token.Message? ==> w.now >= first + TotalDelay(b, grants))
  }

  ghost predicate AllOneForOne(w: World) {
    && w.sup.spec.restartStrategy == OneForOne
    && (forall i :: 0 <= i < |w.sup.timers| ==> w.sup.timers[i].strategy == OneForOne)
    && (forall i :: 0 <= i < |w.queue| && w.queue[i].RestartChild? ==> w.queue[i].strategy == OneForOne)
  }

  predicate NeutralRequest(c: Command, id: ChildId) {
    StartedId(c) != Some(id) && !(c.TerminateChild? && c.id == id)
  }

  ghost predicate Settled(w: World, id: ChildId) {
    && AllOneForOne(w)
    && UniqueIds(w.sup.children)
    && BackoffTable.Inv(w.sup)
    && (forall i :: 0 <= i < |w.queue| ==> NeutralRequest(w.queue[i], id))
    && (Left(id) in w.sup.journal ==> id !in Ids(w.sup.children))
  }

  ghost predicate Inv(w: World, id: ChildId) {
    Settled(w, id) && exists token :: OnlyToken(w, id, token) && OnPace(w, id, token)
  }

  // ---- Counting ----

  lemma SpawnsAppend(spawned: seq<ChildSpec>, spec: ChildSpec, id: ChildId)
    ensures SpawnsOf(spawned + [spec], id) == SpawnsOf(spawned, id) + (if spec.Id() == id then 1 else 0)
  {
    assert (spawned + [spec])[..|spawned|] == spawned;
  }

  lemma GrantsAppend(journal: seq<Entry>, e: Entry, id: ChildId)
    ensures var hit := e.Granted? && e.id == id;
      && GrantsOf(journal + [e], id) == GrantsOf(journal, id) + (if hit then 1 else 0)
      && FirstGrant(journal + [e], id) == (if hit && GrantsOf(journal, id) == 0 then e.at else FirstGrant(journal, id))
  {
    assert (journal + [e])[..|journal|] == journal;
  }

  /** With no healthy gap and no departure, every grant counts towards the exponent. */
  lemma {:induction false} StreakIsGrants(journal: seq<Entry>, ceiling: Duration, id: ChildId)
    requires forall k :: 0 <= k < |journal| ==> !BackoffTable.Ends(journal, ceiling, id, k)
    ensures BackoffTable.Streak(journal, ceiling, id) == GrantsOf(journal, id)
  {
    if journal != [] {
      var front, e := journal[..|journal| - 1], journal[|journal| - 1];
      assert journal == front + [e];
      forall k | 0 <= k < |front| ensures !BackoffTable.Ends(front, ceiling, id, k) {
        BackoffTable.EndsStays(front, e, ceiling, id, k);
      }
      StreakIsGrants(front, ceiling, id);
      BackoffTable.CountedAppend(front, e, ceiling, id);
      assert |front| !in BackoffTable.Counted(front, ceiling, id);
    }
  }

  /** So a newly granted delay is the one for the number of grants before it. */
  lemma GrantedDelay(s: Sup, id: ChildId)
    requires BackoffTable.Inv(s) && NoHealthyGap(s, id)
    requires s.journal != [] && s.journal[|s.journal| - 1].Granted? && s.journal[|s.journal| - 1].id == id
    requires Left(id) !in s.journal
    ensures s.journal[|s.journal| - 1].delay
         == s.spec.restartBackoff.DelayForAttempt(Min(GrantsOf(s.journal, id) - 1, U32_MAX))
  {
    var n, ceiling := |s.journal| - 1, s.spec.restartBackoff.maxDelay;
    assert s.journal[..n + 1] == s.journal;
    assert forall k :: 0 <= k < |s.journal| ==> s.journal[k] != Left(id);
    StreakIsGrants(s.journal, ceiling, id);
  }

  // ---- Steps that do not serve a command ----

  lemma PostKeepsInv(w: World, step: Step, id: ChildId)
    requires Inv(w, id) && Enabled(w, step) && !step.Handle? && !StartsOrTerminates(step, id)
    ensures Inv(Next(w, step), id)
  {
    hide UniqueIds, BackoffTable.Inv, SpawnsOf, GrantsOf, FirstGrant, OnlyToken, OnPace, Next;
    var token :| OnlyToken(w, id, token) && OnPace(w, id, token);
    PostKeepsSettled(w, step, id);
    PostMovesToken(w, step, id, token);
    PostKeepsPace(w, step, id, token);
    assert OnlyToken(Next(w, step), id, TokenAfterPost(w, step, id, token));
  }

  lemma PostKeepsSettled(w: World, step: Step, id: ChildId)
    requires Settled(w, id) && Enabled(w, step) && !step.Handle? && !StartsOrTerminates(step, id)
    ensures Settled(Next(w, step), id)
  {
    hide UniqueIds, BackoffTable.Inv, Ids;
  }

  lemma PostMovesToken(w: World, step: Step, id: ChildId, token: Token)
    requires OnlyToken(w, id, token) && Enabled(w, step) && !step.Handle?
    ensures OnlyToken(Next(w, step), id, TokenAfterPost(w, step, id, token))
  {
    var w' := Next(w, step);
    assert forall i :: 0 <= i < |w.queue| ==> w'.queue[i] == w.queue[i];
  }

  lemma PostKeepsPace(w: World, step: Step, id: ChildId, token: Token)
    requires OnlyToken(w, id, token) && OnPace(w, id, token) && Enabled(w, step) && !step.Handle?
    ensures OnPace(Next(w, step), id, TokenAfterPost(w, step, id, token))
  {
    hide SpawnsOf, GrantsOf, FirstGrant, TotalDelay;
  }

  function TokenAfterPost(w: World, step: Step, id: ChildId, token: Token): Token
    requires Enabled(w, step)
  {
    match step
    case Report(task, reason) =>
      if w.sup.spawned[task].Id() != id then token
      else if Running(w) && reason != Shutdown then Failure(|w.queue|) else Nothing
    case Fire(timer) =>
      if w.sup.timers[timer].id != id then token
      else if Running(w) then Message(|w.queue|) else Nothing
    case _ => token
  }

  // ---- Commands about other children ----

  /** Nothing about `id` was added. */
  ghost predicate Aside(s: Sup, s': Sup, id: ChildId) {
    && s'.spec == s.spec
    && s.timers <= s'.timers && (forall i :: |s.timers| <= i < |s'.timers| ==>
         s'.timers[i].id != id && s'.timers[i].strategy == s.spec.restartStrategy)
    && s.spawned <= s'.spawned && Resurrection.NotSpawnedSince(s'.spawned, |s.spawned|, id)
    && s.journal <= s'.journal && (forall i :: |s.journal| <= i < |s'.journal| ==> s'.journal[i].id != id)
    && (id in Ids(s'.children) ==> id in Ids(s.children))
  }

  lemma {:induction false} AsideSpawns(spawned: seq<ChildSpec>, more: seq<ChildSpec>, id: ChildId)
    requires spawned <= more && Resurrection.NotSpawnedSince(more, |spawned|, id)
    ensures SpawnsOf(more, id) == SpawnsOf(spawned, id)
    decreases |more|
  {
    if |more| > |spawned| {
      AsideSpawns(spawned, more[..|more| - 1], id);
    } else {
      assert more == spawned;
    }
  }

  lemma {:induction false} AsideGrants(journal: seq<Entry>, more: seq<Entry>, id: ChildId)
    requires journal <= more && forall i :: |journal| <= i < |more| ==> more[i].id != id
    ensures GrantsOf(more, id) == GrantsOf(journal, id) && FirstGrant(more, id) == FirstGrant(journal, id)
    ensures Left(id) in more ==> Left(id) in journal
    decreases |more|
  {
    if |more| > |journal| {
      AsideGrants(journal, more[..|more| - 1], id);
      assert more == more[..|more| - 1] + [more[|more| - 1]];
    } else {
      assert more == journal;
    }
  }

  lemma OneRestartAside(s: Sup, p: nat, id: ChildId)
    requires p < |s.children| && s.children[p].Id() != id
    ensures Aside(s, RestartOne(s, p), id)
  {
    assert Ids(RestartOne(s, p).children) == Ids(s.children);
  }

  /** A termination of another child, or a deliberate stop, under one-for-one. */
  lemma TerminationAside(s: Sup, p: nat, reason: ChildExitReason, env: Env, id: ChildId)
    requires p < |s.children| && s.spec.restartStrategy == OneForOne
    requires s.children[p].Id() != id || reason == Shutdown
    ensures Aside(s, Carry(s, p, JudgeAt(s, p, reason, env), env), id)
  {
    var v := JudgeAt(s, p, reason, env);
    match v.decision {
      case Drop =>
        IdsOfRemoval(s.children, p);
        SubsequenceSelects(Ids(Remove(s.children, p)), Ids(s.children));
      case Restart(delay, strategy) =>
        OneRestartAside(s.(recent := v.recent, table := v.table, worthy := s.worthy + [env.now],
                           journal := s.journal + [Granted(s.children[p].Id(), env.now, env.later, delay)],
                           rounds := s.rounds.(immediate := s.rounds.immediate + 1)), p, id);
      case _ =>
    }
  }

  lemma CommandAside(s: Sup, c: Command, env: Env, id: ChildId)
    requires s.spec.restartStrategy == OneForOne
    requires NeutralRequest(c, id) && !IsFailure(c, id) && !IsRestart(c, id)
    requires c.RestartChild? ==> c.strategy == OneForOne
    ensures Aside(s, Serve(s, c, env), id)
  {
    hide Carry;
    match c {
      case StartChild(w, _) => StartAppends(s, w);
      case StartChildLinked(w, _, _) => StartAppends(s, w);
      case TerminateChild(other, _) =>
        var found := Position(s.children, other);
        if found.Some? {
          IdsOfRemoval(s.children, found.value);
          SubsequenceSelects(Ids(Remove(s.children, found.value)), Ids(s.children));
        }
      case ChildTerminated(other, reason) =>
        var found := Position(s.children, other);
        if found.Some? {
          TerminationAside(s, found.value, reason, env, id);
        }
      case RestartChild(other, strategy) =>
        var found := Position(s.children, other);
        if found.Some? {
          OneRestartAside(s.(rounds := s.rounds.(applied := s.rounds.applied + 1)), found.value, id);
        }
      case _ =>
    }
  }

  // ---- Serving the head of the queue ----

  function Shift(token: Token): Token {
    match token
    case Failure(i) => if i > 0 then Failure(i - 1) else Nothing
    case Message(i) => if i > 0 then Message(i - 1) else Nothing
    case _ => token
  }

  /** The token once the queue has lost its head, or all of it. */
  function Shifted(w': World, token: Token): Token {
    if !Running(w') && (token.Failure? || token.Message?) then Nothing else Shift(token)
  }

  lemma SettledAfter(w: World, step: Step, id: ChildId)
    requires Settled(w, id) && Enabled(w, step) && step.Handle?
    requires var s, s' := w.sup, Next(w, step).sup;
      && s'.spec == s.spec && s.timers <= s'.timers
      && (forall i :: |s.timers| <= i < |s'.timers| ==> s'.timers[i].strategy == OneForOne)
      && (Left(id) in s'.journal ==> id !in Ids(s'.children))
    ensures Settled(Next(w, step), id)
  {
    hide Serve, Answer, UniqueIds, BackoffTable.Inv;
    var d := HeadDelivery(w, step.later, step.init);
    CommandKeepsIdsUnique(w.sup, d.command, d.env);
    BackoffTable.CommandKeepsInv(w.sup, d.command, d.env);
    var w' := Next(w, step);
    assert forall i :: 0 <= i < |w'.queue| ==> w'.queue[i] == w.queue[i + 1];
  }

  lemma HandleAside(w: World, step: Step, id: ChildId)
    requires Inv(w, id) && Enabled(w, step) && step.Handle?
    requires !IsFailure(w.queue[0], id) && !IsRestart(w.queue[0], id)
    ensures Inv(Next(w, step), id)
  {
    hide Serve, Answer, UniqueIds, BackoffTable.Inv, SpawnsOf, GrantsOf, FirstGrant, TotalDelay, OnlyToken;
    var d := HeadDelivery(w, step.later, step.init);
    var w' := Next(w, step);
    CommandAside(w.sup, d.command, d.env, id);
    AsideSpawns(w.sup.spawned, w'.sup.spawned, id);
    AsideGrants(w.sup.journal, w'.sup.journal, id);
    SettledAfter(w, step, id);
    var token :| OnlyToken(w, id, token) && OnPace(w, id, token);
    AsideToken(w, w', id, token);
    assert OnPace(w', id, Shifted(w', token));
  }

  lemma AsideToken(w: World, w': World, id: ChildId, token: Token)
    requires OnlyToken(w, id, token) && Aside(w.sup, w'.sup, id)
    requires w.queue != [] && w'.queue == if Running(w') then w.queue[1..] else []
    requires !IsFailure(w.queue[0], id) && !IsRestart(w.queue[0], id)
    requires w'.reported == w.reported && w'.fired == w.fired
    ensures OnlyToken(w', id, Shifted(w', token))
  {
    hide Ids;
    assert forall i :: 0 <= i < |w'.queue| ==> w'.queue[i] == w.queue[i + 1];
    assert forall t :: 0 <= t < |w.sup.spawned| ==> w'.sup.spawned[t] == w.sup.spawned[t];
    assert forall i :: 0 <= i < |w.sup.timers| ==> w'.sup.timers[i] == w.sup.timers[i];
  }

  /** What serving the deferred restart of `id` adds: one task, if the child is still listed. */
  lemma RestartAdds(s: Sup, id: ChildId, env: Env)
    requires s.exit == None
    ensures var s' := Serve(s, RestartChild(id, OneForOne), env);
      && s'.spec == s.spec && s'.timers == s.timers && s'.journal == s.journal && s'.exit == None
      && Ids(s'.children) == Ids(s.children)
      && (s'.spawned == s.spawned || exists spec: ChildSpec :: spec.Id() == id && s'.spawned == s.spawned + [spec])
  {
    var found := Position(s.children, id);
    if found.Some? {
      var s1 := s.(rounds := s.rounds.(applied := s.rounds.applied + 1));
      assert Ids(RestartOne(s1, found.value).children) == Ids(s.children);
      assert RestartOne(s1, found.value).spawned == s.spawned + [s.children[found.value].spec];
    }
  }

  lemma HandleRestart(w: World, step: Step, id: ChildId)
    requires Inv(w, id) && Enabled(w, step) && step.Handle? && IsRestart(w.queue[0], id)
    ensures Inv(Next(w, step), id)
  {
    hide Serve, Answer, UniqueIds, BackoffTable.Inv, SpawnsOf, GrantsOf, FirstGrant, TotalDelay, Ids;
    var d := HeadDelivery(w, step.later, step.init);
    var w' := Next(w, step);
    RestartAdds(w.sup, id, d.env);
    SettledAfter(w, step, id);
    var token :| OnlyToken(w, id, token) && OnPace(w, id, token);
    assert token == Message(0);
    assert forall i :: 0 <= i < |w'.queue| ==> w'.queue[i] == w.queue[i + 1];
    if w'.sup.spawned == w.sup.spawned {
      assert OnlyToken(w', id, Nothing) && OnPace(w', id, Nothing);
    } else {
      var spec: ChildSpec :| spec.Id() == id && w'.sup.spawned == w.sup.spawned + [spec];
      SpawnsAppend(w.sup.spawned, spec, id);
      var token' := Task(|w.sup.spawned|);
      assert OnlyToken(w', id, token') by {
        assert forall t :: 0 <= t < |w.sup.spawned| ==> w'.sup.spawned[t] == w.sup.spawned[t];
      }
      assert OnPace(w', id, token');
    }
  }

  /** What serving a failure of `id` adds when no restart is granted ... */
  ghost predicate NothingGranted(s: Sup, s': Sup, id: ChildId) {
    && s'.timers == s.timers && s'.spawned == s.spawned
    && (s'.journal == s.journal || s'.journal == s.journal + [Left(id)])
    && (Left(id) in s'.journal ==> id !in Ids(s'.children) || Left(id) in s.journal)
    && (id in Ids(s'.children) ==> id in Ids(s.children))
  }

  /** ... and when one is. */
  ghost predicate IsGranted(s: Sup, s': Sup, id: ChildId, env: Env, recordedAt: Instant, delay: Duration) {
    && id in Ids(s.children) && s'.exit == None
    && s'.journal == s.journal + [Granted(id, recordedAt, env.later, delay)]
    && Ids(s'.children) == Ids(s.children)
    && if delay == 0
       then s'.timers == s.timers
            && exists spec: ChildSpec :: spec.Id() == id && s'.spawned == s.spawned + [spec]
       else s'.spawned == s.spawned && s'.timers == s.timers + [Timer(id, OneForOne, env.later + delay)]
  }

  ghost predicate FailureAdds(s: Sup, s': Sup, id: ChildId, env: Env) {
    && s'.spec == s.spec
    && (NothingGranted(s, s', id) || exists delay, recordedAt :: IsGranted(s, s', id, env, recordedAt, delay))
  }

  lemma FailureServed(s: Sup, c: Command, env: Env, id: ChildId)
    requires s.exit == None && s.spec.restartStrategy == OneForOne && UniqueIds(s.children)
    requires IsFailure(c, id)
    ensures FailureAdds(s, Serve(s, c, env), id, env)
  {
    var found := Position(s.children, id);
    if found.Some? {
      var p := found.value;
      assert Ids(s.children)[p] == id;
      var v := JudgeAt(s, p, c.reason, env);
      var s' := Carry(s, p, v, env);
      match v.decision {
        case Drop =>
          Resurrection.GoneMeansUnlisted(s, id, c.reason, env);
        case Escalate =>
        case Restart(delay, strategy) =>
          GrantServed(s, p, v, env);
      }
    }
  }

  lemma GrantServed(s: Sup, p: nat, v: Verdict, env: Env)
    requires s.exit == None && p < |s.children| && v.decision.Restart? && v.decision.strategy == OneForOne
    ensures FailureAdds(s, Carry(s, p, v, env), s.children[p].Id(), env)
  {
    var s' := Carry(s, p, v, env);
    assert Ids(s'.children) == Ids(s.children);
    assert Ids(s.children)[p] == s.children[p].Id();
    if v.decision.delay == 0 {
      assert s'.spawned == s.spawned + [s.children[p].spec];
    }
    assert IsGranted(s, s', s.children[p].Id(), env, env.now, v.decision.delay);
  }

  /** The next restart of `id` is due no earlier than its place in the crash loop allows. */
  lemma DueOnPace(w: World, s': Sup, id: ChildId, at: Instant, delay: Duration)
    requires BackoffTable.Inv(s') && NoHealthyGap(s', id) && Left(id) !in s'.journal
    requires s'.spec == w.sup.spec && w.now <= at
    requires exists recordedAt :: s'.journal == w.sup.journal + [Granted(id, recordedAt, at, delay)]
    requires GrantsOf(w.sup.journal, id) > 0 ==>
      w.now >= FirstGrant(w.sup.journal, id) + TotalDelay(w.sup.spec.restartBackoff, GrantsOf(w.sup.journal, id))
    ensures GrantsOf(s'.journal, id) == GrantsOf(w.sup.journal, id) + 1
    ensures FirstGrant(s'.journal, id) == if GrantsOf(w.sup.journal, id) == 0 then at else FirstGrant(w.sup.journal, id)
    ensures at + delay >= FirstGrant(s'.journal, id) + TotalDelay(s'.spec.restartBackoff, GrantsOf(s'.journal, id))
  {
    hide BackoffTable.Inv, NoHealthyGap;
    var recordedAt :| s'.journal == w.sup.journal + [Granted(id, recordedAt, at, delay)];
    GrantsAppend(w.sup.journal, Granted(id, recordedAt, at, delay), id);
    GrantedDelay(s', id);
  }

  lemma HandleFailure(w: World, step: Step, id: ChildId)
    requires Inv(w, id) && Enabled(w, step) && step.Handle? && IsFailure(w.queue[0], id)
    requires NoHealthyGap(Next(w, step).sup, id)
    ensures Inv(Next(w, step), id)
  {
    hide Serve, Answer, UniqueIds, BackoffTable.Inv, SpawnsOf, GrantsOf, FirstGrant, TotalDelay, Ids, NoHealthyGap, OnlyToken, OnPace;
    var d := HeadDelivery(w, step.later, step.init);
    var w' := Next(w, step);
    FailureServed(w.sup, d.command, d.env, id);
    SettledAfter(w, step, id);
    FailureIsToken(w, id);
    if NothingGranted(w.sup, w'.sup, id) {
      FailureSpent(w, w', id);
    } else {
      var delay, recordedAt :| IsGranted(w.sup, w'.sup, id, d.env, recordedAt, delay);
      assert HeadTaken(w, w');
      DueOnPace(w, w'.sup, id, d.env.later, delay);
      if delay == 0 {
        var spec: ChildSpec :| spec.Id() == id && w'.sup.spawned == w.sup.spawned + [spec];
        SpawnsAppend(w.sup.spawned, spec, id);
        GrantedNow(w, w', id, Task(|w.sup.spawned|));
      } else {
        GrantedLater(w, w', id, Sleeping(|w.sup.timers|));
      }
    }
  }

  lemma FailureIsToken(w: World, id: ChildId)
    requires Inv(w, id) && w.queue != [] && IsFailure(w.queue[0], id)
    ensures OnlyToken(w, id, Failure(0)) && OnPace(w, id, Failure(0))
    ensures GrantsOf(w.sup.journal, id) > 0 ==>
      w.now >= FirstGrant(w.sup.journal, id) + TotalDelay(w.sup.spec.restartBackoff, GrantsOf(w.sup.journal, id))
  {
    hide Settled, GrantsOf, FirstGrant, TotalDelay;
    var token :| OnlyToken(w, id, token) && OnPace(w, id, token);
    assert token == Failure(0);
  }

  lemma FailureSpent(w: World, w': World, id: ChildId)
    requires OnlyToken(w, id, Failure(0)) && OnPace(w, id, Failure(0)) && NothingGranted(w.sup, w'.sup, id)
    requires w.queue != [] && w'.queue == if Running(w') then w.queue[1..] else []
    requires w'.reported == w.reported && w'.fired == w.fired && w'.now >= w.now && w'.sup.spec == w.sup.spec
    ensures OnlyToken(w', id, Nothing) && OnPace(w', id, Nothing)
  {
    hide SpawnsOf, GrantsOf, FirstGrant, TotalDelay, Ids;
    assert forall i :: 0 <= i < |w'.queue| ==> w'.queue[i] == w.queue[i + 1];
    GrantsAppend(w.sup.journal, Left(id), id);
  }

  /** The queue without its head; nothing else that could lead to a restart. */
  ghost predicate HeadTaken(w: World, w': World) {
    && w.queue != [] && w'.queue == w.queue[1..]
    && w'.reported == w.reported && w'.fired == w.fired
  }

  lemma GrantedNow(w: World, w': World, id: ChildId, token: Token)
    requires OnlyToken(w, id, Failure(0)) && OnPace(w, id, Failure(0)) && HeadTaken(w, w')
    requires token == Task(|w.sup.spawned|) && w'.sup.timers == w.sup.timers && w'.sup.spec == w.sup.spec
    requires exists spec: ChildSpec :: spec.Id() == id && w'.sup.spawned == w.sup.spawned + [spec]
    requires SpawnsOf(w'.sup.spawned, id) == SpawnsOf(w.sup.spawned, id) + 1
    requires GrantsOf(w'.sup.journal, id) == GrantsOf(w.sup.journal, id) + 1
    requires w'.now >= FirstGrant(w'.sup.journal, id) + TotalDelay(w'.sup.spec.restartBackoff, GrantsOf(w'.sup.journal, id))
    ensures OnlyToken(w', id, token) && OnPace(w', id, token)
  {
    hide SpawnsOf, GrantsOf, FirstGrant, TotalDelay;
    assert forall i :: 0 <= i < |w'.queue| ==> w'.queue[i] == w.queue[i + 1];
    assert forall t :: 0 <= t < |w.sup.spawned| ==> w'.sup.spawned[t] == w.sup.spawned[t];
  }

  lemma GrantedLater(w: World, w': World, id: ChildId, token: Token)
    requires OnlyToken(w, id, Failure(0)) && OnPace(w, id, Failure(0)) && HeadTaken(w, w')
    requires token == Sleeping(|w.sup.timers|) && w'.sup.spawned == w.sup.spawned && w'.sup.spec == w.sup.spec
    requires var n := |w.sup.timers|;
      && |w'.sup.timers| == n + 1 && w'.sup.timers[..n] == w.sup.timers
      && w'.sup.timers[n].due
           >= FirstGrant(w'.sup.journal, id) + TotalDelay(w'.sup.spec.restartBackoff, GrantsOf(w'.sup.journal, id))
    requires GrantsOf(w'.sup.journal, id) == GrantsOf(w.sup.journal, id) + 1
    requires w'.now >= w.now && FirstGrant(w'.sup.journal, id)
      == if GrantsOf(w.sup.journal, id) == 0 then w'.now else FirstGrant(w.sup.journal, id)
    ensures OnlyToken(w', id, token) && OnPace(w', id, token)
  {
    hide SpawnsOf, GrantsOf, FirstGrant, TotalDelay;
    assert forall i :: 0 <= i < |w'.queue| ==> w'.queue[i] == w.queue[i + 1];
    assert forall i :: 0 <= i < |w.sup.timers| ==> w'.sup.timers[i] == w.sup.timers[i];
  }

  // ---- Whole runs ----

  lemma OpeningInv(spec: SupervisorSpec, start: Instant, id: ChildId)
    requires UniqueSpecIds(spec) && spec.restartStrategy == OneForOne
    ensures Inv(Opening(spec, start), id)
  {
    var w := Opening(spec, start);
    IdsStayUnique(spec, start, []);
    BackoffTable.RunKeepsInv(spec, start, []);
    assert ServeAll(Init(spec, start), []) == w.sup;
    hide UniqueIds, BackoffTable.Inv;
    if t :| 0 <= t < |spec.children| && spec.children[t].Id() == id {
      SpawnsAtMostOne(spec.children, id);
      assert OnlyToken(w, id, Task(t)) && OnPace(w, id, Task(t));
    } else {
      SpawnsAtMostOne(spec.children, id);
      assert OnlyToken(w, id, Nothing) && OnPace(w, id, Nothing);
    }
  }

  lemma {:induction false} SpawnsAtMostOne(specs: seq<ChildSpec>, id: ChildId)
    requires forall i, j :: 0 <= i < j < |specs| ==> specs[i].Id() != specs[j].Id()
    ensures SpawnsOf(specs, id) <= 1
    ensures (forall i :: 0 <= i < |specs| ==> specs[i].Id() != id) ==> SpawnsOf(specs, id) == 0
  {
    if specs != [] {
      SpawnsAtMostOne(specs[..|specs| - 1], id);
    }
  }

  lemma {:induction false} RunKeepsInv(spec: SupervisorSpec, start: Instant, steps: seq<Step>, id: ChildId)
    requires UniqueSpecIds(spec) && spec.restartStrategy == OneForOne
    requires Legal(Opening(spec, start), steps) && CrashLoop(Opening(spec, start), steps, id)
    ensures Inv(After(Opening(spec, start), steps), id)
    decreases |steps|
  {
    hide Inv, Next, Enabled, Opening, NoHealthyGap;
    if steps == [] {
      OpeningInv(spec, start, id);
    } else {
      var front, last := steps[..|steps| - 1], steps[|steps| - 1];
      var w := After(Opening(spec, start), front);
      HistoryGrows(w, last);
      NoHealthyGapBefore(w.sup, Next(w, last).sup, id);
      RunKeepsInv(spec, start, front, id);
      StepKeepsInv(w, last, id);
    }
  }

  lemma HistoryGrows(w: World, step: Step)
    requires Enabled(w, step)
    ensures Next(w, step).sup.spec == w.sup.spec && w.sup.journal <= Next(w, step).sup.journal
  {
    if step.Handle? {
      hide Serve, Answer;
      JournalGrows(w.sup, HeadDelivery(w, step.later, step.init));
    }
  }

  lemma JournalGrows(s: Sup, d: Delivery)
    ensures var s' := Serve(s, d.command, d.env); s'.spec == s.spec && s.journal <= s'.journal
  {
    hide Carry, ApplyRestart, Position;
    match d.command {
      case ChildTerminated(id, reason) =>
        var found := Position(s.children, id);
        if found.Some? {
          CarryGrows(s, found.value, JudgeAt(s, found.value, reason, d.env), d.env);
        }
      case RestartChild(id, strategy) =>
        var found := Position(s.children, id);
        if found.Some? {
          RoundGrows(s.(rounds := s.rounds.(applied := s.rounds.applied + 1)), found.value, strategy);
        }
      case _ =>
    }
  }

  lemma CarryGrows(s: Sup, p: nat, v: Verdict, env: Env)
    requires p < |s.children|
    ensures Carry(s, p, v, env).spec == s.spec && s.journal <= Carry(s, p, v, env).journal
  {
    hide Renewed, Rolling, Departures, DepartedIds, Halts, Spawns, Remove;
  }

  lemma RoundGrows(s: Sup, p: nat, strategy: RestartStrategy)
    requires p < |s.children|
    ensures ApplyRestart(s, p, strategy).spec == s.spec && s.journal <= ApplyRestart(s, p, strategy).journal
  {
    hide Renewed, Rolling, Departures, DepartedIds, Halts, Spawns;
  }

  lemma NoHealthyGapBefore(s: Sup, s': Sup, id: ChildId)
    requires s'.spec == s.spec && s.journal <= s'.journal && NoHealthyGap(s', id)
    ensures NoHealthyGap(s, id)
    decreases |s'.journal|
  {
    if |s'.journal| > |s.journal| {
      var n := |s'.journal| - 1;
      assert s'.journal == s'.journal[..n] + [s'.journal[n]];
      var front := s'.(journal := s'.journal[..n]);
      forall k | 0 <= k < n
        ensures BackoffTable.Ends(s'.journal, s.spec.restartBackoff.maxDelay, id, k)
             == BackoffTable.Ends(front.journal, s.spec.restartBackoff.maxDelay, id, k)
      {
        BackoffTable.EndsStays(front.journal, s'.journal[n], s.spec.restartBackoff.maxDelay, id, k);
      }
      NoHealthyGapBefore(s, front, id);
    } else {
      assert s'.journal == s.journal;
    }
  }

  lemma StepKeepsInv(w: World, step: Step, id: ChildId)
    requires Inv(w, id) && Enabled(w, step) && !StartsOrTerminates(step, id) && NoHealthyGap(Next(w, step).sup, id)
    ensures Inv(Next(w, step), id)
  {
    hide Inv, Next, NoHealthyGap;
    if !step.Handle? {
      PostKeepsInv(w, step, id);
    } else if IsFailure(w.queue[0], id) {
      HandleFailure(w, step, id);
    } else if IsRestart(w.queue[0], id) {
      HandleRestart(w, step, id);
    } else {
      HandleAside(w, step, id);
    }
  }

  /** Under one-for-one, in every run that neither starts nor terminates `id` and never finds it
      healthy: by the time `id` has been respawned `k` times, at least the first `k` delays have
      passed since its first restart was granted. */
  lemma CrashLoopPaced(spec: SupervisorSpec, start: Instant, steps: seq<Step>, id: ChildId)
    requires UniqueSpecIds(spec) && spec.restartStrategy == OneForOne
    requires Legal(Opening(spec, start), steps) && CrashLoop(Opening(spec, start), steps, id)
    ensures var w := After(Opening(spec, start), steps); var k := SpawnsOf(w.sup.spawned, id) - 1;
      k > 0 ==> w.now >= FirstGrant(w.sup.journal, id) + TotalDelay(spec.restartBackoff, k)
  {
    hide Opening, SpawnsOf, GrantsOf, FirstGrant, TotalDelay, Inv, After, Legal, CrashLoop;
    RunKeepsInv(spec, start, steps, id);
    SpecFixed(spec, start, steps);
    OnPaceNow(After(Opening(spec, start), steps), id);
  }

  lemma OnPaceNow(w: World, id: ChildId)
    requires Inv(w, id)
    ensures var k := SpawnsOf(w.sup.spawned, id) - 1;
      k > 0 ==> w.now >= FirstGrant(w.sup.journal, id) + TotalDelay(w.sup.spec.restartBackoff, k)
  {
    hide SpawnsOf, GrantsOf, FirstGrant, TotalDelay, OnlyToken, Settled;
    var token :| OnlyToken(w, id, token) && OnPace(w, id, token);
    var k := SpawnsOf(w.sup.spawned, id) - 1;
    var done := GrantsOf(w.sup.journal, id) - (if token.Sleeping? || token.Message? then 1 else 0);
    if k > 0 {
      TotalDelayGrows(w.sup.spec.restartBackoff, k, done);
    }
  }

  /** ... which is the sum of a doubling sequence until the ceiling is reached. */
  lemma CrashLoopDoubles(spec: SupervisorSpec, start: Instant, steps: seq<Step>, id: ChildId)
    requires UniqueSpecIds(spec) && spec.restartStrategy == OneForOne
    requires Legal(Opening(spec, start), steps) && CrashLoop(Opening(spec, start), steps, id)
    ensures var w := After(Opening(spec, start), steps); var k := SpawnsOf(w.sup.spawned, id) - 1;
      0 < k <= 32 && spec.restartBackoff.initialDelay * Pow2(k - 1) <= spec.restartBackoff.maxDelay
      ==> w.now >= FirstGrant(w.sup.journal, id) + spec.restartBackoff.initialDelay * (Pow2(k) - 1)
  {
    hide Opening, SpawnsOf, GrantsOf, FirstGrant, TotalDelay, After, CrashLoop, Legal, Pow2;
    CrashLoopPaced(spec, start, steps, id);
    var k := SpawnsOf(After(Opening(spec, start), steps).sup.spawned, id) - 1;
    if 0 < k <= 32 && spec.restartBackoff.initialDelay * Pow2(k - 1) <= spec.restartBackoff.maxDelay {
      TotalDelayIsGeometric(spec.restartBackoff, k);
    }
  }

  lemma {:induction false} TotalDelayGrows(b: RestartBackoff, k: nat, n: nat)
    requires k <= n
    ensures TotalDelay(b, k) <= TotalDelay(b, n)
  {
    if k < n {
      TotalDelayGrows(b, k, n - 1);
    }
  }

  lemma {:induction false} SpecFixed(spec: SupervisorSpec, start: Instant, steps: seq<Step>)
    requires Legal(Opening(spec, start), steps)
    ensures After(Opening(spec, start), steps).sup.spec == spec
    decreases |steps|
  {
    if steps != [] {
      hide Next, Enabled, Opening;
      SpecFixed(spec, start, steps[..|steps| - 1]);
      HistoryGrows(After(Opening(spec, start), steps[..|steps| - 1]), steps[|steps| - 1]);
    }
  }
}
