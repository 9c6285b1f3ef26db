/** The restart-intensity limit over whole runs. */
module Escalation {
  import opened Types
  import opened Restart
  import Backoff
  import opened Spec
  import opened SupervisorCommon
  import opened Supervision

  // ---- What the limit talks about ----

  /** Whether serving `d` in state `s` is a failure that asks for a restart. */
  predicate Worthy(s: Sup, d: Delivery) {
    d.command.ChildTerminated?
    && var found := Position(s.children, d.command.id);
       found.Some? && RestartWorthy(s.children[found.value].spec.RestartPolicyForDecision(), d.command.reason)
  }

  /** Times of the failures that asked for a restart, read off the commands served. */
  function WorthyTimes(s: Sup, deliveries: seq<Delivery>): seq<Instant> {
    if deliveries == [] then []
    else
      var front := deliveries[..|deliveries| - 1];
      var last := deliveries[|deliveries| - 1];
      var before := ServeAll(s, front);
      WorthyTimes(s, front) + (if before.exit == None && Worthy(before, last) then [last.env.now] else [])
  }

  /** Times at which restarts were granted. */
  function GrantTimes(journal: seq<Entry>): seq<Instant> {
    if journal == [] then []
    else
      var last := journal[|journal| - 1];
      GrantTimes(journal[..|journal| - 1]) + (if last.Granted? then [last.recordedAt] else [])
  }

  /** Failures among the first `k + 1` that lie in the closed window ending at the last of them. */
  function InWindow(times: seq<Instant>, k: nat, window: Duration): seq<Instant>
    requires k < |times|
  {
    Since(times[..k + 1], Back(times[k], window))
  }

  function Back(t: Instant, d: Duration): Instant {
    if d <= t then t - d else 0
  }

  /** Failure number `k` puts more than `limit` failures in its window. */
  predicate Exceeds(times: seq<Instant>, k: nat, window: Duration, limit: nat)
    requires k < |times|
  {
    |InWindow(times, k, window)| > limit
  }

  function Latest(times: seq<Instant>, window: Duration): seq<Instant> {
    if times == [] then [] else InWindow(times, |times| - 1, window)
  }

  /** The only failure that exceeds the limit is the last one, and only if `over`. */
  ghost predicate ExceedsLastOnly(times: seq<Instant>, window: Duration, limit: nat, over: bool) {
    && (over ==> times != [])
    && (forall k :: 0 <= k < |times| ==> (Exceeds(times, k, window, limit) <==> over && k == |times| - 1))
  }

  ghost predicate AtLeast(times: seq<Instant>, least: nat) {
    forall i :: 0 <= i < |times| ==> least <= times[i]
  }

  /** Clock readings never go back, and the clock can go back a whole window. */
  ghost predicate Clocked(spec: SupervisorSpec, deliveries: seq<Delivery>) {
    && (forall i :: 0 <= i < |deliveries| ==> spec.restartIntensity.Window() <= deliveries[i].env.now)
    && (forall i, j :: 0 <= i < j < |deliveries| ==> deliveries[i].env.now <= deliveries[j].env.now)
  }

  // ---- The invariant ----

  /** What the deque `recent` and the outcome so far say about the failures in `times`. */
  ghost predicate WindowInv(times: seq<Instant>, recent: seq<Instant>, window: Duration, limit: nat, over: bool) {
    recent == Latest(times, window) && Limited(times, window, limit, over)
  }

  ghost predicate Limited(times: seq<Instant>, window: Duration, limit: nat, over: bool) {
    Sorted(times) && AtLeast(times, window) && ExceedsLastOnly(times, window, limit, over)
  }

  ghost predicate Inv(s: Sup) {
    && WindowInv(s.worthy, s.recent, s.spec.restartIntensity.Window(), s.spec.restartIntensity.maxRestarts,
                 s.exit == Some(Abnormal))
    && GrantTimes(s.journal) == (if s.exit == Some(Abnormal) then s.worthy[..|s.worthy| - 1] else s.worthy)
    && (s.exit.Some? ==> s.children == [])
  }

  lemma {:induction false} SinceTwice(times: seq<Instant>, c1: Instant, c2: Instant)
    requires c1 <= c2
    ensures Since(Since(times, c1), c2) == Since(times, c2)
  {
    if times != [] {
      var front := times[..|times| - 1];
      SinceTwice(front, c1, c2);
      var kept := Since(front, c1);
      assert (kept + [times[|times| - 1]])[..|kept|] == kept;
    }
  }

  lemma {:induction false} GrantTimesOfDepartures(journal: seq<Entry>, children: seq<Child>)
    ensures GrantTimes(journal + Departures(children)) == GrantTimes(journal)
    decreases |children|
  {
    if children == [] {
      assert journal + Departures(children) == journal;
    } else {
      var front, last := children[..|children| - 1], children[|children| - 1];
      GrantTimesOfDepartures(journal, front);
      if last.LeavesSupervision() {
        GrantTimesAppend(journal + Departures(front), Left(last.Id()));
        assert journal + Departures(children) == journal + Departures(front) + [Left(last.Id())];
      } else {
        assert Departures(children) == Departures(front);
      }
    }
  }

  lemma GrantTimesAppend(journal: seq<Entry>, e: Entry)
    ensures GrantTimes(journal + [e]) == GrantTimes(journal) + (if e.Granted? then [e.recordedAt] else [])
  {
    assert (journal + [e])[..|journal|] == journal;
  }

  /** A restart round adds nothing to the history of grants and failures. */
  lemma RoundKeepsGrants(s: Sup, p: nat, strategy: RestartStrategy)
    requires p < |s.children|
    ensures var r := ApplyRestart(s, p, strategy);
      && r.spec == s.spec && r.recent == s.recent && r.exit == s.exit && r.worthy == s.worthy
      && GrantTimes(r.journal) == GrantTimes(s.journal)
  {
    RoundFrame(s, p, strategy);
    GrantTimesOfDepartures(s.journal, s.children[p..]);
    GrantTimesOfDepartures(s.journal, s.children[0..]);
  }

  /** One failure that asks for a restart, recorded at `now`. */
  lemma RecordingKeepsWindow(times: seq<Instant>, recent: seq<Instant>, window: Duration, limit: nat, now: Instant)
    requires WindowInv(times, recent, window, limit, false)
    requires Sorted(times + [now]) && window <= now
    ensures var recent' := Since(recent, now - window) + [now];
      WindowInv(times + [now], recent', window, limit, |recent'| > limit)
  {
    hide Since;
    var n, times' := |times|, times + [now];
    var recent' := Since(recent, now - window) + [now];
    SortedFront(times, now);
    LatestAfter(times, window, now);
    assert times'[..n + 1] == times';
    forall k | 0 <= k < n
      ensures Exceeds(times', k, window, limit) == Exceeds(times, k, window, limit)
    {
      assert times'[..k + 1] == times[..k + 1];
    }
    assert Exceeds(times', n, window, limit) <==> |recent'| > limit;
  }

  lemma SortedFront(times: seq<Instant>, now: Instant)
    requires Sorted(times + [now])
    ensures Sorted(times) && forall i :: 0 <= i < |times| ==> times[i] <= now
  {
    var all := times + [now];
    assert forall i :: 0 <= i < |times| ==> all[i] == times[i] && all[i] <= all[|times|];
  }

  lemma LatestAfter(times: seq<Instant>, window: Duration, now: Instant)
    requires AtLeast(times, window) && window <= now
    requires times != [] ==> times[|times| - 1] <= now
    ensures Since(Latest(times, window), now - window) + [now] == Latest(times + [now], window)
  {
    hide Since;
    var n, times' := |times|, times + [now];
    assert times'[..n + 1] == times';
    SinceAppend(times, now, now - window);
    if n > 0 {
      assert times[..n] == times;
      SinceTwice(times, times[n - 1] - window, now - window);
    } else {
      assert Latest(times, window) == times;
    }
  }

  lemma SinceAppend(times: seq<Instant>, t: Instant, cutoff: Instant)
    requires cutoff <= t
    ensures Since(times + [t], cutoff) == Since(times, cutoff) + [t]
  {
    assert (times + [t])[..|times|] == times;
  }

  lemma RecordingKeepsInv(s: Sup, now: Instant, s': Sup)
    requires Inv(s) && s.exit == None && Sorted(s.worthy + [now]) && s.spec.restartIntensity.Window() <= now
    requires s'.spec == s.spec && s'.worthy == s.worthy + [now]
    requires s'.recent == Since(s.recent, s.spec.restartIntensity.Cutoff(now)) + [now]
    requires |s'.recent| > s.spec.restartIntensity.maxRestarts ==>
      s'.exit == Some(Abnormal) && s'.children == [] && GrantTimes(s'.journal) == GrantTimes(s.journal)
    requires |s'.recent| <= s.spec.restartIntensity.maxRestarts ==>
      s'.exit == None && GrantTimes(s'.journal) == GrantTimes(s.journal) + [now]
    ensures Inv(s')
  {
    hide WindowInv, GrantTimes;
    RecordingKeepsWindow(s.worthy, s.recent, s.spec.restartIntensity.Window(), s.spec.restartIntensity.maxRestarts, now);
    assert (s.worthy + [now])[..|s.worthy|] == s.worthy;
  }

  /** Everything the invariant reads is as before, except that children may have left. */
  lemma QuietKeepsInv(s: Sup, s': Sup)
    requires Inv(s) && s.exit == None
    requires s'.spec == s.spec && s'.worthy == s.worthy && s'.recent == s.recent
    requires GrantTimes(s'.journal) == GrantTimes(s.journal)
    requires s'.exit == None || (s'.exit == Some(Shutdown) && s'.children == [])
    ensures Inv(s')
  {
    hide WindowInv, GrantTimes;
  }

  lemma TerminationKeepsInv(s: Sup, p: nat, reason: ChildExitReason, env: Env)
    requires Inv(s) && s.exit == None && p < |s.children|
    requires Sorted(s.worthy + [env.now]) && s.spec.restartIntensity.Window() <= env.now
    ensures var s' := Carry(s, p, JudgeAt(s, p, reason, env), env);
      && Inv(s')
      && s'.worthy == s.worthy + (if RestartWorthy(s.children[p].spec.RestartPolicyForDecision(), reason)
                                  then [env.now] else [])
  {
    hide Inv, ApplyRestart;
    var v := JudgeAt(s, p, reason, env);
    var s' := Carry(s, p, v, env);
    var id := s.children[p].Id();
    match v.decision {
      case Ignore => QuietKeepsInv(s, s');
      case Drop =>
        GrantTimesAppend(s.journal, Left(id));
        QuietKeepsInv(s, s');
      case Escalate => RecordingKeepsInv(s, env.now, s');
      case Restart(delay, strategy) =>
        var entry := Granted(id, env.now, env.later, delay);
        GrantTimesAppend(s.journal, entry);
        var s2 := s.(recent := v.recent, table := v.table, worthy := s.worthy + [env.now],
                     journal := s.journal + [entry],
                     rounds := s.rounds.(immediate := s.rounds.immediate + 1));
        RoundKeepsGrants(s2, p, strategy);
        RecordingKeepsInv(s, env.now, s');
    }
  }

  lemma CommandKeepsInv(s: Sup, d: Delivery)
    requires Inv(s) && s.exit == None
    requires Sorted(s.worthy + [d.env.now]) && s.spec.restartIntensity.Window() <= d.env.now
    ensures var s' := Serve(s, d.command, d.env);
      Inv(s') && s'.worthy == s.worthy + (if Worthy(s, d) then [d.env.now] else [])
  {
    hide Inv, Carry, ApplyRestart;
    var s' := Serve(s, d.command, d.env);
    match d.command {
      case ChildTerminated(id, reason) =>
        var found := Position(s.children, id);
        if found.Some? {
          TerminationKeepsInv(s, found.value, reason, d.env);
        }
      case RestartChild(id, strategy) =>
        var found := Position(s.children, id);
        if found.Some? {
          RoundKeepsGrants(s.(rounds := s.rounds.(applied := s.rounds.applied + 1)), found.value, strategy);
        }
        QuietKeepsInv(s, s');
      case TerminateChild(id, _) =>
        GrantTimesAppend(s.journal, Left(id));
        QuietKeepsInv(s, s');
      case _ =>
        QuietKeepsInv(s, s');
    }
  }

  /** The failures recorded so far are those delivered so far, none later than the last delivery. */
  ghost predicate UpTo(s: Sup, times: seq<Instant>, deliveries: seq<Delivery>) {
    s.worthy == times
    && forall t :: t in times ==> deliveries != [] && t <= deliveries[|deliveries| - 1].env.now
  }

  lemma {:induction false} RunKeepsInv(spec: SupervisorSpec, start: Instant, deliveries: seq<Delivery>)
    requires Clocked(spec, deliveries)
    ensures var s := ServeAll(Init(spec, start), deliveries);
      Inv(s) && s.spec == spec && UpTo(s, WorthyTimes(Init(spec, start), deliveries), deliveries)
  {
    hide Serve, Worthy, Inv, Init;
    if deliveries == [] {
      InvAtStart(spec, start);
    } else {
      var front, last := deliveries[..|deliveries| - 1], deliveries[|deliveries| - 1];
      RunKeepsInv(spec, start, front);
      var before := ServeAll(Init(spec, start), front);
      if before.exit == None {
        SortedSoFar(before, front, last);
        CommandKeepsInv(before, last);
        SpecStays(before, last);
      }
    }
  }

  lemma InvAtStart(spec: SupervisorSpec, start: Instant)
    ensures Inv(Init(spec, start)) && Init(spec, start).spec == spec && Init(spec, start).worthy == []
  {
  }

  lemma SortedSoFar(s: Sup, front: seq<Delivery>, last: Delivery)
    requires Inv(s) && UpTo(s, s.worthy, front)
    requires front != [] ==> front[|front| - 1].env.now <= last.env.now
    ensures Sorted(s.worthy + [last.env.now])
  {
    assert forall i :: 0 <= i < |s.worthy| ==> s.worthy[i] in s.worthy;
  }

  lemma SpecStays(s: Sup, d: Delivery)
    ensures Serve(s, d.command, d.env).spec == s.spec
  {
    match d.command {
      case ChildTerminated(id, reason) =>
        var found := Position(s.children, id);
        if found.Some? {
          CarryKeepsSpec(s, found.value, JudgeAt(s, found.value, reason, d.env), d.env);
        }
      case _ =>
    }
  }

  lemma CarryKeepsSpec(s: Sup, p: nat, v: Verdict, env: Env)
    requires p < |s.children|
    ensures Carry(s, p, v, env).spec == s.spec
  {
  }

  // ---- Exact escalation ----

  /** Over every run: the deque holds exactly the failures in the closed window ending at the
      latest one; the supervisor exits abnormally at exactly the first failure that puts more
      than the allowed number in its window, and then no child is left. */
  lemma ExactEscalation(spec: SupervisorSpec, start: Instant, deliveries: seq<Delivery>)
    requires Clocked(spec, deliveries)
    ensures var s, times := ServeAll(Init(spec, start), deliveries), WorthyTimes(Init(spec, start), deliveries);
      var window, limit := spec.restartIntensity.Window(), spec.restartIntensity.maxRestarts;
      && window == spec.restartIntensity.withinSeconds * 1_000_000_000
      && AtLeast(times, window)
      && s.recent == Latest(times, window)
      && ExceedsLastOnly(times, window, limit, s.exit == Some(Abnormal))
      && (s.exit.Some? ==> s.children == [])
      && |s.recent| <= limit + 1
  {
    hide ServeAll, WorthyTimes, Init;
    RunKeepsInv(spec, start, deliveries);
    var s := ServeAll(Init(spec, start), deliveries);
    LatestBounded(s.worthy, s.recent, spec.restartIntensity.Window(), spec.restartIntensity.maxRestarts,
                  s.exit == Some(Abnormal));
  }

  lemma LatestBounded(times: seq<Instant>, recent: seq<Instant>, window: Duration, limit: nat, over: bool)
    requires WindowInv(times, recent, window, limit, over)
    ensures |recent| <= limit + 1
  {
    var n := |times|;
    if n > 1 {
      assert !Exceeds(times, n - 2, window, limit);
      var front := times[..n - 1];
      assert times[..n] == times && times[n - 2] <= times[n - 1];
      SinceTwice(front, times[n - 2] - window, times[n - 1] - window);
    }
  }

  // ---- The restart rate ----

  function CountBetween(times: seq<Instant>, lo: nat, hi: nat): nat {
    if times == [] then 0
    else CountBetween(times[..|times| - 1], lo, hi) + (if lo <= times[|times| - 1] <= hi then 1 else 0)
  }

  lemma {:induction false} CountIsSince(times: seq<Instant>, lo: Instant, hi: nat)
    requires forall i :: 0 <= i < |times| ==> times[i] <= hi
    ensures CountBetween(times, lo, hi) == |Since(times, lo)|
  {
    if times != [] {
      CountIsSince(times[..|times| - 1], lo, hi);
    }
  }

  lemma {:induction false} SinceShrinks(times: seq<Instant>, c1: Instant, c2: Instant)
    requires c1 <= c2
    ensures |Since(times, c2)| <= |Since(times, c1)|
  {
    if times != [] {
      SinceShrinks(times[..|times| - 1], c1, c2);
    }
  }

  /** No closed window holds more grants than the limit, if no window ending at a grant does. */
  lemma {:induction false} EveryWindowBounded(times: seq<Instant>, window: Duration, limit: nat, from: Instant)
    requires Limited(times, window, limit, false)
    ensures CountBetween(times, from, from + window) <= limit
  {
    if times != [] {
      var n := |times|;
      var front, last := times[..n - 1], times[n - 1];
      if last > from + window {
        FrontExceeds(times, window, limit, false);
        EveryWindowBounded(front, window, limit, from);
      } else {
        CountIsSince(times, from, from + window);
        SinceShrinks(times, last - window, from);
        assert times[..n] == times && !Exceeds(times, n - 1, window, limit);
      }
    }
  }

  lemma FrontExceeds(times: seq<Instant>, window: Duration, limit: nat, over: bool)
    requires times != [] && Limited(times, window, limit, over)
    ensures Limited(times[..|times| - 1], window, limit, false)
  {
    var front := times[..|times| - 1];
    forall k | 0 <= k < |front| ensures !Exceeds(front, k, window, limit) {
      assert front[..k + 1] == times[..k + 1];
      assert !Exceeds(times, k, window, limit);
    }
  }

  /** Every closed time window of the configured length holds at most the allowed restarts. */
  lemma RestartRateBound(spec: SupervisorSpec, start: Instant, deliveries: seq<Delivery>, from: Instant)
    requires Clocked(spec, deliveries)
    ensures CountBetween(GrantTimes(ServeAll(Init(spec, start), deliveries).journal),
                         from, from + spec.restartIntensity.Window())
         <= spec.restartIntensity.maxRestarts
  {
    hide ServeAll, WorthyTimes, UpTo, Inv, Init, Limited, GrantTimes, CountBetween;
    RunKeepsInv(spec, start, deliveries);
    var s := ServeAll(Init(spec, start), deliveries);
    GrantsLimited(s);
    EveryWindowBounded(GrantTimes(s.journal), spec.restartIntensity.Window(), spec.restartIntensity.maxRestarts, from);
  }

  lemma GrantsLimited(s: Sup)
    requires Inv(s)
    ensures Limited(GrantTimes(s.journal), s.spec.restartIntensity.Window(), s.spec.restartIntensity.maxRestarts, false)
  {
    if s.exit == Some(Abnormal) {
      FrontExceeds(s.worthy, s.spec.restartIntensity.Window(), s.spec.restartIntensity.maxRestarts, true);
    }
  }

  lemma {:induction false} CountSplits(times: seq<Instant>, lo: nat, mid: nat, hi: nat)
    requires lo <= mid <= hi
    ensures CountBetween(times, lo, hi) <= CountBetween(times, lo, mid) + CountBetween(times, mid, hi)
  {
    if times != [] {
      CountSplits(times[..|times| - 1], lo, mid, hi);
    }
  }

  lemma {:induction false} CountGrows(times: seq<Instant>, lo: nat, hi1: nat, hi2: nat)
    requires hi1 <= hi2
    ensures CountBetween(times, lo, hi1) <= CountBetween(times, lo, hi2)
  {
    if times != [] {
      CountGrows(times[..|times| - 1], lo, hi1, hi2);
    }
  }

  /** A stretch of time no longer than `n` windows grants at most `n` times the limit. */
  lemma {:induction false} RestartBudgetOverTime(spec: SupervisorSpec, start: Instant, deliveries: seq<Delivery>,
                                                 from: Instant, duration: nat, n: nat)
    requires Clocked(spec, deliveries)
    requires n > 0 && duration <= n * spec.restartIntensity.Window() && from + duration <= INSTANT_MAX
    ensures CountBetween(GrantTimes(ServeAll(Init(spec, start), deliveries).journal), from, from + duration)
         <= n * spec.restartIntensity.maxRestarts
    decreases n
  {
    hide ServeAll, GrantTimes, CountBetween, Init;
    var times := GrantTimes(ServeAll(Init(spec, start), deliveries).journal);
    var window := spec.restartIntensity.Window();
    RestartRateBound(spec, start, deliveries, from);
    if duration <= window {
      CountGrows(times, from, from + duration, from + window);
      Backoff.MulMonotone(spec.restartIntensity.maxRestarts, 1, n);
    } else {
      RestartBudgetOverTime(spec, start, deliveries, from + window, duration - window, n - 1);
      CountSplits(times, from, from + window, from + duration);
    }
  }

  // ---- The clock near its least reading ----

  /** What one recording keeps of a sorted history is its closed window exactly when the clock
      can go back that far, or when everything recorded so far carries this very reading. */
  lemma WindowExactIff(intensity: RestartIntensity, log: seq<Instant>, now: Instant)
    requires Sorted(log + [now])
    ensures Since(log, intensity.Cutoff(now)) == Since(log, Back(now, intensity.Window()))
       <==> intensity.Window() <= now || forall t :: t in log ==> t == now
  {
    if now < intensity.Window() {
      SinceKeepsRecent(log, 0);
      FallbackKeepsPresent(log, now);
    }
  }

  /** With the cutoff at `now` itself, a history survives exactly when it is all of this instant. */
  lemma FallbackKeepsPresent(log: seq<Instant>, now: Instant)
    requires Sorted(log + [now])
    ensures Since(log, now) == log <==> forall t :: t in log ==> t == now
  {
    SortedFront(log, now);
    if forall t :: t in log ==> t == now {
      assert forall i :: 0 <= i < |log| ==> log[i] in log;
      SinceKeepsRecent(log, now);
    } else {
      var t :| t in log && t != now;
      assert t !in Since(log, now);
    }
  }

  lemma {:induction false} NothingSince(times: seq<Instant>, cutoff: Instant)
    requires forall i :: 0 <= i < |times| ==> times[i] < cutoff
    ensures Since(times, cutoff) == []
  {
    if times != [] {
      NothingSince(times[..|times| - 1], cutoff);
    }
  }

  /** A failure recorded while the clock reads less than a window, all earlier ones before it:
      the deque forgets them, and the restart is granted whatever came before. */
  lemma GrantedNearClockOrigin(s: Sup, d: Delivery)
    requires Worthy(s, d) && s.exit == None
    requires d.env.now < s.spec.restartIntensity.Window() && s.spec.restartIntensity.maxRestarts > 0
    requires forall t :: t in s.recent ==> t < d.env.now
    ensures var s' := Serve(s, d.command, d.env);
      && s'.spec == s.spec && s'.exit == None && s'.recent == [d.env.now]
      && GrantTimes(s'.journal) == GrantTimes(s.journal) + [d.env.now]
      && (s.spec.restartBackoff.initialDelay > 0 && s.spec.restartBackoff.maxDelay > 0 ==> s'.children == s.children)
  {
    hide ApplyRestart, GrantTimes;
    var p := Position(s.children, d.command.id).value;
    var id := s.children[p].Id();
    assert forall i :: 0 <= i < |s.recent| ==> s.recent[i] in s.recent;
    NothingSince(s.recent, d.env.now);
    var attempt := AttemptAt(s.spec.restartBackoff, Lookup(s.table, id), d.env.later);
    Backoff.DelayClosedForm(s.spec.restartBackoff, attempt);
    Backoff.Pow2Monotone(0, attempt);
    Backoff.MulMonotone(s.spec.restartBackoff.initialDelay, 1, Backoff.Multiplier(attempt));
    var delay := DelayAt(s.spec.restartBackoff, Lookup(s.table, id), d.env.later);
    var entry := Granted(id, d.env.now, d.env.later, delay);
    GrantTimesAppend(s.journal, entry);
    var v := JudgeAt(s, p, d.command.reason, d.env);
    RoundKeepsGrants(s.(recent := v.recent, table := v.table, worthy := s.worthy + [d.env.now],
                        journal := s.journal + [entry],
                        rounds := s.rounds.(immediate := s.rounds.immediate + 1)), p, s.spec.restartStrategy);
  }
}
