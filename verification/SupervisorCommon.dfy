/** The restart decision of `src/supervisor_common.rs`, shared by both runtimes. */
module SupervisorCommon {
  import opened Types
  import opened Restart

  datatype RestartDecision =
    | Ignore
    | Drop
    | Escalate
    | Restart(delay: Duration, strategy: RestartStrategy)

  /** Terminations that ask for a restart: not one that the supervisor caused, and not one
      that the child's policy accepts. Nested supervisors (no policy) always ask. */
  predicate RestartWorthy(policy: Option<RestartPolicy>, reason: ChildExitReason) {
    reason != Shutdown
    && (policy == None || policy == Some(Permanent) || (policy == Some(Transient) && reason == Abnormal))
  }

  /** Decision and both trackers' contents after a termination. `t1` and `t2` are the clock
      readings of the intensity tracker and, later, of the backoff tracker. */
  datatype Verdict = Verdict(decision: RestartDecision, recent: seq<Instant>, table: BackoffTable)

  function Judge(policy: Option<RestartPolicy>, reason: ChildExitReason, strategy: RestartStrategy,
                 intensity: RestartIntensity, backoff: RestartBackoff,
                 recent: seq<Instant>, table: BackoffTable, id: ChildId, t1: Instant, t2: Instant): Verdict
  {
    if reason == Shutdown then Verdict(Ignore, recent, table)
    else if !RestartWorthy(policy, reason) then Verdict(Drop, recent, table - {id})
    else
      var window := Since(recent, intensity.Cutoff(t1)) + [t1];
      if |window| > intensity.maxRestarts then Verdict(Escalate, window, table)
      else
        var prior := Lookup(table, id);
        Verdict(Restart(DelayAt(backoff, prior, t2), strategy), window,
                table[id := StateAfter(backoff, prior, t2)])
  }

  /** The policy table, in full: a deliberate stop is ignored; a temporary child, and a transient
      one that finished normally, are dropped; every other termination, whatever the policy, asks
      for a restart, which is granted with the configured strategy unless the limit is exceeded. */
  lemma PolicyTable(policy: Option<RestartPolicy>, reason: ChildExitReason, strategy: RestartStrategy,
                    intensity: RestartIntensity, backoff: RestartBackoff,
                    recent: seq<Instant>, table: BackoffTable, id: ChildId, t1: Instant, t2: Instant)
    ensures var v := Judge(policy, reason, strategy, intensity, backoff, recent, table, id, t1, t2);
      && (v.decision == Ignore <==> reason == Shutdown)
      && (v.decision == Drop <==> (policy == Some(Temporary) && reason != Shutdown)
                                  || (policy == Some(Transient) && reason == Normal))
      && (v.decision.Restart? ==> v.decision.strategy == strategy && |v.recent| <= intensity.maxRestarts)
      && (v.decision == Escalate ==> |v.recent| > intensity.maxRestarts)
      && (v.decision.Restart? || v.decision == Escalate ==> v.recent != [] && v.recent[|v.recent| - 1] == t1)
  {
    match policy {
      case None =>
      case Some(Permanent) =>
      case Some(Temporary) =>
      case Some(Transient) =>
    }
  }

  method DecideRestart(policy: Option<RestartPolicy>, reason: ChildExitReason, strategy: RestartStrategy,
                       restartTracker: RestartTracker, backoffTracker: BackoffTracker, id: ChildId,
                       t1: Instant, t2: Instant)
    returns (decision: RestartDecision)
    requires Sorted(restartTracker.restartTimes + [t1])
    modifies restartTracker, backoffTracker
    ensures Verdict(decision, restartTracker.restartTimes, backoffTracker.state)
         == Judge(policy, reason, strategy, restartTracker.intensity, backoffTracker.backoff,
                  old(restartTracker.restartTimes), old(backoffTracker.state), id, t1, t2)
    ensures Sorted(restartTracker.restartTimes)
    ensures decision == Ignore <==> reason == Shutdown
    ensures decision == Drop <==> (policy == Some(Temporary) && reason != Shutdown)
                                  || (policy == Some(Transient) && reason == Normal)
    ensures decision.Restart? ==> decision.strategy == strategy
  {
    assert forall i :: 0 <= i < |restartTracker.restartTimes| ==>
      restartTracker.restartTimes[i] == (restartTracker.restartTimes + [t1])[i];
    if reason == Shutdown {
      return Ignore;
    }
    var shouldRestart;
    match policy {
      case None => shouldRestart := true;
      case Some(Permanent) => shouldRestart := true;
      case Some(Temporary) => shouldRestart := false;
      case Some(Transient) => shouldRestart := reason == Abnormal;
    }
    if !shouldRestart {
      backoffTracker.ResetChild(id);
      return Drop;
    }
    var exceeded := restartTracker.RecordRestart(t1);
    if exceeded {
      return Escalate;
    }
    var delay := backoffTracker.NextDelay(id, t2);
    return Restart(delay, strategy);
  }
}
