/** Restart policies, the exponential backoff, and the two trackers of `src/restart.rs`. */
module Restart {
  import opened Types

  datatype RestartStrategy = OneForOne | OneForAll | RestForOne

  datatype RestartPolicy = Permanent | Temporary | Transient

  datatype RestartIntensity = RestartIntensity(maxRestarts: nat, withinSeconds: U64) {
    function Window(): Duration {
      withinSeconds * NANOS_PER_SEC
    }

    /** Oldest reading that still counts at `now`. When the clock cannot go back a whole
        window the source falls back to `now` itself. */
    function Cutoff(now: Instant): Instant {
      match CheckedSub(now, Window())
      case Some(t) => t
      case None => now
    }
  }

  function Pow2(n: nat): nat {
    if n == 0 then 1 else 2 * Pow2(n - 1)
  }

  /** One bit shifted left by `n` in 64 bits, or nothing when the whole word is shifted out. */
  function CheckedShl(n: U32): Option<nat> {
    if n < 64 then Some(Pow2(n)) else None
  }

  datatype RestartBackoff = RestartBackoff(initialDelay: Duration, maxDelay: Duration) {

    static function Exponential(initial: Duration, max: Duration): RestartBackoff {
      RestartBackoff(initial, max)
    }

    function DelayForAttempt(attempt: U32): Duration {
      if initialDelay == 0 then 0
      else
        var multiplier := match CheckedShl(attempt) case Some(m) => m case None => U64_MAX;
        var factor := if multiplier <= U32_MAX then multiplier else U32_MAX;
        var delay := match CheckedMul(initialDelay, factor) case Some(d) => d case None => maxDelay;
        Min(delay, maxDelay)
    }
  }

  /** The readings of `times` that are not older than `cutoff`, in order. */
  function Since(times: seq<Instant>, cutoff: Instant): (kept: seq<Instant>)
    ensures |kept| <= |times|
    ensures forall t :: t in kept ==> t in times && cutoff <= t
  {
    if times == [] then []
    else
      var last := times[|times| - 1];
      var kept := Since(times[..|times| - 1], cutoff);
      if last < cutoff then kept else kept + [last]
  }

  lemma {:induction false} SinceDropsOldHead(times: seq<Instant>, cutoff: Instant)
    requires times != [] && times[0] < cutoff
    ensures Since(times, cutoff) == Since(times[1..], cutoff)
  {
    if |times| > 1 {
      var front := times[..|times| - 1];
      SinceDropsOldHead(front, cutoff);
      assert times[1..][..|times| - 2] == front[1..];
    }
  }

  lemma {:induction false} SinceKeepsRecent(times: seq<Instant>, cutoff: Instant)
    requires forall i :: 0 <= i < |times| ==> cutoff <= times[i]
    ensures Since(times, cutoff) == times
  {
    if times != [] {
      var front := times[..|times| - 1];
      SinceKeepsRecent(front, cutoff);
      assert times == front + [times[|times| - 1]];
    }
  }

  /** Sliding window of restart times. */
  class RestartTracker {
    const intensity: RestartIntensity
    var restartTimes: seq<Instant>

    constructor (intensity: RestartIntensity)
      ensures this.intensity == intensity && restartTimes == []
    {
      this.intensity := intensity;
      restartTimes := [];
    }

    /** Records a restart at `now`, a reading no earlier than those recorded before. */
    method RecordRestart(now: Instant) returns (exceeded: bool)
      requires Sorted(restartTimes + [now])
      modifies this
      ensures restartTimes == Since(old(restartTimes), intensity.Cutoff(now)) + [now]
      ensures exceeded <==> |restartTimes| > intensity.maxRestarts
      ensures Sorted(restartTimes)
    {
      var cutoff := intensity.Cutoff(now);
      while |restartTimes| > 0 && restartTimes[0] < cutoff
        invariant Sorted(restartTimes + [now])
        invariant Since(restartTimes, cutoff) == Since(old(restartTimes), cutoff)
      {
        SinceDropsOldHead(restartTimes, cutoff);
        assert restartTimes[1..] + [now] == (restartTimes + [now])[1..];
        restartTimes := restartTimes[1..];
      }
      assert forall i :: 0 <= i < |restartTimes| ==> restartTimes[i] == (restartTimes + [now])[i];
      SinceKeepsRecent(restartTimes, cutoff);
      restartTimes := restartTimes + [now];
      exceeded := |restartTimes| > intensity.maxRestarts;
    }
  }

  /** Consecutive restarts of one child, and when its current replacement begins running. */
  datatype BackoffState = BackoffState(attempts: U32, startedAt: Instant)

  type BackoffTable = map<ChildId, BackoffState>

  function Lookup(table: BackoffTable, id: ChildId): Option<BackoffState> {
    if id in table then Some(table[id]) else None
  }

  /** Exponent for the next delay: the consecutive restarts so far, or zero after an uptime
      of at least the delay ceiling. */
  function AttemptAt(backoff: RestartBackoff, prior: Option<BackoffState>, now: Instant): U32 {
    match prior
    case None => 0
    case Some(state) => if SaturatingSince(now, state.startedAt) >= backoff.maxDelay then 0 else state.attempts
  }

  function DelayAt(backoff: RestartBackoff, prior: Option<BackoffState>, now: Instant): Duration {
    backoff.DelayForAttempt(AttemptAt(backoff, prior, now))
  }

  function StateAfter(backoff: RestartBackoff, prior: Option<BackoffState>, now: Instant): BackoffState {
    var start := match CheckedAdd(now, DelayAt(backoff, prior, now)) case Some(t) => t case None => now;
    BackoffState(Min(AttemptAt(backoff, prior, now) + 1, U32_MAX), start)
  }

  /** Per-child backoff bookkeeping. */
  class BackoffTracker {
    const backoff: RestartBackoff
    var state: BackoffTable

    constructor (backoff: RestartBackoff)
      ensures this.backoff == backoff && state == map[]
    {
      this.backoff := backoff;
      state := map[];
    }

    /** Records a restart of `id` decided at `now` and returns the delay to wait before it. */
    method NextDelay(id: ChildId, now: Instant) returns (delay: Duration)
      modifies this
      ensures delay == DelayAt(backoff, Lookup(old(state), id), now)
      ensures state == old(state)[id := StateAfter(backoff, Lookup(old(state), id), now)]
    {
      var entry := if id in state then state[id] else BackoffState(0, now);
      if SaturatingSince(now, entry.startedAt) >= backoff.maxDelay {
        entry := entry.(attempts := 0);
      }
      delay := backoff.DelayForAttempt(entry.attempts);
      var start := match CheckedAdd(now, delay) case Some(t) => t case None => now;
      state := state[id := BackoffState(Min(entry.attempts + 1, U32_MAX), start)];
    }

    /** Forgets `id`, so that its next failure starts from the initial delay. */
    method ResetChild(id: ChildId)
      modifies this
      ensures state == old(state) - {id}
    {
      state := state - {id};
    }
  }
}
