/** One worker task raced against the supervisor that owns it: every interleaving of
    `run_worker` with `WorkerProcess::stop` or with dropping the process. */
module Lifecycle {
  import opened Types

  /** Where the task is. A task can be aborted only where it waits, which is why the report
      (sent without waiting) is a phase of its own. */
  datatype Phase =
    | Initializing
    | Selecting                           // about to look at the shutdown signal
    | Polling                             // signal not seen in this poll; about to poll `run`
    | Cleaning(reason: ChildExitReason)   // the shutdown hook is running
    | Reporting(reason: ChildExitReason)
    | Ended
    | Aborted

  /** What one poll of `run` came to. */
  datatype Poll = Pending | ReturnedOk | ReturnedErr

  /** What the task has done, in order. `signalled` tells whether the stop was already asked
      for when `initialize` returned. */
  datatype Event =
    | Initialized(signalled: bool)
    | InitFailed(signalled: bool)
    | Polled(poll: Poll)
    | Cleaned
    | Reported(reason: ChildExitReason)

  datatype Owner =
    | Holding
    | Waiting                     // `stop` waits for the task or for its timeout
    | Joining                     // `stop` has aborted the task and waits for its end
    | Stopped(graceful: bool)     // `stop` has returned
    | Dropped

  datatype Machine = Machine(phase: Phase, log: seq<Event>, signal: bool, abort: bool, owner: Owner) {
    predicate Over() {
      phase.Ended? || phase.Aborted?
    }
  }

  const SPAWNED := Machine(Initializing, [], false, false, Holding)

  datatype Step =
    | InitOk | InitErr
    | CheckSignal
    | RunPending | RunOk | RunErr
    | HookDone
    | Report
    | AbortLands
    | BeginStop(immediate: bool)  // `immediate`: the timeout is zero
    | Join
    | TimeoutElapses
    | JoinAborted
    | DropProcess

  predicate Enabled(m: Machine, step: Step) {
    match step
    case InitOk => m.phase.Initializing?
    case InitErr => m.phase.Initializing?
    case CheckSignal => m.phase.Selecting?
    case RunPending => m.phase.Polling?
    case RunOk => m.phase.Polling?
    case RunErr => m.phase.Polling?
    case HookDone => m.phase.Cleaning?
    case Report => m.phase.Reporting?
    case AbortLands => m.abort && (m.phase.Initializing? || m.phase.Selecting? || m.phase.Cleaning?)
    case BeginStop(_) => m.owner.Holding?
    case Join => m.owner.Waiting? && m.Over()
    case TimeoutElapses => m.owner.Waiting?
    case JoinAborted => m.owner.Joining? && m.Over()
    case DropProcess => m.owner.Holding?
  }

  function Next(m: Machine, step: Step): Machine
    requires Enabled(m, step)
  {
    match step
    case InitOk => m.(phase := Selecting, log := m.log + [Initialized(m.signal)])
    case InitErr => m.(phase := Reporting(Abnormal), log := m.log + [InitFailed(m.signal)])
    case CheckSignal => m.(phase := if m.signal then Cleaning(Shutdown) else Polling)
    case RunPending => m.(phase := Selecting, log := m.log + [Polled(Pending)])
    case RunOk => m.(phase := Cleaning(Normal), log := m.log + [Polled(ReturnedOk)])
    case RunErr => m.(phase := Cleaning(Abnormal), log := m.log + [Polled(ReturnedErr)])
    case HookDone => m.(phase := Reporting(m.phase.reason), log := m.log + [Cleaned])
    case Report => m.(phase := Ended, log := m.log + [Reported(m.phase.reason)])
    case AbortLands => m.(phase := Aborted)
    case BeginStop(immediate) => m.(signal := true, abort := immediate, owner := if immediate then Joining else Waiting)
    case Join => m.(owner := Stopped(true))
    case TimeoutElapses => m.(abort := true, owner := Joining)
    case JoinAborted => m.(owner := Stopped(false))
    // The sender of the signal goes away with the process, which the task sees as a stop.
    case DropProcess => m.(signal := true, abort := true, owner := Dropped)
  }

  ghost predicate Legal(m: Machine, steps: seq<Step>)
    decreases |steps|
  {
    steps == [] || (Enabled(m, steps[0]) && Legal(Next(m, steps[0]), steps[1..]))
  }

  ghost function After(m: Machine, steps: seq<Step>): Machine
    requires Legal(m, steps)
    decreases |steps|
  {
    if steps == [] then m else After(Next(m, steps[0]), steps[1..])
  }

  ghost predicate Reachable(m: Machine) {
    exists steps :: Legal(SPAWNED, steps) && After(SPAWNED, steps) == m
  }

  // ---- The inductive invariant ----

  /** `count` polls of `run` that found it pending. */
  function Polls(count: nat): seq<Event> {
    seq(count, _ => Polled(Pending))
  }

  /** The poll that ended `run`, if one did. */
  function LastPoll(reason: Option<ChildExitReason>): seq<Event> {
    match reason
    case Some(Normal) => [Polled(ReturnedOk)]
    case Some(Abnormal) => [Polled(ReturnedErr)]
    case _ => []
  }

  /** Everything a worker that initialized has done before its hook: a worker that was asked
      to stop before `initialize` returned has never been polled. */
  ghost predicate Ran(log: seq<Event>, reason: Option<ChildExitReason>) {
    exists signalled, n: nat ::
      && log == [Initialized(signalled)] + Polls(n) + LastPoll(reason)
      && (signalled ==> n == 0 && LastPoll(reason) == [])
  }

  /** The whole log of a task about to report `reason`. */
  ghost predicate Finished(log: seq<Event>, reason: ChildExitReason) {
    || (exists signalled :: log == [InitFailed(signalled)] && reason == Abnormal)
    || (log != [] && log[|log| - 1] == Cleaned && Ran(log[..|log| - 1], Some(reason)))
  }

  ghost predicate TaskInv(m: Machine) {
    match m.phase
    case Initializing => m.log == []
    case Selecting => Ran(m.log, None) && (InitSignalled(m) ==> m.signal)
    case Polling => Ran(m.log, None) && !InitSignalled(m)
    case Cleaning(reason) => Ran(m.log, Some(reason)) && (reason == Shutdown ==> m.signal)
    case Reporting(reason) => Finished(m.log, reason) && (reason == Shutdown ==> m.signal)
    case Ended =>
      m.log != [] && m.log[|m.log| - 1].Reported?
      && var reason := m.log[|m.log| - 1].reason;
         Finished(m.log[..|m.log| - 1], reason) && (reason == Shutdown ==> m.signal)
    case Aborted => m.abort && (forall e :: e in m.log ==> !e.Reported?)
  }

  predicate InitSignalled(m: Machine) {
    m.log != [] && m.log[0] == Initialized(true)
  }

  ghost predicate OwnerInv(m: Machine) {
    match m.owner
    case Holding => !m.signal && !m.abort
    case Waiting => m.signal && !m.abort
    case Joining => m.signal && m.abort
    case Stopped(graceful) => m.signal && m.Over() && (m.abort <==> !graceful)
    case Dropped => m.signal && m.abort
  }

  ghost predicate Inv(m: Machine) {
    TaskInv(m) && OwnerInv(m)
  }

  lemma RanPending(log: seq<Event>)
    requires Ran(log, None) && log[0] != Initialized(true)
    ensures Ran(log + [Polled(Pending)], None)
  {
    var signalled, n: nat :| log == [Initialized(signalled)] + Polls(n) + [];
    assert log[0] == Initialized(signalled);
    assert log + [Polled(Pending)] == [Initialized(false)] + Polls(n + 1) + [];
  }

  lemma RanReturned(log: seq<Event>, reason: ChildExitReason)
    requires Ran(log, None) && log[0] != Initialized(true) && reason != Shutdown
    ensures Ran(log + LastPoll(Some(reason)), Some(reason))
  {
    var signalled, n: nat :| log == [Initialized(signalled)] + Polls(n) + [];
    assert log[0] == Initialized(signalled);
    assert log + LastPoll(Some(reason)) == [Initialized(false)] + Polls(n) + LastPoll(Some(reason));
  }

  lemma RanHasNoReport(log: seq<Event>, reason: Option<ChildExitReason>)
    requires Ran(log, reason)
    ensures forall e :: e in log ==> !e.Reported? && !e.Cleaned? && !e.InitFailed?
    ensures Polled(ReturnedOk) in log <==> reason == Some(Normal)
    ensures Polled(ReturnedErr) in log <==> reason == Some(Abnormal)
  {
    var signalled, n: nat :| log == [Initialized(signalled)] + Polls(n) + LastPoll(reason);
    assert forall e :: e in Polls(n) ==> e == Polled(Pending);
  }

  lemma RanUntilSignal(log: seq<Event>)
    requires Ran(log, None)
    ensures Ran(log, Some(Shutdown))
  {
    var signalled, n: nat :| log == [Initialized(signalled)] + Polls(n) + [] && (signalled ==> n == 0);
    assert LastPoll(Some(Shutdown)) == [];
  }

  lemma StepKeepsTaskInv(m: Machine, step: Step)
    requires TaskInv(m) && Enabled(m, step)
    requires step.InitOk? || step.InitErr? || step.CheckSignal? || step.RunPending? || step.RunOk? || step.RunErr?
    ensures TaskInv(Next(m, step))
  {
    match step {
      case InitOk => assert Next(m, step).log == [Initialized(m.signal)] + Polls(0) + [];
      case InitErr => assert Next(m, step).log == [InitFailed(m.signal)];
      case CheckSignal => RanUntilSignal(m.log);
      case RunPending => RanPending(m.log);
      case RunOk => RanReturned(m.log, Normal);
      case RunErr => RanReturned(m.log, Abnormal);
    }
  }

  lemma EndStepKeepsTaskInv(m: Machine, step: Step)
    requires TaskInv(m) && Enabled(m, step)
    requires step.HookDone? || step.Report? || step.AbortLands?
    ensures TaskInv(Next(m, step))
  {
    var log := Next(m, step).log;
    if step.AbortLands? {
      if !m.phase.Initializing? {
        RanHasNoReport(m.log, if m.phase.Selecting? then None else Some(m.phase.reason));
      }
    } else {
      assert log[..|log| - 1] == m.log;
    }
  }

  lemma StepKeepsInv(m: Machine, step: Step)
    requires Inv(m) && Enabled(m, step)
    ensures Inv(Next(m, step))
  {
    if step.InitOk? || step.InitErr? || step.CheckSignal? || step.RunPending? || step.RunOk? || step.RunErr? {
      StepKeepsTaskInv(m, step);
    } else if step.HookDone? || step.Report? || step.AbortLands? {
      EndStepKeepsTaskInv(m, step);
    }
  }

  lemma {:induction false} RunKeepsInv(m: Machine, steps: seq<Step>)
    requires Inv(m) && Legal(m, steps)
    ensures Inv(After(m, steps))
    decreases |steps|
  {
    if steps != [] {
      StepKeepsInv(m, steps[0]);
      RunKeepsInv(Next(m, steps[0]), steps[1..]);
    }
  }

  lemma ReachableInv(m: Machine)
    requires Reachable(m)
    ensures Inv(m)
  {
    var steps :| Legal(SPAWNED, steps) && After(SPAWNED, steps) == m;
    RunKeepsInv(SPAWNED, steps);
  }

  // ---- What every interleaving guarantees ----

  function Reports(log: seq<Event>): nat {
    if log == [] then 0 else Reports(log[..|log| - 1]) + (if log[|log| - 1].Reported? then 1 else 0)
  }

  lemma {:induction false} NoReports(log: seq<Event>)
    requires forall e :: e in log ==> !e.Reported?
    ensures Reports(log) == 0
  {
    if log != [] {
      NoReports(log[..|log| - 1]);
    }
  }

  lemma FinishedHasNoReport(log: seq<Event>, reason: ChildExitReason)
    requires Finished(log, reason)
    ensures forall e :: e in log ==> !e.Reported?
    ensures Cleaned in log <==> exists b :: Initialized(b) in log
    ensures log[0] == Initialized(true) ==> reason == Shutdown && NeverPolled(log)
    ensures log[0] == InitFailed(true) ==> reason == Abnormal && NeverPolled(log)
    ensures reason == Normal <==> Polled(ReturnedOk) in log
    ensures reason == Abnormal <==> Polled(ReturnedErr) in log || exists b :: InitFailed(b) in log
  {
    if log[|log| - 1] == Cleaned {
      var front := log[..|log| - 1];
      RanHasNoReport(front, Some(reason));
      var signalled, n: nat :| front == [Initialized(signalled)] + Polls(n) + LastPoll(Some(reason))
        && (signalled ==> n == 0 && LastPoll(Some(reason)) == []);
      assert log == front + [Cleaned];
      assert log[0] == Initialized(signalled) && Initialized(signalled) in log;
    } else {
      assert log[0] in log;
    }
  }

  ghost predicate NeverPolled(log: seq<Event>) {
    forall e :: e in log ==> !e.Polled?
  }

  /** Each task reports at most once, and exactly once unless it was aborted. */
  lemma ReportedExactlyOnce(m: Machine)
    requires Reachable(m)
    ensures Reports(m.log) <= 1
    ensures m.phase.Ended? <==> Reports(m.log) == 1
  {
    ReachableInv(m);
    match m.phase {
      case Initializing =>
      case Selecting => RanHasNoReport(m.log, None); NoReports(m.log);
      case Polling => RanHasNoReport(m.log, None); NoReports(m.log);
      case Cleaning(reason) => RanHasNoReport(m.log, Some(reason)); NoReports(m.log);
      case Reporting(reason) => FinishedHasNoReport(m.log, reason); NoReports(m.log);
      case Ended =>
        var front := m.log[..|m.log| - 1];
        FinishedHasNoReport(front, m.log[|m.log| - 1].reason);
        NoReports(front);
      case Aborted => NoReports(m.log);
    }
  }

  /** The report is the last thing a task does; the shutdown hook completed before it exactly
      when `initialize` succeeded. */
  lemma HookBeforeReport(m: Machine, i: nat)
    requires Reachable(m) && i < |m.log| && m.log[i].Reported?
    ensures i == |m.log| - 1
    ensures Cleaned in m.log[..i] <==> exists b :: Initialized(b) in m.log[..i]
  {
    ReachableInv(m);
    ReportOnlyLast(m, i);
    FinishedHasNoReport(m.log[..i], m.log[i].reason);
  }

  lemma ReportOnlyLast(m: Machine, i: nat)
    requires Inv(m) && i < |m.log| && m.log[i].Reported?
    ensures m.phase.Ended? && i == |m.log| - 1
  {
    match m.phase {
      case Initializing =>
      case Selecting => RanHasNoReport(m.log, None);
      case Polling => RanHasNoReport(m.log, None);
      case Cleaning(reason) => RanHasNoReport(m.log, Some(reason));
      case Reporting(reason) => FinishedHasNoReport(m.log, reason);
      case Ended =>
        var front := m.log[..|m.log| - 1];
        FinishedHasNoReport(front, m.log[|m.log| - 1].reason);
        assert forall j :: 0 <= j < |front| ==> front[j] in front && m.log[j] == front[j];
      case Aborted =>
    }
  }

  /** A stop asked for before `initialize` returns: `run` is never polled, and the report says
      `Shutdown` exactly when the initialization succeeded. */
  lemma StopBeforeInitEnds(m: Machine)
    requires Reachable(m) && m.log != []
    requires m.log[0] == Initialized(true) || m.log[0] == InitFailed(true)
    ensures NeverPolled(m.log)
    ensures forall r :: Reported(r) in m.log ==> r == (if m.log[0].Initialized? then Shutdown else Abnormal)
  {
    var steps :| Legal(SPAWNED, steps) && After(SPAWNED, steps) == m;
    RunKeepsInv(SPAWNED, steps);
    RunNeverPolls(SPAWNED, steps);
    forall r | Reported(r) in m.log ensures r == if m.log[0].Initialized? then Shutdown else Abnormal {
      var i :| 0 <= i < |m.log| && m.log[i] == Reported(r);
      ReportOnlyLast(m, i);
      FinishedHasNoReport(m.log[..i], r);
    }
  }

  /** No step ever adds a poll to a log that begins with a signalled initialization. */
  lemma {:induction false} RunNeverPolls(m: Machine, steps: seq<Step>)
    requires Inv(m) && Legal(m, steps)
    requires m.log != [] && m.log[0] in {Initialized(true), InitFailed(true)} ==> NeverPolled(m.log)
    ensures var log := After(m, steps).log;
            log != [] && log[0] in {Initialized(true), InitFailed(true)} ==> NeverPolled(log)
    decreases |steps|
  {
    if steps != [] {
      StepKeepsInv(m, steps[0]);
      var m' := Next(m, steps[0]);
      if m.phase.Polling? && m.log[0] == InitFailed(true) {
        RanHasNoReport(m.log, None);
        assert false;
      }
      RunNeverPolls(m', steps[1..]);
    }
  }

  predicate Began(log: seq<Event>) {
    Initialized(true) in log || Initialized(false) in log
  }

  predicate FailedToBegin(log: seq<Event>) {
    InitFailed(true) in log || InitFailed(false) in log
  }

  /** What a step adds to the log. */
  lemma StepLogged(m: Machine, step: Step)
    requires Enabled(m, step)
    ensures var log := Next(m, step).log;
      && (Polled(ReturnedOk) in log <==> Polled(ReturnedOk) in m.log || step == RunOk)
      && (Polled(ReturnedErr) in log <==> Polled(ReturnedErr) in m.log || step == RunErr)
      && (FailedToBegin(log) <==> FailedToBegin(m.log) || step == InitErr)
      && (Began(log) <==> Began(m.log) || step == InitOk)
  {
  }

  /** What a poll returned, and what `initialize` did, is what the steps say. */
  lemma {:induction false} LoggedSteps(m: Machine, steps: seq<Step>)
    requires Legal(m, steps)
    ensures var log := After(m, steps).log;
      && (Polled(ReturnedOk) in log <==> Polled(ReturnedOk) in m.log || RunOk in steps)
      && (Polled(ReturnedErr) in log <==> Polled(ReturnedErr) in m.log || RunErr in steps)
      && (FailedToBegin(log) <==> FailedToBegin(m.log) || InitErr in steps)
      && (Began(log) <==> Began(m.log) || InitOk in steps)
    decreases |steps|
  {
    if steps != [] {
      hide Enabled, Next, FailedToBegin, Began;
      assert steps == [steps[0]] + steps[1..];
      StepLogged(m, steps[0]);
      LoggedSteps(Next(m, steps[0]), steps[1..]);
    }
  }

  /** The report says what became of the worker: `Normal` exactly when `run` returned without an
      error, `Abnormal` exactly when `run` or `initialize` returned one, and `Shutdown` exactly when
      the worker initialized and its `run` never returned. */
  lemma ReportTellsResult(steps: seq<Step>, reason: ChildExitReason)
    requires Legal(SPAWNED, steps) && Reported(reason) in After(SPAWNED, steps).log
    ensures reason == Normal <==> RunOk in steps
    ensures reason == Abnormal <==> RunErr in steps || InitErr in steps
    ensures reason == Shutdown <==> InitOk in steps && RunOk !in steps && RunErr !in steps
  {
    hide After, Legal, Inv, Began, FailedToBegin;
    var m := After(SPAWNED, steps);
    NothingDone();
    RunKeepsInv(SPAWNED, steps);
    LoggedSteps(SPAWNED, steps);
    ReportedLog(m, reason);
  }

  lemma NothingDone()
    ensures !Began(SPAWNED.log) && !FailedToBegin(SPAWNED.log) && Inv(SPAWNED)
  {
  }

  /** What the log of a task says, once it has reported. */
  lemma ReportedLog(m: Machine, reason: ChildExitReason)
    requires Inv(m) && Reported(reason) in m.log
    ensures reason == Normal <==> Polled(ReturnedOk) in m.log
    ensures reason == Abnormal <==> Polled(ReturnedErr) in m.log || FailedToBegin(m.log)
    ensures Began(m.log) <==> !FailedToBegin(m.log)
  {
    hide Inv, Finished;
    var i :| 0 <= i < |m.log| && m.log[i] == Reported(reason);
    ReportOnlyLast(m, i);
    var before := m.log[..i];
    assert m.log == before + [Reported(reason)];
    LogFinished(m);
    FinishedHasNoReport(before, reason);
    OneBeginning(before, reason);
  }

  lemma LogFinished(m: Machine)
    requires Inv(m) && m.phase.Ended? && m.log != [] && m.log[|m.log| - 1].Reported?
    ensures Finished(m.log[..|m.log| - 1], m.log[|m.log| - 1].reason)
  {
  }

  lemma OneBeginning(log: seq<Event>, reason: ChildExitReason)
    requires Finished(log, reason)
    ensures Began(log) <==> !FailedToBegin(log)
    ensures FailedToBegin(log) <==> exists b :: InitFailed(b) in log
  {
    if log[|log| - 1] == Cleaned {
      var front := log[..|log| - 1];
      RanHasNoReport(front, Some(reason));
      assert log == front + [Cleaned] && Initialized(log[0].signalled) in log;
    } else {
      assert log[0] in log;
    }
  }

  /** A `Shutdown` report is only ever the owner's doing. */
  lemma ShutdownOnlyWhenAsked(m: Machine)
    requires Reachable(m) && Reported(Shutdown) in m.log
    ensures !m.owner.Holding?
  {
    ReachableInv(m);
    var i :| 0 <= i < |m.log| && m.log[i] == Reported(Shutdown);
    ReportOnlyLast(m, i);
  }

  /** What `stop` has established when it returns, and what dropping the process leaves. */
  lemma StopSettlesTheTask(m: Machine)
    requires Reachable(m)
    ensures m.owner == Stopped(true) ==> m.phase.Ended? && !m.abort
    ensures m.owner == Stopped(false) ==> m.Over() && m.abort
    ensures m.owner == Dropped ==> m.Over() || m.abort
    ensures m.owner == Holding ==> !m.phase.Aborted?
  {
    ReachableInv(m);
  }

  /** Once a stop has returned nothing more happens: no step is left to take. */
  lemma StoppedIsFinal(m: Machine, step: Step)
    requires Reachable(m) && m.owner.Stopped?
    ensures !Enabled(m, step)
  {
    ReachableInv(m);
  }

  /** The converse of `ShutdownOnlyWhenAsked` fails: a worker that is being stopped can still
      report that it finished normally, or that it failed. */
  lemma StoppedWorkerMayReportAnything(reason: ChildExitReason)
    ensures exists m :: Reachable(m) && m.owner == Stopped(true) && Reported(reason) in m.log
  {
    var m0 := ReachableNext(SPAWNED, InitOk);
    var m1 := ReachableNext(m0, if reason == Shutdown then BeginStop(false) else CheckSignal);
    var m2 := ReachableNext(m1, if reason == Shutdown then CheckSignal else BeginStop(false));
    var m3 := m2;
    if reason != Shutdown {
      m3 := ReachableNext(m2, if reason == Normal then RunOk else RunErr);
    }
    var m4 := ReachableNext(m3, HookDone);
    var m5 := ReachableNext(m4, Report);
    var m6 := ReachableNext(m5, Join);
    assert m6.log[|m6.log| - 1] == Reported(reason);
  }

  lemma ReachableNext(m: Machine, step: Step) returns (m': Machine)
    requires m == SPAWNED || Reachable(m)
    requires Enabled(m, step)
    ensures m' == Next(m, step) && Reachable(m')
  {
    var steps := [];
    if m != SPAWNED {
      steps :| Legal(SPAWNED, steps) && After(SPAWNED, steps) == m;
    }
    Append(SPAWNED, steps, step);
    m' := Next(m, step);
  }

  lemma {:induction false} Append(m: Machine, steps: seq<Step>, step: Step)
    requires Legal(m, steps) && Enabled(After(m, steps), step)
    ensures Legal(m, steps + [step]) && After(m, steps + [step]) == Next(After(m, steps), step)
    decreases |steps|
  {
    if steps != [] {
      Append(Next(m, steps[0]), steps[1..], step);
      assert (steps + [step])[1..] == steps[1..] + [step];
    } else {
      assert [] + [step] == [step];
    }
  }

  // ---- What `stop` waits for ----

  /** `m'` is reached from `m` by steps of the task and of its owner. */
  ghost predicate Follows(m: Machine, m': Machine) {
    exists steps :: Legal(m, steps) && After(m, steps) == m'
  }

  lemma FollowsItself(m: Machine)
    ensures Follows(m, m)
  {
    assert Legal(m, []) && After(m, []) == m;
  }

  lemma FollowsNext(m: Machine, m': Machine, step: Step)
    requires Follows(m, m') && Enabled(m', step)
    ensures Follows(m, Next(m', step))
  {
    var steps :| Legal(m, steps) && After(m, steps) == m';
    Append(m, steps, step);
    assert Legal(m, steps + [step]);
  }

  lemma {:induction false} JoinRuns(m: Machine, steps: seq<Step>, more: seq<Step>)
    requires Legal(m, steps) && Legal(After(m, steps), more)
    ensures Legal(m, steps + more) && After(m, steps + more) == After(After(m, steps), more)
    decreases |steps|
  {
    if steps == [] {
      assert steps + more == more;
    } else {
      JoinRuns(Next(m, steps[0]), steps[1..], more);
      assert (steps + more)[1..] == steps[1..] + more && (steps + more)[0] == steps[0];
    }
  }

  lemma ReachableFollows(m: Machine, m': Machine)
    requires Reachable(m) && Follows(m, m')
    ensures Reachable(m')
  {
    var steps :| Legal(SPAWNED, steps) && After(SPAWNED, steps) == m;
    var more :| Legal(m, more) && After(m, more) == m';
    JoinRuns(SPAWNED, steps, more);
  }

  /** Task steps that remain until the report. */
  function Remaining(m: Machine): nat {
    match m.phase
    case Initializing => 2
    case Selecting => 4
    case Polling => 3
    case Cleaning(_) => 2
    case Reporting(_) => 1
    case _ => 0
  }

  /** A task that was not aborted can always come to its end by itself. */
  lemma {:induction false} CanEnd(start: Machine, m: Machine) returns (m': Machine)
    requires Follows(start, m) && !m.phase.Aborted?
    ensures Follows(start, m') && m'.phase.Ended? && m'.owner == m.owner && m'.abort == m.abort && m'.signal == m.signal
    decreases Remaining(m)
  {
    if m.phase.Ended? {
      m' := m;
    } else {
      var step := match m.phase
        case Initializing => InitErr
        case Selecting => CheckSignal
        case Polling => RunOk
        case Cleaning(_) => HookDone
        case _ => Report;
      FollowsNext(start, m, step);
      m' := CanEnd(start, Next(m, step));
    }
  }

  /** From a task that its owner holds, `stop` can return either way. */
  lemma StopReturns(m: Machine, immediate: bool, graceful: bool) returns (m': Machine)
    requires Reachable(m) && m.owner.Holding? && (graceful ==> !immediate)
    ensures Follows(m, m') && m'.owner == Stopped(graceful)
  {
    hide Reachable;
    StopSettlesTheTask(m);
    FollowsItself(m);
    FollowsNext(m, m, BeginStop(immediate));
    var m1 := Next(m, BeginStop(immediate));
    if !immediate && !graceful {
      FollowsNext(m, m1, TimeoutElapses);
      m1 := Next(m1, TimeoutElapses);
    }
    m1 := CanEnd(m, m1);
    var last := if graceful then Join else JoinAborted;
    FollowsNext(m, m1, last);
    m' := Next(m1, last);
  }
}
