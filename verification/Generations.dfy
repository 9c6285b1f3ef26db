/** Which task runs which child: one generation at a time, each released exactly once. */
module Generations {
  import opened Types
  import opened Restart
  import opened Spec
  import opened SupervisorCommon
  import opened Supervision
  import opened Identity
  import Lifecycle

  function After(live: set<Child>, e: Effect): set<Child> {
    if e.Spawn? then live + {Child(e.spec, e.task)} else set c | c in live && c.task != e.task
  }

  /** Generations that were spawned and neither stopped, asked to shut down, nor dropped. */
  function Live(trace: seq<Effect>): set<Child> {
    if trace == [] then {}
    else
      After(Live(trace[..|trace| - 1]), trace[|trace| - 1])
  }

  /** How often `task` was stopped, asked to shut down, or dropped. */
  function Releases(trace: seq<Effect>, task: TaskId): nat {
    if trace == [] then 0
    else
      var e := trace[|trace| - 1];
      Releases(trace[..|trace| - 1], task) + (if !e.Spawn? && e.task == task then 1 else 0)
  }

  /** No two live generations have the same id. */
  ghost predicate Exclusive(live: set<Child>) {
    forall c, d :: c in live && d in live && c.Id() == d.Id() ==> c == d
  }

  ghost predicate AlwaysExclusive(trace: seq<Effect>) {
    forall n :: 0 <= n <= |trace| ==> Exclusive(Live(trace[..n]))
  }

  function Elements(children: seq<Child>): set<Child> {
    set c | c in children
  }

  ghost predicate Owned(children: seq<Child>, task: TaskId) {
    exists c :: c in children && c.task == task
  }

  /** Each listed child is run by a task of its own, spawned for its own specification. */
  ghost predicate OwnTasks(children: seq<Child>, spawned: seq<ChildSpec>) {
    && (forall i :: 0 <= i < |children| ==> children[i].task < |spawned| && spawned[children[i].task] == children[i].spec)
    && (forall i, j :: 0 <= i < j < |children| ==> children[i].task != children[j].task)
  }

  ghost predicate ReleasedUnlessOwned(trace: seq<Effect>, children: seq<Child>, spawned: seq<ChildSpec>) {
    forall t: TaskId :: Releases(trace, t) == (if t < |spawned| && !Owned(children, t) then 1 else 0)
  }

  /** What the tasks run that a trace has spawned so far, by task number. */
  function SpawnedBy(trace: seq<Effect>): seq<ChildSpec> {
    if trace == [] then []
    else
      var e := trace[|trace| - 1];
      SpawnedBy(trace[..|trace| - 1]) + (if e.Spawn? then [e.spec] else [])
  }

  /** After `before`, `e` starts the task with the next number, or releases a task that was
      started and not released yet: a worker by a stop, a supervisor by a shutdown message. */
  predicate Fits(before: seq<Effect>, e: Effect) {
    var specs := SpawnedBy(before);
    match e
    case Spawn(t, _) => t == |specs|
    case Stop(t) => t < |specs| && Child(specs[t], t) in Live(before) && specs[t].Worker?
    case Signal(t) => t < |specs| && Child(specs[t], t) in Live(before) && specs[t].Supervisor?
    case Drop(t) => t < |specs| && Child(specs[t], t) in Live(before)
  }

  ghost predicate Orderly(trace: seq<Effect>) {
    forall n :: 0 <= n < |trace| ==> Fits(trace[..n], trace[n])
  }

  /** The trace accounts for exactly the listed generations. */
  ghost predicate Tracks(trace: seq<Effect>, children: seq<Child>, spawned: seq<ChildSpec>) {
    && AlwaysExclusive(trace)
    && Live(trace) == Elements(children)
    && UniqueIds(children)
    && OwnTasks(children, spawned)
    && ReleasedUnlessOwned(trace, children, spawned)
    && SpawnedBy(trace) == spawned && Orderly(trace)
  }

  function Insert(children: seq<Child>, p: nat, c: Child): seq<Child>
    requires p <= |children|
  {
    children[..p] + [c] + children[p..]
  }

  // ---- One effect ----

  lemma LiveAppend(trace: seq<Effect>, e: Effect)
    ensures Live(trace + [e]) == After(Live(trace), e)
    ensures forall t: TaskId :: Releases(trace + [e], t) == Releases(trace, t) + (if !e.Spawn? && e.task == t then 1 else 0)
    ensures SpawnedBy(trace + [e]) == SpawnedBy(trace) + (if e.Spawn? then [e.spec] else [])
  {
    assert (trace + [e])[..|trace|] == trace;
  }

  lemma ExclusiveAppend(trace: seq<Effect>, e: Effect)
    requires AlwaysExclusive(trace) && Exclusive(Live(trace + [e]))
    ensures AlwaysExclusive(trace + [e])
  {
    forall n | 0 <= n <= |trace| + 1 ensures Exclusive(Live((trace + [e])[..n])) {
      if n <= |trace| {
        assert (trace + [e])[..n] == trace[..n];
      } else {
        assert (trace + [e])[..n] == trace + [e];
      }
    }
  }

  lemma OrderlyAppend(trace: seq<Effect>, e: Effect)
    requires Orderly(trace) && Fits(trace, e)
    ensures Orderly(trace + [e])
  {
    hide Fits;
    var more := trace + [e];
    forall n | 0 <= n < |more| ensures Fits(more[..n], more[n]) {
      assert more[..n] == trace[..n];
      assert trace[..|trace|] == trace;
    }
  }

  lemma ElementsExclusive(children: seq<Child>)
    requires UniqueIds(children)
    ensures Exclusive(Elements(children))
  {
    forall c, d | c in children && d in children && c.Id() == d.Id() ensures c == d {
      var i :| 0 <= i < |children| && children[i] == c;
      var j :| 0 <= j < |children| && children[j] == d;
      assert Ids(children)[i] == Ids(children)[j];
    }
  }

  lemma RemoveFacts(children: seq<Child>, p: nat, spawned: seq<ChildSpec>)
    requires p < |children| && UniqueIds(children) && OwnTasks(children, spawned)
    ensures var rest := Remove(children, p); var gone := children[p].task;
      && UniqueIds(rest) && OwnTasks(rest, spawned)
      && Elements(rest) == (set c | c in Elements(children) && c.task != gone)
      && forall t: TaskId :: Owned(rest, t) <==> Owned(children, t) && t != gone
  {
    var rest := Remove(children, p);
    IdsOfRemoval(children, p);
    SubsequenceSelects(Ids(rest), Ids(children));
    hide UniqueIds;
    RemoveElements(children, p, spawned);
    forall t: TaskId ensures Owned(rest, t) <==> Owned(children, t) && t != children[p].task {
      assert forall c :: c in rest <==> c in Elements(rest);
    }
  }

  lemma RemoveElements(children: seq<Child>, p: nat, spawned: seq<ChildSpec>)
    requires p < |children| && OwnTasks(children, spawned)
    ensures var rest := Remove(children, p); var gone := children[p].task;
      && OwnTasks(rest, spawned)
      && Elements(rest) == (set c | c in Elements(children) && c.task != gone)
  {
    var rest := Remove(children, p);
    assert forall i :: 0 <= i < |rest| ==> rest[i] == children[if i < p then i else i + 1];
    forall c | c in children && c.task != children[p].task ensures c in rest {
      var i :| 0 <= i < |children| && children[i] == c;
      assert c == rest[if i < p then i else i - 1];
    }
  }

  lemma TrackRemove(trace: seq<Effect>, children: seq<Child>, p: nat, spawned: seq<ChildSpec>, e: Effect)
    requires Tracks(trace, children, spawned) && p < |children|
    requires e == Halt(children[p]) || e == Effect.Drop(children[p].task)
    ensures Tracks(trace + [e], Remove(children, p), spawned)
  {
    hide UniqueIds, SpawnedBy, Orderly, Live, Releases;
    LiveAppend(trace, e);
    assert children[p] in Elements(children);
    RemoveFacts(children, p, spawned);
    ElementsExclusive(Remove(children, p));
    ExclusiveAppend(trace, e);
    OrderlyAppend(trace, e);
    var gone := children[p].task;
    assert children[p] in children && Owned(children, gone);
  }

  lemma InsertUnique(children: seq<Child>, p: nat, c: Child)
    requires p <= |children| && UniqueIds(children) && c.Id() !in Ids(children)
    ensures UniqueIds(Insert(children, p, c))
  {
    hide Child.Id;
    var more := Insert(children, p, c);
    assert forall i :: 0 <= i < |children| ==> Ids(children)[i] in Ids(children);
    assert forall i :: 0 <= i < |more| && i != p ==> Ids(more)[i] == Ids(children)[if i < p then i else i - 1];
    assert Ids(more)[p] == c.Id();
  }

  lemma InsertFacts(children: seq<Child>, p: nat, spawned: seq<ChildSpec>, spec: ChildSpec)
    requires p <= |children| && UniqueIds(children) && OwnTasks(children, spawned)
    requires spec.Id() !in Ids(children)
    ensures var c := Child(spec, |spawned|); var more := Insert(children, p, c);
      && UniqueIds(more) && OwnTasks(more, spawned + [spec])
      && Elements(more) == Elements(children) + {c}
      && forall t: TaskId :: Owned(more, t) <==> Owned(children, t) || t == |spawned|
  {
    hide UniqueIds, Ids;
    var c := Child(spec, |spawned|);
    var more := Insert(children, p, c);
    InsertUnique(children, p, c);
    assert forall i :: 0 <= i < |more| && i != p ==> more[i] == children[if i < p then i else i - 1];
    forall d | d in children ensures d in more {
      var i :| 0 <= i < |children| && children[i] == d;
      assert d == more[if i < p then i else i + 1];
    }
    assert more[p] == c;
  }

  lemma TrackInsert(trace: seq<Effect>, children: seq<Child>, p: nat, spawned: seq<ChildSpec>, spec: ChildSpec)
    requires Tracks(trace, children, spawned) && p <= |children|
    requires spec.Id() !in Ids(children)
    ensures Tracks(trace + [Spawn(|spawned|, spec)], Insert(children, p, Child(spec, |spawned|)), spawned + [spec])
  {
    hide UniqueIds, SpawnedBy, Orderly, Live, Releases;
    var e := Spawn(|spawned|, spec);
    LiveAppend(trace, e);
    OrderlyAppend(trace, e);
    InsertFacts(children, p, spawned, spec);
    ElementsExclusive(Insert(children, p, Child(spec, |spawned|)));
    ExclusiveAppend(trace, e);
    forall c | c in children ensures c.task < |spawned| {
    }
    assert !Owned(children, |spawned|);
  }

  // ---- Restart rounds ----

  /** Stop one child and start its replacement in its place. */
  lemma TrackReplace(trace: seq<Effect>, children: seq<Child>, p: nat, spawned: seq<ChildSpec>)
    requires Tracks(trace, children, spawned) && p < |children|
    ensures var c := children[p];
      Tracks(trace + [Halt(c)] + [Spawn(|spawned|, c.spec)], children[p := Child(c.spec, |spawned|)], spawned + [c.spec])
  {
    hide Tracks;
    var c, rest := children[p], Remove(children, p);
    TrackRemove(trace, children, p, spawned, Halt(c));
    OthersDiffer(trace, children, p, spawned);
    TrackInsert(trace + [Halt(c)], rest, p, spawned, c.spec);
    assert Insert(rest, p, Child(c.spec, |spawned|)) == children[p := Child(c.spec, |spawned|)];
  }

  lemma OthersDiffer(trace: seq<Effect>, children: seq<Child>, p: nat, spawned: seq<ChildSpec>)
    requires Tracks(trace, children, spawned) && p < |children|
    ensures children[p].Id() !in Ids(Remove(children, p))
  {
    var rest := Remove(children, p);
    assert forall i :: 0 <= i < |rest| ==> Ids(rest)[i] == Ids(children)[if i < p then i else i + 1];
    assert children[p].Id() == Ids(children)[p];
  }

  /** A rolling restart of the middle of the list. */
  lemma {:induction false} TrackRolling(trace: seq<Effect>, before: seq<Child>, affected: seq<Child>, after: seq<Child>,
                                        spawned: seq<ChildSpec>)
    requires Tracks(trace, before + affected + after, spawned)
    ensures var kept := Renewed(affected, |spawned|);
      Tracks(trace + Rolling(affected, |spawned|), before + kept + after, spawned + Specs(kept))
    decreases |affected|
  {
    hide Tracks, Halt;
    if affected == [] {
      assert before + affected + after == before + Renewed(affected, |spawned|) + after;
      assert trace + Rolling(affected, |spawned|) == trace && spawned + Specs(Renewed(affected, |spawned|)) == spawned;
    } else {
      var front, last := affected[..|affected| - 1], affected[|affected| - 1];
      assert before + affected + after == before + front + ([last] + after);
      TrackRolling(trace, before, front, [last] + after, spawned);
      TrackLast(trace + Rolling(front, |spawned|), before + Renewed(front, |spawned|), last, after,
                spawned + Specs(Renewed(front, |spawned|)));
      RollingGrows(trace, before, front, last, after, spawned);
      assert affected == front + [last];
    }
  }

  /** One turn of the rolling restart, for the first child not yet dealt with. */
  lemma TrackLast(trace: seq<Effect>, before: seq<Child>, c: Child, after: seq<Child>, spawned: seq<ChildSpec>)
    requires Tracks(trace, before + ([c] + after), spawned)
    ensures var kept := Kept(c, |spawned|);
      Tracks(trace + RollOne(c, |spawned|), before + kept + after, spawned + Specs(kept))
  {
    hide Tracks, Halt;
    var all, p := before + ([c] + after), |before|;
    if c.LeavesSupervision() {
      TrackRemove(trace, all, p, spawned, Halt(c));
      assert Remove(all, p) == before + [] + after && spawned + Specs([]) == spawned;
      assert RollOne(c, |spawned|) == [Halt(c)];
    } else {
      TrackReplace(trace, all, p, spawned);
      assert all[p := Child(c.spec, |spawned|)] == before + [Child(c.spec, |spawned|)] + after;
      assert Specs(Kept(c, |spawned|)) == [c.spec];
      assert trace + [Halt(c)] + [Spawn(|spawned|, c.spec)] == trace + RollOne(c, |spawned|);
    }
  }

  lemma RollingGrows(trace: seq<Effect>, before: seq<Child>, front: seq<Child>, last: Child, after: seq<Child>,
                     spawned: seq<ChildSpec>)
    ensures var all := front + [last]; var next := |spawned|;
      var kept := Renewed(front, next); var more := Kept(last, next + |kept|);
      && trace + Rolling(all, next) == trace + Rolling(front, next) + RollOne(last, next + |kept|)
      && before + Renewed(all, next) + after == before + kept + more + after
      && spawned + Specs(Renewed(all, next)) == spawned + Specs(kept) + Specs(more)
      && before + kept + ([last] + after) == (before + kept) + ([last] + after)
  {
    hide *;
    var next := |spawned|;
    RoundAppend(front, last, next);
    var kept := Renewed(front, next);
    var more := Kept(last, next + |kept|);
    SpecsAppend(kept, more);
    Associative(trace, Rolling(front, next), RollOne(last, next + |kept|));
    Associative(before, kept, more);
    Associative(spawned, Specs(kept), Specs(more));
  }

  /** Stopping the first children of the list, one after the other. */
  lemma {:induction false} TrackHalts(trace: seq<Effect>, stopped: seq<Child>, rest: seq<Child>, spawned: seq<ChildSpec>)
    requires Tracks(trace, stopped + rest, spawned)
    ensures Tracks(trace + Halts(stopped), rest, spawned)
    decreases |stopped|
  {
    hide Tracks, Halt;
    if stopped == [] {
      assert trace + Halts(stopped) == trace && stopped + rest == rest;
    } else {
      var front, last := stopped[..|stopped| - 1], stopped[|stopped| - 1];
      assert stopped + rest == front + ([last] + rest);
      TrackHalts(trace, front, [last] + rest, spawned);
      TrackRemove(trace + Halts(front), [last] + rest, 0, spawned, Halt(last));
      assert Remove([last] + rest, 0) == rest;
      assert trace + Halts(stopped) == trace + Halts(front) + [Halt(last)];
    }
  }

  /** Starting a whole list from nothing. */
  lemma {:induction false} TrackSpawns(trace: seq<Effect>, kept: seq<Child>, spawned: seq<ChildSpec>)
    requires Tracks(trace, [], spawned) && UniqueIds(kept)
    requires forall i :: 0 <= i < |kept| ==> kept[i].task == |spawned| + i
    ensures Tracks(trace + Spawns(kept), kept, spawned + Specs(kept))
    decreases |kept|
  {
    hide Tracks;
    if kept == [] {
      assert trace + Spawns(kept) == trace && spawned + Specs(kept) == spawned;
    } else {
      var n := |kept| - 1;
      var front, last := kept[..n], kept[n];
      assert Ids(front) == Ids(kept)[..n] && Ids(kept)[n] == last.Id();
      TrackSpawns(trace, front, spawned);
      TrackInsert(trace + Spawns(front), front, n, spawned + Specs(front), last.spec);
      assert Insert(front, n, last) == kept;
      assert trace + Spawns(kept) == trace + Spawns(front) + [Spawn(last.task, last.spec)];
      assert spawned + Specs(kept) == spawned + Specs(front) + [last.spec];
    }
  }

  lemma {:induction false} RenewedTasks(children: seq<Child>, next: TaskId)
    ensures forall i :: 0 <= i < |Renewed(children, next)| ==> Renewed(children, next)[i].task == next + i
  {
    if children != [] {
      RenewedTasks(children[..|children| - 1], next);
    }
  }

  // ---- Commands ----

  ghost predicate Inv(s: Sup) {
    Tracks(s.trace, s.children, s.spawned)
  }

  lemma RoundKeepsInv(s: Sup, p: nat, strategy: RestartStrategy)
    requires Inv(s) && p < |s.children|
    ensures Inv(ApplyRestart(s, p, strategy))
  {
    hide Tracks;
    match strategy {
      case OneForOne =>
        TrackReplace(s.trace, s.children, p, s.spawned);
        var c := s.children[p];
        assert s.trace + [Halt(c)] + [Spawn(|s.spawned|, c.spec)] == s.trace + [Halt(c), Spawn(|s.spawned|, c.spec)];
      case OneForAll => RoundOverAll(s);
      case RestForOne =>
        var before, affected := s.children[..p], s.children[p..];
        assert before + affected + [] == s.children;
        TrackRolling(s.trace, before, affected, [], s.spawned);
        assert before + Renewed(affected, |s.spawned|) + [] == before + Renewed(affected, |s.spawned|);
    }
  }

  lemma RoundOverAll(s: Sup)
    requires Inv(s)
    ensures Inv(RestartAll(s))
  {
    var kept := Renewed(s.children, |s.spawned|);
    assert s.children + [] == s.children && s.children[0..] == s.children && s.children[..0] == [];
    TrackHalts(s.trace, s.children, [], s.spawned);
    RenewalIsSubsequence([], s.children, |s.spawned|);
    assert [] + kept == kept && [] + s.children == s.children;
    SubsequenceSelects(Ids(kept), Ids(s.children));
    RenewedTasks(s.children, |s.spawned|);
    hide Tracks;
    TrackSpawns(s.trace + Halts(s.children), kept, s.spawned);
    assert s.children[..0] + kept == kept;
  }

  lemma CarryKeepsInv(s: Sup, p: nat, v: Verdict, env: Env)
    requires Inv(s) && p < |s.children|
    ensures Inv(Carry(s, p, v, env))
  {
    hide Tracks, ApplyRestart;
    match v.decision {
      case Ignore =>
      case Drop => TrackRemove(s.trace, s.children, p, s.spawned, Effect.Drop(s.children[p].task));
      case Escalate => ShutdownKeepsInv(s);
      case Restart(delay, strategy) =>
        RoundKeepsInv(s.(recent := v.recent, table := v.table, worthy := s.worthy + [env.now],
                         journal := s.journal + [Granted(s.children[p].Id(), env.now, env.later, delay)],
                         rounds := s.rounds.(immediate := s.rounds.immediate + 1)), p, strategy);
    }
  }

  lemma ShutdownKeepsInv(s: Sup)
    requires Inv(s)
    ensures Inv(ShutdownChildren(s))
  {
    hide Tracks;
    assert s.children + [] == s.children;
    TrackHalts(s.trace, s.children, [], s.spawned);
  }

  lemma StartKeepsInv(s: Sup, w: WorkerSpec)
    requires Inv(s) && Position(s.children, w.id).None?
    ensures Inv(Start(s, w))
    ensures Inv(Launch(s, w).(trace := Launch(s, w).trace + [Effect.Drop(|s.spawned|)]))
  {
    StartAppends(s, w);
    hide Tracks;
    var n := |s.children|;
    TrackInsert(s.trace, s.children, n, s.spawned, Worker(w));
    var more := Insert(s.children, n, Child(Worker(w), |s.spawned|));
    assert more == s.children + [Child(Worker(w), |s.spawned|)] && Remove(more, n) == s.children;
    TrackRemove(s.trace + [Spawn(|s.spawned|, Worker(w))], more, n, s.spawned + [Worker(w)], Effect.Drop(|s.spawned|));
  }

  lemma CommandKeepsInv(s: Sup, command: Command, env: Env)
    requires Inv(s)
    ensures Inv(Serve(s, command, env))
  {
    hide Tracks, Carry, ApplyRestart;
    match command {
      case StartChild(w, _) =>
        if Position(s.children, w.id).None? {
          StartKeepsInv(s, w);
        }
      case StartChildLinked(w, _, _) =>
        if Position(s.children, w.id).None? {
          StartKeepsInv(s, w);
        }
      case TerminateChild(id, _) =>
        var found := Position(s.children, id);
        if found.Some? {
          TrackRemove(s.trace, s.children, found.value, s.spawned, Halt(s.children[found.value]));
        }
      case ChildTerminated(id, reason) =>
        var found := Position(s.children, id);
        if found.Some? {
          CarryKeepsInv(s, found.value, JudgeAt(s, found.value, reason, env), env);
        }
      case RestartChild(id, strategy) =>
        var found := Position(s.children, id);
        if found.Some? {
          RoundKeepsInv(s.(rounds := s.rounds.(applied := s.rounds.applied + 1)), found.value, strategy);
        }
      case ShutdownCommand => ShutdownKeepsInv(s);
      case _ =>
    }
  }

  /** What has been spawned and done stays on record. */
  lemma HistoryGrows(s: Sup, command: Command, env: Env)
    ensures var s' := Serve(s, command, env); s.spawned <= s'.spawned && s.trace <= s'.trace
  {
    hide Carry, ApplyRestart, Position;
    match command {
      case ChildTerminated(id, reason) =>
        var found := Position(s.children, id);
        if found.Some? {
          CarryGrows(s, found.value, JudgeAt(s, found.value, reason, env), env);
        }
      case RestartChild(id, strategy) =>
        var found := Position(s.children, id);
        if found.Some? {
          RoundGrows(s.(rounds := s.rounds.(applied := s.rounds.applied + 1)), found.value, strategy);
        }
      case _ =>
    }
  }

  lemma CarryGrows(s: Sup, p: nat, v: Verdict, env: Env)
    requires p < |s.children|
    ensures var s' := Carry(s, p, v, env); s.spawned <= s'.spawned && s.trace <= s'.trace
  {
    hide Renewed, Rolling, Departures, DepartedIds, Halts, Spawns, Remove;
  }

  lemma RoundGrows(s: Sup, p: nat, strategy: RestartStrategy)
    requires p < |s.children|
    ensures var s' := ApplyRestart(s, p, strategy); s.spawned <= s'.spawned && s.trace <= s'.trace
  {
    hide Renewed, Rolling, Departures, DepartedIds, Halts, Spawns;
  }

  lemma NothingTracked()
    ensures Tracks([], [], [])
  {
  }

  lemma InitKeepsInv(spec: SupervisorSpec, start: Instant)
    requires UniqueSpecIds(spec)
    ensures Inv(Init(spec, start))
  {
    hide Tracks;
    var s := Init(spec, start);
    assert forall i :: 0 <= i < |s.children| ==> Ids(s.children)[i] == spec.children[i].Id();
    NothingTracked();
    TrackSpawns([], s.children, []);
    assert [] + Spawns(s.children) == s.trace && [] + Specs(s.children) == s.spawned;
  }

  lemma {:induction false} RunKeepsInv(spec: SupervisorSpec, start: Instant, deliveries: seq<Delivery>)
    requires UniqueSpecIds(spec)
    ensures Inv(ServeAll(Init(spec, start), deliveries))
  {
    hide Inv, Init, Serve;
    if deliveries == [] {
      InitKeepsInv(spec, start);
    } else {
      RunKeepsInv(spec, start, deliveries[..|deliveries| - 1]);
      var last := deliveries[|deliveries| - 1];
      CommandKeepsInv(ServeAll(Init(spec, start), deliveries[..|deliveries| - 1]), last.command, last.env);
    }
  }

  // ---- Main results ----

  /** At every point of every run, through every strategy, no id has two live generations. */
  lemma SingleLiveGeneration(spec: SupervisorSpec, start: Instant, deliveries: seq<Delivery>, n: nat, c: Child, d: Child)
    requires UniqueSpecIds(spec)
    requires n <= |ServeAll(Init(spec, start), deliveries).trace|
    requires c in Live(ServeAll(Init(spec, start), deliveries).trace[..n])
    requires d in Live(ServeAll(Init(spec, start), deliveries).trace[..n])
    requires c.Id() == d.Id()
    ensures c == d
  {
    hide Init, ServeAll, Live;
    RunKeepsInv(spec, start, deliveries);
  }

  /** Between commands every listed child owns one task, spawned for it and not released, and
      every other task ever spawned has been released exactly once. */
  lemma EveryTaskAccountedFor(spec: SupervisorSpec, start: Instant, deliveries: seq<Delivery>, task: TaskId)
    requires UniqueSpecIds(spec)
    ensures var s := ServeAll(Init(spec, start), deliveries);
      && OwnTasks(s.children, s.spawned)
      && Live(s.trace) == Elements(s.children)
      && SpawnedBy(s.trace) == s.spawned && Orderly(s.trace)
      && (task < |s.spawned| ==> Releases(s.trace, task) == if Owned(s.children, task) then 0 else 1)
      && (task >= |s.spawned| ==> Releases(s.trace, task) == 0)
  {
    hide Init, ServeAll, Live, Releases, SpawnedBy, Orderly;
    RunKeepsInv(spec, start, deliveries);
    var s := ServeAll(Init(spec, start), deliveries);
    if Owned(s.children, task) {
      var c :| c in s.children && c.task == task;
    }
  }

  /** What the supervisor's trace says of each task, the task's own state machine has seen. */
  ghost predicate Witnessed(trace: seq<Effect>, machines: seq<Lifecycle.Machine>) {
    && (forall m :: m in machines ==> Lifecycle.Reachable(m))
    && (forall t :: 0 <= t < |machines| && Stop(t) in trace ==> machines[t].owner.Stopped?)
    && (forall t :: 0 <= t < |machines| && Effect.Drop(t) in trace ==> machines[t].owner.Dropped?)
  }

  /** A task that has not finished and has not been aborted. */
  ghost predicate Running(m: Lifecycle.Machine) {
    !m.Over() && !m.abort
  }

  /** A task that was started and never released is live. */
  lemma {:induction false} LiveUnlessReleased(trace: seq<Effect>, task: TaskId)
    requires Orderly(trace) && task < |SpawnedBy(trace)|
    requires SpawnedBy(trace)[task].Worker? && Stop(task) !in trace && Effect.Drop(task) !in trace
    ensures Child(SpawnedBy(trace)[task], task) in Live(trace)
  {
    var n := |trace| - 1;
    var front, e := trace[..n], trace[n];
    assert trace == front + [e] && Fits(trace[..n], e);
    LiveAppend(front, e);
    assert Orderly(front) by {
      assert forall k :: 0 <= k < n ==> front[..k] == trace[..k];
    }
    if task < |SpawnedBy(front)| {
      LiveUnlessReleased(front, task);
    }
  }

  /** At every moment of every run, in the middle of restart rounds and linked starts too, and
      however the tasks themselves interleave: no worker id has two running tasks. */
  lemma NoTwoRunningTasks(spec: SupervisorSpec, start: Instant, deliveries: seq<Delivery>, n: nat,
                          machines: seq<Lifecycle.Machine>, t: TaskId, u: TaskId)
    requires UniqueSpecIds(spec) && n <= |ServeAll(Init(spec, start), deliveries).trace|
    requires var trace := ServeAll(Init(spec, start), deliveries).trace[..n]; var specs := SpawnedBy(trace);
      && |machines| == |specs| && Witnessed(trace, machines)
      && t < |specs| && u < |specs|
      && specs[t].Worker? && specs[u].Worker? && specs[t].Id() == specs[u].Id()
    requires Running(machines[t]) && Running(machines[u])
    ensures t == u
  {
    hide Init, ServeAll, Live, Tracks, SpawnedBy;
    RunKeepsInv(spec, start, deliveries);
    TracedAlone(ServeAll(Init(spec, start), deliveries), n, machines, t, u);
  }

  lemma TracedAlone(s: Sup, n: nat, machines: seq<Lifecycle.Machine>, t: TaskId, u: TaskId)
    requires Inv(s) && n <= |s.trace|
    requires var specs := SpawnedBy(s.trace[..n]);
      && |machines| == |specs| && Witnessed(s.trace[..n], machines)
      && t < |specs| && u < |specs|
      && specs[t].Worker? && specs[u].Worker? && specs[t].Id() == specs[u].Id()
    requires Running(machines[t]) && Running(machines[u])
    ensures t == u
  {
    hide Live, SpawnedBy, Fits;
    var trace := s.trace[..n];
    assert forall k :: 0 <= k < n ==> trace[..k] == s.trace[..k];
    RunningIsLive(trace, machines, t);
    RunningIsLive(trace, machines, u);
    assert Exclusive(Live(trace));
  }

  lemma RunningIsLive(trace: seq<Effect>, machines: seq<Lifecycle.Machine>, t: TaskId)
    requires Orderly(trace) && Witnessed(trace, machines)
    requires t < |machines| == |SpawnedBy(trace)| && SpawnedBy(trace)[t].Worker? && Running(machines[t])
    ensures Child(SpawnedBy(trace)[t], t) in Live(trace)
  {
    assert machines[t] in machines;
    Lifecycle.StopSettlesTheTask(machines[t]);
    LiveUnlessReleased(trace, t);
  }
}
