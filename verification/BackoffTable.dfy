/** The backoff table against the history of grants and departures. */
module BackoffTable {
  import opened Types
  import opened Restart
  import opened Spec
  import opened Supervision
  import opened Identity

  /** When the replacement that a grant announces begins running. */
  function BeganAt(grant: Entry): Instant
    requires grant.Granted?
  {
    match CheckedAdd(grant.at, grant.delay) case Some(t) => t case None => grant.at
  }

  /** Entry `j` is the last one about `id` before position `k`. */
  ghost predicate LastBefore(journal: seq<Entry>, id: ChildId, j: int, k: int) {
    && 0 <= j < k <= |journal| && journal[j].id == id
    && forall m :: j < m < k ==> journal[m].id != id
  }

  /** Entry `k` ends the consecutive restarts of `id`: the child left, or it is granted a
      restart after having run for the whole ceiling. */
  ghost predicate Ends(journal: seq<Entry>, ceiling: Duration, id: ChildId, k: nat) {
    && k < |journal| && journal[k].id == id
    && (journal[k].Left?
        || exists j :: LastBefore(journal, id, j, k) && journal[j].Granted?
                       && SaturatingSince(journal[k].at, BeganAt(journal[j])) >= ceiling)
  }

  /** The grants to `id` that no later entry has ended. */
  ghost function Counted(journal: seq<Entry>, ceiling: Duration, id: ChildId): set<nat> {
    set i: nat | i < |journal| && journal[i].Granted? && journal[i].id == id
                 && forall k :: i < k < |journal| ==> !Ends(journal, ceiling, id, k)
  }

  /** Consecutive restarts of `id` at the end of the journal. */
  ghost function Streak(journal: seq<Entry>, ceiling: Duration, id: ChildId): nat {
    |Counted(journal, ceiling, id)|
  }

  /** The table's entry for `id` says what the journal says. */
  ghost predicate Agrees(state: Option<BackoffState>, journal: seq<Entry>, ceiling: Duration, id: ChildId) {
    match state
    case None => Counted(journal, ceiling, id) == {}
    case Some(b) =>
      && b.attempts == Min(Streak(journal, ceiling, id), U32_MAX)
      && exists j :: LastBefore(journal, id, j, |journal|) && journal[j].Granted? && b.startedAt == BeganAt(journal[j])
  }

  /** Each delay granted is the one for the consecutive restarts before it. */
  ghost predicate DelaysExact(journal: seq<Entry>, backoff: RestartBackoff) {
    forall k :: 0 <= k < |journal| && journal[k].Granted? ==>
      && Streak(journal[..k + 1], backoff.maxDelay, journal[k].id) > 0
      && journal[k].delay
         == backoff.DelayForAttempt(Min(Streak(journal[..k + 1], backoff.maxDelay, journal[k].id) - 1, U32_MAX))
  }

  ghost predicate Inv(s: Sup) {
    && (forall id :: Agrees(Lookup(s.table, id), s.journal, s.spec.restartBackoff.maxDelay, id))
    && DelaysExact(s.journal, s.spec.restartBackoff)
    && (s.exit == None ==> forall id :: id in s.table ==> id in Ids(s.children))
  }

  // ---- One more entry ----

  lemma EndsStays(journal: seq<Entry>, e: Entry, ceiling: Duration, id: ChildId, k: nat)
    requires k < |journal|
    ensures Ends(journal + [e], ceiling, id, k) == Ends(journal, ceiling, id, k)
  {
    var longer := journal + [e];
    assert longer[k] == journal[k];
    forall j: int
      ensures LastBefore(longer, id, j, k) == LastBefore(journal, id, j, k)
      ensures 0 <= j < k ==> longer[j] == journal[j]
    {
      assert forall m :: 0 <= m < k ==> longer[m] == journal[m];
    }
  }

  lemma CountedAppend(journal: seq<Entry>, e: Entry, ceiling: Duration, id: ChildId)
    ensures Counted(journal + [e], ceiling, id)
         == (if Ends(journal + [e], ceiling, id, |journal|) then {} else Counted(journal, ceiling, id))
            + (if e.Granted? && e.id == id then {|journal|} else {})
  {
    var longer, n := journal + [e], |journal|;
    forall k | 0 <= k < n ensures Ends(longer, ceiling, id, k) == Ends(journal, ceiling, id, k) {
      EndsStays(journal, e, ceiling, id, k);
    }
    var was, grown := Counted(journal, ceiling, id), Counted(longer, ceiling, id);
    forall i: nat | i < n ensures i in grown <==> i in was && !Ends(longer, ceiling, id, n) {
      assert longer[i] == journal[i];
    }
    assert forall i :: i in grown ==> i <= n;
    assert n in grown <==> e.Granted? && e.id == id;
  }

  lemma OtherEntryAgrees(state: Option<BackoffState>, journal: seq<Entry>, e: Entry, ceiling: Duration, id: ChildId)
    requires Agrees(state, journal, ceiling, id) && e.id != id
    ensures Agrees(state, journal + [e], ceiling, id)
  {
    CountedAppend(journal, e, ceiling, id);
    if state.Some? {
      var j :| LastBefore(journal, id, j, |journal|) && journal[j].Granted? && state.value.startedAt == BeganAt(journal[j]);
      assert LastBefore(journal + [e], id, j, |journal| + 1);
    }
  }

  lemma LeftEntryAgrees(journal: seq<Entry>, ceiling: Duration, id: ChildId)
    ensures Agrees(None, journal + [Left(id)], ceiling, id)
  {
    CountedAppend(journal, Left(id), ceiling, id);
  }

  lemma GrantEntryEnds(state: Option<BackoffState>, journal: seq<Entry>, e: Entry, ceiling: Duration)
    requires e.Granted? && state.Some? && Agrees(state, journal, ceiling, e.id)
    ensures Ends(journal + [e], ceiling, e.id, |journal|)
       <==> SaturatingSince(e.at, state.value.startedAt) >= ceiling
  {
    var id, n, longer := e.id, |journal|, journal + [e];
    var j :| LastBefore(journal, id, j, n) && journal[j].Granted? && state.value.startedAt == BeganAt(journal[j]);
    assert LastBefore(longer, id, j, n);
    forall i | LastBefore(longer, id, i, n) ensures i == j {
    }
  }

  /** The table after a grant agrees with the journal after it, and so does the delay. */
  lemma GrantEntryAgrees(state: Option<BackoffState>, journal: seq<Entry>, backoff: RestartBackoff, e: Entry)
    requires Agrees(state, journal, backoff.maxDelay, e.id)
    requires e.Granted? && e.delay == DelayAt(backoff, state, e.at)
    ensures Agrees(Some(StateAfter(backoff, state, e.at)), journal + [e], backoff.maxDelay, e.id)
    ensures var streak := Streak(journal + [e], backoff.maxDelay, e.id);
      streak > 0 && e.delay == backoff.DelayForAttempt(Min(streak - 1, U32_MAX))
  {
    var ceiling, n, longer := backoff.maxDelay, |journal|, journal + [e];
    CountedAppend(journal, e, ceiling, e.id);
    assert n !in Counted(journal, ceiling, e.id);
    if state.Some? {
      GrantEntryEnds(state, journal, e, ceiling);
    }
    assert longer[n] == e && LastBefore(longer, e.id, n, n + 1);
  }

  lemma DelaysAppend(journal: seq<Entry>, e: Entry, backoff: RestartBackoff)
    requires DelaysExact(journal, backoff)
    requires e.Granted? ==>
      var streak := Streak(journal + [e], backoff.maxDelay, e.id);
      streak > 0 && e.delay == backoff.DelayForAttempt(Min(streak - 1, U32_MAX))
    ensures DelaysExact(journal + [e], backoff)
  {
    var longer := journal + [e];
    assert longer[..|longer|] == longer;
    forall k | 0 <= k < |journal| ensures longer[..k + 1] == journal[..k + 1] && longer[k] == journal[k] {
    }
  }

  /** Departures of a restart round. */
  lemma {:induction false} DeparturesAgree(table: Restart.BackoffTable, journal: seq<Entry>, children: seq<Child>,
                                           backoff: RestartBackoff)
    requires DelaysExact(journal, backoff)
    requires forall id :: Agrees(Lookup(table, id), journal, backoff.maxDelay, id)
    ensures DelaysExact(journal + Departures(children), backoff)
    ensures forall id :: Agrees(Lookup(table - DepartedIds(children), id), journal + Departures(children), backoff.maxDelay, id)
    decreases |children|
  {
    hide Agrees, DelaysExact;
    if children == [] {
      assert journal + Departures(children) == journal && table - DepartedIds(children) == table;
    } else {
      var front, last := children[..|children| - 1], children[|children| - 1];
      DeparturesAgree(table, journal, front, backoff);
      var table', journal' := table - DepartedIds(front), journal + Departures(front);
      assert children == front + [last];
      if last.LeavesSupervision() {
        LeaveAgrees(table', journal', last.Id(), backoff);
        assert journal + Departures(children) == journal' + [Left(last.Id())];
        assert table - DepartedIds(children) == table' - {last.Id()};
      } else {
        assert DepartedIds(children) == DepartedIds(front);
        assert Departures(children) == Departures(front);
      }
    }
  }

  lemma LeaveAgrees(table: Restart.BackoffTable, journal: seq<Entry>, gone: ChildId, backoff: RestartBackoff)
    requires DelaysExact(journal, backoff)
    requires forall id :: Agrees(Lookup(table, id), journal, backoff.maxDelay, id)
    ensures DelaysExact(journal + [Left(gone)], backoff)
    ensures forall id :: Agrees(Lookup(table - {gone}, id), journal + [Left(gone)], backoff.maxDelay, id)
  {
    DelaysAppend(journal, Left(gone), backoff);
    hide Agrees, DelaysExact;
    forall id ensures Agrees(Lookup(table - {gone}, id), journal + [Left(gone)], backoff.maxDelay, id) {
      if id == gone {
        LeftEntryAgrees(journal, backoff.maxDelay, id);
      } else {
        assert Lookup(table - {gone}, id) == Lookup(table, id);
        OtherEntryAgrees(Lookup(table, id), journal, Left(gone), backoff.maxDelay, id);
      }
    }
  }

  lemma GrantAgrees(table: Restart.BackoffTable, journal: seq<Entry>, backoff: RestartBackoff, e: Entry)
    requires DelaysExact(journal, backoff)
    requires forall id :: Agrees(Lookup(table, id), journal, backoff.maxDelay, id)
    requires e.Granted? && e.delay == DelayAt(backoff, Lookup(table, e.id), e.at)
    ensures var table' := table[e.id := StateAfter(backoff, Lookup(table, e.id), e.at)];
      && DelaysExact(journal + [e], backoff)
      && forall id :: Agrees(Lookup(table', id), journal + [e], backoff.maxDelay, id)
  {
    hide Agrees, DelaysExact, Streak;
    var table' := table[e.id := StateAfter(backoff, Lookup(table, e.id), e.at)];
    GrantEntryAgrees(Lookup(table, e.id), journal, backoff, e);
    DelaysAppend(journal, e, backoff);
    forall id ensures Agrees(Lookup(table', id), journal + [e], backoff.maxDelay, id) {
      if id != e.id {
        assert Lookup(table', id) == Lookup(table, id);
        OtherEntryAgrees(Lookup(table, id), journal, e, backoff.maxDelay, id);
      }
    }
  }

  // ---- Listed ids ----

  lemma {:induction false} KeptIds(children: seq<Child>, next: TaskId, id: ChildId)
    requires id in Ids(children) && id !in DepartedIds(children)
    ensures id in Ids(Renewed(children, next))
  {
    var n := |children| - 1;
    var front, last := children[..n], children[n];
    var i :| 0 <= i <= n && Ids(children)[i] == id;
    var kept := Renewed(front, next);
    assert children[i] in children;
    if i < n {
      assert Ids(front)[i] == id;
      assert forall c :: c in front ==> c in children;
      KeptIds(front, next, id);
      var j :| 0 <= j < |kept| && Ids(kept)[j] == id;
      assert Ids(Renewed(children, next))[j] == id;
    } else {
      assert Ids(Renewed(children, next))[|kept|] == id;
    }
  }

  lemma RoundKeepsListed(s: Sup, p: nat, strategy: RestartStrategy, id: ChildId)
    requires p < |s.children|
    requires id in Ids(s.children) && id in ApplyRestart(s, p, strategy).table && id in s.table
    ensures id in Ids(ApplyRestart(s, p, strategy).children)
  {
    if strategy.OneForOne? {
      assert Ids(RestartOne(s, p).children) == Ids(s.children);
    } else {
      RenewalKeepsListed(s.children, if strategy.OneForAll? then 0 else p, |s.spawned|, id);
    }
  }

  lemma RenewalKeepsListed(children: seq<Child>, q: nat, next: TaskId, id: ChildId)
    requires q <= |children| && id in Ids(children) && id !in DepartedIds(children[q..])
    ensures id in Ids(children[..q] + Renewed(children[q..], next))
  {
    var before, affected := children[..q], children[q..];
    var kept := Renewed(affected, next);
    var i :| 0 <= i < |children| && Ids(children)[i] == id;
    if i < q {
      assert Ids(before + kept)[i] == id;
    } else {
      assert Ids(affected)[i - q] == id;
      KeptIds(affected, next, id);
      var j :| 0 <= j < |kept| && Ids(kept)[j] == id;
      assert Ids(before + kept)[q + j] == id;
    }
  }

  lemma RemovalKeepsListed(children: seq<Child>, p: nat, id: ChildId)
    requires p < |children| && id in Ids(children) && id != children[p].Id()
    ensures id in Ids(Remove(children, p))
  {
    var i :| 0 <= i < |children| && Ids(children)[i] == id;
    assert Ids(Remove(children, p))[if i < p then i else i - 1] == id;
  }

  // ---- Commands ----

  lemma RoundKeepsInv(s: Sup, p: nat, strategy: RestartStrategy)
    requires Inv(s) && p < |s.children|
    ensures Inv(ApplyRestart(s, p, strategy))
  {
    hide Agrees, DelaysExact;
    var s' := ApplyRestart(s, p, strategy);
    var backoff := s.spec.restartBackoff;
    if !strategy.OneForOne? {
      DeparturesAgree(s.table, s.journal, s.children[if strategy.OneForAll? then 0 else p..], backoff);
    }
    if s.exit == None {
      forall id | id in s'.table ensures id in Ids(s'.children) {
        RoundKeepsListed(s, p, strategy, id);
      }
    }
  }

  lemma CarryKeepsInv(s: Sup, p: nat, reason: ChildExitReason, env: Env)
    requires Inv(s) && s.exit == None && p < |s.children|
    ensures Inv(Carry(s, p, JudgeAt(s, p, reason, env), env))
  {
    hide Agrees, DelaysExact, ApplyRestart;
    var v := JudgeAt(s, p, reason, env);
    var s' := Carry(s, p, v, env);
    var id, backoff := s.children[p].Id(), s.spec.restartBackoff;
    assert Ids(s.children)[p] == id;
    match v.decision {
      case Ignore =>
      case Drop =>
        LeaveAgrees(s.table, s.journal, id, backoff);
        forall other | other in s'.table ensures other in Ids(s'.children) {
          RemovalKeepsListed(s.children, p, other);
        }
      case Escalate =>
      case Restart(delay, strategy) =>
        var entry := Granted(id, env.now, env.later, delay);
        GrantAgrees(s.table, s.journal, backoff, entry);
        RoundKeepsInv(s.(recent := v.recent, table := v.table, worthy := s.worthy + [env.now],
                         journal := s.journal + [entry],
                         rounds := s.rounds.(immediate := s.rounds.immediate + 1)), p, strategy);
    }
  }

  lemma CommandKeepsInv(s: Sup, command: Command, env: Env)
    requires Inv(s) && s.exit == None
    ensures Inv(Serve(s, command, env))
  {
    hide Agrees, DelaysExact, Carry, ApplyRestart, JudgeAt;
    match command {
      case StartChild(w, _) => StartKeepsListed(s, w);
      case StartChildLinked(w, _, _) => StartKeepsListed(s, w);
      case TerminateChild(id, _) =>
        var found := Position(s.children, id);
        if found.Some? {
          LeaveAgrees(s.table, s.journal, id, s.spec.restartBackoff);
          forall other | other in s.table - {id} ensures other in Ids(Remove(s.children, found.value)) {
            RemovalKeepsListed(s.children, found.value, other);
          }
        }
      case ChildTerminated(id, reason) =>
        var found := Position(s.children, id);
        if found.Some? {
          CarryKeepsInv(s, found.value, reason, env);
        }
      case RestartChild(id, strategy) =>
        var found := Position(s.children, id);
        if found.Some? {
          RoundKeepsInv(s.(rounds := s.rounds.(applied := s.rounds.applied + 1)), found.value, strategy);
        }
      case _ =>
    }
  }

  lemma StartKeepsListed(s: Sup, w: WorkerSpec)
    ensures forall id :: id in Ids(s.children) ==> id in Ids(Start(s, w).children)
  {
    StartAppends(s, w);
  }

  lemma {:induction false} RunKeepsInv(spec: SupervisorSpec, start: Instant, deliveries: seq<Delivery>)
    ensures Inv(ServeAll(Init(spec, start), deliveries))
  {
    if deliveries == [] {
      assert Inv(Init(spec, start));
    } else {
      hide Inv, Init, Serve;
      RunKeepsInv(spec, start, deliveries[..|deliveries| - 1]);
      var before := ServeAll(Init(spec, start), deliveries[..|deliveries| - 1]);
      var last := deliveries[|deliveries| - 1];
      if before.exit == None {
        CommandKeepsInv(before, last.command, last.env);
      }
    }
  }

  /** Over every run: while the supervisor runs, only listed ids are in the table; the count kept
      for an id is the number of restarts granted to it since it joined or last ran healthily,
      saturating; and every delay granted is the one for the restarts counted before it. */
  lemma BackoffTableExact(spec: SupervisorSpec, start: Instant, deliveries: seq<Delivery>, id: ChildId)
    ensures var s := ServeAll(Init(spec, start), deliveries);
      var streak := Streak(s.journal, s.spec.restartBackoff.maxDelay, id);
      && (s.exit == None && id in s.table ==> id in Ids(s.children))
      && (if id in s.table then s.table[id].attempts == Min(streak, U32_MAX) else streak == 0)
      && DelaysExact(s.journal, s.spec.restartBackoff)
  {
    hide Init, ServeAll, DelaysExact;
    RunKeepsInv(spec, start, deliveries);
    var s := ServeAll(Init(spec, start), deliveries);
    assert Agrees(Lookup(s.table, id), s.journal, s.spec.restartBackoff.maxDelay, id);
  }
}
