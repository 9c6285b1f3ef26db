/** Child ids stay unique and keep their order. */
module Identity {
  import opened Types
  import opened Restart
  import opened Spec
  import opened SupervisorCommon
  import opened Supervision

  ghost predicate NoDuplicates<T>(xs: seq<T>) {
    forall i, j :: 0 <= i < j < |xs| ==> xs[i] != xs[j]
  }

  ghost predicate UniqueIds(children: seq<Child>) {
    NoDuplicates(Ids(children))
  }

  ghost predicate UniqueSpecIds(spec: SupervisorSpec) {
    forall i, j :: 0 <= i < j < |spec.children| ==> spec.children[i].Id() != spec.children[j].Id()
  }

  /** `a` is what is left of `b` after erasing some elements. */
  ghost predicate Subsequence<T>(a: seq<T>, b: seq<T>)
    decreases |b|
  {
    a == []
    || (b != []
        && var b' := b[..|b| - 1];
           Subsequence(a, b') || (a[|a| - 1] == b[|b| - 1] && Subsequence(a[..|a| - 1], b')))
  }

  lemma {:induction false} SubsequenceReflexive<T>(a: seq<T>)
    ensures Subsequence(a, a)
  {
    if a != [] {
      SubsequenceReflexive(a[..|a| - 1]);
    }
  }

  lemma SubsequenceExtends<T>(a: seq<T>, b: seq<T>, x: T)
    requires Subsequence(a, b)
    ensures Subsequence(a, b + [x]) && Subsequence(a + [x], b + [x])
  {
    assert (b + [x])[..|b|] == b && (a + [x])[..|a|] == a;
  }

  lemma {:induction false} SubsequenceSelects<T>(a: seq<T>, b: seq<T>)
    requires Subsequence(a, b)
    ensures forall x :: x in a ==> x in b
    ensures NoDuplicates(b) ==> NoDuplicates(a)
    decreases |b|
  {
    if a != [] {
      var a', b' := a[..|a| - 1], b[..|b| - 1];
      if Subsequence(a, b') {
        SubsequenceSelects(a, b');
      } else {
        SubsequenceSelects(a', b');
        assert forall x :: x in a ==> x in a' || x == b[|b| - 1];
        if NoDuplicates(b) {
          assert forall i :: 0 <= i < |a'| ==> a'[i] in b' && a'[i] == a[i];
        }
      }
    }
  }

  lemma {:induction false} RemovalIsSubsequence<T>(b: seq<T>, p: nat)
    requires p < |b|
    ensures Subsequence(b[..p] + b[p + 1..], b)
    decreases |b|
  {
    var b' := b[..|b| - 1];
    assert b == b' + [b[|b| - 1]];
    if p == |b| - 1 {
      SubsequenceReflexive(b');
      SubsequenceExtends(b', b', b[p]);
      assert b[..p] + b[p + 1..] == b';
    } else {
      RemovalIsSubsequence(b', p);
      SubsequenceExtends(b'[..p] + b'[p + 1..], b', b[|b| - 1]);
      assert b[..p] + b[p + 1..] == b'[..p] + b'[p + 1..] + [b[|b| - 1]];
    }
  }

  /** A restart round keeps the ids of the children that stay, after an untouched prefix. */
  lemma {:induction false} RenewalIsSubsequence(prefix: seq<Child>, affected: seq<Child>, next: TaskId)
    ensures Subsequence(Ids(prefix + Renewed(affected, next)), Ids(prefix + affected))
    decreases |affected|
  {
    if affected == [] {
      assert prefix + affected == prefix + Renewed(affected, next);
      SubsequenceReflexive(Ids(prefix + affected));
    } else {
      var front, last := affected[..|affected| - 1], affected[|affected| - 1];
      RenewalIsSubsequence(prefix, front, next);
      var kept := Renewed(front, next);
      SubsequenceExtends(Ids(prefix + kept), Ids(prefix + front), last.Id());
      assert Ids(prefix + affected) == Ids(prefix + front) + [last.Id()];
      if last.LeavesSupervision() {
        assert Renewed(affected, next) == kept;
      } else {
        assert Ids(prefix + Renewed(affected, next)) == Ids(prefix + kept) + [last.Id()];
      }
    }
  }

  lemma RoundKeepsOrder(s: Sup, p: nat, strategy: RestartStrategy)
    requires p < |s.children|
    ensures Subsequence(Ids(ApplyRestart(s, p, strategy).children), Ids(s.children))
  {
    var q := match strategy case OneForAll => 0 case _ => p;
    RenewalIsSubsequence(s.children[..q], s.children[q..], |s.spawned|);
    assert s.children[..q] + s.children[q..] == s.children;
    assert s.children[0..] == s.children;
    SubsequenceReflexive(Ids(s.children));
    assert Ids(RestartOne(s, p).children) == Ids(s.children);
  }

  lemma ListedIff(children: seq<Child>, id: ChildId)
    ensures Position(children, id).Some? <==> id in Ids(children)
  {
    hide Position;
    assert forall i :: 0 <= i < |children| ==> Ids(children)[i] == children[i].Id();
  }

  lemma IdsOfRemoval(children: seq<Child>, p: nat)
    requires p < |children|
    ensures Subsequence(Ids(Remove(children, p)), Ids(children))
  {
    RemovalIsSubsequence(Ids(children), p);
    assert Ids(Remove(children, p)) == Ids(children)[..p] + Ids(children)[p + 1..];
  }

  lemma CarryKeepsOrder(s: Sup, p: nat, v: Verdict, env: Env)
    requires p < |s.children|
    ensures Subsequence(Ids(Carry(s, p, v, env).children), Ids(s.children))
  {
    SubsequenceReflexive(Ids(s.children));
    match v.decision {
      case Drop => IdsOfRemoval(s.children, p);
      case Restart(delay, strategy) =>
        var s2 := s.(recent := v.recent, table := v.table, worthy := s.worthy + [env.now],
                     journal := s.journal + [Granted(s.children[p].Id(), env.now, env.later, delay)],
                     rounds := s.rounds.(immediate := s.rounds.immediate + 1));
        RoundKeepsOrder(s2, p, strategy);
      case _ =>
    }
  }

  /** Which id a start command asks for. */
  function StartedId(command: Command): Option<ChildId> {
    match command
    case StartChild(w, _) => Some(w.id)
    case StartChildLinked(w, _, _) => Some(w.id)
    case _ => None
  }

  /** Each command leaves a subsequence of the ids, plus at most one id that was not listed;
      only a start command adds one, and it adds it at the end. */
  lemma CommandKeepsOrder(s: Sup, command: Command, env: Env)
    ensures var before, after := Ids(s.children), Ids(Serve(s, command, env).children);
      || Subsequence(after, before)
      || (exists id :: StartedId(command) == Some(id) && id !in before && after == before + [id])
  {
    SubsequenceReflexive(Ids(s.children));
    match command {
      case StartChild(w, _) => StartAppends(s, w);
      case StartChildLinked(w, _, _) => StartAppends(s, w);
      case TerminateChild(id, _) =>
        var found := Position(s.children, id);
        if found.Some? {
          IdsOfRemoval(s.children, found.value);
        }
      case ChildTerminated(id, reason) =>
        var found := Position(s.children, id);
        if found.Some? {
          CarryKeepsOrder(s, found.value, JudgeAt(s, found.value, reason, env), env);
        }
      case RestartChild(id, strategy) =>
        var found := Position(s.children, id);
        if found.Some? {
          RoundKeepsOrder(s.(rounds := s.rounds.(applied := s.rounds.applied + 1)), found.value, strategy);
        }
      case _ =>
    }
  }

  lemma StartAppends(s: Sup, w: WorkerSpec)
    ensures Position(s.children, w.id).None? <==> w.id !in Ids(s.children)
    ensures Ids(Start(s, w).children) == Ids(s.children) + [w.id]
  {
    assert forall i :: 0 <= i < |s.children| ==> Ids(s.children)[i] == s.children[i].Id();
  }

  lemma CommandKeepsIdsUnique(s: Sup, command: Command, env: Env)
    requires UniqueIds(s.children)
    ensures UniqueIds(Serve(s, command, env).children)
  {
    hide Serve;
    CommandKeepsOrder(s, command, env);
    var before, after := Ids(s.children), Ids(Serve(s, command, env).children);
    if Subsequence(after, before) {
      SubsequenceSelects(after, before);
    }
  }

  /** From a spec with unique ids, ids are unique after any sequence of commands. */
  lemma {:induction false} IdsStayUnique(spec: SupervisorSpec, start: Instant, deliveries: seq<Delivery>)
    requires UniqueSpecIds(spec)
    ensures UniqueIds(ServeAll(Init(spec, start), deliveries).children)
  {
    if deliveries != [] {
      hide Serve;
      IdsStayUnique(spec, start, deliveries[..|deliveries| - 1]);
      var before := ServeAll(Init(spec, start), deliveries[..|deliveries| - 1]);
      var last := deliveries[|deliveries| - 1];
      CommandKeepsIdsUnique(before, last.command, last.env);
    }
  }
}
