/** Client requests: each gets exactly one outcome, and the answers are those of a supervisor
    that serves the requests one by one in the order they were made. */
module Requests {
  import opened Types
  import opened Restart
  import opened Spec
  import opened Supervision
  import opened World
  import opened Identity
  import Escalation

  function Commands(deliveries: seq<Delivery>): seq<Command> {
    seq(|deliveries|, i requires 0 <= i < |deliveries| => deliveries[i].command)
  }

  /** All commands so far that are served or still waiting, in queue order. */
  function Line(w: World): seq<Command> {
    Commands(w.served) + w.queue
  }

  /** Requests stand in the order in which they were numbered. */
  ghost predicate InOrder(line: seq<Command>, asked: nat) {
    && (forall i :: 0 <= i < |line| && line[i].IsRequest() ==> line[i].request < asked)
    && (forall i, j :: 0 <= i < j < |line| && line[i].IsRequest() && line[j].IsRequest()
          ==> line[i].request < line[j].request)
  }

  ghost predicate ServedAt(w: World, r: int, k: int) {
    0 <= k < |w.served| && w.served[k].command.IsRequest() && w.served[k].command.request == r
  }

  ghost predicate WaitsAt(w: World, r: int, i: int) {
    0 <= i < |w.queue| && w.queue[i].IsRequest() && w.queue[i].request == r
  }

  ghost predicate Waits(w: World, r: int) {
    exists i :: WaitsAt(w, r, i)
  }

  /** The answer to request `r`, served as command number `k`, is that of the supervisor after
      the commands before it. */
  ghost predicate AnsweredInTurn(w: World, s: Sup, r: int, k: int)
    requires ServedAt(w, r, k)
  {
    r in w.replies
    && Some(w.replies[r]) == Answer(ServeAll(s, w.served[..k]), w.served[k].command, w.served[k].env)
  }

  ghost predicate Refused(w: World, r: RequestId) {
    r in w.replies && w.replies[r] == Reply.Refused(ShuttingDown(w.sup.spec.name)) && !Running(w) && forall k :: !ServedAt(w, r, k)
  }

  /** Where request `r` stands. */
  ghost predicate Accounted(w: World, s: Sup, r: RequestId) {
    || (Waits(w, r) && r !in w.replies)
    || (exists k :: ServedAt(w, r, k) && AnsweredInTurn(w, s, r, k))
    || Refused(w, r)
  }

  ghost predicate Inv(w: World, s: Sup) {
    && InOrder(Line(w), w.asked)
    && (forall r :: r in w.replies ==> r < w.asked)
    && (forall r: RequestId :: r < w.asked ==> Accounted(w, s, r))
  }

  lemma LineFacts(w: World)
    requires InOrder(Line(w), w.asked)
    ensures forall r, k :: ServedAt(w, r, k) ==> r < w.asked && !Waits(w, r)
    ensures forall r, k, m :: ServedAt(w, r, k) && ServedAt(w, r, m) ==> k == m
    ensures forall r, i :: WaitsAt(w, r, i) ==> r < w.asked
    ensures forall r, i, j :: WaitsAt(w, r, i) && WaitsAt(w, r, j) ==> i == j
  {
    var line, n := Line(w), |w.served|;
    assert forall k :: 0 <= k < n ==> line[k] == w.served[k].command;
    assert forall i :: 0 <= i < |w.queue| ==> line[n + i] == w.queue[i];
    forall r, k | ServedAt(w, r, k) ensures r < w.asked && !Waits(w, r) {
      assert line[k].request == r;
      forall i ensures !WaitsAt(w, r, i) {
        if 0 <= i < |w.queue| && w.queue[i].IsRequest() {
          assert line[k].request < line[n + i].request;
        }
      }
    }
    forall r, k, m | ServedAt(w, r, k) && ServedAt(w, r, m) ensures k == m {
      assert line[k].request == r && line[m].request == r;
    }
    forall r, i | WaitsAt(w, r, i) ensures r < w.asked {
      assert line[n + i].request == r;
    }
    forall r, i, j | WaitsAt(w, r, i) && WaitsAt(w, r, j) ensures i == j {
      assert line[n + i].request == r && line[n + j].request == r;
    }
  }

  /** Steps that only post, or let time pass. */
  lemma QuietKeepsAccounts(w: World, w': World, s: Sup, r: RequestId)
    requires Accounted(w, s, r)
    requires w'.served == w.served && w'.sup == w.sup && w.queue <= w'.queue
    requires r in w.replies ==> r in w'.replies && w'.replies[r] == w.replies[r]
    requires r in w'.replies ==> r in w.replies
    ensures Accounted(w', s, r)
  {
    if Waits(w, r) && r !in w.replies {
      var i :| WaitsAt(w, r, i);
      assert WaitsAt(w', r, i);
    } else if Refused(w, r) {
      forall k ensures !ServedAt(w', r, k) {
        assert !ServedAt(w, r, k);
      }
    } else {
      var k :| ServedAt(w, r, k) && AnsweredInTurn(w, s, r, k);
      assert ServedAt(w', r, k) && AnsweredInTurn(w', s, r, k);
    }
  }

  lemma InOrderAppend(line: seq<Command>, c: Command, asked: nat, asked': nat)
    requires InOrder(line, asked) && asked <= asked'
    requires c.IsRequest() ==> c.request == asked < asked'
    ensures InOrder(line + [c], asked')
  {
  }

  lemma PostKeepsInv(w: World, step: Step, s: Sup)
    requires Inv(w, s) && Enabled(w, step) && !step.Ask? && !step.Handle?
    ensures Inv(Next(w, step), s)
  {
    hide Accounted;
    var w' := Next(w, step);
    if w'.queue != w.queue {
      assert Line(w') == Line(w) + [w'.queue[|w.queue|]];
      InOrderAppend(Line(w), w'.queue[|w.queue|], w.asked, w.asked);
    } else {
      assert Line(w') == Line(w);
    }
    forall r: RequestId | r < w.asked ensures Accounted(w', s, r) {
      QuietKeepsAccounts(w, w', s, r);
    }
  }

  lemma AskKeepsInv(w: World, step: Step, s: Sup)
    requires Inv(w, s) && Enabled(w, step) && step.Ask?
    ensures Inv(Next(w, step), s)
  {
    var w', r0 := Next(w, step), w.asked;
    LineFacts(w);
    if Running(w) {
      assert Line(w') == Line(w) + [step.command];
      InOrderAppend(Line(w), step.command, w.asked, w'.asked);
      assert WaitsAt(w', r0, |w.queue|);
    } else {
      assert Line(w') == Line(w);
      assert forall k :: ServedAt(w', r0, k) ==> ServedAt(w, r0, k);
      assert Refused(w', r0);
    }
    assert Accounted(w', s, r0);
    hide Accounted;
    forall r: RequestId | r < w.asked ensures Accounted(w', s, r) {
      QuietKeepsAccounts(w, w', s, r);
    }
  }

  // ---- Serving the head of the queue ----

  lemma HeadAccounted(w: World, step: Step, s: Sup)
    requires Inv(w, s) && Enabled(w, step) && step.Handle? && w.sup == ServeAll(s, w.served)
    requires w.queue[0].IsRequest()
    ensures Accounted(Next(w, step), s, w.queue[0].request)
  {
    hide Serve, ServeAll;
    var w', r, n := Next(w, step), w.queue[0].request, |w.served|;
    LineFacts(w);
    assert w'.served[..n] == w.served && w'.served[n].command == w.queue[0];
    assert WaitsAt(w, r, 0);
    forall c | c in w.queue[1..] && c.IsRequest() ensures c.request != r {
      var i :| 0 <= i < |w.queue| - 1 && w.queue[1..][i] == c;
      assert WaitsAt(w, c.request, i + 1);
    }
    assert Answer(w.sup, w.queue[0], Env(w.now, step.later, step.init)).Some?;
    assert ServedAt(w', r, n) && AnsweredInTurn(w', s, r, n);
  }

  lemma OthersAccounted(w: World, step: Step, s: Sup, r: RequestId)
    requires Inv(w, s) && Enabled(w, step) && step.Handle?
    requires r < w.asked && !(w.queue[0].IsRequest() && w.queue[0].request == r)
    ensures Accounted(Next(w, step), s, r)
  {
    hide Serve, ServeAll, Answer;
    var w', n := Next(w, step), |w.served|;
    LineFacts(w);
    assert forall k :: 0 <= k < n ==> w'.served[k] == w.served[k] && w'.served[..k] == w.served[..k];
    assert forall k :: ServedAt(w', r, k) <==> ServedAt(w, r, k);
    assert Accounted(w, s, r);
    if k :| ServedAt(w, r, k) && AnsweredInTurn(w, s, r, k) {
      forall c | c in w.queue[1..] && c.IsRequest() ensures c.request != r {
        var i :| 0 <= i < |w.queue| - 1 && w.queue[1..][i] == c;
        assert WaitsAt(w, c.request, i + 1);
      }
      assert AnsweredInTurn(w', s, r, k);
    } else {
      var i :| WaitsAt(w, r, i);
      assert w.queue[1..][i - 1] == w.queue[i];
      if Running(w') {
        assert WaitsAt(w', r, i - 1);
      } else {
        assert w.queue[i] in w.queue[1..];
        SameName(w, step);
        assert Refused(w', r) by {
          assert forall k :: !ServedAt(w, r, k);
        }
      }
    }
  }

  lemma SameName(w: World, step: Step)
    requires Enabled(w, step) && step.Handle?
    ensures Refusal(Next(w, step)) == Refusal(w)
  {
    hide Answer, ServeAll;
    var d := HeadDelivery(w, step.later, step.init);
    Escalation.SpecStays(w.sup, d);
    hide Serve;
  }

  lemma HandleKeepsInv(w: World, step: Step, s: Sup)
    requires Inv(w, s) && Enabled(w, step) && step.Handle? && w.sup == ServeAll(s, w.served)
    ensures Inv(Next(w, step), s)
  {
    hide Serve, ServeAll, Answer;
    var w' := Next(w, step);
    var d := HeadDelivery(w, step.later, step.init);
    assert Line(w) == Commands(w.served + [d]) + w.queue[1..];
    assert Line(w')[..] <= Line(w);
    LineFacts(w);
    forall c | c in w.queue && c.IsRequest() ensures c.request < w.asked {
      var i :| 0 <= i < |w.queue| && w.queue[i] == c;
      assert WaitsAt(w, c.request, i);
    }
    hide Accounted;
    forall r: RequestId | r < w.asked ensures Accounted(w', s, r) {
      if w.queue[0].IsRequest() && w.queue[0].request == r {
        HeadAccounted(w, step, s);
      } else {
        OthersAccounted(w, step, s, r);
      }
    }
  }

  lemma {:induction false} RunKeepsInv(spec: SupervisorSpec, start: Instant, steps: seq<Step>)
    requires Legal(Opening(spec, start), steps)
    ensures Inv(After(Opening(spec, start), steps), Init(spec, start))
    decreases |steps|
  {
    var w0, s := Opening(spec, start), Init(spec, start);
    if steps == [] {
      assert Inv(w0, s);
    } else {
      hide Inv, Next, Enabled, Opening, Init;
      var front, last := steps[..|steps| - 1], steps[|steps| - 1];
      RunKeepsInv(spec, start, front);
      WorldFollows(spec, start, front);
      if last.Handle? {
        HandleKeepsInv(After(w0, front), last, s);
      } else if last.Ask? {
        AskKeepsInv(After(w0, front), last, s);
      } else {
        PostKeepsInv(After(w0, front), last, s);
      }
    }
  }

  /** In every run each request made has exactly one of three fates: it waits in the queue
      without an answer; it was served, exactly once, and answered as by the supervisor that had
      served the commands before it; or it was refused, unserved, by a supervisor that has stopped. */
  lemma EveryRequestAccountedFor(spec: SupervisorSpec, start: Instant, steps: seq<Step>, r: RequestId)
    requires Legal(Opening(spec, start), steps)
    ensures var w := After(Opening(spec, start), steps);
      && (r < w.asked ==> Accounted(w, Init(spec, start), r))
      && (r >= w.asked ==> r !in w.replies && forall k :: !ServedAt(w, r, k))
      && (Waits(w, r) ==> Running(w) && forall k :: !ServedAt(w, r, k))
      && (forall k, m :: ServedAt(w, r, k) && ServedAt(w, r, m) ==> k == m)
  {
    hide Opening, Init, Accounted, After, Legal;
    RunKeepsInv(spec, start, steps);
    WorldFollows(spec, start, steps);
    LineFacts(After(Opening(spec, start), steps));
  }

  /** Requests are served first come, first served; a listing shows the children left by exactly
      the commands served before it. */
  lemma ListingsLinearize(spec: SupervisorSpec, start: Instant, steps: seq<Step>, k: nat)
    requires Legal(Opening(spec, start), steps)
    requires var w := After(Opening(spec, start), steps);
      k < |w.served| && w.served[k].command.WhichChildren?
    ensures var w := After(Opening(spec, start), steps); var r := w.served[k].command.request;
      && r in w.replies
      && w.replies[r] == Listing(HandleWhichChildren(ServeAll(Init(spec, start), w.served[..k])))
      && forall m :: k < m < |w.served| && w.served[m].command.IsRequest() ==> r < w.served[m].command.request
  {
    hide Opening, Init, ServeAll, After, Legal, HandleWhichChildren;
    RunKeepsInv(spec, start, steps);
    var w := After(Opening(spec, start), steps);
    var r := w.served[k].command.request;
    LineFacts(w);
    assert forall m :: 0 <= m < |w.served| ==> Line(w)[m] == w.served[m].command;
    assert ServedAt(w, r, k);
    assert Accounted(w, Init(spec, start), r);
  }

  // ---- What the answers mean ----

  /** A start succeeds exactly when the id is not listed (and, if linked, the worker is ready);
      then the id is listed last. A start that is refused because the id exists changes nothing. */
  lemma StartAnsweredIff(s: Sup, w: WorkerSpec, timeout: Duration, request: RequestId, env: Env, linked: bool)
    ensures var command := if linked then StartChildLinked(w, timeout, request) else StartChild(w, request);
      var s' := Serve(s, command, env); var answer := Answer(s, command, env);
      && (answer == Some(Started(Ok(w.id))) <==> w.id !in Ids(s.children) && (linked ==> env.init.Ready?))
      && (answer == Some(Started(Ok(w.id))) <==> |s'.children| == |s.children| + 1)
      && (answer == Some(Started(Ok(w.id))) ==>
            s'.children == s.children + [Child(Worker(w), |s.spawned|)] && s'.spawned == s.spawned + [Worker(w)])
      && (answer == Some(Started(Err(ChildAlreadyExists(w.id)))) <==> w.id in Ids(s.children))
      && (w.id in Ids(s.children) ==> s' == s)
  {
    hide Ids, Position;
    ListedIff(s.children, w.id);
  }

  /** A terminate succeeds exactly when the id is listed; then exactly that id is no longer
      listed. Otherwise it changes nothing. */
  lemma TerminateAnsweredIff(s: Sup, id: ChildId, request: RequestId, env: Env)
    requires UniqueIds(s.children)
    ensures var command := TerminateChild(id, request); var s' := Serve(s, command, env);
      && (Answer(s, command, env) == Some(Terminated(Ok(()))) <==> id in Ids(s.children))
      && (Answer(s, command, env) == Some(Terminated(Err(ChildNotFound(id)))) <==> id !in Ids(s.children))
      && (id !in Ids(s.children) ==> s' == s)
      && (forall other :: other in Ids(s'.children) <==> other in Ids(s.children) && other != id)
  {
    ListedIff(s.children, id);
    var p := Position(s.children, id);
    if p.Some? {
      RemovedIds(s.children, p.value);
    }
  }

  lemma RemovedIds(children: seq<Child>, p: nat)
    requires UniqueIds(children) && p < |children|
    ensures forall id :: id in Ids(Remove(children, p)) <==> id in Ids(children) && id != children[p].Id()
  {
    var ids, rest := Ids(children), Ids(Remove(children, p));
    assert forall i :: 0 <= i < |rest| ==> rest[i] == ids[if i < p then i else i + 1];
    forall id | id in ids && id != ids[p] ensures id in rest {
      var i :| 0 <= i < |ids| && ids[i] == id;
      assert rest[if i < p then i else i - 1] == id;
    }
    assert forall i :: 0 <= i < |rest| ==> rest[i] != ids[p];
  }

  /** In every run, queries are answered with the configured strategy and with the whole seconds
      since the supervisor was started. */
  lemma QueriesAnswered(spec: SupervisorSpec, start: Instant, steps: seq<Step>, k: nat)
    requires Legal(Opening(spec, start), steps)
    requires var w := After(Opening(spec, start), steps);
      k < |w.served| && (w.served[k].command.GetRestartStrategy? || w.served[k].command.GetUptime?)
    ensures var w := After(Opening(spec, start), steps); var d := w.served[k];
      && d.command.request in w.replies
      && start <= d.env.now <= w.now
      && match w.replies[d.command.request]
         case Strategy(strategy) => d.command.GetRestartStrategy? && strategy == spec.restartStrategy
         case Uptime(seconds) =>
           d.command.GetUptime? && start + seconds * NANOS_PER_SEC <= d.env.now < start + (seconds + 1) * NANOS_PER_SEC
         case _ => false
  {
    hide Opening, Init, ServeAll, After, Legal;
    RunKeepsInv(spec, start, steps);
    WorldFollows(spec, start, steps);
    var w := After(Opening(spec, start), steps);
    LineFacts(w);
    assert ServedAt(w, w.served[k].command.request, k);
    assert Accounted(w, Init(spec, start), w.served[k].command.request);
    FixedParts(spec, start, w.served[..k]);
  }

  lemma {:induction false} FixedParts(spec: SupervisorSpec, start: Instant, deliveries: seq<Delivery>)
    ensures var s := ServeAll(Init(spec, start), deliveries); s.spec == spec && s.createdAt == start
  {
    if deliveries != [] {
      hide Serve, Init;
      var front, last := deliveries[..|deliveries| - 1], deliveries[|deliveries| - 1];
      FixedParts(spec, start, front);
      Escalation.SpecStays(ServeAll(Init(spec, start), front), last);
      CreationStays(ServeAll(Init(spec, start), front), last);
    }
  }

  lemma CreationStays(s: Sup, d: Delivery)
    ensures Serve(s, d.command, d.env).createdAt == s.createdAt
  {
    hide Position, Renewed, Rolling, Departures, DepartedIds, Halts, Spawns;
  }

  /** A listing shows the children: each one's id, whether it is a worker, and its policy, nested
      supervisors being permanent. */
  ghost predicate Shows(info: seq<ChildInfo>, specs: seq<ChildSpec>) {
    && |info| == |specs|
    && forall i :: 0 <= i < |specs| ==>
         match specs[i]
         case Worker(w) => info[i] == ChildInfo(w.id, WorkerType, Some(w.restartPolicy))
         case Supervisor(s) => info[i] == ChildInfo(s.name, SupervisorType, Some(Permanent))
  }

  /** In every run a listing shows, in order, the children that the commands before it have left:
      at first, those of the specification. */
  lemma ListingsShowTheChildren(spec: SupervisorSpec, start: Instant, steps: seq<Step>, k: nat)
    requires Legal(Opening(spec, start), steps)
    requires var w := After(Opening(spec, start), steps);
      k < |w.served| && w.served[k].command.WhichChildren?
    ensures var w := After(Opening(spec, start), steps); var r := w.served[k].command.request;
      var s := ServeAll(Init(spec, start), w.served[..k]);
      && r in w.replies && w.replies[r].Listing?
      && Shows(w.replies[r].children, Specs(s.children))
      && (k == 0 ==> Shows(w.replies[r].children, spec.children))
  {
    hide Opening, ServeAll, After, Legal, HandleWhichChildren, Init, Shows;
    ListingsLinearize(spec, start, steps, k);
    var w := After(Opening(spec, start), steps);
    ListingShows(ServeAll(Init(spec, start), w.served[..k]));
    if k == 0 {
      assert w.served[..0] == [];
      FirstChildren(spec, start);
    }
  }

  lemma ListingShows(s: Sup)
    ensures Shows(HandleWhichChildren(s), Specs(s.children))
  {
  }

  lemma FirstChildren(spec: SupervisorSpec, start: Instant)
    ensures Specs(ServeAll(Init(spec, start), []).children) == spec.children
  {
  }
}
