/** A supervisor among its clients, timers and tasks: everything that can post to its command
    queue, in any order. Tasks may report at any moment, with any reason, but at most once
    (module Joint shows why); timers fire no earlier than they are due. */
module World {
  import opened Types
  import opened Spec
  import opened Supervision

  datatype World = World(
    sup: Sup,
    queue: seq<Command>,
    now: Instant,
    fired: set<nat>,                  // timers that have posted their message
    reported: set<TaskId>,            // tasks that have posted their report
    asked: nat,                       // requests made so far; the next one gets this number
    replies: map<RequestId, Reply>,
    served: seq<Delivery>             // history: commands taken from the queue
  )

  function Opening(spec: SupervisorSpec, now: Instant): World {
    World(Init(spec, now), [], now, {}, {}, 0, map[], [])
  }

  datatype Step =
    | Ask(command: Command)
    | AskShutdown
    | Report(task: TaskId, reason: ChildExitReason)
    | Fire(timer: nat)
    | Tick(to: Instant)
    | Handle(later: Instant, init: InitOutcome)

  predicate Running(w: World) {
    w.sup.exit == None
  }

  predicate Enabled(w: World, step: Step) {
    match step
    case Ask(command) => command.IsRequest() && command.request == w.asked
    case AskShutdown => true
    case Report(task, _) => task < |w.sup.spawned| && task !in w.reported
    case Fire(timer) => timer < |w.sup.timers| && timer !in w.fired && w.sup.timers[timer].due <= w.now
    case Tick(to) => w.now <= to
    case Handle(later, _) => Running(w) && w.queue != [] && w.now <= later
  }

  /** Posts a message; the queue is gone once the supervisor has stopped. */
  function Post(w: World, command: Command): World {
    if Running(w) then w.(queue := w.queue + [command]) else w
  }

  function Refusal(w: World): Reply {
    Refused(ShuttingDown(w.sup.spec.name))
  }

  /** The requests among `commands` are refused: their queue is dropped unserved. */
  function Refuse(replies: map<RequestId, Reply>, commands: seq<Command>, refusal: Reply): map<RequestId, Reply> {
    replies + map c | c in commands && c.IsRequest() :: c.request := refusal
  }

  function HeadDelivery(w: World, later: Instant, init: InitOutcome): Delivery
    requires w.queue != []
  {
    Delivery(w.queue[0], Env(w.now, later, init))
  }

  function HandleHead(w: World, later: Instant, init: InitOutcome): World
    requires w.queue != []
  {
    var d := HeadDelivery(w, later, init);
    var sup := Serve(w.sup, d.command, d.env);
    var answer := Answer(w.sup, d.command, d.env);
    var answered := if answer.Some? && d.command.IsRequest() then w.replies[d.command.request := answer.value] else w.replies;
    var rest := w.queue[1..];
    var w' := w.(sup := sup, queue := rest, now := later, replies := answered, served := w.served + [d]);
    if sup.exit == None then w'
    else w'.(queue := [], replies := Refuse(answered, rest, Refusal(w)))
  }

  function Next(w: World, step: Step): World
    requires Enabled(w, step)
  {
    match step
    case Ask(command) =>
      var w' := Post(w, command).(asked := w.asked + 1);
      if Running(w) then w' else w'.(replies := w.replies[command.request := Refusal(w)])
    case AskShutdown => Post(w, ShutdownCommand)
    case Report(task, reason) =>
      Post(w, ChildTerminated(w.sup.spawned[task].Id(), reason)).(reported := w.reported + {task})
    case Fire(timer) =>
      Post(w, RestartChild(w.sup.timers[timer].id, w.sup.timers[timer].strategy)).(fired := w.fired + {timer})
    case Tick(to) => w.(now := to)
    case Handle(later, init) => HandleHead(w, later, init)
  }

  ghost predicate Legal(w: World, steps: seq<Step>)
    decreases |steps|, 2
  {
    steps == [] || (Legal(w, steps[..|steps| - 1]) && Enabled(After(w, steps[..|steps| - 1]), steps[|steps| - 1]))
  }

  /** The world after the steps, taken in order. */
  ghost function After(w: World, steps: seq<Step>): World
    requires Legal(w, steps)
    decreases |steps|, 3
  {
    if steps == [] then w else Next(After(w, steps[..|steps| - 1]), steps[|steps| - 1])
  }

  lemma Extend(w: World, steps: seq<Step>, step: Step) returns (more: seq<Step>)
    requires Legal(w, steps) && Enabled(After(w, steps), step)
    ensures more == steps + [step] && Legal(w, more) && After(w, more) == Next(After(w, steps), step)
  {
    hide Enabled, Next;
    more := steps + [step];
    assert more[..|more| - 1] == steps;
  }

  // ---- Every run of the world is a run of the command loop ----

  ghost predicate Monotone(deliveries: seq<Delivery>, from: Instant, to: Instant) {
    && from <= to
    && (forall i :: 0 <= i < |deliveries| ==> from <= deliveries[i].env.now <= deliveries[i].env.later <= to)
    && (forall i, j :: 0 <= i < j < |deliveries| ==> deliveries[i].env.later <= deliveries[j].env.now)
  }

  ghost predicate Follows(w: World, spec: SupervisorSpec, start: Instant) {
    && w.sup == ServeAll(Init(spec, start), w.served)
    && Monotone(w.served, start, w.now)
    && (!Running(w) ==> w.queue == [])
  }

  lemma MonotoneAppend(deliveries: seq<Delivery>, d: Delivery, from: Instant, to: Instant)
    requires Monotone(deliveries, from, to) && to == d.env.now <= d.env.later
    ensures Monotone(deliveries + [d], from, d.env.later)
  {
  }

  lemma MonotoneLater(deliveries: seq<Delivery>, from: Instant, to: Instant, later: Instant)
    requires Monotone(deliveries, from, to) && to <= later
    ensures Monotone(deliveries, from, later)
  {
  }

  lemma StepFollows(w: World, step: Step, spec: SupervisorSpec, start: Instant)
    requires Follows(w, spec, start) && Enabled(w, step)
    ensures Follows(Next(w, step), spec, start)
  {
    hide Serve, Answer, Init, Monotone, Refuse;
    if step.Handle? {
      var d := HeadDelivery(w, step.later, step.init);
      assert (w.served + [d])[..|w.served|] == w.served;
      MonotoneAppend(w.served, d, start, w.now);
    } else if step.Tick? {
      MonotoneLater(w.served, start, w.now, step.to);
    }
  }

  /** The supervisor's state is the fold of the commands it has taken, in queue order and at
      clock readings that never go back. */
  lemma {:induction false} WorldFollows(spec: SupervisorSpec, start: Instant, steps: seq<Step>)
    requires Legal(Opening(spec, start), steps)
    ensures Follows(After(Opening(spec, start), steps), spec, start)
    decreases |steps|
  {
    if steps == [] {
      assert ServeAll(Init(spec, start), []) == Init(spec, start);
    } else {
      hide Follows, Next, Enabled, Opening;
      WorldFollows(spec, start, steps[..|steps| - 1]);
      StepFollows(After(Opening(spec, start), steps[..|steps| - 1]), steps[|steps| - 1], spec, start);
    }
  }
}
