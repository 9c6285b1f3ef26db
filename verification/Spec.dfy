/** Descriptions of workers and supervisors, and the builder of `src/supervisor/spec.rs`. */
module Spec {
  import opened Types
  import opened Restart
  import Backoff

  /** Identity of a shared key-value store. */
  type Context = nat

  /** The closure that builds a worker: its code and, in the stateful variant, the context
      that it is called with. No command looks inside it (module Contexts). */
  datatype Factory = Plain(code: nat) | WithContext(code: nat, context: Context)

  datatype WorkerSpec = WorkerSpec(id: ChildId, factory: Factory, restartPolicy: RestartPolicy)

  datatype ChildSpec = Worker(worker: WorkerSpec) | Supervisor(supervisor: SupervisorSpec) {

    function Id(): ChildId {
      match this
      case Worker(w) => w.id
      case Supervisor(s) => s.name
    }

    function ChildType(): ChildType {
      if Worker? then WorkerType else SupervisorType
    }

    /** Policy shown to clients; nested supervisors are listed as permanent. */
    function RestartPolicy(): Option<RestartPolicy> {
      match this
      case Worker(w) => Some(w.restartPolicy)
      case Supervisor(_) => Some(Permanent)
    }

    /** Policy used by the restart decision; nested supervisors have none of their own. */
    function RestartPolicyForDecision(): Option<RestartPolicy> {
      match this
      case Worker(w) => Some(w.restartPolicy)
      case Supervisor(_) => None
    }
  }

  datatype SupervisorSpec = SupervisorSpec(
    name: ChildId,
    children: seq<ChildSpec>,
    restartStrategy: RestartStrategy,
    restartIntensity: RestartIntensity,
    restartBackoff: RestartBackoff,
    shutdownTimeout: Duration
  ) {
    static function New(name: ChildId): SupervisorSpec {
      SupervisorSpec(name, [], OneForOne, RestartIntensity(3, 5),
                     RestartBackoff.Exponential(100_000_000, 30 * NANOS_PER_SEC), 5 * NANOS_PER_SEC)
    }

    function WithRestartBackoff(backoff: RestartBackoff): SupervisorSpec {
      this.(restartBackoff := backoff)
    }

    function WithRestartDelay(delay: Duration): SupervisorSpec {
      WithRestartBackoff(RestartBackoff.Exponential(delay, delay))
    }
  }

  /** A fixed restart delay really is fixed, for every attempt. */
  lemma RestartDelayIsConstant(spec: SupervisorSpec, delay: Duration, attempt: U32)
    ensures spec.WithRestartDelay(delay).restartBackoff.DelayForAttempt(attempt) == delay
  {
    Backoff.DelayClosedForm(RestartBackoff.Exponential(delay, delay), attempt);
    Backoff.Pow2Monotone(0, attempt);
    Backoff.MulMonotone(delay, 1, Backoff.Multiplier(attempt));
  }
}
