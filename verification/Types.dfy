/** Vocabulary shared by every component: identifiers, exit reasons, and the bounded
    clock arithmetic of the standard library. */
module Types {

  datatype Option<+T> = None | Some(value: T)

  datatype Result<+T, +E> = Ok(value: T) | Err(error: E)

  type ChildId = string

  /** Why a child finished. */
  datatype ChildExitReason = Normal | Abnormal | Shutdown

  datatype ChildType = WorkerType | SupervisorType

  const U32_MAX: nat := 0xFFFF_FFFF
  const U64_MAX: nat := 0xFFFF_FFFF_FFFF_FFFF
  const NANOS_PER_SEC: nat := 1_000_000_000
  const DURATION_MAX: nat := U64_MAX * NANOS_PER_SEC + 999_999_999

  type U32 = n: nat | n <= U32_MAX
  type U64 = n: nat | n <= U64_MAX

  /** A length of time in nanoseconds: 64-bit seconds and a sub-second part. */
  type Duration = n: nat | n <= DURATION_MAX

  /** A monotonic clock reading: nanoseconds above the least reading that the platform
      can represent, so that 0 has no predecessor and INSTANT_MAX no successor. */
  const INSTANT_MAX: nat := DURATION_MAX
  type Instant = n: nat | n <= INSTANT_MAX

  function Min(a: nat, b: nat): nat {
    if a <= b then a else b
  }

  function CheckedMul(d: Duration, k: nat): Option<Duration> {
    if d * k <= DURATION_MAX then Some(d * k) else None
  }

  function CheckedAdd(t: Instant, d: Duration): Option<Instant> {
    if t + d <= INSTANT_MAX then Some(t + d) else None
  }

  function CheckedSub(t: Instant, d: Duration): Option<Instant> {
    if d <= t then Some(t - d) else None
  }

  /** Time from `earlier` to `later`, or zero when the readings are the other way round. */
  function SaturatingSince(later: Instant, earlier: Instant): Duration {
    if earlier <= later then later - earlier else 0
  }

  ghost predicate Sorted(times: seq<Instant>) {
    forall i, j :: 0 <= i < j < |times| ==> times[i] <= times[j]
  }

  lemma Associative<T>(a: seq<T>, b: seq<T>, c: seq<T>)
    ensures a + (b + c) == a + b + c
  {
  }
}
