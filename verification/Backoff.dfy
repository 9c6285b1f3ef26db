/** What the exponential backoff promises, stated in unbounded arithmetic. */
module Backoff {
  import opened Types
  import opened Restart

  lemma {:induction false} Pow2Monotone(a: nat, b: nat)
    requires a <= b
    ensures 1 <= Pow2(a) <= Pow2(b)
  {
    if b > a {
      Pow2Monotone(a, b - 1);
    } else if a > 0 {
      Pow2Monotone(a - 1, a - 1);
    }
  }

  /** Which shifts still fit a 32-bit multiplier. */
  lemma Pow2FitsU32(n: nat)
    ensures Pow2(n) <= U32_MAX <==> n < 32
  {
    assert Pow2(8) == 0x100;
    assert Pow2(16) == 0x1_0000;
    assert Pow2(24) == 0x100_0000;
    assert Pow2(31) == 0x8000_0000;
    if n < 32 {
      Pow2Monotone(n, 31);
    } else {
      Pow2Monotone(32, n);
    }
  }

  /** The doubling that the delay follows before it is capped. */
  function Multiplier(attempt: nat): nat {
    Min(Pow2(attempt), U32_MAX)
  }

  lemma DelayClosedForm(b: RestartBackoff, attempt: U32)
    ensures b.DelayForAttempt(attempt) == Min(b.maxDelay, b.initialDelay * Multiplier(attempt))
  {
    Pow2FitsU32(attempt);
  }

  /** The doubling goes on for 31 steps and then stands still at the largest 32-bit number. */
  lemma MultiplierSaturates(attempt: nat)
    ensures Multiplier(attempt) == if attempt < 32 then Pow2(attempt) else 4_294_967_295
    ensures Multiplier(0) == 1 && (attempt < 31 ==> Multiplier(attempt + 1) == 2 * Multiplier(attempt))
  {
    Pow2FitsU32(attempt);
    Pow2FitsU32(attempt + 1);
  }

  lemma DelayMonotone(b: RestartBackoff, a1: U32, a2: U32)
    requires a1 <= a2
    ensures b.DelayForAttempt(a1) <= b.DelayForAttempt(a2) <= b.maxDelay
  {
    DelayClosedForm(b, a1);
    DelayClosedForm(b, a2);
    Pow2Monotone(a1, a2);
    MulMonotone(b.initialDelay, Multiplier(a1), Multiplier(a2));
  }

  lemma MulMonotone(k: nat, x: nat, y: nat)
    requires x <= y
    ensures k * x <= k * y
  {
  }

  lemma DelayDoubles(b: RestartBackoff, attempt: U32)
    requires attempt < 31
    ensures b.DelayForAttempt(attempt + 1) == Min(b.maxDelay, 2 * b.DelayForAttempt(attempt))
  {
    DelayClosedForm(b, attempt);
    DelayClosedForm(b, attempt + 1);
    Pow2FitsU32(attempt);
    Pow2FitsU32(attempt + 1);
    assert Multiplier(attempt + 1) == 2 * Multiplier(attempt);
  }

  /** The ceiling is reached at some attempt exactly when the largest multiplier reaches it. */
  lemma CeilingReachedIff(b: RestartBackoff)
    ensures (exists a: U32 :: b.DelayForAttempt(a) == b.maxDelay)
            <==> b.maxDelay == 0 || b.initialDelay * U32_MAX >= b.maxDelay
  {
    var top: U32 := 32;
    DelayClosedForm(b, top);
    Pow2FitsU32(top);
    assert Multiplier(top) == U32_MAX;
    forall a: U32 | b.DelayForAttempt(a) == b.maxDelay
      ensures b.maxDelay == 0 || b.initialDelay * U32_MAX >= b.maxDelay
    {
      DelayClosedForm(b, a);
      MulMonotone(b.initialDelay, Multiplier(a), U32_MAX);
    }
    if b.maxDelay == 0 {
      assert b.DelayForAttempt(top) == b.maxDelay;
    }
  }

  /** Waiting time of a crash loop before its restart number `k`. */
  function TotalDelay(b: RestartBackoff, k: nat): nat {
    if k == 0 then 0 else TotalDelay(b, k - 1) + b.DelayForAttempt(Min(k - 1, U32_MAX))
  }

  lemma Doubled(d: nat, p: nat)
    ensures d * (2 * p - 1) == d * (p - 1) + d * p
  {
  }

  lemma {:induction false} TotalDelayIsGeometric(b: RestartBackoff, k: nat)
    requires k <= 32
    requires k > 0 ==> b.initialDelay * Pow2(k - 1) <= b.maxDelay
    ensures TotalDelay(b, k) == b.initialDelay * (Pow2(k) - 1)
  {
    if k > 0 {
      if k > 1 {
        MulMonotone(b.initialDelay, Pow2(k - 2), Pow2(k - 1));
      }
      TotalDelayIsGeometric(b, k - 1);
      DelayClosedForm(b, k - 1);
      Pow2FitsU32(k - 1);
      Doubled(b.initialDelay, Pow2(k - 1));
    }
  }

  /** Two failures in a row: the count starts over exactly when the replacement ran for the
      whole ceiling *after* the backoff was waited out, so waiting is never uptime. */
  lemma WaitingIsNotUptime(b: RestartBackoff, prior: Option<BackoffState>, t1: Instant, t2: Instant)
    requires t1 + DelayAt(b, prior, t1) <= INSTANT_MAX
    ensures AttemptAt(b, Some(StateAfter(b, prior, t1)), t2)
         == if b.maxDelay == 0 || t2 >= t1 + DelayAt(b, prior, t1) + b.maxDelay then 0
            else Min(AttemptAt(b, prior, t1) + 1, U32_MAX)
  {
  }

  // ---- Non-interference between children ----

  datatype BackoffOp = NextDelay(id: ChildId, now: Instant) | ResetChild(id: ChildId)

  function ApplyOp(b: RestartBackoff, table: BackoffTable, op: BackoffOp): BackoffTable {
    match op
    case NextDelay(id, now) => table[id := StateAfter(b, Lookup(table, id), now)]
    case ResetChild(id) => table - {id}
  }

  /** The delays that `id` is given along a trace of tracker calls. */
  function DelaysOf(b: RestartBackoff, table: BackoffTable, ops: seq<BackoffOp>, id: ChildId): seq<Duration>
    decreases ops
  {
    if ops == [] then []
    else
      (if ops[0].NextDelay? && ops[0].id == id then [DelayAt(b, Lookup(table, id), ops[0].now)] else [])
      + DelaysOf(b, ApplyOp(b, table, ops[0]), ops[1..], id)
  }

  /** The trace with every other child's calls erased. */
  function Only(ops: seq<BackoffOp>, id: ChildId): seq<BackoffOp> {
    if ops == [] then []
    else (if ops[0].id == id then [ops[0]] else []) + Only(ops[1..], id)
  }

  lemma {:induction false} BackoffNonInterference(b: RestartBackoff, table: BackoffTable, alone: BackoffTable,
                                                  ops: seq<BackoffOp>, id: ChildId)
    requires Lookup(table, id) == Lookup(alone, id)
    ensures DelaysOf(b, table, ops, id) == DelaysOf(b, alone, Only(ops, id), id)
    decreases ops
  {
    if ops != [] {
      var next := ApplyOp(b, table, ops[0]);
      if ops[0].id == id {
        BackoffNonInterference(b, next, ApplyOp(b, alone, ops[0]), ops[1..], id);
        assert Only(ops, id)[0] == ops[0] && Only(ops, id)[1..] == Only(ops[1..], id);
      } else {
        BackoffNonInterference(b, next, alone, ops[1..], id);
        assert Only(ops, id) == Only(ops[1..], id);
      }
    }
  }
}
