/** The restart limit as a bound on whole runs. */
module Rate {
  import opened Types
  import opened Restart
  import opened Spec
  import opened Supervision
  import opened World
  import Conservation
  import Escalation

  lemma {:induction false} WorthyTimesWithin(s: Sup, deliveries: seq<Delivery>, from: Instant, to: Instant)
    requires Monotone(deliveries, from, to)
    ensures forall t :: t in Escalation.WorthyTimes(s, deliveries) ==> from <= t <= to
  {
    if deliveries != [] {
      hide Escalation.Worthy, ServeAll;
      WorthyTimesWithin(s, deliveries[..|deliveries| - 1], from, to);
    }
  }

  lemma {:induction false} AllCounted(times: seq<Instant>, lo: nat, hi: nat)
    requires forall t :: t in times ==> lo <= t <= hi
    ensures Escalation.CountBetween(times, lo, hi) == |times|
  {
    if times != [] {
      assert forall i :: 0 <= i < |times| ==> times[i] in times;
      AllCounted(times[..|times| - 1], lo, hi);
    }
  }

  lemma GrantsAreWorthy(s: Sup)
    requires Escalation.Inv(s)
    ensures forall t :: t in Escalation.GrantTimes(s.journal) ==> t in s.worthy
    ensures s.exit == Some(Abnormal) ==> |s.worthy| > s.spec.restartIntensity.maxRestarts
  {
    hide Escalation.GrantTimes;
    if s.exit == Some(Abnormal) {
      assert Escalation.Exceeds(s.worthy, |s.worthy| - 1, s.spec.restartIntensity.Window(),
                                s.spec.restartIntensity.maxRestarts);
    }
  }

  /** A run whose clock can go back a whole window, and the facts about it that count. */
  lemma RunFacts(spec: SupervisorSpec, start: Instant, steps: seq<Step>)
    requires Legal(Opening(spec, start), steps) && spec.restartIntensity.Window() <= start
    ensures var w := After(Opening(spec, start), steps);
      && w.sup == ServeAll(Init(spec, start), w.served) && Escalation.Clocked(spec, w.served)
      && start <= w.now && w.sup.spec == spec && Escalation.Inv(w.sup)
      && (forall t :: t in Escalation.GrantTimes(w.sup.journal) ==> start <= t <= w.now)
  {
    hide ServeAll, Init, After, Legal, Opening, Escalation.WorthyTimes, Escalation.GrantTimes, Escalation.WindowInv;
    var w := After(Opening(spec, start), steps);
    WorldFollows(spec, start, steps);
    assert Escalation.Clocked(spec, w.served);
    Escalation.RunKeepsInv(spec, start, w.served);
    WorthyTimesWithin(Init(spec, start), w.served, start, w.now);
    GrantsAreWorthy(w.sup);
  }

  /** A run that has lasted no longer than `n` windows has granted at most `n` times the limit. */
  lemma GrantsOverTime(spec: SupervisorSpec, start: Instant, steps: seq<Step>, n: nat)
    requires Legal(Opening(spec, start), steps) && spec.restartIntensity.Window() <= start && n > 0
    requires After(Opening(spec, start), steps).now <= start + n * spec.restartIntensity.Window()
    ensures Conservation.Grants(After(Opening(spec, start), steps).sup) <= n * spec.restartIntensity.maxRestarts
  {
    hide ServeAll, Init, After, Legal, Opening, Escalation.GrantTimes, Escalation.CountBetween, Escalation.Inv;
    RunFacts(spec, start, steps);
    var w := After(Opening(spec, start), steps);
    AllCounted(Escalation.GrantTimes(w.sup.journal), start, w.now);
    Escalation.RestartBudgetOverTime(spec, start, w.served, start, w.now - start, n);
  }

  lemma WholeWindows(duration: nat, window: nat)
    requires window > 0
    ensures duration <= (duration / window + 1) * window
  {
  }

  /** With a window of non-zero length, a run of length T grants at most the limit times
      (T divided by the window, rounded down, plus one). */
  lemma GrantsOverRun(spec: SupervisorSpec, start: Instant, steps: seq<Step>)
    requires Legal(Opening(spec, start), steps) && 0 < spec.restartIntensity.Window() <= start
    ensures var w := After(Opening(spec, start), steps);
      && start <= w.now
      && Conservation.Grants(w.sup)
         <= spec.restartIntensity.maxRestarts * ((w.now - start) / spec.restartIntensity.Window() + 1)
  {
    hide After, Legal, Opening, Conservation.Grants, RestartIntensity.Window, Escalation.Inv, Escalation.Clocked;
    RunFacts(spec, start, steps);
    var duration := After(Opening(spec, start), steps).now - start;
    var n := Windows(duration, spec.restartIntensity.Window(), spec.restartIntensity.maxRestarts);
    GrantsOverTime(spec, start, steps, n);
  }

  /** The number of windows that a duration takes up, the last one begun. */
  lemma Windows(duration: nat, window: nat, limit: nat) returns (n: nat)
    requires window > 0
    ensures n > 0 && duration <= n * window && n * limit == limit * (duration / window + 1)
  {
    n := duration / window + 1;
    WholeWindows(duration, window);
  }

  /** A supervisor that escalated has recorded one failure more than its limit. */
  lemma EscalationExceeds(spec: SupervisorSpec, start: Instant, steps: seq<Step>)
    requires Legal(Opening(spec, start), steps) && spec.restartIntensity.Window() <= start
    ensures var s := After(Opening(spec, start), steps).sup;
      s.exit == Some(Abnormal) ==> |s.worthy| > spec.restartIntensity.maxRestarts
  {
    hide After, Legal, Opening, Escalation.Inv;
    RunFacts(spec, start, steps);
    GrantsAreWorthy(After(Opening(spec, start), steps).sup);
  }
}
