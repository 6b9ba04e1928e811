/**
 The paced resource sampler.  Time is a real number of seconds; how long an
 attempt takes, how much a sleep overshoots and whether an attempt fails are
 left to the environment, and every theorem holds for all of them.
 */
module Sampler {

  /** Attempt `k` takes `work(k)` seconds, the sleep after it overshoots by `late(k)`. */
  datatype Env = Env(work: nat -> real, late: nat -> real, fails: nat -> bool)

  /** Clocks do not run backwards and a sleep never returns early. */
  ghost predicate Plausible(env: Env) {
    forall k: nat {:trigger env.work(k)} {:trigger env.late(k)} :: env.work(k) >= 0.0 && env.late(k) >= 0.0
  }

  datatype Plan = Plan(duration: nat, interval: nat)

  predicate PlanOk(p: Plan) { 1 <= p.duration <= 3700 && 1 <= p.interval <= 30 }

  const MAX_ATTEMPTS: nat := 400
  const MAX_FAILURES: nat := 16

  datatype Outcome = Outcome(raised: bool, starts: seq<real>, failures: nat)

  function Max(a: real, b: real): real { if a < b then b else a }

  function Min(a: real, b: real): real { if a < b then a else b }

  /** Offset of the clock when the sleep after attempt `k` returns. */
  function Awake(env: Env, p: Plan, k: nat, finished: real): real {
    var target := ((k + 1) * p.interval) as real;
    finished + Max(0.0, Min(p.interval as real, target - finished)) + env.late(k)
  }

  /** The loop from its head, `done` attempts made so far; all times are offsets from the start. */
  function Loop(env: Env, p: Plan, starts: seq<real>, now: real, failures: nat): Outcome
    decreases MAX_ATTEMPTS + 1 - |starts|
  {
    if now > p.duration as real then Outcome(false, starts, failures)
    else
      var k := |starts|;
      var begun, failed := starts + [now], failures + if env.fails(k) then 1 else 0;
      var finished := now + env.work(k);
      if env.fails(k) && failed > MAX_FAILURES then Outcome(false, begun, failed)
      else if |begun| > MAX_ATTEMPTS then Outcome(true, begun, failed)
      else Loop(env, p, begun, Awake(env, p, k, finished), failed)
  }

  method Run(env: Env, p: Plan) returns (r: Outcome)
    ensures r == Loop(env, p, [], 0.0, 0)
  {
    var starts: seq<real>, now, failures: nat := [], 0.0, 0;
    while true
      invariant Loop(env, p, [], 0.0, 0) == Loop(env, p, starts, now, failures)
      invariant |starts| <= MAX_ATTEMPTS
      decreases MAX_ATTEMPTS + 1 - |starts|
    {
      if now > p.duration as real {
        break;
      }
      var k := |starts|;
      starts := starts + [now];
      now := now + env.work(k);
      if env.fails(k) {
        failures := failures + 1;
        if failures > MAX_FAILURES {
          break;
        }
      }
      if |starts| > MAX_ATTEMPTS {
        return Outcome(true, starts, failures);
      }
      now := Awake(env, p, k, now);
    }
    return Outcome(false, starts, failures);
  }

  // ----- pacing -----

  /** Attempt `k` starts no earlier than its slot, and not after the run is over. */
  predicate Paced(p: Plan, starts: seq<real>) {
    forall k :: 0 <= k < |starts| ==> (k * p.interval) as real <= starts[k] <= p.duration as real
  }

  lemma SlotKept(env: Env, p: Plan, k: nat, now: real)
    requires Plausible(env) && (k * p.interval) as real <= now
    ensures ((k + 1) * p.interval) as real <= Awake(env, p, k, now + env.work(k))
  {
    assert env.work(k) >= 0.0 && env.late(k) >= 0.0;
    assert ((k + 1) * p.interval) as real == (k * p.interval) as real + p.interval as real;
  }

  lemma {:induction false} LoopPaced(env: Env, p: Plan, starts: seq<real>, now: real, failures: nat)
    requires Plausible(env) && |starts| <= MAX_ATTEMPTS && Paced(p, starts) && (|starts| * p.interval) as real <= now
    requires failures <= MAX_FAILURES
    ensures var r := Loop(env, p, starts, now, failures);
      Paced(p, r.starts) && (r.raised ==> |r.starts| == MAX_ATTEMPTS + 1) && r.failures <= MAX_FAILURES + 1
    decreases MAX_ATTEMPTS + 1 - |starts|
  {
    if now <= p.duration as real {
      var k := |starts|;
      var begun, failed := starts + [now], failures + if env.fails(k) then 1 else 0;
      assert Paced(p, begun);
      if !(env.fails(k) && failed > MAX_FAILURES) && |begun| <= MAX_ATTEMPTS {
        SlotKept(env, p, k, now);
        LoopPaced(env, p, begun, Awake(env, p, k, now + env.work(k)), failed);
      }
    }
  }

  /**
   For every pattern of failures and every plausible clock: attempts keep their slots,
   there are at most duration/interval + 1 of them, at most 17 failures are recorded, and
   the attempt bound is hit only if the slots themselves reach it.
   */
  lemma Pacing(env: Env, p: Plan)
    requires Plausible(env) && p.interval >= 1
    ensures var r := Loop(env, p, [], 0.0, 0);
      && Paced(p, r.starts) && |r.starts| <= p.duration / p.interval + 1 && r.failures <= MAX_FAILURES + 1
      && (r.raised ==> MAX_ATTEMPTS * p.interval <= p.duration)
  {
    LoopPaced(env, p, [], 0.0, 0);
    var r := Loop(env, p, [], 0.0, 0);
    if r.starts != [] {
      var last: nat := |r.starts| - 1;
      assert (last * p.interval) as real <= r.starts[last] <= p.duration as real;
      SlotCount(last, p.interval, p.duration);
    }
  }

  lemma SlotCount(k: nat, interval: nat, duration: nat)
    requires interval >= 1 && k * interval <= duration
    ensures k <= duration / interval
  {
    if k >= duration / interval + 1 {
      MulMonotone(duration / interval + 1, k, interval);
    }
  }

  lemma MulMonotone(a: nat, b: nat, m: nat)
    requires a <= b
    ensures a * m <= b * m
  {
  }

  /** At ten seconds the bound never fires. */
  lemma TenSecondsNeverRaises(env: Env, p: Plan)
    requires Plausible(env) && PlanOk(p) && p.interval == 10
    ensures !Loop(env, p, [], 0.0, 0).raised
  {
    Pacing(env, p);
  }

  // ----- the bound can fire exactly when 400 slots fit -----

  const IDEAL: Env := Env((k: nat) => 0.0, (k: nat) => 0.0, (k: nat) => false)

  lemma {:induction false} IdealLoop(p: Plan, starts: seq<real>, failures: nat)
    requires MAX_ATTEMPTS * p.interval <= p.duration && |starts| <= MAX_ATTEMPTS && p.interval >= 1
    ensures Loop(IDEAL, p, starts, (|starts| * p.interval) as real, failures).raised
    decreases MAX_ATTEMPTS + 1 - |starts|
  {
    var k := |starts|;
    var now := (k * p.interval) as real;
    assert k * p.interval <= MAX_ATTEMPTS * p.interval;
    if k < MAX_ATTEMPTS {
      var begun := starts + [now];
      assert ((k + 1) * p.interval) as real == now + p.interval as real;
      assert Awake(IDEAL, p, k, now) == (|begun| * p.interval) as real;
      IdealLoop(p, begun, failures);
    }
  }

  lemma BoundExactly(p: Plan)
    requires PlanOk(p)
    ensures (exists env :: Plausible(env) && Loop(env, p, [], 0.0, 0).raised) <==> MAX_ATTEMPTS * p.interval <= p.duration
  {
    if MAX_ATTEMPTS * p.interval <= p.duration {
      IdealLoop(p, [], 0);
      assert Plausible(IDEAL);
    }
    if exists env :: Plausible(env) && Loop(env, p, [], 0.0, 0).raised {
      var env :| Plausible(env) && Loop(env, p, [], 0.0, 0).raised;
      Pacing(env, p);
    }
  }

  // ----- phases -----

  /** Index of the phase an offset falls into; 0 is the warm-up. */
  function PhaseAt(offset: real, warmup: nat, phaseDuration: nat): nat
    requires phaseDuration > 0
  {
    if offset < warmup as real then 0
    else
      var index := ((offset - warmup as real) / phaseDuration as real).Floor;
      1 + if index > 3 then 3 else index
  }

  /** Phase labels of the samples never step back. */
  lemma PhasesAdvance(a: real, b: real, warmup: nat, phaseDuration: nat)
    requires phaseDuration > 0 && a <= b
    ensures PhaseAt(a, warmup, phaseDuration) <= PhaseAt(b, warmup, phaseDuration) <= 4
  {
    if a >= warmup as real {
      var d := phaseDuration as real;
      assert (a - warmup as real) / d <= (b - warmup as real) / d;
    }
  }

  lemma Scaled(a: real, b: real, d: real)
    requires d > 0.0
    ensures a <= b <==> a * d <= b * d
  {
    assert (b - a) * d == b * d - a * d;
    if a <= b {
      assert (b - a) * d >= 0.0;
    } else {
      assert (a - b) * d > 0.0;
    }
  }

  lemma Within(x: real, d: real, q: real, low: real, high: real)
    requires d > 0.0 && q * d == x
    ensures low <= q < high <==> low * d <= x < high * d
  {
    Scaled(low, q, d);
    Scaled(high, q, d);
  }

  lemma FloorWithin(x: real, d: real, k: int, low: real, high: real)
    requires d > 0.0 && low == k as real && high == low + 1.0
    ensures (x / d).Floor == k <==> low * d <= x < high * d
  {
    QuotientTimes(x, d, x / d);
    Within(x, d, x / d, low, high);
    FloorOf(x / d, k);
  }

  lemma QuotientTimes(x: real, d: real, q: real)
    requires d > 0.0 && q == x / d
    ensures q * d == x
  {
  }

  lemma FloorOf(q: real, k: int)
    ensures q.Floor == k <==> k as real <= q < (k + 1) as real
  {
  }

  /** Phase `k` of the first three is exactly the `k`-th stretch of its duration after the warm-up. */
  lemma PhaseLasts(offset: real, warmup: nat, phaseDuration: nat, k: nat)
    requires phaseDuration > 0 && 1 <= k <= 3
    ensures var d, w := phaseDuration as real, warmup as real;
      PhaseAt(offset, warmup, phaseDuration) == k <==> w + (k - 1) as real * d <= offset < w + k as real * d
  {
    var d, x := phaseDuration as real, offset - warmup as real;
    FloorWithin(x, d, k - 1, (k - 1) as real, k as real);
    if x >= 0.0 {
      assert (x / d).Floor >= 0;
    }
    assert (k - 1) as real * d >= 0.0;
  }
}
