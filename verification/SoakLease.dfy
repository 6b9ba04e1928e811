/**
 The lease-renewal part of the soak validator.  The loop compares each renewal
 with its predecessor; the theorems say what that means for the whole run.
 */
module SoakLease {
  import opened Prelude

  /** One recorded renewal; a field is missing when it is not an integer. */
  datatype Renewal = Renewal(
    offset: Option<int>, observed: Option<int>, previous: Option<int>, requested: Option<int>,
    target: Option<string>, lease: Option<string>)

  /** Clocks of the run, in milliseconds. */
  datatype Clocks = Clocks(started: Option<int>, finished: Option<int>, monotonicElapsed: Option<int>)

  datatype Failure =
    | NoClock | MissingField(i: nat) | AfterExpiry(i: nat) | NoExtension(i: nat) | NotChained(i: nat)
    | IdentityChanged(i: nat) | ClockDrift(i: nat) | AfterMonotonicEnd(i: nat) | AfterWallEnd(i: nat)
    | NotIncreasing | NoRenewal | FirstTooLate | TooSparse | CleanupUncovered

  predicate Complete(r: Renewal) { r.offset.Some? && r.observed.Some? && r.previous.Some? && r.requested.Some? }

  // ----- what no failure means, renewal by renewal -----

  /** What the loop remembers: the expiry last asked for and whose lease it is. */
  datatype Prior = Prior(requested: Option<int>, target: Option<string>, lease: Option<string>)

  function PriorAt(rs: seq<Renewal>, i: nat): Prior
    requires i <= |rs|
  {
    if i == 0 then Prior(None, None, None) else Prior(rs[i - 1].requested, rs[0].target, rs[0].lease)
  }

  predicate RenewalOk(c: Clocks, r: Renewal, first: bool, p: Prior) {
    && Complete(r)
    && r.previous.value > r.observed.value
    && r.requested.value > r.previous.value && r.requested.value >= r.observed.value + 240_000
    && (p.requested.Some? ==> r.previous == p.requested)
    && (!first ==> r.target == p.target && r.lease == p.lease)
    && (c.started.Some? ==> Abs(r.observed.value - c.started.value - r.offset.value) <= 5_000)
    && (c.monotonicElapsed.Some? ==> r.offset.value <= c.monotonicElapsed.value + 100)
    && (c.finished.Some? ==> r.observed.value <= c.finished.value + 1_000)
  }

  predicate Sound(c: Clocks, rs: seq<Renewal>, i: nat)
    requires i < |rs|
  {
    RenewalOk(c, rs[i], i == 0, PriorAt(rs, i))
  }

  predicate AllSound(c: Clocks, rs: seq<Renewal>, n: nat)
    requires n <= |rs|
  {
    forall i :: 0 <= i < n ==> Sound(c, rs, i)
  }

  predicate Increasing(offsets: seq<int>) { forall i :: 0 <= i < |offsets| - 1 ==> offsets[i] < offsets[i + 1] }

  predicate Frequent(offsets: seq<int>) { forall i :: 0 <= i < |offsets| - 1 ==> offsets[i + 1] - offsets[i] <= 130_000 }

  /** The offsets of the renewals that carry all their fields. */
  function Offsets(rs: seq<Renewal>): seq<int> {
    if rs == [] then []
    else Offsets(rs[..|rs| - 1]) + if Complete(rs[|rs| - 1]) then [rs[|rs| - 1].offset.value] else []
  }

  /** Everything the validator demands of the renewals of a formal run. */
  predicate Accepted(c: Clocks, rs: seq<Renewal>) {
    && c.started.Some? && c.finished.Some? && rs != []
    && AllSound(c, rs, |rs|)
    && Increasing(Offsets(rs)) && Offsets(rs) != [] && Offsets(rs)[0] <= 130_000 && Frequent(Offsets(rs))
    && (rs[|rs| - 1].requested.Some? ==> rs[|rs| - 1].requested.value >= c.finished.value + 100_000)
  }

  lemma {:induction false} OffsetsAt(c: Clocks, rs: seq<Renewal>, n: nat)
    requires n <= |rs| && AllSound(c, rs, n)
    ensures |Offsets(rs[..n])| == n
    ensures forall i :: 0 <= i < n ==> Complete(rs[i]) && Offsets(rs[..n])[i] == rs[i].offset.value
  {
    if n > 0 {
      OffsetsAt(c, rs, n - 1);
      assert rs[..n][..n - 1] == rs[..n - 1];
      assert Sound(c, rs, n - 1);
    }
  }

  /** The four times of one renewal, in order and in step with the clocks of the run. */
  predicate InStep(c: Clocks, r: Renewal)
    requires c.started.Some? && c.finished.Some?
  {
    && Complete(r) && r.observed.value < r.previous.value < r.requested.value && r.requested.value - r.observed.value >= 240_000
    && -5_000 <= r.observed.value - (c.started.value + r.offset.value) <= 5_000 && r.observed.value <= c.finished.value + 1_000
    && (c.monotonicElapsed.Some? ==> r.offset.value <= c.monotonicElapsed.value + 100)
  }

  /** `b` comes later than `a`, but not much later. */
  predicate Spaced(a: Renewal, b: Renewal)
    requires Complete(a) && Complete(b)
  {
    0 < b.offset.value - a.offset.value <= 130_000
  }

  /** `b` in time renews what `a` obtained. */
  predicate Follows(a: Renewal, b: Renewal)
    requires Complete(a) && Complete(b)
  {
    b.previous == a.requested && Spaced(a, b)
  }

  /** Acceptance without the loop: one lease renewed link by link, from within 130 s of the start to 100 s past the end. */
  lemma {:induction false} AcceptedExactly(c: Clocks, rs: seq<Renewal>)
    ensures Accepted(c, rs) <==>
      && c.started.Some? && c.finished.Some? && rs != [] && (forall i :: 0 <= i < |rs| ==> InStep(c, rs[i]))
      && (forall i :: 0 <= i < |rs| - 1 ==> Follows(rs[i], rs[i + 1]))
      && (forall i, j :: 0 <= i < |rs| && 0 <= j < |rs| ==> rs[i].target == rs[j].target && rs[i].lease == rs[j].lease)
      && rs[0].offset.value <= 130_000 && rs[|rs| - 1].requested.value >= c.finished.value + 100_000
  {
    var n := |rs|;
    assert rs[..n] == rs;
    if c.started.Some? && c.finished.Some? && rs != [] {
      SoundExactly(c, rs);
      if AllSound(c, rs, n) {
        OffsetsAt(c, rs, n);
        hide Offsets, AllSound, Sound;
        assert Increasing(Offsets(rs)) && Frequent(Offsets(rs)) <==> forall i :: 0 <= i < n - 1 ==> Spaced(rs[i], rs[i + 1]);
      }
    }
  }

  lemma {:induction false} SoundExactly(c: Clocks, rs: seq<Renewal>)
    requires c.started.Some? && c.finished.Some?
    ensures AllSound(c, rs, |rs|) <==>
      && (forall i :: 0 <= i < |rs| ==> InStep(c, rs[i]))
      && (forall i :: 0 <= i < |rs| - 1 ==> rs[i + 1].previous == rs[i].requested)
      && (forall i, j :: 0 <= i < |rs| && 0 <= j < |rs| ==> rs[i].target == rs[j].target && rs[i].lease == rs[j].lease)
  {
    if AllSound(c, rs, |rs|) {
      forall i | 0 <= i < |rs|
        ensures InStep(c, rs[i]) && rs[i].target == rs[0].target && rs[i].lease == rs[0].lease
        ensures i > 0 ==> rs[i].previous == rs[i - 1].requested
      {
        assert Sound(c, rs, i);
        assert i > 0 ==> Sound(c, rs, i - 1);
      }
    }
  }

  // ----- the loop -----

  /** Failures of one renewal against what the loop remembers. */
  method CheckRenewal(c: Clocks, r: Renewal, i: nat, p: Prior) returns (failures: seq<Failure>)
    requires Complete(r)
    ensures failures == [] <==> RenewalOk(c, r, i == 0, p)
  {
    var offset, observed, previous, requested := r.offset.value, r.observed.value, r.previous.value, r.requested.value;
    failures := [];
    if previous <= observed {
      failures := failures + [AfterExpiry(i)];
    }
    if requested <= previous || requested < observed + 240_000 {
      failures := failures + [NoExtension(i)];
    }
    if p.requested.Some? && previous != p.requested.value {
      failures := failures + [NotChained(i)];
    }
    if i != 0 && (r.target != p.target || r.lease != p.lease) {
      failures := failures + [IdentityChanged(i)];
    }
    if c.started.Some? && Abs(observed - c.started.value - offset) > 5_000 {
      failures := failures + [ClockDrift(i)];
    }
    if c.monotonicElapsed.Some? && offset > c.monotonicElapsed.value + 100 {
      failures := failures + [AfterMonotonicEnd(i)];
    }
    if c.finished.Some? && observed > c.finished.value + 1_000 {
      failures := failures + [AfterWallEnd(i)];
    }
  }

  /** The renewal loop: failures, the offsets seen and what is remembered at the end. */
  method CheckChain(c: Clocks, rs: seq<Renewal>) returns (failures: seq<Failure>, offsets: seq<int>, p: Prior)
    ensures failures == [] <==> AllSound(c, rs, |rs|)
    ensures offsets == Offsets(rs)
    ensures failures == [] ==> p == PriorAt(rs, |rs|)
  {
    failures, offsets, p := [], [], Prior(None, None, None);
    var i := 0;
    while i < |rs|
      invariant 0 <= i <= |rs| && offsets == Offsets(rs[..i])
      invariant failures == [] <==> AllSound(c, rs, i)
      invariant failures == [] ==> p == PriorAt(rs, i)
    {
      var r := rs[i];
      assert rs[..i + 1][..i] == rs[..i];
      if !Complete(r) {
        failures := failures + [MissingField(i)];
        assert !Sound(c, rs, i);
        i := i + 1;
        continue;
      }
      offsets := offsets + [r.offset.value];
      var found := CheckRenewal(c, r, i, p);
      assert failures == [] ==> (found == [] <==> Sound(c, rs, i));
      failures := failures + found;
      p := if i == 0 then Prior(r.requested, r.target, r.lease) else p.(requested := r.requested);
      i := i + 1;
    }
    assert rs[..i] == rs;
  }

  method AreIncreasing(offsets: seq<int>) returns (yes: bool)
    ensures yes <==> Increasing(offsets)
  {
    for i := 0 to |offsets| - if offsets == [] then 0 else 1
      invariant forall j :: 0 <= j < i && j < |offsets| - 1 ==> offsets[j] < offsets[j + 1]
    {
      if offsets[i] >= offsets[i + 1] {
        return false;
      }
    }
    return true;
  }

  method AreFrequent(offsets: seq<int>) returns (yes: bool)
    ensures yes <==> Frequent(offsets)
  {
    for i := 0 to |offsets| - if offsets == [] then 0 else 1
      invariant forall j :: 0 <= j < i && j < |offsets| - 1 ==> offsets[j + 1] - offsets[j] <= 130_000
    {
      if offsets[i + 1] - offsets[i] > 130_000 {
        return false;
      }
    }
    return true;
  }

  /** The whole lease pass finds no failure exactly when the renewals are acceptable. */
  method CheckLeases(c: Clocks, rs: seq<Renewal>) returns (failures: seq<Failure>)
    ensures failures == [] <==> Accepted(c, rs)
  {
    var offsets, p;
    failures, offsets, p := CheckChain(c, rs);
    if failures == [] {
      OffsetsAt(c, rs, |rs|);
      assert rs[..|rs|] == rs;
    }
    hide AllSound, Offsets;
    if c.started.None? || c.finished.None? {
      failures := failures + [NoClock];
    }
    var increasing := AreIncreasing(offsets);
    if !increasing {
      failures := failures + [NotIncreasing];
    }
    if offsets == [] {
      failures := failures + [NoRenewal];
      return;
    }
    if offsets[0] > 130_000 {
      failures := failures + [FirstTooLate];
    }
    var frequent := AreFrequent(offsets);
    if !frequent {
      failures := failures + [TooSparse];
    }
    if c.finished.Some? && p.requested.Some? && p.requested.value < c.finished.value + 100_000 {
      failures := failures + [CleanupUncovered];
    }
  }

  // ----- what acceptance means for the run -----

  /** Some recorded lease is in force at wall instant `t`: the one held at the start, or a renewed one. */
  predicate Covered(rs: seq<Renewal>, t: int) {
    rs != [] && Complete(rs[0]) &&
    (t < rs[0].previous.value ||
     exists i :: 0 <= i < |rs| && Complete(rs[i]) && rs[i].observed.value <= t < rs[i].requested.value)
  }

  /** The expiry of the last lease. */
  function LastExpiry(rs: seq<Renewal>): int
    requires rs != [] && Complete(rs[|rs| - 1])
  {
    rs[|rs| - 1].requested.value
  }

  lemma AllComplete(c: Clocks, rs: seq<Renewal>)
    requires Accepted(c, rs)
    ensures |Offsets(rs)| == |rs|
    ensures forall i :: 0 <= i < |rs| ==> Complete(rs[i]) && Offsets(rs)[i] == rs[i].offset.value
    ensures LastExpiry(rs) >= c.finished.value + 100_000
  {
    OffsetsAt(c, rs, |rs|);
    assert rs[..|rs|] == rs;
    assert Sound(c, rs, |rs| - 1);
  }

  /** From a renewal observed by `t`, some renewal from there on is in force at `t`. */
  lemma {:induction false} CoveredFrom(c: Clocks, rs: seq<Renewal>, i: nat, t: int)
    requires Accepted(c, rs) && i < |rs| && Complete(rs[i]) && rs[i].observed.value <= t
    requires t < c.finished.value + 100_000
    ensures Covered(rs, t)
    decreases |rs| - i
  {
    AllComplete(c, rs);
    if t >= rs[i].requested.value && i + 1 < |rs| {
      assert Sound(c, rs, i + 1);
      CoveredFrom(c, rs, i + 1, t);
    }
  }

  /** At every wall instant before finish + 100 s some recorded lease is unexpired. */
  lemma LeaseCoverage(c: Clocks, rs: seq<Renewal>, t: int)
    requires Accepted(c, rs) && t < c.finished.value + 100_000
    ensures Covered(rs, t)
  {
    AllComplete(c, rs);
    assert Sound(c, rs, 0);
    if t >= rs[0].previous.value {
      CoveredFrom(c, rs, 0, t);
    }
  }

  lemma {:induction false} ExpiriesGrow(c: Clocks, rs: seq<Renewal>, i: nat, j: nat)
    requires Accepted(c, rs) && i <= j < |rs|
    ensures Complete(rs[i]) && Complete(rs[j]) && rs[i].previous.value < rs[j].requested.value
    ensures rs[i].requested.value <= rs[j].requested.value
    decreases j - i
  {
    AllComplete(c, rs);
    assert Sound(c, rs, i);
    if i < j {
      assert Sound(c, rs, i + 1);
      ExpiriesGrow(c, rs, i + 1, j);
    }
  }

  /** The closing instant finish + 100 s itself is covered exactly when the last lease outlives it. */
  lemma ClosingInstant(c: Clocks, rs: seq<Renewal>)
    requires Accepted(c, rs)
    ensures Complete(rs[|rs| - 1])
    ensures Covered(rs, c.finished.value + 100_000) <==> LastExpiry(rs) > c.finished.value + 100_000
  {
    var t, last := c.finished.value + 100_000, |rs| - 1;
    AllComplete(c, rs);
    assert Sound(c, rs, last);
    ExpiriesGrow(c, rs, 0, last);
    if Covered(rs, t) && t >= rs[0].previous.value {
      var i :| 0 <= i < |rs| && Complete(rs[i]) && rs[i].observed.value <= t < rs[i].requested.value;
      ExpiriesGrow(c, rs, i, last);
    }
  }

  const FORMAL_MS: int := 3_660_000
  const STEP_MS: int := 110_000

  /** A formal run from `start`: a renewal every 110 s, each for 240 s, the last of them 140 s before the end. */
  function Steady(start: int, target: string, lease: string): seq<Renewal> {
    seq(32, i => var at := STEP_MS * (i + 1);
                 Renewal(Some(at), Some(start + at), Some(start + at + 130_000), Some(start + at + 240_000),
                         Some(target), Some(lease)))
  }

  /** The ranges the evidence schema sets for a renewal. */
  predicate InSchema(r: Renewal) {
    Complete(r) && 1 <= r.offset.value <= FORMAL_MS && r.observed.value >= 1 && r.previous.value >= 1 && r.requested.value >= 1
  }

  /** Of full formal length and within the schema, it is accepted, and its closing instant is uncovered. */
  lemma ClosingInstantCanFail(start: int, target: string, lease: string)
    requires start >= 1
    ensures var c, rs := Clocks(Some(start), Some(start + FORMAL_MS), Some(FORMAL_MS)), Steady(start, target, lease);
      && Accepted(c, rs) && (forall i :: 0 <= i < |rs| ==> InSchema(rs[i]))
      && !Covered(rs, start + FORMAL_MS + 100_000)
  {
    var c, rs := Clocks(Some(start), Some(start + FORMAL_MS), Some(FORMAL_MS)), Steady(start, target, lease);
    forall i | 0 <= i < |rs|
      ensures Sound(c, rs, i)
    {
    }
    OffsetsAt(c, rs, |rs|);
    assert rs[..|rs|] == rs;
    ClosingInstant(c, rs);
  }

  /** Consecutive wall observations are at most 140 s apart, and a renewal never comes closer than 100 s to expiry. */
  lemma Cadence(c: Clocks, rs: seq<Renewal>, i: nat)
    requires Accepted(c, rs) && i < |rs|
    ensures Complete(rs[i]) && (i == 0 ==> rs[i].observed.value - c.started.value <= 135_000)
    ensures i + 1 < |rs| ==> Complete(rs[i + 1]) && rs[i + 1].observed.value - rs[i].observed.value <= 140_000
    ensures i + 1 < |rs| ==> Complete(rs[i + 1]) && rs[i].requested.value - rs[i + 1].observed.value >= 100_000
  {
    AllComplete(c, rs);
    assert Sound(c, rs, i);
    if i + 1 < |rs| {
      assert Sound(c, rs, i + 1);
    }
  }
}
