/**
 Phases and samples of a formal soak run, as the edge and the control validator
 check them.  The two differ in the sample order they demand and in the slack of
 the first warm-up sample; `Variant` carries both.
 */
module SoakTimeline {
  import opened Prelude

  datatype Label = Warmup | Steady | Peak | Saturation | Recovery | Cleanup

  function Rank(l: Label): nat {
    match l case Warmup => 0 case Steady => 1 case Peak => 2 case Saturation => 3 case Recovery => 4 case Cleanup => 5
  }

  const PHASES: seq<Label> := [Steady, Peak, Saturation, Recovery]
  const CHECKED: seq<Label> := [Warmup, Steady, Peak, Saturation, Recovery]

  const INTERVAL_MS: int := 10_000

  /** `valid` is the sample's quality; a missing offset is one that is not an integer. */
  datatype Sample = Sample(offset: Option<int>, tag: Label, valid: bool)

  datatype Phase = Phase(
    name: Label, elapsed: Option<int>, passed: bool, errors: int, start: Option<int>, end: Option<int>)

  datatype Evidence = Evidence(warmup: Option<int>, qualified: Option<int>, phases: seq<Phase>, samples: seq<Sample>)

  datatype Variant = Variant(strict: bool, jitter: nat)

  datatype Failure =
    | PhaseOrder | MissingOffset | OffsetsUnordered | ShortWarmup | ShortRun | PhaseFailed(i: nat) | PhaseBounds(i: nat)
    | NotContiguous(i: nat) | ElapsedMismatch | TooFewSamples(tag: Label) | NotSpanned(tag: Label)

  // ----- phases -----

  predicate Shaped(p: Phase) {
    p.start.Some? && p.end.Some? && p.elapsed.Some? && p.end.value > p.start.value &&
    Abs(p.end.value - p.start.value - p.elapsed.value) <= 1_000
  }

  predicate PhaseOk(p: Phase, previousEnd: Option<int>) {
    && p.elapsed.Some? && p.elapsed.value >= 900_000 && p.passed && p.errors == 0 && Shaped(p)
    && (previousEnd.Some? ==> previousEnd.value <= p.start.value <= previousEnd.value + 5_000)
  }

  function PreviousEnd(e: Evidence, i: nat): Option<int>
    requires i <= |e.phases|
  {
    if i == 0 then e.warmup else e.phases[i - 1].end
  }

  predicate PhaseOkAt(e: Evidence, i: nat)
    requires i < |e.phases|
  {
    PhaseOk(e.phases[i], PreviousEnd(e, i))
  }

  /** Boundaries by name; a phase without proper boundaries has none. */
  function BoundsOf(ps: seq<Phase>): map<Label, (int, int)> {
    if ps == [] then map[]
    else
      var m, p := BoundsOf(ps[..|ps| - 1]), ps[|ps| - 1];
      if Shaped(p) then m[p.name := (p.start.value, p.end.value)] else m
  }

  method CheckPhases(e: Evidence) returns (failures: seq<Failure>, bounds: map<Label, (int, int)>)
    ensures failures == [] <==> forall i :: 0 <= i < |e.phases| ==> PhaseOkAt(e, i)
    ensures bounds == BoundsOf(e.phases)
  {
    failures, bounds := [], map[];
    var previousEnd := e.warmup;
    var i := 0;
    while i < |e.phases|
      invariant 0 <= i <= |e.phases| && bounds == BoundsOf(e.phases[..i])
      invariant failures == [] <==> forall j :: 0 <= j < i ==> PhaseOkAt(e, j)
      invariant failures == [] ==> previousEnd == PreviousEnd(e, i)
    {
      var p := e.phases[i];
      assert e.phases[..i + 1][..i] == e.phases[..i];
      ghost var before := failures;
      if p.elapsed.None? || p.elapsed.value < 900_000 || !p.passed || p.errors != 0 {
        failures := failures + [PhaseFailed(i)];
      }
      if !Shaped(p) {
        failures := failures + [PhaseBounds(i)];
        assert !PhaseOkAt(e, i);
        i := i + 1;
        continue;
      }
      if previousEnd.Some? && !(previousEnd.value <= p.start.value <= previousEnd.value + 5_000) {
        failures := failures + [NotContiguous(i)];
      }
      assert before == [] ==> (failures == [] <==> PhaseOkAt(e, i));
      bounds := bounds[p.name := (p.start.value, p.end.value)];
      previousEnd := p.end;
      i := i + 1;
    }
    assert e.phases[..i] == e.phases;
  }

  // ----- samples -----

  predicate OffsetsPresent(samples: seq<Sample>) { forall i :: 0 <= i < |samples| ==> samples[i].offset.Some? }

  predicate OffsetsOrdered(samples: seq<Sample>, strict: bool) {
    forall i, j :: 0 <= i < j < |samples| && samples[i].offset.Some? && samples[j].offset.Some? ==>
      if strict then samples[i].offset.value < samples[j].offset.value
      else samples[i].offset.value <= samples[j].offset.value
  }

  predicate Counts(s: Sample, tag: Label) { s.valid && s.tag == tag }

  function CountOf(samples: seq<Sample>, tag: Label): nat {
    if samples == [] then 0
    else CountOf(samples[..|samples| - 1], tag) + if Counts(samples[|samples| - 1], tag) then 1 else 0
  }

  /** Offsets of the valid samples with this label, in recorded order. */
  function OffsetsOf(samples: seq<Sample>, tag: Label): seq<int> {
    if samples == [] then []
    else
      var s := samples[|samples| - 1];
      OffsetsOf(samples[..|samples| - 1], tag) + if Counts(s, tag) && s.offset.Some? then [s.offset.value] else []
  }

  function Minimum(tag: Label): nat { if tag == Warmup then 5 else 85 }

  predicate WarmupSpanned(offsets: seq<int>, warmup: Option<int>, jitter: nat) {
    warmup.Some? && offsets != [] && offsets[0] <= INTERVAL_MS + jitter &&
    offsets[|offsets| - 1] >= warmup.value - 2 * INTERVAL_MS &&
    forall i :: 0 <= i < |offsets| ==> offsets[i] <= warmup.value
  }

  predicate PhaseSpanned(offsets: seq<int>, bounds: (int, int)) {
    offsets != [] && offsets[0] <= bounds.0 + 2 * INTERVAL_MS &&
    offsets[|offsets| - 1] >= bounds.1 - 2 * INTERVAL_MS &&
    forall i :: 0 <= i < |offsets| ==> bounds.0 <= offsets[i] <= bounds.1
  }

  predicate LabelOk(e: Evidence, v: Variant, bounds: map<Label, (int, int)>, tag: Label) {
    && CountOf(e.samples, tag) >= Minimum(tag)
    && var offsets := OffsetsOf(e.samples, tag);
       if tag == Warmup then WarmupSpanned(offsets, e.warmup, v.jitter)
       else tag in bounds ==> PhaseSpanned(offsets, bounds[tag])
  }

  method CheckSamples(e: Evidence, v: Variant, bounds: map<Label, (int, int)>) returns (failures: seq<Failure>)
    ensures failures == [] <==> forall i :: 0 <= i < |CHECKED| ==> LabelOk(e, v, bounds, CHECKED[i])
  {
    failures := [];
    for i := 0 to |CHECKED|
      invariant failures == [] <==> forall j :: 0 <= j < i ==> LabelOk(e, v, bounds, CHECKED[j])
    {
      var tag := CHECKED[i];
      if CountOf(e.samples, tag) < Minimum(tag) {
        failures := failures + [TooFewSamples(tag)];
      }
      var offsets := OffsetsOf(e.samples, tag);
      if tag == Warmup {
        if !WarmupSpanned(offsets, e.warmup, v.jitter) {
          failures := failures + [NotSpanned(tag)];
        }
      } else if tag in bounds && !PhaseSpanned(offsets, bounds[tag]) {
        failures := failures + [NotSpanned(tag)];
      }
      assert LabelOk(e, v, bounds, tag) || failures != [];
    }
  }

  // ----- the verdict -----

  predicate NamesOk(e: Evidence) {
    |e.phases| == |PHASES| && forall i :: 0 <= i < |PHASES| ==> e.phases[i].name == PHASES[i]
  }

  predicate ElapsedOk(e: Evidence) {
    e.qualified.Some? && e.phases != [] && e.phases[0].start.Some? && e.phases[|e.phases| - 1].end.Some? ==>
      Abs(e.phases[|e.phases| - 1].end.value - e.phases[0].start.value - e.qualified.value) <= 5_000
  }

  predicate Accepted(e: Evidence, v: Variant) {
    && NamesOk(e) && OffsetsPresent(e.samples) && OffsetsOrdered(e.samples, v.strict)
    && e.warmup.Some? && e.warmup.value >= 60_000 && e.qualified.Some? && e.qualified.value >= 3_600_000
    && (forall i :: 0 <= i < |e.phases| ==> PhaseOkAt(e, i)) && ElapsedOk(e)
    && (forall i :: 0 <= i < |CHECKED| ==> LabelOk(e, v, BoundsOf(e.phases), CHECKED[i]))
  }

  // ----- acceptance, phase by phase and sample by sample -----

  /** A phase that passed without errors, ran for 900 s or more and recorded its bounds, within 5 s after `previous`. */
  predicate Passed(p: Phase, previous: int) {
    && p.passed && p.errors == 0 && p.elapsed.Some? && p.start.Some? && p.end.Some? && p.elapsed.value >= 900_000
    && p.start.value < p.end.value && -1_000 <= p.end.value - p.start.value - p.elapsed.value <= 1_000
    && 0 <= p.start.value - previous <= 5_000
  }

  /** A minute of warm-up, then the four phases in order, one right after the other, over the hour claimed. */
  predicate Scheduled(e: Evidence) {
    && |e.phases| == 4 && e.phases[0].name == Steady && e.phases[1].name == Peak && e.phases[2].name == Saturation
    && e.phases[3].name == Recovery && e.warmup.Some? && e.warmup.value >= 60_000
    && Passed(e.phases[0], e.warmup.value) && Passed(e.phases[1], e.phases[0].end.value)
    && Passed(e.phases[2], e.phases[1].end.value) && Passed(e.phases[3], e.phases[2].end.value)
    && e.qualified.Some? && e.qualified.value >= 3_600_000
    && -5_000 <= e.phases[3].end.value - e.phases[0].start.value - e.qualified.value <= 5_000
  }

  lemma ScheduledExactly(e: Evidence)
    ensures Scheduled(e) <==>
      && NamesOk(e) && e.warmup.Some? && e.warmup.value >= 60_000 && e.qualified.Some? && e.qualified.value >= 3_600_000
      && (forall i :: 0 <= i < |e.phases| ==> PhaseOkAt(e, i)) && ElapsedOk(e)
  {
    assert PHASES[0] == Steady && PHASES[1] == Peak && PHASES[2] == Saturation && PHASES[3] == Recovery;
    if |e.phases| == 4 {
      hide Shaped;
      assert (forall i :: 0 <= i < |e.phases| ==> PhaseOkAt(e, i)) <==>
        PhaseOkAt(e, 0) && PhaseOkAt(e, 1) && PhaseOkAt(e, 2) && PhaseOkAt(e, 3);
    }
  }

  /** A valid sample with this label was taken at `x`. */
  predicate TakenAt(samples: seq<Sample>, tag: Label, x: int) {
    exists i :: 0 <= i < |samples| && samples[i].valid && samples[i].tag == tag && samples[i].offset == Some(x)
  }

  function Indices(samples: seq<Sample>, tag: Label): set<int> {
    set i | 0 <= i < |samples| && samples[i].valid && samples[i].tag == tag
  }

  lemma LastIndex(samples: seq<Sample>, tag: Label)
    requires samples != []
    ensures var n := |samples| - 1;
      |Indices(samples, tag)| == |Indices(samples[..n], tag)| + if Counts(samples[n], tag) then 1 else 0
  {
    var n := |samples| - 1;
    var init := samples[..n];
    forall i
      ensures i in Indices(samples, tag) <==> i in Indices(init, tag) || (i == n && Counts(samples[n], tag))
    {
      assert 0 <= i < n ==> init[i] == samples[i];
    }
    assert Indices(samples, tag) == Indices(init, tag) + if Counts(samples[n], tag) then {n} else {};
  }

  lemma {:induction false} CountIsIndices(samples: seq<Sample>, tag: Label)
    ensures CountOf(samples, tag) == |Indices(samples, tag)|
  {
    if samples != [] {
      var n := |samples| - 1;
      CountIsIndices(samples[..n], tag);
      LastIndex(samples, tag);
      hide Indices;
    } else {
      assert Indices(samples, tag) == {};
    }
  }

  lemma {:induction false} OffsetsFrom(samples: seq<Sample>, tag: Label, k: nat) returns (i: nat)
    requires k < |OffsetsOf(samples, tag)|
    ensures i < |samples| && Counts(samples[i], tag) && samples[i].offset == Some(OffsetsOf(samples, tag)[k])
  {
    var n := |samples| - 1;
    if k < |OffsetsOf(samples[..n], tag)| {
      i := OffsetsFrom(samples[..n], tag, k);
    } else {
      i := n;
    }
  }

  lemma {:induction false} OffsetsSorted(samples: seq<Sample>, tag: Label, strict: bool, k: nat, m: nat)
    requires OffsetsOrdered(samples, strict) && k <= m < |OffsetsOf(samples, tag)|
    ensures OffsetsOf(samples, tag)[k] <= OffsetsOf(samples, tag)[m]
  {
    var n := |samples| - 1;
    var init := samples[..n];
    if m < |OffsetsOf(init, tag)| {
      OffsetsSorted(init, tag, strict, k, m);
    } else if k < m {
      var i := OffsetsFrom(init, tag, k);
      assert samples[i] == init[i];
    }
  }

  lemma {:induction false} OffsetsExactly(samples: seq<Sample>, tag: Label, x: int)
    ensures x in OffsetsOf(samples, tag) <==> TakenAt(samples, tag, x)
  {
    var offsets := OffsetsOf(samples, tag);
    if x in offsets {
      var k :| 0 <= k < |offsets| && offsets[k] == x;
      var i := OffsetsFrom(samples, tag, k);
    }
    if TakenAt(samples, tag, x) {
      var i :| 0 <= i < |samples| && samples[i].valid && samples[i].tag == tag && samples[i].offset == Some(x);
      OffsetRecorded(samples, i);
    }
  }

  /** In recorded order the first offset is the least and the last the greatest. */
  lemma {:induction false} EndsExactly(samples: seq<Sample>, tag: Label, strict: bool)
    requires OffsetsOrdered(samples, strict) && OffsetsOf(samples, tag) != []
    ensures var offsets := OffsetsOf(samples, tag);
      && TakenAt(samples, tag, offsets[0]) && TakenAt(samples, tag, offsets[|offsets| - 1])
      && forall x :: TakenAt(samples, tag, x) ==> offsets[0] <= x <= offsets[|offsets| - 1]
  {
    var offsets := OffsetsOf(samples, tag);
    OffsetsExactly(samples, tag, offsets[0]);
    OffsetsExactly(samples, tag, offsets[|offsets| - 1]);
    forall x | TakenAt(samples, tag, x)
      ensures offsets[0] <= x <= offsets[|offsets| - 1]
    {
      OffsetsExactly(samples, tag, x);
      var k :| 0 <= k < |offsets| && offsets[k] == x;
      OffsetsSorted(samples, tag, strict, 0, k);
      OffsetsSorted(samples, tag, strict, k, |offsets| - 1);
    }
  }

  /** Samples with this label: enough of them, one early, one late, none outside. */
  ghost predicate Covered(samples: seq<Sample>, tag: Label, minimum: nat, early: int, late: int, lo: Option<int>, hi: int) {
    && |Indices(samples, tag)| >= minimum
    && (exists x :: TakenAt(samples, tag, x) && x <= early) && (exists x :: TakenAt(samples, tag, x) && x >= late)
    && forall x :: TakenAt(samples, tag, x) ==> Inside(x, lo, hi)
  }

  lemma {:induction false} SpanExactly(samples: seq<Sample>, tag: Label, strict: bool, minimum: nat, early: int, late: int,
                                       lo: Option<int>, hi: int)
    requires OffsetsOrdered(samples, strict)
    ensures var offsets := OffsetsOf(samples, tag);
      Covered(samples, tag, minimum, early, late, lo, hi) <==>
      && CountOf(samples, tag) >= minimum && offsets != [] && offsets[0] <= early && offsets[|offsets| - 1] >= late
      && forall i :: 0 <= i < |offsets| ==> Inside(offsets[i], lo, hi)
  {
    var offsets := OffsetsOf(samples, tag);
    CountIsIndices(samples, tag);
    forall x
      ensures x in offsets <==> TakenAt(samples, tag, x)
    {
      OffsetsExactly(samples, tag, x);
    }
    if offsets != [] {
      EndsExactly(samples, tag, strict);
    }
    hide OffsetsOf, OffsetsOrdered, CountOf, Indices, TakenAt;
    AllWithin(offsets, lo, hi);
    if Covered(samples, tag, minimum, early, late, lo, hi) {
      var x :| TakenAt(samples, tag, x) && x <= early;
      var y :| TakenAt(samples, tag, y) && y >= late;
      assert x in offsets && y in offsets;
    }
  }

  predicate Inside(x: int, lo: Option<int>, hi: int) { (lo.Some? ==> lo.value <= x) && x <= hi }

  lemma {:induction false} AllWithin(offsets: seq<int>, lo: Option<int>, hi: int)
    ensures (forall x :: x in offsets ==> Inside(x, lo, hi)) <==> forall i :: 0 <= i < |offsets| ==> Inside(offsets[i], lo, hi)
  {
    hide Inside;
    if forall x :: x in offsets ==> Inside(x, lo, hi) {
      forall i | 0 <= i < |offsets|
        ensures Inside(offsets[i], lo, hi)
      {
        assert offsets[i] in offsets;
      }
    }
  }

  /** Every sample has its offset, none goes back, and the warm-up and each phase are covered from within 20 s of either end. */
  ghost predicate Sampled(e: Evidence, v: Variant)
    requires Scheduled(e)
  {
    && OffsetsPresent(e.samples) && OffsetsOrdered(e.samples, v.strict)
    && Covered(e.samples, Warmup, 5, 10_000 + v.jitter, e.warmup.value - 20_000, None, e.warmup.value)
    && InPhase(e.samples, Steady, e.phases[0]) && InPhase(e.samples, Peak, e.phases[1])
    && InPhase(e.samples, Saturation, e.phases[2]) && InPhase(e.samples, Recovery, e.phases[3])
  }

  ghost predicate InPhase(samples: seq<Sample>, tag: Label, p: Phase)
    requires p.start.Some? && p.end.Some?
  {
    Covered(samples, tag, 85, p.start.value + 20_000, p.end.value - 20_000, p.start, p.end.value)
  }

  lemma {:induction false} LabelExactly(e: Evidence, v: Variant, k: nat)
    requires Scheduled(e) && OffsetsOrdered(e.samples, v.strict) && k < 4
    ensures LabelOk(e, v, BoundsOf(e.phases), PHASES[k]) <==> InPhase(e.samples, PHASES[k], e.phases[k])
  {
    var p := e.phases[k];
    ScheduledExactly(e);
    forall i | 0 <= i < 4
      ensures Shaped(e.phases[i])
    {
      assert PhaseOkAt(e, i);
    }
    BoundsOfDistinct(e.phases, k);
    assert PHASES[k] != Warmup;
    SpanExactly(e.samples, PHASES[k], v.strict, 85, p.start.value + 20_000, p.end.value - 20_000, p.start, p.end.value);
    hide BoundsOf, CountOf, OffsetsOf, Covered, Scheduled, OffsetsOrdered, Shaped;
  }

  lemma {:induction false} WarmupExactly(e: Evidence, v: Variant)
    requires e.warmup.Some? && OffsetsOrdered(e.samples, v.strict)
    ensures LabelOk(e, v, BoundsOf(e.phases), Warmup) <==>
      Covered(e.samples, Warmup, 5, 10_000 + v.jitter, e.warmup.value - 20_000, None, e.warmup.value)
  {
    SpanExactly(e.samples, Warmup, v.strict, 5, 10_000 + v.jitter, e.warmup.value - 20_000, None, e.warmup.value);
    hide BoundsOf, CountOf, OffsetsOf, Covered, OffsetsOrdered;
  }

  /** Acceptance says all this of the run, and nothing more. */
  lemma {:induction false} AcceptedExactly(e: Evidence, v: Variant)
    ensures Accepted(e, v) <==> Scheduled(e) && Sampled(e, v)
  {
    ScheduledExactly(e);
    if Scheduled(e) && OffsetsOrdered(e.samples, v.strict) {
      assert PHASES[0] == Steady && PHASES[1] == Peak && PHASES[2] == Saturation && PHASES[3] == Recovery;
      WarmupExactly(e, v);
      LabelExactly(e, v, 0);
      LabelExactly(e, v, 1);
      LabelExactly(e, v, 2);
      LabelExactly(e, v, 3);
      assert CHECKED[0] == Warmup && CHECKED[1] == Steady && CHECKED[2] == Peak && CHECKED[3] == Saturation && CHECKED[4] == Recovery;
      hide LabelOk, BoundsOf, Covered, InPhase, OffsetsOrdered, OffsetsPresent, ElapsedOk, PhaseOkAt, NamesOk;
      assert (forall i :: 0 <= i < |CHECKED| ==> LabelOk(e, v, BoundsOf(e.phases), CHECKED[i])) <==>
        && LabelOk(e, v, BoundsOf(e.phases), Warmup) && LabelOk(e, v, BoundsOf(e.phases), Steady)
        && LabelOk(e, v, BoundsOf(e.phases), Peak) && LabelOk(e, v, BoundsOf(e.phases), Saturation)
        && LabelOk(e, v, BoundsOf(e.phases), Recovery);
    }
  }

  /** The timeline checks find no failure exactly on acceptable evidence. */
  method CheckTimeline(e: Evidence, v: Variant) returns (failures: seq<Failure>)
    ensures failures == [] <==> Accepted(e, v)
    ensures failures == [] <==> Scheduled(e) && Sampled(e, v)
  {
    AcceptedExactly(e, v);
    hide Scheduled, Sampled, CountOf, OffsetsOf, BoundsOf, LabelOk, OffsetsOrdered, OffsetsPresent, NamesOk, ElapsedOk, PhaseOkAt;
    failures := [];
    if !NamesOk(e) {
      failures := failures + [PhaseOrder];
    }
    if !OffsetsPresent(e.samples) {
      failures := failures + [MissingOffset];
    } else if !OffsetsOrdered(e.samples, v.strict) {
      failures := failures + [OffsetsUnordered];
    }
    if e.warmup.None? || e.warmup.value < 60_000 {
      failures := failures + [ShortWarmup];
    }
    if e.qualified.None? || e.qualified.value < 3_600_000 {
      failures := failures + [ShortRun];
    }
    var phaseFailures, bounds := CheckPhases(e);
    if !ElapsedOk(e) {
      failures := failures + [ElapsedMismatch];
    }
    var sampleFailures := CheckSamples(e, v, bounds);
    failures := failures + phaseFailures + sampleFailures;
  }

  // ----- what acceptance means for the whole run -----

  predicate Bounded(e: Evidence) { forall i :: 0 <= i < |e.phases| ==> e.phases[i].start.Some? && e.phases[i].end.Some? }

  /** Four ordered, disjoint phases of at least 899 s, at most 5 s apart, right after the warm-up. */
  lemma PhasePartition(e: Evidence, v: Variant)
    requires Accepted(e, v)
    ensures |e.phases| == 4 && Bounded(e)
    ensures forall i :: 0 <= i < 4 ==> e.phases[i].end.value - e.phases[i].start.value >= 899_000
    ensures forall i :: 0 <= i < 3 ==> 0 <= e.phases[i + 1].start.value - e.phases[i].end.value <= 5_000
    ensures 0 <= e.phases[0].start.value - e.warmup.value <= 5_000
    ensures forall i, j :: 0 <= i < j < 4 ==> e.phases[i].end.value <= e.phases[j].start.value
  {
    assert PhaseOkAt(e, 0) && PhaseOkAt(e, 1) && PhaseOkAt(e, 2) && PhaseOkAt(e, 3);
    assert e.phases[0].end.value <= e.phases[1].start.value < e.phases[1].end.value;
    assert e.phases[1].end.value <= e.phases[2].start.value < e.phases[2].end.value <= e.phases[3].start.value;
  }

  function CountValid(samples: seq<Sample>): nat {
    if samples == [] then 0 else CountValid(samples[..|samples| - 1]) + if samples[|samples| - 1].valid then 1 else 0
  }

  lemma {:induction false} LabelsSum(samples: seq<Sample>)
    ensures CountOf(samples, Warmup) + CountOf(samples, Steady) + CountOf(samples, Peak) + CountOf(samples, Saturation)
      + CountOf(samples, Recovery) + CountOf(samples, Cleanup) == CountValid(samples)
  {
    if samples != [] {
      LabelsSum(samples[..|samples| - 1]);
    }
  }

  /** At least 345 valid samples in all. */
  lemma SampleFloor(e: Evidence, v: Variant)
    requires Accepted(e, v)
    ensures CountValid(e.samples) >= 345
  {
    LabelsSum(e.samples);
    assert forall i :: 0 <= i < |CHECKED| ==> CountOf(e.samples, CHECKED[i]) >= Minimum(CHECKED[i]);
    assert CHECKED[0] == Warmup && CHECKED[1] == Steady && CHECKED[2] == Peak && CHECKED[3] == Saturation
      && CHECKED[4] == Recovery;
  }

  lemma {:induction false} OffsetRecorded(samples: seq<Sample>, i: nat)
    requires i < |samples| && samples[i].valid && samples[i].offset.Some?
    ensures samples[i].offset.value in OffsetsOf(samples, samples[i].tag)
  {
    if i < |samples| - 1 {
      OffsetRecorded(samples[..|samples| - 1], i);
    }
  }

  /** The window of a checked label: from the run start for the warm-up, else the phase's bounds. */
  lemma InWindow(e: Evidence, v: Variant, i: nat)
    requires Accepted(e, v) && i < |e.samples| && e.samples[i].valid && e.samples[i].tag != Cleanup
    ensures e.samples[i].offset.Some?
    ensures e.samples[i].tag == Warmup ==> e.samples[i].offset.value <= e.warmup.value
    ensures Bounded(e) && (e.samples[i].tag != Warmup ==>
      var p := e.phases[Rank(e.samples[i].tag) - 1]; p.start.value <= e.samples[i].offset.value <= p.end.value)
  {
    var tag := e.samples[i].tag;
    OffsetRecorded(e.samples, i);
    assert tag == CHECKED[Rank(tag)];
    assert LabelOk(e, v, BoundsOf(e.phases), CHECKED[Rank(tag)]);
    PhasePartition(e, v);
    if tag != Warmup {
      BoundsAt(e, v, Rank(tag) - 1);
    }
  }

  lemma BoundsAt(e: Evidence, v: Variant, k: nat)
    requires Accepted(e, v) && k < 4
    ensures Bounded(e) && PHASES[k] in BoundsOf(e.phases)
    ensures BoundsOf(e.phases)[PHASES[k]] == (e.phases[k].start.value, e.phases[k].end.value)
  {
    PhasePartition(e, v);
    forall i | 0 <= i < 4
      ensures Shaped(e.phases[i])
    {
      assert PhaseOkAt(e, i);
    }
    BoundsOfDistinct(e.phases, k);
  }

  lemma {:induction false} BoundsOfDistinct(ps: seq<Phase>, k: nat)
    requires k < |ps| <= 4 && (forall i :: 0 <= i < |ps| ==> Shaped(ps[i]) && ps[i].name == PHASES[i])
    ensures Shaped(ps[k]) && PHASES[k] in BoundsOf(ps)
    ensures BoundsOf(ps)[PHASES[k]] == (ps[k].start.value, ps[k].end.value)
    decreases |ps|
  {
    if k < |ps| - 1 {
      BoundsOfDistinct(ps[..|ps| - 1], k);
    }
  }

  /** Labels follow time: of two valid samples, cleanup aside, the earlier never carries the later label. */
  lemma LabelsFollowTime(e: Evidence, v: Variant, i: nat, j: nat)
    requires Accepted(e, v) && i < |e.samples| && j < |e.samples| && e.samples[i].valid && e.samples[j].valid
    requires e.samples[i].tag != Cleanup && e.samples[j].tag != Cleanup
    requires e.samples[i].offset.Some? && e.samples[j].offset.Some?
    requires e.samples[i].offset.value < e.samples[j].offset.value
    ensures Rank(e.samples[i].tag) <= Rank(e.samples[j].tag)
  {
    InWindow(e, v, i);
    InWindow(e, v, j);
    PhasePartition(e, v);
  }

  /** Under the strict order of the control validator the labels never step back. */
  lemma StrictLabelsInOrder(e: Evidence, v: Variant, i: nat, j: nat)
    requires Accepted(e, v) && v.strict && i < j < |e.samples| && e.samples[i].valid && e.samples[j].valid
    requires e.samples[i].tag != Cleanup && e.samples[j].tag != Cleanup
    ensures Rank(e.samples[i].tag) <= Rank(e.samples[j].tag)
  {
    assert e.samples[i].offset.Some? && e.samples[j].offset.Some?;
    LabelsFollowTime(e, v, i, j);
  }

  /** Under the edge order they step back only between samples taken at the same offset. */
  lemma EdgeLabelsInOrder(e: Evidence, v: Variant, i: nat, j: nat)
    requires Accepted(e, v) && i < j < |e.samples| && e.samples[i].valid && e.samples[j].valid
    requires e.samples[i].tag != Cleanup && e.samples[j].tag != Cleanup
    requires Rank(e.samples[i].tag) > Rank(e.samples[j].tag)
    ensures e.samples[i].offset == e.samples[j].offset
  {
    assert e.samples[i].offset.Some? && e.samples[j].offset.Some?;
    if e.samples[i].offset.value < e.samples[j].offset.value {
      LabelsFollowTime(e, v, i, j);
    }
  }

  // ----- samples labelled "cleanup" -----

  /** Two valid samples, the first taken earlier. */
  predicate Before(a: Sample, b: Sample) {
    a.valid && b.valid && a.offset.Some? && b.offset.Some? && a.offset.value < b.offset.value
  }

  predicate LabelsOrdered(samples: seq<Sample>) {
    forall i, j :: 0 <= i < |samples| && 0 <= j < |samples| && Before(samples[i], samples[j]) ==>
      Rank(samples[i].tag) <= Rank(samples[j].tag)
  }

  predicate CleanupLast(samples: seq<Sample>) {
    forall i, j :: 0 <= i < |samples| && 0 <= j < |samples| && Before(samples[i], samples[j]) ==>
      samples[i].tag == Cleanup ==> samples[j].tag == Cleanup
  }

  /** The validator never looks at them, so all labels are in order exactly when they come last. */
  lemma LabelsOrderedExactly(e: Evidence, v: Variant)
    requires Accepted(e, v)
    ensures LabelsOrdered(e.samples) <==> CleanupLast(e.samples)
  {
    var ss := e.samples;
    if CleanupLast(ss) {
      forall i, j | 0 <= i < |ss| && 0 <= j < |ss| && Before(ss[i], ss[j])
        ensures Rank(ss[i].tag) <= Rank(ss[j].tag)
      {
        if ss[i].tag != Cleanup && ss[j].tag != Cleanup {
          LabelsFollowTime(e, v, i, j);
        }
      }
    }
  }

  lemma {:induction false} PrependCleanup(x: int, samples: seq<Sample>, tag: Label)
    requires tag != Cleanup
    ensures var more := [Sample(Some(x), Cleanup, true)] + samples;
      CountOf(more, tag) == CountOf(samples, tag) && OffsetsOf(more, tag) == OffsetsOf(samples, tag)
  {
    var more := [Sample(Some(x), Cleanup, true)] + samples;
    if samples == [] {
      assert more[..0] == [];
    } else {
      PrependCleanup(x, samples[..|samples| - 1], tag);
      assert more[..|more| - 1] == [Sample(Some(x), Cleanup, true)] + samples[..|samples| - 1];
    }
  }

  /** Such samples can come first: one put before everything else is not noticed. */
  lemma EarlyCleanupAccepted(e: Evidence, v: Variant, x: int)
    requires Accepted(e, v) && e.samples != [] && e.samples[0].offset.Some? && x < e.samples[0].offset.value
    ensures var more := e.(samples := [Sample(Some(x), Cleanup, true)] + e.samples);
      Accepted(more, v) && (e.samples[0].valid && e.samples[0].tag != Cleanup ==> !LabelsOrdered(more.samples))
  {
    var more := e.(samples := [Sample(Some(x), Cleanup, true)] + e.samples);
    forall i | 0 <= i < |CHECKED|
      ensures LabelOk(more, v, BoundsOf(more.phases), CHECKED[i])
    {
      PrependCleanup(x, e.samples, CHECKED[i]);
      assert LabelOk(e, v, BoundsOf(e.phases), CHECKED[i]);
      hide CountOf, OffsetsOf, BoundsOf;
    }
    hide CountOf, OffsetsOf, BoundsOf, LabelOk, PhaseOk;
    forall i | 0 <= i < |more.phases|
      ensures PhaseOkAt(more, i)
    {
      assert PhaseOkAt(e, i);
    }
    forall i | 1 <= i < |more.samples|
      ensures more.samples[i] == e.samples[i - 1]
    {
    }
    assert e.samples[0] == more.samples[1];
    if e.samples[0].valid && e.samples[0].tag != Cleanup {
      assert Before(more.samples[0], more.samples[1]);
      assert Rank(more.samples[0].tag) > Rank(more.samples[1].tag);
    }
  }
}
