/** What the health score promises whatever the evidence: every dimension earns between nothing
    and its cap, unknown dimensions earn nothing, the caps sum to a hundred, and so the score lies
    between nothing and the caps of the known dimensions. The module
    HealthMonotonicity is about change. */
module HealthTheorems {
  import opened Wrappers
  import opened Strings
  import opened Rounding
  import opened HealthScore

  // ---- Every dimension is fair ----

  function CapValue(id: DimensionId): real {
    Cap(id) as real
  }

  lemma {:induction false} CapsStep(n: nat)
    requires 0 < n <= |ORDER|
    ensures Total(ORDER[..n], CapValue) == Total(ORDER[..n - 1], CapValue) + CapValue(ORDER[n - 1])
  {
    assert ORDER[..n][..n - 1] == ORDER[..n - 1];
  }

  lemma {:induction false} CapsSumToHundred()
    ensures Total(ORDER, CapValue) == 100.0
  {
    CapsStep(1); CapsStep(2); CapsStep(3); CapsStep(4); CapsStep(5);
    CapsStep(6); CapsStep(7); CapsStep(8); CapsStep(9); CapsStep(10);
    assert ORDER[..10] == ORDER;
  }

  lemma {:induction false} RunsFair(packages: seq<Package>)
    requires AllRuns(packages).Ok?
    ensures AllRuns(packages).value.assessed <= |packages|
  {
    if packages != [] {
      RunsFair(packages[..|packages| - 1]);
    }
  }

  lemma {:induction false} RunsFairRatio(runs: Runs, n: nat)
    requires runs.assessed <= n && n > 0 && runs.passed + runs.failed > 0
    ensures 0.0 <= Quotient(runs.assessed as real, n as real) <= 1.0 && 0.0 <= PassRate(runs) <= 1.0
    ensures 0.0 <= Scale(Quotient(runs.assessed as real, n as real), PassRate(runs)) <= 1.0
  {
    QuotientBounds(runs.assessed as real, n as real);
    QuotientBounds(runs.passed as real, (runs.passed + runs.failed) as real);
    ScaleBounds(Quotient(runs.assessed as real, n as real), PassRate(runs), 1.0);
  }

  lemma {:induction false} BenchmarksFair(packages: seq<Package>)
    ensures AssessBenchmarks(packages).Ok? ==> Fair(AssessBenchmarks(packages).value)
  {
    if packages != [] && AssessBenchmarks(packages).Ok? {
      var runs := AllRuns(packages).value;
      RunsFair(packages);
      if runs.passed + runs.failed > 0 { RunsFairRatio(runs, |packages|); }
    }
  }

  lemma {:induction false} PackagesFair(packages: seq<Package>)
    ensures Fair(ProvenanceAndLicense(packages))
    ensures AssessStaticRisk(packages).Ok? ==> Fair(AssessStaticRisk(packages).value)
    ensures AssessStaleness(packages).Ok? ==> Fair(AssessStaleness(packages).value)
  {
    if packages != [] {
      MeanBounds(packages, PackageCredit);
      MeanBounds(packages, RiskValue);
      MeanBounds(packages, FreshnessValue);
      if forall p | p in packages :: p.risk.None? { TotalZero(packages, RiskValue); }
      if forall p | p in packages :: p.freshness.None? { TotalZero(packages, FreshnessValue); }
    }
  }

  lemma {:induction false} CountsFair(e: Evidence)
    ensures AssessDrift(e.drift).Ok? ==> Fair(AssessDrift(e.drift).value)
    ensures AssessDuplicates(e.duplicates).Ok? ==> Fair(AssessDuplicates(e.duplicates).value)
    ensures AssessActiveSet(e.activeSet).Ok? ==> Fair(AssessActiveSet(e.activeSet).value)
    ensures Fair(AssessCompatibility(e.compatibility))
  {
    if e.drift.Some? && AssessDrift(e.drift).Ok? {
      var d := e.drift.value;
      var checked, drifted := d.checkedFiles + d.checkedServers, d.driftedFiles + d.driftedServers;
      if checked > 0 { QuotientBounds((checked - drifted) as real, checked as real); }
    }
    if e.duplicates.Some? && AssessDuplicates(e.duplicates).Ok? {
      var d := e.duplicates.value;
      if d.scanned > 0 { QuotientBounds((d.scanned - d.duplicates) as real, d.scanned as real); }
    }
    if e.activeSet.Some? && AssessActiveSet(e.activeSet).Ok? && e.activeSet.value.active > e.activeSet.value.capacity {
      QuotientBounds(e.activeSet.value.capacity as real, e.activeSet.value.active as real);
    }
    if e.compatibility != [] { MeanBounds(e.compatibility, CompatibilityValue); }
  }

  lemma {:induction false} OutcomeRatioBounds(events: seq<Outcome>)
    requires events != []
    ensures 0.0 <= OutcomeRatio(events) <= 1.0
  {
    MeanBounds(events, OutcomeValue);
    ScaleBounds(Mean(events, OutcomeValue), Confidence(|events|), 1.0);
  }

  lemma {:induction false} OutcomesFair(agent: string, evidence: seq<Outcome>)
    ensures AssessOutcomes(agent, evidence).Ok? ==> Fair(AssessOutcomes(agent, evidence).value)
  {
    if Scoped(evidence, agent) != [] { OutcomeRatioBounds(Scoped(evidence, agent)); }
  }

  lemma {:induction false} PartBounds(good: int, all: int)
    requires 0 <= good <= all
    ensures 0.0 <= Part(good, all) <= 1.0
  {
    if all > 0 { QuotientBounds(good as real, all as real); }
  }

  lemma {:induction false} RecoveryFair(evidence: Option<Recovery>)
    ensures AssessRecovery(evidence).Ok? ==> Fair(AssessRecovery(evidence).value)
  {
    if evidence.Some? && AssessRecovery(evidence).Ok? {
      var r := evidence.value;
      PartBounds(r.recoverableMutations, r.protectedMutations);
      PartBounds(r.readable, r.readable + r.corrupt);
      QuotientBounds(1.0, (1 + r.pending) as real);
      ScaleBounds(Part(r.recoverableMutations, r.protectedMutations) * 0.6
                  + Part(r.readable, r.readable + r.corrupt) * 0.4,
                  Quotient(1.0, (1 + r.pending) as real), 1.0);
    }
  }

  lemma {:induction false} AllFair(e: Evidence, id: DimensionId)
    requires Assess(e, id).Ok?
    ensures Fair(Assess(e, id).value)
  {
    match id
    case ProvenanceLicense => PackagesFair(e.packages);
    case StaticRisk => PackagesFair(e.packages);
    case ManagedDrift => CountsFair(e);
    case DuplicateSkills => CountsFair(e);
    case Staleness => PackagesFair(e.packages);
    case ActiveSetCapacity => CountsFair(e);
    case AgentCompatibility => CountsFair(e);
    case Benchmarks => BenchmarksFair(e.packages);
    case LocalOutcomes => OutcomesFair(e.agent, e.outcomes);
    case Recoverability => RecoveryFair(e.recovery);
  }

  // ---- Bounds of the score ----

  lemma {:induction false} EarnedBounds(cap: nat, ratio: real)
    requires 0.0 <= ratio <= 1.0
    ensures 0.0 <= Earned(cap, ratio) <= cap as real && Hundredths(Earned(cap, ratio))
    ensures ratio == 0.0 ==> Earned(cap, ratio) == 0.0
  {
    var share := Clamp(ratio);
    ScaleBounds(cap as real, share, cap as real);
    WithinRounds(Scale(cap as real, share), cap);
    if ratio == 0.0 {
      ScaleUnits(cap as real);
      WithinRounds(0.0, 0);
    }
  }

  lemma {:induction false} WithinRounds(x: real, cap: nat)
    requires 0.0 <= x <= cap as real
    ensures 0.0 <= Round(x) <= cap as real && Hundredths(Round(x))
  {
    WholeIsHundredths(0);
    WholeIsHundredths(cap);
    RoundNearest(0.0);
    RoundNearest(cap as real);
    RoundNearest(x);
    RoundMonotone(0.0, x);
    RoundMonotone(x, cap as real);
  }

  lemma {:induction false} DimensionIs(id: DimensionId, a: Assessment)
    ensures var d := MakeDimension(id, a);
            d.id == id && d.contribution == Earned(Cap(id), a.ratio) && (d.status.Unknown? <==> !a.known)
  {
  }

  function KnownCap(d: Dimension): real {
    if d.status.Unknown? then 0.0 else Cap(d.id) as real
  }

  ghost predicate FairDimensions(dimensions: seq<Dimension>) {
    forall i | 0 <= i < |dimensions| :: 0.0 <= dimensions[i].contribution <= KnownCap(dimensions[i])
        && Hundredths(dimensions[i].contribution)
  }

  lemma {:induction false} SumBounds(dimensions: seq<Dimension>)
    requires FairDimensions(dimensions)
    ensures 0.0 <= Total(dimensions, Contribution) <= Total(dimensions, KnownCap)
            && Hundredths(Total(dimensions, Contribution))
  {
    if dimensions == [] {
      WholeIsHundredths(0);
    } else {
      var init, last := dimensions[..|dimensions| - 1], dimensions[|dimensions| - 1];
      SumBounds(init);
      HundredthsAdd(Total(init, Contribution), last.contribution);
    }
  }

  lemma {:induction false} KnownCapsBound(dimensions: seq<Dimension>, order: seq<DimensionId>)
    requires |dimensions| == |order| && forall i | 0 <= i < |order| :: dimensions[i].id == order[i]
    ensures Total(dimensions, KnownCap) <= Total(order, CapValue)
  {
    if order != [] {
      KnownCapsBound(dimensions[..|dimensions| - 1], order[..|order| - 1]);
    }
  }

  lemma {:induction false} BuiltFrom(e: Evidence, s: Score) returns (assessments: seq<Assessment>)
    requires Build(e) == Ok(s)
    ensures |assessments| == |ORDER| && s == ScoreOf(Dimensions(assessments))
    ensures forall i | 0 <= i < |ORDER| :: Assess(e, ORDER[i]) == Ok(assessments[i]) && Fair(assessments[i])
  {
    var results := Assessments(e);
    assessments := seq(|ORDER|, i requires 0 <= i < |ORDER| => results[i].value);
    forall i | 0 <= i < |ORDER| ensures Assess(e, ORDER[i]) == Ok(assessments[i]) && Fair(assessments[i]) {
      assert results[i].Ok?;
      AllFair(e, ORDER[i]);
    }
  }

  /** Whatever the evidence: the score is the exact sum of the contributions, each within its
      cap, and lies between 0 and the caps of the known dimensions, which are 100 at most. */
  lemma {:induction false} ScoreBounds(e: Evidence, s: Score)
    requires Build(e) == Ok(s)
    ensures |s.dimensions| == |ORDER| && forall i | 0 <= i < |ORDER| :: s.dimensions[i].id == ORDER[i]
    ensures FairDimensions(s.dimensions)
    ensures s.score == Total(s.dimensions, Contribution)
    ensures 0.0 <= s.score <= Total(s.dimensions, KnownCap) <= 100.0
  {
    var assessments := BuiltFrom(e, s);
    forall i | 0 <= i < |ORDER|
      ensures 0.0 <= s.dimensions[i].contribution <= KnownCap(s.dimensions[i])
              && Hundredths(s.dimensions[i].contribution)
    {
      DimensionIs(ORDER[i], assessments[i]);
      EarnedBounds(Cap(ORDER[i]), assessments[i].ratio);
    }
    SumBounds(s.dimensions);
    RoundNearest(Total(s.dimensions, Contribution));
    KnownCapsBound(s.dimensions, ORDER);
    CapsSumToHundred();
  }
}
