/** How the health score moves with its evidence: replacing evidence by better evidence never
    lowers a dimension or the sum, one more full success or failure moves its dimension the right
    way across the confidence threshold, and the rating, an average over what is known, may fall. */
module HealthMonotonicity {
  import opened Wrappers
  import opened Strings
  import opened Rounding
  import opened HealthScore
  import opened HealthTheorems

  // ---- Outcomes ----

  /** Up to ten events the discounted average is a tenth of the sum. */
  lemma {:induction false} FewOutcomes(events: seq<Outcome>)
    requires 0 < |events| <= FULL_OUTCOME_SAMPLE
    ensures OutcomeRatio(events) == Total(events, OutcomeValue) / 10.0
  {
    QuotientOfProduct(Total(events, OutcomeValue), |events| as real);
    TenthOf(Mean(events, OutcomeValue), |events| as real);
    assert Confidence(|events|) == |events| as real / 10.0;
  }

  lemma {:induction false} TenthOf(mean: real, n: real)
    ensures Scale(mean, n / 10.0) == Scale(mean, n) / 10.0
  {
  }

  /** From ten events on it is the average. */
  lemma {:induction false} ManyOutcomes(events: seq<Outcome>)
    requires |events| >= FULL_OUTCOME_SAMPLE
    ensures OutcomeRatio(events) == Mean(events, OutcomeValue)
  {
    ScaleUnits(Mean(events, OutcomeValue));
  }

  lemma {:induction false} TotalNext<T>(items: seq<T>, value: T -> real, item: T)
    ensures Total(items + [item], value) == Total(items, value) + value(item)
  {
    assert (items + [item])[..|items|] == items;
  }

  lemma {:induction false} MeanAfter<T>(items: seq<T>, value: T -> real, item: T)
    requires items != []
    ensures Mean(items + [item], value) == Quotient(Total(items, value) + value(item), |items| as real + 1.0)
  {
    TotalNext(items, value, item);
    assert |items + [item]| as real == |items| as real + 1.0;
  }

  lemma {:induction false} MeanDropsExactly<T>(items: seq<T>, value: T -> real, item: T)
    requires items != []
    ensures Mean(items + [item], value) < Mean(items, value)
            <==> Scale(value(item), |items| as real) < Total(items, value)
  {
    MeanAfter(items, value, item);
    AverageDropsExactly(Total(items, value), value(item), |items| as real);
  }

  lemma {:induction false} FewRise(events: seq<Outcome>, e: Outcome)
    requires 0 < |events| < FULL_OUTCOME_SAMPLE
    ensures OutcomeRatio(events + [e]) == OutcomeRatio(events) + OutcomeValue(e) / 10.0
  {
    FewOutcomes(events);
    FewOutcomes(events + [e]);
    TotalNext(events, OutcomeValue, e);
  }

  /** The sample is full and the outcome is worse than the average so far. */
  predicate DragsDown(events: seq<Outcome>, x: Outcome) {
    |events| >= FULL_OUTCOME_SAMPLE && OutcomeValue(x) < Mean(events, OutcomeValue)
  }

  /** Only then does one more outcome lower the ratio: below ten events even a disabling raises it. */
  lemma {:induction false} AddingLowersExactly(events: seq<Outcome>, x: Outcome)
    requires events != []
    ensures OutcomeRatio(events + [x]) < OutcomeRatio(events) <==> DragsDown(events, x)
  {
    if |events| < FULL_OUTCOME_SAMPLE {
      FewRise(events, x);
    } else {
      ManyOutcomes(events);
      ManyOutcomes(events + [x]);
      MeanDropsExactly(events, OutcomeValue, x);
      BelowAverageExactly(OutcomeValue(x), Total(events, OutcomeValue), |events| as real);
    }
  }

  lemma {:induction false} BelowAverageExactly(value: real, total: real, n: real)
    requires n > 0.0
    ensures value < Quotient(total, n) <==> Scale(value, n) < total
  {
    QuotientLeExactly(total, n, value, 1.0);
  }

  lemma {:induction false} RatioOrder(id: DimensionId, a: Assessment, b: Assessment)
    requires Fair(a) && Fair(b) && a.ratio <= b.ratio
    ensures MakeDimension(id, a).contribution <= MakeDimension(id, b).contribution
  {
    ScaleMonotone(Clamp(a.ratio), Clamp(b.ratio), Cap(id) as real);
    RoundMonotone(Scale(Cap(id) as real, Clamp(a.ratio)), Scale(Cap(id) as real, Clamp(b.ratio)));
  }

  function OutcomesOf(events: seq<Outcome>): Assessment {
    if events == [] then NOTHING else Assessment(OutcomeRatio(events), true)
  }

  lemma {:induction false} OutcomesOfFair(events: seq<Outcome>)
    ensures Fair(OutcomesOf(events))
  {
    if events != [] { OutcomeRatioBounds(events); }
  }

  /** Across the ten-event threshold too: only an outcome that drags the average down lowers the
      contribution, and a full failure never raises it. */
  lemma {:induction false} ContributionMoves(events: seq<Outcome>, x: Outcome)
    ensures var before := MakeDimension(LocalOutcomes, OutcomesOf(events)).contribution;
            var after := MakeDimension(LocalOutcomes, OutcomesOf(events + [x])).contribution;
            && (!DragsDown(events, x) ==> before <= after) && (OutcomeValue(x) == 0.0 ==> after <= before)
  {
    OutcomesOfFair(events);
    OutcomesOfFair(events + [x]);
    if !DragsDown(events, x) {
      if events != [] { AddingLowersExactly(events, x); }
      RatioOrder(LocalOutcomes, OutcomesOf(events), OutcomesOf(events + [x]));
    }
    if OutcomeValue(x) == 0.0 {
      FailureLowers(events, x);
      RatioOrder(LocalOutcomes, OutcomesOf(events + [x]), OutcomesOf(events));
    }
  }

  lemma {:induction false} SuccessDragsNothing(events: seq<Outcome>, x: Outcome)
    requires OutcomeValue(x) == 1.0
    ensures !DragsDown(events, x)
  {
    if events != [] { MeanBounds(events, OutcomeValue); }
  }

  lemma {:induction false} FailureLowers(events: seq<Outcome>, e: Outcome)
    requires OutcomeValue(e) == 0.0
    ensures OutcomesOf(events + [e]).ratio <= OutcomesOf(events).ratio
  {
    TotalNext(events, OutcomeValue, e);
    TotalBounds(events, OutcomeValue);
    if events == [] {
      FewOutcomes(events + [e]);
    } else if |events| < FULL_OUTCOME_SAMPLE {
      FewRise(events, e);
    } else {
      ManyOutcomes(events);
      ManyOutcomes(events + [e]);
      LargerDivisor(Total(events, OutcomeValue), |events| as real, |events + [e]| as real);
    }
  }

  // ---- One more outcome in the evidence of a score ----

  function Adding(e: Evidence, x: Outcome): Evidence {
    e.(outcomes := e.outcomes + [x])
  }

  lemma {:induction false} ScopedNext(events: seq<Outcome>, x: Outcome, agent: string)
    ensures Scoped(events + [x], agent)
            == if x.agent == agent then Scoped(events, agent) + [x] else Scoped(events, agent)
  {
    assert (events + [x])[..|events|] == events;
  }

  /** What is assessed are the outcomes of the scored agent, and nothing else looks at outcomes. */
  lemma {:induction false} AssessmentStays(e: Evidence, x: Outcome, id: DimensionId)
    requires id != LocalOutcomes || x.agent != e.agent
    ensures Assess(Adding(e, x), id) == Assess(e, id)
  {
    var f := Adding(e, x);
    assert f.agent == e.agent && f.packages == e.packages && f.drift == e.drift && f.duplicates == e.duplicates;
    assert f.activeSet == e.activeSet && f.compatibility == e.compatibility && f.recovery == e.recovery;
    match id
    case LocalOutcomes => ScopedNext(e.outcomes, x, e.agent);
    case _ =>
  }

  lemma {:induction false} OutcomesAssessed(e: Evidence)
    ensures Assess(e, LocalOutcomes).Ok? ==>
              Assess(e, LocalOutcomes).value == OutcomesOf(Scoped(e.outcomes, e.agent))
  {
  }

  lemma {:induction false} DimensionMoves(e: Evidence, x: Outcome, id: DimensionId, a: Assessment, b: Assessment)
    requires Assess(e, id) == Ok(a) && Assess(Adding(e, x), id) == Ok(b)
    ensures id != LocalOutcomes || x.agent != e.agent ==> a == b
    ensures !DragsDown(Scoped(e.outcomes, e.agent), x) ==>
              MakeDimension(id, a).contribution <= MakeDimension(id, b).contribution
    ensures OutcomeValue(x) == 0.0 ==> MakeDimension(id, b).contribution <= MakeDimension(id, a).contribution
  {
    if id != LocalOutcomes || x.agent != e.agent {
      AssessmentStays(e, x, id);
    } else {
      OutcomesAssessed(e);
      OutcomesAssessed(Adding(e, x));
      ScopedNext(e.outcomes, x, e.agent);
      ContributionMoves(Scoped(e.outcomes, e.agent), x);
    }
  }

  ghost predicate NoneLower(cs: seq<Dimension>, ds: seq<Dimension>) {
    |cs| == |ds| && forall i | 0 <= i < |cs| :: cs[i].contribution <= ds[i].contribution
  }

  lemma {:induction false} SumsMove(cs: seq<Dimension>, ds: seq<Dimension>)
    requires NoneLower(cs, ds)
    ensures ScoreOf(cs).score <= ScoreOf(ds).score
  {
    TotalMonotone(cs, ds, Contribution);
    RoundMonotone(Total(cs, Contribution), Total(ds, Contribution));
  }

  /** Adding an outcome to the evidence: another agent's leaves the whole score as it was; the
      agent's own lowers the score only if it is below the average of a full sample, which a full
      success never is; and a full failure never raises the score. */
  lemma {:induction false} SuccessAndFailure(e: Evidence, x: Outcome, s: Score, t: Score)
    requires Build(e) == Ok(s) && Build(Adding(e, x)) == Ok(t)
    ensures x.agent != e.agent ==> t == s
    ensures t.score < s.score ==> DragsDown(Scoped(e.outcomes, e.agent), x)
    ensures x.result.Accept? || x.result.Success? ==> s.score <= t.score
    ensures x.result.Reject? || x.result.Failure? || x.result.Rollback? ==> t.score <= s.score
  {
    OutcomeMoves(e, x, s, t);
  }

  lemma {:induction false} OutcomeMoves(e: Evidence, x: Outcome, s: Score, t: Score)
    requires Build(e) == Ok(s) && Build(Adding(e, x)) == Ok(t)
    ensures x.agent != e.agent ==> t == s
    ensures t.score < s.score ==> DragsDown(Scoped(e.outcomes, e.agent), x)
    ensures OutcomeValue(x) == 1.0 ==> s.score <= t.score
    ensures OutcomeValue(x) == 0.0 ==> t.score <= s.score
  {
    var events := Scoped(e.outcomes, e.agent);
    var as_ := BuiltFrom(e, s);
    var bs := BuiltFrom(Adding(e, x), t);
    forall i | 0 <= i < |ORDER|
      ensures x.agent != e.agent ==> as_[i] == bs[i]
      ensures !DragsDown(events, x) ==>
                MakeDimension(ORDER[i], as_[i]).contribution <= MakeDimension(ORDER[i], bs[i]).contribution
      ensures OutcomeValue(x) == 0.0 ==>
                MakeDimension(ORDER[i], bs[i]).contribution <= MakeDimension(ORDER[i], as_[i]).contribution
    {
      DimensionMoves(e, x, ORDER[i], as_[i], bs[i]);
    }
    if OutcomeValue(x) == 1.0 { SuccessDragsNothing(events, x); }
    if !DragsDown(events, x) { SumsMove(Dimensions(as_), Dimensions(bs)); }
    if OutcomeValue(x) == 0.0 { SumsMove(Dimensions(bs), Dimensions(as_)); }
    assert x.agent != e.agent ==> as_ == bs;
  }

  /** The longer evidence is accepted unless it repeats an id of the scored agent. */
  lemma {:induction false} AddingAcceptedExactly(e: Evidence, x: Outcome)
    requires Build(e).Ok?
    ensures Build(Adding(e, x)).Ok? <==> (x.agent == e.agent ==> x.id !in Ids(Scoped(e.outcomes, e.agent)))
  {
    BuiltExactly(e);
    BuiltExactly(Adding(e, x));
    OutcomesAccepted(e, x);
    forall id | id != LocalOutcomes ensures Assess(Adding(e, x), id).Ok? {
      AssessmentStays(e, x, id);
    }
  }

  lemma {:induction false} OutcomesAccepted(e: Evidence, x: Outcome)
    requires Assess(e, LocalOutcomes).Ok?
    ensures Assess(Adding(e, x), LocalOutcomes).Ok?
            <==> (x.agent == e.agent ==> x.id !in Ids(Scoped(e.outcomes, e.agent)))
  {
    ScopedNext(e.outcomes, x, e.agent);
    if x.agent == e.agent { UniqueNext(Scoped(e.outcomes, e.agent), x); }
  }

  lemma {:induction false} UniqueNext(events: seq<Outcome>, x: Outcome)
    requires events == [] || Unique(Ids(events))
    ensures Unique(Ids(events + [x])) <==> x.id !in Ids(events)
  {
    var ids, more := Ids(events), Ids(events + [x]);
    assert more == ids + [x.id];
    if x.id in ids {
      var i :| 0 <= i < |ids| && ids[i] == x.id;
      assert more[i] == more[|ids|];
    } else {
      forall i, j | 0 <= i < j < |more| ensures more[i] != more[j] {
        assert more[i] == ids[i];
      }
    }
  }

  lemma {:induction false} BuiltExactly(e: Evidence)
    ensures Build(e).Ok? <==> Invalid(e).None? && forall id :: Assess(e, id).Ok?
  {
    if Build(e).Ok? {
      forall id ensures Assess(e, id).Ok? {
        InOrder(id);
        var i :| 0 <= i < |ORDER| && ORDER[i] == id;
        assert Assessments(e)[i].Ok?;
      }
    }
  }

  lemma {:induction false} InOrder(id: DimensionId)
    ensures exists i :: 0 <= i < |ORDER| && ORDER[i] == id
  {
    match id
    case ProvenanceLicense => assert ORDER[0] == id;
    case StaticRisk => assert ORDER[1] == id;
    case ManagedDrift => assert ORDER[2] == id;
    case DuplicateSkills => assert ORDER[3] == id;
    case Staleness => assert ORDER[4] == id;
    case ActiveSetCapacity => assert ORDER[5] == id;
    case AgentCompatibility => assert ORDER[6] == id;
    case Benchmarks => assert ORDER[7] == id;
    case LocalOutcomes => assert ORDER[8] == id;
    case Recoverability => assert ORDER[9] == id;
  }

  // ---- Better evidence ----

  /** Verified before managed before the rest. */
  predicate NoLessTrusted(a: Option<Provenance>, b: Option<Provenance>) {
    b == Some(Verified) || (b == Some(Managed) && a != Some(Verified))
    || (a != Some(Verified) && a != Some(Managed))
  }

  /** Clear before a warning before the rest. */
  predicate NoRiskier(a: Option<Risk>, b: Option<Risk>) {
    b == Some(Clear) || (b == Some(Warning) && a != Some(Clear)) || (a != Some(Clear) && a != Some(Warning))
  }

  /** Fresh before aging before the rest. */
  predicate NoStaler(a: Option<Freshness>, b: Option<Freshness>) {
    b == Some(Fresh) || (b == Some(Aging) && a != Some(Fresh)) || (a != Some(Fresh) && a != Some(Aging))
  }

  /** Native before adapted before the rest. */
  predicate NoLessCompatible(a: Compatibility, b: Compatibility) {
    b.Native? || (b.Adapted? && !a.Native?) || a.Unsupported? || a.Unmapped?
  }

  /** Acceptance and success before activation before disabling before rejection, failure and rollback. */
  predicate NoWorse(a: OutcomeResult, b: OutcomeResult) {
    || b.Accept? || b.Success?
    || (b.Activation? && !a.Accept? && !a.Success?)
    || (b.Disable? && !a.Accept? && !a.Success? && !a.Activation?)
    || a.Reject? || a.Failure? || a.Rollback?
  }

  /** The points follow these orders. */
  lemma {:induction false} PointsFollow(p: Package, q: Package, c: Compatibility, d: Compatibility, x: Outcome,
                                        y: Outcome)
    ensures NoLessTrusted(p.provenance, q.provenance) <==> ProvenanceValue(p) <= ProvenanceValue(q)
    ensures NoRiskier(p.risk, q.risk) <==> RiskValue(p) <= RiskValue(q)
    ensures NoStaler(p.freshness, q.freshness) <==> FreshnessValue(p) <= FreshnessValue(q)
    ensures NoLessCompatible(c, d) <==> CompatibilityValue(c) <= CompatibilityValue(d)
    ensures NoWorse(x.result, y.result) <==> OutcomeValue(x) <= OutcomeValue(y)
  {
  }

  /** Dimension by dimension: nothing is withdrawn, and nothing gets worse. */
  ghost predicate BetterState(p: Package, q: Package) {
    && NoLessTrusted(p.provenance, q.provenance) && (AssertedLicense(p.license) ==> AssertedLicense(q.license))
    && NoRiskier(p.risk, q.risk) && (p.risk.Some? ==> q.risk.Some?)
    && NoStaler(p.freshness, q.freshness) && (p.freshness.Some? ==> q.freshness.Some?)
  }

  ghost predicate BetterStates(ps: seq<Package>, qs: seq<Package>) {
    |ps| == |qs| && forall i | 0 <= i < |ps| :: BetterState(ps[i], qs[i])
  }

  /** More runs pass and fewer fail; first runs all pass. */
  ghost predicate BetterRuns(p: Package, q: Package) {
    && (Assessed(p) ==> Assessed(q) && p.benchmark.value.passed <= q.benchmark.value.passed
                        && p.benchmark.value.failed >= q.benchmark.value.failed)
    && (!Assessed(p) && Assessed(q) ==> q.benchmark.value.failed == 0)
  }

  ghost predicate BetterPackages(ps: seq<Package>, qs: seq<Package>) {
    BetterStates(ps, qs) && forall i | 0 <= i < |ps| :: BetterRuns(ps[i], qs[i])
  }

  ghost predicate BetterDrift(a: Option<Drift>, b: Option<Drift>) {
    a.Some? ==>
      && b.Some?
      && var checked, drifted :=
           a.value.checkedFiles + a.value.checkedServers, a.value.driftedFiles + a.value.driftedServers;
         var checked', drifted' :=
           b.value.checkedFiles + b.value.checkedServers, b.value.driftedFiles + b.value.driftedServers;
         checked - drifted <= checked' - drifted' && drifted' <= drifted && (checked > 0 ==> checked' > 0)
  }

  ghost predicate BetterDuplicates(a: Option<Duplicates>, b: Option<Duplicates>) {
    a.Some? ==>
      && b.Some?
      && a.value.scanned - a.value.duplicates <= b.value.scanned - b.value.duplicates
      && b.value.duplicates <= a.value.duplicates && (a.value.scanned > 0 ==> b.value.scanned > 0)
  }

  ghost predicate BetterActiveSet(a: Option<ActiveSet>, b: Option<ActiveSet>) {
    a.Some? ==> b.Some? && b.value.active <= a.value.active && a.value.capacity <= b.value.capacity
  }

  ghost predicate BetterCompatibility(a: seq<Compatibility>, b: seq<Compatibility>) {
    a == [] || (|a| == |b| && forall i | 0 <= i < |a| :: NoLessCompatible(a[i], b[i]))
  }

  ghost predicate BetterOutcomes(a: seq<Outcome>, b: seq<Outcome>) {
    a == [] || (|a| == |b| && forall i | 0 <= i < |a| :: NoWorse(a[i].result, b[i].result))
  }

  ghost predicate BetterRecovery(a: Option<Recovery>, b: Option<Recovery>) {
    a.Some? ==>
      && b.Some?
      && a.value.recoverableMutations <= b.value.recoverableMutations
      && a.value.protectedMutations - a.value.recoverableMutations
         >= b.value.protectedMutations - b.value.recoverableMutations
      && a.value.readable <= b.value.readable && a.value.corrupt >= b.value.corrupt
      && a.value.pending >= b.value.pending
      && (KnownRecovery(a.value) ==> KnownRecovery(b.value))
  }

  predicate KnownRecovery(r: Recovery) {
    r.protectedMutations > 0 || r.readable + r.corrupt > 0 || r.pending > 0
  }

  ghost predicate Better(e: Evidence, f: Evidence) {
    && BetterPackages(e.packages, f.packages) && BetterDrift(e.drift, f.drift)
        && BetterDuplicates(e.duplicates, f.duplicates)
    && BetterActiveSet(e.activeSet, f.activeSet) && BetterCompatibility(e.compatibility, f.compatibility)
    && BetterOutcomes(Scoped(e.outcomes, e.agent), Scoped(f.outcomes, f.agent))
        && BetterRecovery(e.recovery, f.recovery)
  }

  // ---- Each dimension follows the evidence ----

  ghost predicate AtMost(a: Result<Assessment, HealthError>, b: Result<Assessment, HealthError>) {
    a.Ok? && b.Ok? ==> a.value.ratio <= b.value.ratio && (a.value.known ==> b.value.known)
  }

  lemma {:induction false} ProvenanceAtMost(ps: seq<Package>, qs: seq<Package>)
    requires BetterStates(ps, qs)
    ensures AtMost(Ok(ProvenanceAndLicense(ps)), Ok(ProvenanceAndLicense(qs)))
  {
    if ps != [] {
      forall i | 0 <= i < |ps| ensures PackageCredit(ps[i]) <= PackageCredit(qs[i]) {
        assert BetterState(ps[i], qs[i]);
      }
      MeanMonotone(ps, qs, PackageCredit);
    }
  }

  lemma {:induction false} RiskAtMost(ps: seq<Package>, qs: seq<Package>)
    requires BetterStates(ps, qs)
    ensures AtMost(AssessStaticRisk(ps), AssessStaticRisk(qs))
  {
    if ps != [] {
      forall i | 0 <= i < |ps| ensures RiskValue(ps[i]) <= RiskValue(qs[i]) { assert BetterState(ps[i], qs[i]); }
      MeanMonotone(ps, qs, RiskValue);
      if exists p | p in ps :: p.risk.Some? {
        var i :| 0 <= i < |ps| && ps[i].risk.Some?;
        assert qs[i] in qs && qs[i].risk.Some?;
      }
    }
  }

  lemma {:induction false} StalenessAtMost(ps: seq<Package>, qs: seq<Package>)
    requires BetterStates(ps, qs)
    ensures AtMost(AssessStaleness(ps), AssessStaleness(qs))
  {
    if ps != [] {
      forall i | 0 <= i < |ps| ensures FreshnessValue(ps[i]) <= FreshnessValue(qs[i]) {
        assert BetterState(ps[i], qs[i]);
      }
      MeanMonotone(ps, qs, FreshnessValue);
      if exists p | p in ps :: p.freshness.Some? {
        var i :| 0 <= i < |ps| && ps[i].freshness.Some?;
        assert qs[i] in qs && qs[i].freshness.Some?;
      }
    }
  }

  lemma {:induction false} RunsAtMost(ps: seq<Package>, qs: seq<Package>)
    requires BetterPackages(ps, qs) && AllRuns(ps).Ok? && AllRuns(qs).Ok?
    ensures var a, b := AllRuns(ps).value, AllRuns(qs).value;
            && a.assessed <= b.assessed && a.passed <= b.passed && a.failed >= b.failed
            && (a.assessed == 0 <==> a.passed + a.failed == 0) && (b.assessed == 0 <==> b.passed + b.failed == 0)
  {
    if ps != [] {
      var n := |ps| - 1;
      RunsAtMost(ps[..n], qs[..n]);
      assert BetterRuns(ps[n], qs[n]);
      assert BenchmarkError(ps[n]).None? && BenchmarkError(qs[n]).None?;
    }
  }

  lemma {:induction false} RunsOrder(a: Runs, b: Runs, n: nat)
    requires 0 < a.assessed <= b.assessed <= n && a.passed <= b.passed && a.failed >= b.failed
    requires a.passed + a.failed > 0 && b.passed + b.failed > 0
    ensures Scale(Quotient(a.assessed as real, n as real), PassRate(a))
            <= Scale(Quotient(b.assessed as real, n as real), PassRate(b))
  {
    var x, y := Quotient(a.assessed as real, n as real), Quotient(b.assessed as real, n as real);
    RunsFairRatio(a, n);
    QuotientOrder(a.assessed as real, b.assessed as real, n as real);
    ShareMonotone(a.passed as real, a.failed as real, b.passed as real, b.failed as real);
    assert PassRate(a) == Share(a.passed as real, a.failed as real)
           && PassRate(b) == Share(b.passed as real, b.failed as real);
    ProductMonotone(x, PassRate(a), y, PassRate(b));
  }

  lemma {:induction false} BenchmarksAtMost(ps: seq<Package>, qs: seq<Package>)
    requires BetterPackages(ps, qs)
    ensures AtMost(AssessBenchmarks(ps), AssessBenchmarks(qs))
  {
    if ps != [] && AssessBenchmarks(ps).Ok? && AssessBenchmarks(qs).Ok? {
      RunsAtMost(ps, qs);
      RunsFair(qs);
      if AllRuns(ps).value.assessed > 0 {
        RunsOrder(AllRuns(ps).value, AllRuns(qs).value, |ps|);
      }
    }
  }

  lemma {:induction false} CountsAtMost(e: Evidence, f: Evidence)
    requires Better(e, f)
    ensures AtMost(AssessDrift(e.drift), AssessDrift(f.drift))
            && AtMost(AssessDuplicates(e.duplicates), AssessDuplicates(f.duplicates))
  {
    CountsFair(f);
    if e.drift.Some? && AssessDrift(e.drift).Ok? && AssessDrift(f.drift).Ok? {
      var a, b := e.drift.value, f.drift.value;
      var bad, less := a.driftedFiles + a.driftedServers, b.driftedFiles + b.driftedServers;
      ShareMonotone((a.checkedFiles + a.checkedServers - bad) as real, bad as real,
                    (b.checkedFiles + b.checkedServers - less) as real, less as real);
    }
    if e.duplicates.Some? && AssessDuplicates(e.duplicates).Ok? && AssessDuplicates(f.duplicates).Ok? {
      var a, b := e.duplicates.value, f.duplicates.value;
      ShareMonotone((a.scanned - a.duplicates) as real, a.duplicates as real, (b.scanned - b.duplicates) as real,
                    b.duplicates as real);
    }
  }

  lemma {:induction false} CapacityAtMost(e: Evidence, f: Evidence)
    requires BetterActiveSet(e.activeSet, f.activeSet) && BetterCompatibility(e.compatibility, f.compatibility)
    ensures AtMost(AssessActiveSet(e.activeSet), AssessActiveSet(f.activeSet))
    ensures AtMost(Ok(AssessCompatibility(e.compatibility)), Ok(AssessCompatibility(f.compatibility)))
  {
    CountsFair(e);
    CountsFair(f);
    if e.activeSet.Some? && AssessActiveSet(e.activeSet).Ok? && AssessActiveSet(f.activeSet).Ok? {
      var a, b := e.activeSet.value, f.activeSet.value;
      if b.active > b.capacity {
        QuotientOrder(a.capacity as real, b.capacity as real, a.active as real);
        LargerDivisor(b.capacity as real, b.active as real, a.active as real);
      }
    }
    if e.compatibility != [] { MeanMonotone(e.compatibility, f.compatibility, CompatibilityValue); }
  }

  lemma {:induction false} OutcomeRatioOrder(a: seq<Outcome>, b: seq<Outcome>)
    requires a != [] && |a| == |b| && forall i | 0 <= i < |a| :: OutcomeValue(a[i]) <= OutcomeValue(b[i])
    ensures OutcomeRatio(a) <= OutcomeRatio(b)
  {
    TotalMonotone(a, b, OutcomeValue);
    if |a| <= FULL_OUTCOME_SAMPLE {
      FewOutcomes(a);
      FewOutcomes(b);
    } else {
      ManyOutcomes(a);
      ManyOutcomes(b);
      MeanMonotone(a, b, OutcomeValue);
    }
  }

  lemma {:induction false} OutcomesAtMost(e: Evidence, f: Evidence)
    requires BetterOutcomes(Scoped(e.outcomes, e.agent), Scoped(f.outcomes, f.agent))
    ensures AtMost(AssessOutcomes(e.agent, e.outcomes), AssessOutcomes(f.agent, f.outcomes))
  {
    var a, b := Scoped(e.outcomes, e.agent), Scoped(f.outcomes, f.agent);
    if a == [] {
      OutcomesFair(f.agent, f.outcomes);
    } else {
      OutcomeRatioOrder(a, b);
    }
  }

  lemma {:induction false} PartIsShare(good: int, all: int)
    requires 0 <= good <= all
    ensures Part(good, all) == Share(good as real, (all - good) as real)
  {
  }

  lemma {:induction false} PartOrder(good: int, all: int, better: int, more: int)
    requires 0 <= good <= all && good <= better <= more && more - better <= all - good
    ensures 0.0 <= Part(good, all) <= Part(better, more) <= 1.0
  {
    PartIsShare(good, all);
    PartIsShare(better, more);
    ShareMonotone(good as real, (all - good) as real, better as real, (more - better) as real);
  }

  lemma {:induction false} RecoveryRatioOrder(a: Recovery, b: Recovery)
    requires 0 <= a.recoverableMutations <= a.protectedMutations && 0 <= b.recoverableMutations <= b.protectedMutations
    requires 0 <= a.readable && 0 <= a.corrupt && 0 <= b.readable && 0 <= b.corrupt && 0 <= b.pending <= a.pending
    requires BetterRecovery(Some(a), Some(b))
    ensures RecoveryRatio(a) <= RecoveryRatio(b)
  {
    PartOrder(a.recoverableMutations, a.protectedMutations, b.recoverableMutations, b.protectedMutations);
    PartOrder(a.readable, a.readable + a.corrupt, b.readable, b.readable + b.corrupt);
    LargerDivisor(1.0, (1 + b.pending) as real, (1 + a.pending) as real);
    QuotientBounds(1.0, (1 + a.pending) as real);
    var x := Part(a.recoverableMutations, a.protectedMutations) * 0.6 + Part(a.readable, a.readable + a.corrupt) * 0.4;
    var y := Part(b.recoverableMutations, b.protectedMutations) * 0.6 + Part(b.readable, b.readable + b.corrupt) * 0.4;
    ProductMonotone(x, Quotient(1.0, (1 + a.pending) as real), y, Quotient(1.0, (1 + b.pending) as real));
  }

  lemma {:induction false} RecoveryAtMost(e: Evidence, f: Evidence)
    requires BetterRecovery(e.recovery, f.recovery)
    ensures AtMost(AssessRecovery(e.recovery), AssessRecovery(f.recovery))
  {
    RecoveryFair(f.recovery);
    if e.recovery.Some? && AssessRecovery(e.recovery).Ok? && AssessRecovery(f.recovery).Ok? {
      RecoveryRatioOrder(e.recovery.value, f.recovery.value);
    }
  }

  lemma {:induction false} AllAtMost(e: Evidence, f: Evidence, id: DimensionId)
    requires Better(e, f)
    ensures AtMost(Assess(e, id), Assess(f, id))
  {
    match id
    case ProvenanceLicense => ProvenanceAtMost(e.packages, f.packages);
    case StaticRisk => RiskAtMost(e.packages, f.packages);
    case ManagedDrift => CountsAtMost(e, f);
    case DuplicateSkills => CountsAtMost(e, f);
    case Staleness => StalenessAtMost(e.packages, f.packages);
    case ActiveSetCapacity => CapacityAtMost(e, f);
    case AgentCompatibility => CapacityAtMost(e, f);
    case Benchmarks => BenchmarksAtMost(e.packages, f.packages);
    case LocalOutcomes => OutcomesAtMost(e, f);
    case Recoverability => RecoveryAtMost(e, f);
  }

  // ---- The score and the rating ----

  lemma {:induction false} StatusOrder(id: DimensionId, a: Assessment, b: Assessment)
    requires Fair(a) && Fair(b) && a.ratio <= b.ratio && a.known && b.known
    ensures MakeDimension(id, a).status.Strong? ==> MakeDimension(id, b).status.Strong?
    ensures MakeDimension(id, b).status.Critical? ==> MakeDimension(id, a).status.Critical?
  {
    RatioOrder(id, a, b);
    QuotientOrder(MakeDimension(id, a).contribution, MakeDimension(id, b).contribution, Cap(id) as real);
  }

  /** One dimension under better evidence. */
  ghost predicate Rises(c: Dimension, d: Dimension) {
    && c.contribution <= d.contribution && (!c.status.Unknown? ==> !d.status.Unknown?)
    && (c.status.Strong? ==> d.status.Strong?)
    && (d.status.Critical? ==> c.status.Critical? || c.status.Unknown?)
  }

  /** Two sets of dimensions, one under better evidence than the other. */
  ghost predicate AllRise(cs: seq<Dimension>, ds: seq<Dimension>) {
    |cs| == |ds| && forall i | 0 <= i < |cs| :: Rises(cs[i], ds[i])
  }

  /** Better evidence: no contribution and no score is lower, and no known dimension has a
      lower status. */
  lemma {:induction false} BetterNeverLowers(e: Evidence, f: Evidence, s: Score, t: Score)
    requires Better(e, f) && Build(e) == Ok(s) && Build(f) == Ok(t)
    ensures AllRise(s.dimensions, t.dimensions) && s.score <= t.score
    ensures s.rating == RatingFor(s.score, KnownCount(s.dimensions), s.dimensions)
    ensures t.rating == RatingFor(t.score, KnownCount(t.dimensions), t.dimensions)
  {
    var as_ := BuiltFrom(e, s);
    var bs := BuiltFrom(f, t);
    forall i | 0 <= i < |ORDER| ensures Rises(MakeDimension(ORDER[i], as_[i]), MakeDimension(ORDER[i], bs[i])) {
      AllAtMost(e, f, ORDER[i]);
      OneRises(ORDER[i], as_[i], bs[i]);
    }
    TotalMonotone(s.dimensions, t.dimensions, Contribution);
    RoundMonotone(Total(s.dimensions, Contribution), Total(t.dimensions, Contribution));
  }

  lemma {:induction false} OneRises(id: DimensionId, a: Assessment, b: Assessment)
    requires Fair(a) && Fair(b) && a.ratio <= b.ratio && (a.known ==> b.known)
    ensures Rises(MakeDimension(id, a), MakeDimension(id, b))
  {
    DimensionIs(id, a);
    DimensionIs(id, b);
    RatioOrder(id, a, b);
    if a.known { StatusOrder(id, a, b); }
  }

  function Rank(r: Rating): nat {
    match r
    case Unrated => 0
    case CriticalRating => 1
    case AttentionRating => 2
    case Good => 3
    case Excellent => 4
  }

  lemma {:induction false} StrongStays(cs: seq<Dimension>, ds: seq<Dimension>)
    requires AllRise(cs, ds)
    ensures (forall d | d in cs :: d.status.Strong?) ==> forall d | d in ds :: d.status.Strong?
    ensures KnownCount(cs) > 0 ==> KnownCount(ds) > 0
  {
    if forall d | d in cs :: d.status.Strong? {
      forall d | d in ds ensures d.status.Strong? {
        var i :| 0 <= i < |ds| && ds[i] == d;
        assert Rises(cs[i], ds[i]) && cs[i] in cs;
      }
    }
    if KnownCount(cs) > 0 {
      var i :| 0 <= i < |cs| && !cs[i].status.Unknown?;
      assert Rises(cs[i], ds[i]);
    }
  }

  lemma {:induction false} NewlyCritical(cs: seq<Dimension>, ds: seq<Dimension>, i: nat)
    requires AllRise(cs, ds) && i < |cs| && ds[i].status.Critical? && forall d | d in cs :: !d.status.Critical?
    ensures cs[i].status.Unknown?
  {
    assert Rises(cs[i], ds[i]) && cs[i] in cs;
  }

  /** The rating is not monotone: better evidence lowers it exactly when it was good and a
      dimension is critical now, and every such dimension was unknown before. */
  lemma {:induction false} RatingDropsExactly(e: Evidence, f: Evidence, s: Score, t: Score)
    requires Better(e, f) && Build(e) == Ok(s) && Build(f) == Ok(t)
    ensures Rank(t.rating) < Rank(s.rating) <==> s.rating.Good? && exists d | d in t.dimensions :: d.status.Critical?
    ensures Rank(t.rating) < Rank(s.rating) ==>
              t.rating.AttentionRating? && |s.dimensions| == |t.dimensions| &&
              forall i | 0 <= i < |t.dimensions| && t.dimensions[i].status.Critical? :: s.dimensions[i].status.Unknown?
  {
    BetterNeverLowers(e, f, s, t);
    DropsExactly(s, t);
  }

  lemma {:induction false} DropsExactly(s: Score, t: Score)
    requires AllRise(s.dimensions, t.dimensions) && s.score <= t.score
    requires s.rating == RatingFor(s.score, KnownCount(s.dimensions), s.dimensions)
    requires t.rating == RatingFor(t.score, KnownCount(t.dimensions), t.dimensions)
    ensures Rank(t.rating) < Rank(s.rating) <==> s.rating.Good? && exists d | d in t.dimensions :: d.status.Critical?
    ensures Rank(t.rating) < Rank(s.rating) ==>
              t.rating.AttentionRating? &&
              forall i | 0 <= i < |t.dimensions| && t.dimensions[i].status.Critical? :: s.dimensions[i].status.Unknown?
  {
    StrongStays(s.dimensions, t.dimensions);
    if s.rating.Good? {
      forall i | 0 <= i < |t.dimensions| && t.dimensions[i].status.Critical? ensures s.dimensions[i].status.Unknown? {
        NewlyCritical(s.dimensions, t.dimensions, i);
      }
    }
  }

  // ---- An accepted outcome that costs the good rating ----

  lemma {:induction false} MeanOfOne<T>(x: T, value: T -> real)
    ensures Mean([x], value) == value(x)
  {
    assert [x][..0] == [];
    assert Total([x], value) == value(x);
    OneQuotient(value(x));
  }

  lemma {:induction false} OneQuotient(x: real)
    ensures Quotient(x, 1.0) == x
  {
  }

  lemma {:induction false} FullQuotient(n: real)
    requires n > 0.0
    ensures Quotient(n, n) == 1.0
  {
  }

  /** Full marks wherever anything is known; nothing known of outcomes and recoverability. */
  function Spotless(outcomes: seq<Outcome>): Evidence {
    Evidence("a",
             [Package("p", Some(Verified), Some("MIT"), Some(Clear), 0, Some(Fresh), None,
                      Some(Benchmark(1, 0, ["b"])))],
             Some(Drift(1, 0, 0, 0)), Some(Duplicates(1, 0, 0)), Some(ActiveSet(1, 1, 0, 0)), [Native], outcomes, None)
  }

  lemma {:induction false} Spelled(word: string)
    requires word == "MIT"
    ensures UpperCase(word) == "MIT"
  {
    assert word[..2] == "MI" && word[..2][..1] == "M" && word[..2][..1][..0] == "";
    assert UpperCase("M") == "M" && UpperCase("MI") == "MI";
  }

  lemma {:induction false} SpotlessLicense(p: Package)
    requires p == Spotless([]).packages[0]
    ensures ProvenanceAndLicense([p]) == Assessment(1.0, true)
  {
    assert Trim("MIT") == "MIT" && AssertedLicense(p.license) by { Spelled("MIT"); }
    MeanOfOne(p, PackageCredit);
  }

  lemma {:induction false} SpotlessRisk(p: Package)
    requires p == Spotless([]).packages[0]
    ensures AssessStaticRisk([p]) == Ok(Assessment(1.0, true)) && AssessStaleness([p]) == Ok(Assessment(1.0, true))
  {
    MeanOfOne(p, RiskValue);
    MeanOfOne(p, FreshnessValue);
    assert p in [p];
  }

  lemma {:induction false} SpotlessRuns(p: Package)
    requires p == Spotless([]).packages[0]
    ensures AllRuns([p]) == Ok(Runs(1, 1, 0, ["b"]))
  {
    assert [p][..0] == [];
    assert BenchmarkError(p).None? && Assessed(p) by {
      assert Trim("b") == "b";
      assert forall id | id in ["b"] :: id == "b";
    }
    assert [] + ["b"] == ["b"];
  }

  lemma {:induction false} SpotlessBenchmarks(p: Package)
    requires p == Spotless([]).packages[0]
    ensures AssessBenchmarks([p]) == Ok(Assessment(1.0, true))
  {
    SpotlessRuns(p);
    FullQuotient(1.0);
    ScaleUnits(1.0);
  }

  lemma {:induction false} SpotlessCounts(e: Evidence)
    requires e == Spotless(e.outcomes)
    ensures Assess(e, ManagedDrift) == Ok(Assessment(1.0, true))
    ensures Assess(e, DuplicateSkills) == Ok(Assessment(1.0, true))
    ensures Assess(e, ActiveSetCapacity) == Ok(Assessment(1.0, true))
    ensures Assess(e, AgentCompatibility) == Ok(Assessment(1.0, true))
  {
    FullQuotient(1.0);
    MeanOfOne(Native, CompatibilityValue);
  }

  /** Every dimension but the last two. */
  lemma {:induction false} SpotlessDimension(outcomes: seq<Outcome>, id: DimensionId)
    ensures id != LocalOutcomes && id != Recoverability ==> Assess(Spotless(outcomes), id) == Ok(Assessment(1.0, true))
    ensures Assess(Spotless(outcomes), Recoverability) == Ok(NOTHING)
  {
    var e := Spotless(outcomes);
    var p := e.packages[0];
    assert e.packages == [p];
    match id
    case ProvenanceLicense => SpotlessLicense(p);
    case StaticRisk => SpotlessRisk(p);
    case Staleness => SpotlessRisk(p);
    case Benchmarks => SpotlessBenchmarks(p);
    case LocalOutcomes =>
    case Recoverability =>
    case _ => SpotlessCounts(e);
  }

  lemma {:induction false} FullyEarned(cap: nat)
    requires cap > 0
    ensures Earned(cap, 1.0) == cap as real && StatusFor(cap as real, cap, true).Strong?
  {
    ScaleUnits(cap as real);
    WholeIsHundredths(cap);
    RoundNearest(cap as real);
    FullQuotient(cap as real);
  }

  lemma {:induction false} TotalStep(dimensions: seq<Dimension>, n: nat)
    requires 0 < n <= |dimensions|
    ensures Total(dimensions[..n], Contribution) == Total(dimensions[..n - 1], Contribution)
            + dimensions[n - 1].contribution
  {
    assert dimensions[..n][..n - 1] == dimensions[..n - 1];
  }

  lemma {:induction false} SumOfTen(d: seq<Dimension>)
    requires |d| == 10
    ensures Total(d, Contribution)
            == d[0].contribution + d[1].contribution + d[2].contribution + d[3].contribution + d[4].contribution
               + d[5].contribution + d[6].contribution + d[7].contribution + d[8].contribution + d[9].contribution
  {
    TotalStep(d, 1); TotalStep(d, 2); TotalStep(d, 3); TotalStep(d, 4); TotalStep(d, 5);
    TotalStep(d, 6); TotalStep(d, 7); TotalStep(d, 8); TotalStep(d, 9); TotalStep(d, 10);
    assert d[..10] == d;
  }

  lemma {:induction false} SpotlessBuild(outcomes: seq<Outcome>, last: Assessment) returns (s: Score)
    requires Assess(Spotless(outcomes), LocalOutcomes) == Ok(last)
    ensures Build(Spotless(outcomes)) == Ok(s) && |s.dimensions| == |ORDER| && s == ScoreOf(s.dimensions)
    ensures forall i | 0 <= i < |ORDER| ::
              s.dimensions[i]
              == MakeDimension(ORDER[i], if i < 8 then Assessment(1.0, true) else if i == 8 then last else NOTHING)
  {
    var e := Spotless(outcomes);
    assert Invalid(e).None? by { assert Trim("p") == "p"; }
    forall i | 0 <= i < |ORDER|
      ensures Assess(e, ORDER[i]) == Ok(if i < 8 then Assessment(1.0, true) else if i == 8 then last else NOTHING)
    {
      SpotlessDimension(outcomes, ORDER[i]);
    }
    s := Build(e).value;
  }

  lemma {:induction false} FullDimension(id: DimensionId)
    ensures var d := MakeDimension(id, Assessment(1.0, true)); d.contribution == CapValue(id) && d.status.Strong?
  {
    FullyEarned(Cap(id));
  }

  lemma {:induction false} EightyFourPoints(d: seq<Dimension>)
    requires |d| == 10 && forall i | 0 <= i < 8 :: d[i].contribution == CapValue(ORDER[i])
    ensures Total(d, Contribution) == 84.0 + d[8].contribution + d[9].contribution
  {
    SumOfTen(d);
    assert d[0].contribution == 14.0 && d[1].contribution == 12.0 && d[2].contribution == 14.0
           && d[3].contribution == 8.0;
    assert d[4].contribution == 8.0 && d[5].contribution == 10.0 && d[6].contribution == 10.0
           && d[7].contribution == 8.0;
  }

  /** Eight full dimensions come to 84 points at least. */
  lemma {:induction false} EightyFour(outcomes: seq<Outcome>, last: Assessment) returns (s: Score)
    requires Assess(Spotless(outcomes), LocalOutcomes) == Ok(last) && Fair(last)
    ensures Build(Spotless(outcomes)) == Ok(s) && |s.dimensions| == |ORDER|
    ensures s.score >= 84.0 && s.rating == RatingFor(s.score, KnownCount(s.dimensions), s.dimensions)
    ensures forall i | 0 <= i < 8 :: s.dimensions[i].status.Strong?
    ensures s.dimensions[8] == MakeDimension(LocalOutcomes, last) && s.dimensions[9].status.Unknown?
  {
    s := SpotlessBuild(outcomes, last);
    forall i | 0 <= i < 8 ensures s.dimensions[i].contribution == CapValue(ORDER[i]) && s.dimensions[i].status.Strong? {
      FullDimension(ORDER[i]);
    }
    DimensionIs(LocalOutcomes, last);
    DimensionIs(Recoverability, NOTHING);
    EarnedBounds(Cap(LocalOutcomes), last.ratio);
    EarnedBounds(Cap(Recoverability), NOTHING.ratio);
    EightyFourPoints(s.dimensions);
    WholeIsHundredths(84);
    RoundNearest(84.0);
    RoundMonotone(84.0, Total(s.dimensions, Contribution));
  }

  lemma {:induction false} RatedGood(s: Score)
    requires |s.dimensions| == 10 && s.score >= 84.0
             && s.rating == RatingFor(s.score, KnownCount(s.dimensions), s.dimensions)
    requires (forall i | 0 <= i < 8 :: s.dimensions[i].status.Strong?) && s.dimensions[8].status.Unknown?
             && s.dimensions[9].status.Unknown?
    ensures s.rating == Good
  {
    assert s.dimensions[9] in s.dimensions && !s.dimensions[0].status.Unknown?;
    forall d | d in s.dimensions ensures !d.status.Critical? {
      var i :| 0 <= i < 10 && s.dimensions[i] == d;
    }
  }

  lemma {:induction false} RatedAttention(s: Score)
    requires |s.dimensions| == 10 && s.score >= 84.0
             && s.rating == RatingFor(s.score, KnownCount(s.dimensions), s.dimensions)
    requires s.dimensions[0].status.Strong? && s.dimensions[8].status.Critical?
    ensures s.rating == AttentionRating
  {
    assert s.dimensions[8] in s.dimensions && !s.dimensions[0].status.Unknown?;
  }

  lemma {:induction false} OneAccepted(accepted: Outcome)
    requires accepted == Outcome("o", "a", Accept)
    ensures Assess(Spotless([accepted]), LocalOutcomes) == Ok(Assessment(0.1, true))
  {
    assert [accepted][..0] == [] && Scoped([accepted], "a") == [accepted];
    assert Total([accepted], OutcomeValue) == 1.0;
    FewOutcomes([accepted]);
  }

  /** One accepted outcome, recorded where nothing was known of outcomes, turns good into attention. */
  lemma {:induction false} AcceptedOutcomeCostsRating() returns (s: Score, t: Score)
    ensures Better(Spotless([]), Spotless([Outcome("o", "a", Accept)]))
    ensures Build(Spotless([])) == Ok(s) && s.rating == Good
    ensures Build(Spotless([Outcome("o", "a", Accept)])) == Ok(t) && t.rating == AttentionRating
  {
    OneIsBetter(Outcome("o", "a", Accept));
    OneAccepted(Outcome("o", "a", Accept));
    TenthIsCritical();
    s := EightyFour([], NOTHING);
    t := EightyFour([Outcome("o", "a", Accept)], Assessment(0.1, true));
    RatedGood(s);
    RatedAttention(t);
  }

  lemma {:induction false} OneIsBetter(accepted: Outcome)
    requires accepted.agent == "a" && accepted.result.Accept?
    ensures Better(Spotless([]), Spotless([accepted]))
  {
  }

  lemma {:induction false} TenthIsCritical()
    ensures MakeDimension(LocalOutcomes, Assessment(0.1, true)).status.Critical?
  {
    assert Scale(8.0, 0.1) == 0.8;
    RoundNearest(0.8);
    QuotientLeExactly(2.0, 5.0, 0.81, 8.0);
    QuotientOrder(Round(0.8), 0.81, 8.0);
  }
}
