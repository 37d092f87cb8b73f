/** Which evidence of an agent's health a score is built from. */
module HealthEvidence {
  import opened Wrappers
  import opened Strings
  import opened Rounding
  import opened HealthScore
  import opened HealthMonotonicity
  import opened HealthPoints

  // ---- Benchmark runs ----

  predicate HasRuns(p: Package) {
    p.benchmark.Some? && |p.benchmark.value.evidenceIds| > 0
    && (p.benchmark.value.passed != 0 || p.benchmark.value.failed != 0)
  }

  /** Counts of runs, and different evidence ids that are not blank. */
  predicate SoundRuns(b: Benchmark) {
    && Count(b.passed) && Count(b.failed)
    && (forall i | 0 <= i < |b.evidenceIds| :: Trim(b.evidenceIds[i]) != "")
    && forall i, j | 0 <= i < j < |b.evidenceIds| :: b.evidenceIds[i] != b.evidenceIds[j]
  }

  lemma {:induction false} SoundExactly(p: Package)
    ensures BenchmarkError(p).None? <==> (p.benchmark.Some? ==> SoundRuns(p.benchmark.value))
    ensures BenchmarkError(p).None? ==> (Assessed(p) <==> HasRuns(p))
  {
    if p.benchmark.Some? {
      var ids := p.benchmark.value.evidenceIds;
      if forall i | 0 <= i < |ids| :: Trim(ids[i]) != "" {
        forall id | id in ids ensures Trim(id) != "" { var i :| 0 <= i < |ids| && ids[i] == id; }
      }
    }
  }

  lemma {:induction false} RunsAccepted(packages: seq<Package>)
    ensures AllRuns(packages).Ok?
            <==> forall i | 0 <= i < |packages| && packages[i].benchmark.Some? :: SoundRuns(packages[i].benchmark.value)
  {
    if packages != [] {
      var init, last := packages[..|packages| - 1], packages[|packages| - 1];
      assert packages == init + [last];
      RunsAccepted(init);
      SoundExactly(last);
    }
  }

  function RanIds(p: Package): seq<string> {
    if HasRuns(p) then p.benchmark.value.evidenceIds else []
  }

  lemma {:induction false} RunsNext(init: seq<Package>, p: Package)
    requires AllRuns(init + [p]).Ok?
    ensures AllRuns(init).Ok?
    ensures AllRuns(init + [p]).value.ids == AllRuns(init).value.ids + RanIds(p)
    ensures AllRuns(init + [p]).value.assessed == AllRuns(init).value.assessed + if HasRuns(p) then 1 else 0
  {
    assert (init + [p])[..|init|] == init;
    SoundExactly(p);
  }

  lemma {:induction false} IdOfRuns(packages: seq<Package>, id: string)
    requires AllRuns(packages).Ok?
    ensures id in AllRuns(packages).value.ids <==> exists i | 0 <= i < |packages| :: id in RanIds(packages[i])
  {
    if packages != [] {
      var init, last := packages[..|packages| - 1], packages[|packages| - 1];
      assert packages == init + [last];
      RunsNext(init, last);
      IdOfRuns(init, id);
      if i :| 0 <= i < |init| && id in RanIds(init[i]) { assert packages[i] == init[i]; }
      assert packages[|init|] == last;
    }
  }

  lemma {:induction false} UniqueSum(a: seq<string>, b: seq<string>)
    ensures Unique(a + b) <==> Unique(a) && Unique(b) && forall x | x in a :: x !in b
  {
    var all := a + b;
    if Unique(a) && Unique(b) && forall x | x in a :: x !in b {
      forall i, j | 0 <= i < j < |all| ensures all[i] != all[j] {
        if i < |a| { assert all[i] in a && (j >= |a| ==> all[j] in b); }
      }
    }
    if Unique(all) {
      forall i, j | 0 <= i < j < |b| ensures b[i] != b[j] { assert all[|a| + i] != all[|a| + j]; }
      forall i, j | 0 <= i < j < |a| ensures a[i] != a[j] { assert all[i] != all[j]; }
      forall i, j | 0 <= i < |a| && 0 <= j < |b| ensures a[i] != b[j] { assert all[i] != all[|a| + j]; }
    }
  }

  /** No two packages have a run in common. */
  ghost predicate SeparateRuns(packages: seq<Package>) {
    forall i, j, id | 0 <= i < j < |packages| && id in RanIds(packages[i]) :: id !in RanIds(packages[j])
  }

  lemma {:induction false} SeparateNext(init: seq<Package>, p: Package)
    ensures SeparateRuns(init + [p])
            <==> SeparateRuns(init) && forall i, id | 0 <= i < |init| && id in RanIds(init[i]) :: id !in RanIds(p)
  {
    var all := init + [p];
    assert all[|init|] == p && forall i | 0 <= i < |init| :: all[i] == init[i];
    if SeparateRuns(all) {
      forall i, j, id | 0 <= i < j < |init| && id in RanIds(init[i]) ensures id !in RanIds(init[j]) {
        assert id in RanIds(all[i]);
      }
      forall i, id | 0 <= i < |init| && id in RanIds(init[i]) ensures id !in RanIds(p) {
        assert id in RanIds(all[i]) && RanIds(all[|init|]) == RanIds(p);
      }
    }
  }

  lemma {:induction false} UniqueRunIds(packages: seq<Package>)
    requires AllRuns(packages).Ok?
    ensures Unique(AllRuns(packages).value.ids) <==> SeparateRuns(packages)
  {
    if packages != [] {
      var init, last := packages[..|packages| - 1], packages[|packages| - 1];
      assert packages == init + [last];
      RunsNext(init, last);
      UniqueRunIds(init);
      RunsAccepted(packages);
      UniqueSum(AllRuns(init).value.ids, RanIds(last));
      SeparateNext(init, last);
      forall id { IdOfRuns(init, id); }
    }
  }

  /** Runs that are sound and that no two packages share. */
  ghost predicate RunsRecorded(packages: seq<Package>) {
    && SeparateRuns(packages)
    && forall i | 0 <= i < |packages| && packages[i].benchmark.Some? :: SoundRuns(packages[i].benchmark.value)
  }

  lemma {:induction false} BenchmarksAccepted(packages: seq<Package>)
    ensures AssessBenchmarks(packages).Ok? <==> RunsRecorded(packages)
  {
    RunsAccepted(packages);
    if AllRuns(packages).Ok? { UniqueRunIds(packages); }
  }

  /** The benchmarks of one package count if they have runs and evidence, by the share that passed. */
  lemma {:induction false} LoneBenchmark(p: Package)
    ensures AssessBenchmarks([p]).Ok? <==> (p.benchmark.Some? ==> SoundRuns(p.benchmark.value))
    ensures AssessBenchmarks([p]).Ok? ==>
              var a := AssessBenchmarks([p]).value;
              && (a.known <==> HasRuns(p))
              && (a.known ==> Scale(a.ratio, (p.benchmark.value.passed + p.benchmark.value.failed) as real)
                              == p.benchmark.value.passed as real)
              && (!a.known ==> a.ratio == 0.0)
  {
    assert [p][..0] == [] && AllRuns([]) == Ok(Runs(0, 0, 0, []));
    if p.benchmark.Some? && BenchmarkError(p).None? && Assessed(p) {
      var b := p.benchmark.value;
      assert AllRuns([p]) == Ok(Runs(1, b.passed, b.failed, [] + b.evidenceIds));
      assert [] + b.evidenceIds == b.evidenceIds;
      QuotientOfProduct(b.passed as real, (b.passed + b.failed) as real);
      WholeQuotient(PassRate(Runs(1, b.passed, b.failed, b.evidenceIds)));
    }
  }

  lemma {:induction false} WholeQuotient(x: real)
    ensures Scale(Quotient(1.0, 1.0), x) == x
  {
  }

  // ---- All of the evidence ----

  lemma {:induction false} ScansAccepted(packages: seq<Package>)
    ensures AssessStaticRisk(packages).Ok?
            <==> forall i | 0 <= i < |packages| && packages[i].risk.Some? :: Count(packages[i].findingCount)
    ensures AssessStaleness(packages).Ok?
            <==> forall i | 0 <= i < |packages| && packages[i].freshness.Some? && packages[i].ageDays.Some? ::
                   Count(packages[i].ageDays.value)
  {
    forall p | p in packages ensures exists i :: 0 <= i < |packages| && packages[i] == p {}
  }

  lemma {:induction false} IdOfScoped(agent: string, events: seq<Outcome>, id: string)
    ensures id in Ids(Scoped(events, agent))
            <==> exists i | 0 <= i < |events| :: events[i].agent == agent && events[i].id == id
  {
    if events != [] {
      var init, last := events[..|events| - 1], events[|events| - 1];
      IdOfScoped(agent, init, id);
      assert events == init + [last];
      assert Ids(Scoped(events, agent)) == Ids(Scoped(init, agent)) + if last.agent == agent then [last.id] else [];
      if i :| 0 <= i < |init| && init[i].agent == agent && init[i].id == id { assert events[i] == init[i]; }
      assert events[|init|] == last;
    }
  }

  /** No two outcomes of the agent have the same id. */
  ghost predicate SeparateOutcomes(agent: string, events: seq<Outcome>) {
    forall i, j | 0 <= i < j < |events| && events[i].agent == agent == events[j].agent :: events[i].id != events[j].id
  }

  lemma {:induction false} ScopedIds(agent: string, events: seq<Outcome>)
    ensures Unique(Ids(Scoped(events, agent))) <==> SeparateOutcomes(agent, events)
  {
    if events != [] {
      var init, last := events[..|events| - 1], events[|events| - 1];
      ScopedIds(agent, init);
      assert events == init + [last];
      var ids := Ids(Scoped(init, agent));
      assert Ids(Scoped(events, agent)) == ids + if last.agent == agent then [last.id] else [];
      UniqueSum(ids, if last.agent == agent then [last.id] else []);
      IdOfScoped(agent, init, last.id);
      assert forall i | 0 <= i < |init| :: events[i] == init[i];
    }
  }

  lemma {:induction false} OutcomeIdsAccepted(agent: string, events: seq<Outcome>)
    ensures AssessOutcomes(agent, events).Ok? <==> SeparateOutcomes(agent, events)
  {
    ScopedIds(agent, events);
  }

  ghost predicate Identified(packages: seq<Package>) {
    && (forall i | 0 <= i < |packages| :: Trim(packages[i].packageId) != "")
    && forall i, j | 0 <= i < j < |packages| :: packages[i].packageId != packages[j].packageId
  }

  lemma {:induction false} IdsAccepted(e: Evidence)
    ensures Invalid(e).None? <==> Identified(e.packages)
  {
    var ids := PackageIds(e.packages);
    forall p | p in e.packages ensures exists i :: 0 <= i < |e.packages| && e.packages[i] == p {}
    if Identified(e.packages) {
      forall i, j | 0 <= i < j < |ids| ensures ids[i] != ids[j] {
        assert ids[i] == e.packages[i].packageId && ids[j] == e.packages[j].packageId;
      }
    }
    if Unique(ids) {
      forall i, j | 0 <= i < j < |ids| ensures e.packages[i].packageId != e.packages[j].packageId {
        assert ids[i] != ids[j];
      }
    }
  }

  /** Counts in range, in every part of the evidence that is there, and no part larger than its whole. */
  ghost predicate Counted(e: Evidence) {
    && (forall i | 0 <= i < |e.packages| && e.packages[i].risk.Some? :: Count(e.packages[i].findingCount))
    && (forall i | 0 <= i < |e.packages| && e.packages[i].freshness.Some? && e.packages[i].ageDays.Some? ::
          Count(e.packages[i].ageDays.value))
    && (e.drift.Some? ==>
          var d := e.drift.value;
          && Count(d.checkedFiles) && Count(d.checkedServers) && Count(d.driftedFiles) && Count(d.driftedServers)
          && d.driftedFiles <= d.checkedFiles && d.driftedServers <= d.checkedServers)
    && (e.duplicates.Some? ==>
          var d := e.duplicates.value;
          && Count(d.scanned) && Count(d.groups) && Count(d.duplicates) && d.duplicates <= d.scanned
          && (d.groups > 0 <==> d.duplicates > 0))
    && (e.activeSet.Some? ==>
          var s := e.activeSet.value;
          Count(s.active) && Count(s.capacity) && Count(s.disabled) && Count(s.quarantined) && s.capacity > 0)
    && (e.recovery.Some? ==>
          var r := e.recovery.value;
          && Count(r.protectedMutations) && Count(r.recoverableMutations) && Count(r.readable) && Count(r.corrupt)
          && Count(r.pending) && r.recoverableMutations <= r.protectedMutations)
  }

  lemma {:induction false} CountsAccepted(e: Evidence)
    ensures Counted(e) <==> && Assess(e, StaticRisk).Ok? && Assess(e, Staleness).Ok? && Assess(e, ManagedDrift).Ok?
                            && Assess(e, DuplicateSkills).Ok? && Assess(e, ActiveSetCapacity).Ok?
                            && Assess(e, Recoverability).Ok?
  {
    ScansAccepted(e.packages);
    if e.drift.Some? { DriftExactly(e.drift.value); }
    if e.duplicates.Some? { DuplicatesExactly(e.duplicates.value); }
    if e.activeSet.Some? { ActiveSetExactly(e.activeSet.value); }
    if e.recovery.Some? { var u, v := RecoveryExactly(e.recovery.value); }
  }

  lemma {:induction false} AllAssessed(e: Evidence)
    ensures (forall id :: Assess(e, id).Ok?)
            <==> && Assess(e, StaticRisk).Ok? && Assess(e, Staleness).Ok? && Assess(e, ManagedDrift).Ok?
                 && Assess(e, DuplicateSkills).Ok? && Assess(e, ActiveSetCapacity).Ok? && Assess(e, Recoverability).Ok?
                 && Assess(e, Benchmarks).Ok? && Assess(e, LocalOutcomes).Ok?
  {
    if !forall id :: Assess(e, id).Ok? {
      var id :| Assess(e, id).Err?;
    }
  }

  /** A score is built exactly from evidence with package ids that are there and different, counts that
      are in range, benchmark runs that are recorded once, and outcomes of the agent recorded once. */
  lemma {:induction false} AcceptsExactly(e: Evidence)
    ensures Build(e).Ok? <==>
              Identified(e.packages) && Counted(e) && RunsRecorded(e.packages) && SeparateOutcomes(e.agent, e.outcomes)
  {
    BuiltExactly(e);
    AllAssessed(e);
    IdsAccepted(e);
    CountsAccepted(e);
    BenchmarksAccepted(e.packages);
    OutcomeIdsAccepted(e.agent, e.outcomes);
    assert Assess(e, Benchmarks).Ok? <==> AssessBenchmarks(e.packages).Ok?;
    assert Assess(e, LocalOutcomes).Ok? <==> AssessOutcomes(e.agent, e.outcomes).Ok?;
  }
}
