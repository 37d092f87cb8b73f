/** The agent health score: ten independently capped dimensions of stored evidence, in exact
    arithmetic. */
module HealthScore {
  import opened Wrappers
  import opened Strings
  import opened Rounding

  // ---- Evidence ----

  datatype Provenance = Verified | Managed | Unverified
  datatype Risk = Clear | Warning | Blocking
  datatype Freshness = Fresh | Aging | Stale
  datatype Compatibility = Native | Adapted | Unsupported | Unmapped
  datatype OutcomeResult = Accept | Success | Activation | Disable | Reject | Failure | Rollback

  datatype Benchmark = Benchmark(passed: int, failed: int, evidenceIds: seq<string>)

  datatype Package = Package(packageId: string, provenance: Option<Provenance>, license: Option<string>,
                             risk: Option<Risk>, findingCount: int,
                             freshness: Option<Freshness>, ageDays: Option<int>, benchmark: Option<Benchmark>)

  datatype Drift = Drift(checkedFiles: int, driftedFiles: int, checkedServers: int, driftedServers: int)
  datatype Duplicates = Duplicates(scanned: int, groups: int, duplicates: int)
  datatype ActiveSet = ActiveSet(active: int, capacity: int, disabled: int, quarantined: int)
  datatype Outcome = Outcome(id: string, agent: string, result: OutcomeResult)
  datatype Recovery = Recovery(protectedMutations: int, recoverableMutations: int, readable: int, corrupt: int,
                               pending: int)

  datatype Evidence = Evidence(agent: string, packages: seq<Package>, drift: Option<Drift>,
                               duplicates: Option<Duplicates>,
                               activeSet: Option<ActiveSet>, compatibility: seq<Compatibility>, outcomes: seq<Outcome>,
                               recovery: Option<Recovery>)

  datatype HealthError = BadCount | NotUnique | EmptyId | DriftExceedsChecked | DuplicatesExceedScanned
                       | GroupsDisagree | NoCapacity | RecoverableExceedsProtected

  const MAX_SAFE_INTEGER := 9_007_199_254_740_991

  predicate Count(value: int) {
    0 <= value <= MAX_SAFE_INTEGER
  }

  predicate Unique(values: seq<string>) {
    forall i, j | 0 <= i < j < |values| :: values[i] != values[j]
  }

  // ---- Dimensions ----

  datatype DimensionId = ProvenanceLicense | StaticRisk | ManagedDrift | DuplicateSkills | Staleness
                       | ActiveSetCapacity | AgentCompatibility | Benchmarks | LocalOutcomes | Recoverability

  const ORDER := [ProvenanceLicense, StaticRisk, ManagedDrift, DuplicateSkills, Staleness,
                  ActiveSetCapacity, AgentCompatibility, DimensionId.Benchmarks, LocalOutcomes, Recoverability]

  function Cap(id: DimensionId): nat {
    match id
    case ProvenanceLicense => 14
    case StaticRisk => 12
    case ManagedDrift => 14
    case DuplicateSkills => 8
    case Staleness => 8
    case ActiveSetCapacity => 10
    case AgentCompatibility => 10
    case Benchmarks => 8
    case LocalOutcomes => 8
    case Recoverability => 8
  }

  datatype Status = Unknown | Critical | Attention | Strong

  datatype Dimension = Dimension(id: DimensionId, contribution: real, status: Status)

  /** What one dimension finds: how much of its cap is earned, and whether there was anything to go by. */
  datatype Assessment = Assessment(ratio: real, known: bool)

  function Clamp(value: real): real {
    if value < 0.0 then 0.0 else if value > 1.0 then 1.0 else value
  }

  function StatusFor(contribution: real, cap: nat, known: bool): Status
    requires cap > 0
  {
    if !known then Unknown
    else if Quotient(contribution, cap as real) >= 0.8 then Strong
    else if Quotient(contribution, cap as real) >= 0.4 then Attention
    else Critical
  }

  function Earned(cap: nat, ratio: real): real {
    Round(Scale(cap as real, Clamp(ratio)))
  }

  function MakeDimension(id: DimensionId, a: Assessment): Dimension {
    var contribution := Earned(Cap(id), a.ratio);
    Dimension(id, contribution, StatusFor(contribution, Cap(id), a.known))
  }

  /** A share of the cap, and nothing where nothing is known. */
  ghost predicate Fair(a: Assessment) {
    0.0 <= a.ratio <= 1.0 && (!a.known ==> a.ratio == 0.0)
  }

  const NOTHING := Assessment(0.0, false)

  // ---- Sums over packages ----

  function Total<T>(items: seq<T>, value: T -> real): real {
    if items == [] then 0.0 else Total(items[..|items| - 1], value) + value(items[|items| - 1])
  }

  lemma {:induction false} TotalBounds<T>(items: seq<T>, value: T -> real)
    requires forall x: T :: 0.0 <= value(x) <= 1.0
    ensures 0.0 <= Total(items, value) <= |items| as real
  {
    if items != [] {
      TotalBounds(items[..|items| - 1], value);
    }
  }

  lemma {:induction false} TotalMonotone<T>(a: seq<T>, b: seq<T>, value: T -> real)
    requires |a| == |b| && forall i | 0 <= i < |a| :: value(a[i]) <= value(b[i])
    ensures Total(a, value) <= Total(b, value)
  {
    if a != [] {
      TotalMonotone(a[..|a| - 1], b[..|b| - 1], value);
    }
  }

  lemma {:induction false} TotalZero<T>(items: seq<T>, value: T -> real)
    requires forall i | 0 <= i < |items| :: value(items[i]) == 0.0
    ensures Total(items, value) == 0.0
  {
    if items != [] {
      TotalZero(items[..|items| - 1], value);
    }
  }

  function Mean<T>(items: seq<T>, value: T -> real): real
    requires items != []
  {
    Quotient(Total(items, value), |items| as real)
  }

  lemma {:induction false} MeanBounds<T>(items: seq<T>, value: T -> real)
    requires items != [] && forall x: T :: 0.0 <= value(x) <= 1.0
    ensures 0.0 <= Mean(items, value) <= 1.0
  {
    TotalBounds(items, value);
    QuotientBounds(Total(items, value), |items| as real);
  }

  lemma {:induction false} MeanMonotone<T>(a: seq<T>, b: seq<T>, value: T -> real)
    requires a != [] && |a| == |b| && forall i | 0 <= i < |a| :: value(a[i]) <= value(b[i])
    ensures Mean(a, value) <= Mean(b, value)
  {
    TotalMonotone(a, b, value);
    QuotientOrder(Total(a, value), Total(b, value), |a| as real);
  }

  // ---- Provenance and license ----

  /** The letters whose upper-case forms can spell NOASSERTION. */
  function Upper(c: char): string {
    if 'a' <= c <= 'z' then [(c as int - 'a' as int + 'A' as int) as char]
    else if c == '\U{DF}' then "SS"
    else if c == '\U{131}' then "I"
    else if c == '\U{17F}' then "S"
    else [c]
  }

  function UpperCase(s: string): string {
    if s == "" then "" else UpperCase(s[..|s| - 1]) + Upper(s[|s| - 1])
  }

  predicate AssertedLicense(license: Option<string>) {
    license.Some? && Trim(license.value) != "" && UpperCase(Trim(license.value)) != "NOASSERTION"
  }

  function ProvenanceValue(p: Package): real {
    match p.provenance
    case Some(Verified) => 1.0
    case Some(Managed) => 0.5
    case _ => 0.0
  }

  function LicenseValue(p: Package): real {
    if AssertedLicense(p.license) then 1.0 else 0.0
  }

  function PackageCredit(p: Package): real {
    (ProvenanceValue(p) + LicenseValue(p)) / 2.0
  }

  function ProvenanceAndLicense(packages: seq<Package>): Assessment {
    if packages == [] then NOTHING else Assessment(Mean(packages, PackageCredit), true)
  }

  // ---- Static risk and staleness ----

  function RiskValue(p: Package): real {
    match p.risk
    case Some(Clear) => 1.0
    case Some(Warning) => 0.5
    case _ => 0.0
  }

  function AssessStaticRisk(packages: seq<Package>): Result<Assessment, HealthError> {
    if packages == [] then Ok(NOTHING)
    else if exists p | p in packages :: p.risk.Some? && !Count(p.findingCount) then Err(BadCount)
    else Ok(Assessment(Mean(packages, RiskValue), exists p | p in packages :: p.risk.Some?))
  }

  function FreshnessValue(p: Package): real {
    match p.freshness
    case Some(Fresh) => 1.0
    case Some(Aging) => 0.5
    case _ => 0.0
  }

  function AssessStaleness(packages: seq<Package>): Result<Assessment, HealthError> {
    if packages == [] then Ok(NOTHING)
    else if exists p | p in packages :: p.freshness.Some? && p.ageDays.Some? && !Count(p.ageDays.value)
        then Err(BadCount)
    else Ok(Assessment(Mean(packages, FreshnessValue), exists p | p in packages :: p.freshness.Some?))
  }

  // ---- Counted evidence ----

  function AssessDrift(evidence: Option<Drift>): Result<Assessment, HealthError> {
    match evidence
    case None => Ok(NOTHING)
    case Some(d) =>
      if !Count(d.checkedFiles) || !Count(d.driftedFiles) || !Count(d.checkedServers) || !Count(d.driftedServers)
          then Err(BadCount)
      else if d.driftedFiles > d.checkedFiles || d.driftedServers > d.checkedServers then Err(DriftExceedsChecked)
      else
        var checked, drifted := d.checkedFiles + d.checkedServers, d.driftedFiles + d.driftedServers;
        Ok(Assessment(if checked == 0 then 0.0 else Quotient((checked - drifted) as real, checked as real),
                      checked > 0))
  }

  function AssessDuplicates(evidence: Option<Duplicates>): Result<Assessment, HealthError> {
    match evidence
    case None => Ok(NOTHING)
    case Some(d) =>
      if !Count(d.scanned) || !Count(d.groups) || !Count(d.duplicates) then Err(BadCount)
      else if d.duplicates > d.scanned then Err(DuplicatesExceedScanned)
      else if (d.groups == 0) != (d.duplicates == 0) then Err(GroupsDisagree)
      else
        Ok(Assessment(if d.scanned == 0 then 0.0 else Quotient((d.scanned - d.duplicates) as real, d.scanned as real),
                      d.scanned > 0))
  }

  function AssessActiveSet(evidence: Option<ActiveSet>): Result<Assessment, HealthError> {
    match evidence
    case None => Ok(NOTHING)
    case Some(a) =>
      if !Count(a.active) || !Count(a.capacity) || !Count(a.disabled) || !Count(a.quarantined) then Err(BadCount)
      else if a.capacity == 0 then Err(NoCapacity)
      else Ok(Assessment(if a.active <= a.capacity then 1.0 else Quotient(a.capacity as real, a.active as real), true))
  }

  function CompatibilityValue(c: Compatibility): real {
    match c
    case Native => 1.0
    case Adapted => 0.75
    case Unsupported => 0.0
    case Unmapped => 0.0
  }

  function AssessCompatibility(evidence: seq<Compatibility>): Assessment {
    if evidence == [] then NOTHING else Assessment(Mean(evidence, CompatibilityValue), true)
  }

  // ---- Benchmarks ----

  datatype Runs = Runs(assessed: nat, passed: nat, failed: nat, ids: seq<string>)

  predicate Assessed(p: Package) {
    p.benchmark.Some? && p.benchmark.value.passed + p.benchmark.value.failed != 0 && p.benchmark.value.evidenceIds != []
  }

  function BenchmarkError(p: Package): Option<HealthError> {
    match p.benchmark
    case None => None
    case Some(b) =>
      if !Count(b.passed) || !Count(b.failed) then Some(BadCount)
      else if !Unique(b.evidenceIds) then Some(NotUnique)
      else if exists id | id in b.evidenceIds :: Trim(id) == "" then Some(EmptyId)
      else None
  }

  function AllRuns(packages: seq<Package>): Result<Runs, HealthError> {
    if packages == [] then Ok(Runs(0, 0, 0, []))
    else
      match AllRuns(packages[..|packages| - 1])
      case Err(error) => Err(error)
      case Ok(runs) =>
        var p := packages[|packages| - 1];
        match BenchmarkError(p)
        case Some(error) => Err(error)
        case None =>
          if !Assessed(p) then Ok(runs)
          else
            Ok(Runs(runs.assessed + 1, runs.passed + p.benchmark.value.passed, runs.failed + p.benchmark.value.failed,
                    runs.ids + p.benchmark.value.evidenceIds))
  }

  function PassRate(runs: Runs): real
    requires runs.passed + runs.failed > 0
  {
    Quotient(runs.passed as real, (runs.passed + runs.failed) as real)
  }

  /** Coverage of the packages times the pass rate of the runs. */
  function RunsAssessment(runs: Runs, n: nat): Result<Assessment, HealthError>
    requires n > 0
  {
    if !Unique(runs.ids) then Err(NotUnique)
    else if runs.passed + runs.failed == 0 then Ok(NOTHING)
    else
      Ok(Assessment(Scale(Quotient(runs.assessed as real, n as real), PassRate(runs)), true))
  }

  function AssessBenchmarks(packages: seq<Package>): Result<Assessment, HealthError> {
    if packages == [] then Ok(NOTHING)
    else
      match AllRuns(packages)
      case Err(error) => Err(error)
      case Ok(runs) => RunsAssessment(runs, |packages|)
  }

  /** The loop of benchmarks. */
  method CollectRuns(packages: seq<Package>) returns (r: Result<Runs, HealthError>)
    ensures r == AllRuns(packages)
  {
    var assessed, passed, failed, ids := 0, 0, 0, [];
    for i := 0 to |packages|
      invariant assessed >= 0 && passed >= 0 && failed >= 0
      invariant AllRuns(packages[..i]) == Ok(Runs(assessed, passed, failed, ids))
    {
      var item := packages[i];
      assert packages[..i + 1][..i] == packages[..i];
      if item.benchmark.None? { continue; }
      var b := item.benchmark.value;
      var bad := BenchmarkError(item);
      if bad.Some? {
        RunErrorStays(packages, i + 1);
        return Err(bad.value);
      }
      if b.passed + b.failed == 0 || b.evidenceIds == [] { continue; }
      assessed, passed, failed, ids := assessed + 1, passed + b.passed, failed + b.failed, ids + b.evidenceIds;
    }
    assert packages[..|packages|] == packages;
    return Ok(Runs(assessed, passed, failed, ids));
  }

  lemma {:induction false} RunErrorStays(packages: seq<Package>, n: nat)
    requires n <= |packages| && AllRuns(packages[..n]).Err?
    ensures AllRuns(packages) == AllRuns(packages[..n])
    decreases |packages| - n
  {
    if n < |packages| {
      assert packages[..n + 1][..n] == packages[..n];
      RunErrorStays(packages, n + 1);
    } else {
      assert packages[..n] == packages;
    }
  }

  // ---- Outcomes ----

  const FULL_OUTCOME_SAMPLE := 10

  function OutcomeValue(e: Outcome): real {
    match e.result
    case Accept => 1.0
    case Success => 1.0
    case Activation => 0.6
    case Disable => 0.25
    case Reject => 0.0
    case Failure => 0.0
    case Rollback => 0.0
  }

  function Scoped(events: seq<Outcome>, agent: string): seq<Outcome> {
    if events == [] then []
    else Scoped(events[..|events| - 1], agent) + if events[|events| - 1].agent == agent then [events[|events| - 1]]
        else []
  }

  function Ids(events: seq<Outcome>): seq<string> {
    seq(|events|, i requires 0 <= i < |events| => events[i].id)
  }

  function Confidence(n: nat): real {
    var sample := n as real / FULL_OUTCOME_SAMPLE as real;
    if sample < 1.0 then sample else 1.0
  }

  /** Average quality, discounted while there are fewer than ten events. */
  function OutcomeRatio(events: seq<Outcome>): real
    requires events != []
  {
    Scale(Mean(events, OutcomeValue), Confidence(|events|))
  }

  function AssessOutcomes(agent: string, evidence: seq<Outcome>): Result<Assessment, HealthError> {
    var events := Scoped(evidence, agent);
    if events == [] then Ok(NOTHING)
    else if !Unique(Ids(events)) then Err(NotUnique)
    else Ok(Assessment(OutcomeRatio(events), true))
  }

  // ---- Recoverability ----

  function Part(good: int, all: int): real {
    if all == 0 then 0.0 else Quotient(good as real, all as real)
  }

  function RecoveryRatio(r: Recovery): real
    requires r.pending >= 0
  {
    Scale(Part(r.recoverableMutations, r.protectedMutations) * 0.6 + Part(r.readable, r.readable + r.corrupt) * 0.4,
          Quotient(1.0, (1 + r.pending) as real))
  }

  function AssessRecovery(evidence: Option<Recovery>): Result<Assessment, HealthError> {
    match evidence
    case None => Ok(NOTHING)
    case Some(r) =>
      if !Count(r.protectedMutations) || !Count(r.recoverableMutations) || !Count(r.readable) || !Count(r.corrupt)
          || !Count(r.pending) then Err(BadCount)
      else if r.recoverableMutations > r.protectedMutations then Err(RecoverableExceedsProtected)
      else Ok(Assessment(RecoveryRatio(r), r.protectedMutations > 0 || r.readable + r.corrupt > 0 || r.pending > 0))
  }

  // ---- The score ----

  datatype Rating = Unrated | CriticalRating | AttentionRating | Good | Excellent

  datatype Score = Score(score: real, rating: Rating, coverage: real, known: nat, dimensions: seq<Dimension>)

  function PackageIds(packages: seq<Package>): seq<string> {
    seq(|packages|, i requires 0 <= i < |packages| => packages[i].packageId)
  }

  function Invalid(e: Evidence): Option<HealthError> {
    if !Unique(PackageIds(e.packages)) then Some(NotUnique)
    else if exists p | p in e.packages :: Trim(p.packageId) == "" then Some(EmptyId)
    else None
  }

  function Assess(e: Evidence, id: DimensionId): Result<Assessment, HealthError> {
    match id
    case ProvenanceLicense => Ok(ProvenanceAndLicense(e.packages))
    case StaticRisk => AssessStaticRisk(e.packages)
    case ManagedDrift => AssessDrift(e.drift)
    case DuplicateSkills => AssessDuplicates(e.duplicates)
    case Staleness => AssessStaleness(e.packages)
    case ActiveSetCapacity => AssessActiveSet(e.activeSet)
    case AgentCompatibility => Ok(AssessCompatibility(e.compatibility))
    case Benchmarks => AssessBenchmarks(e.packages)
    case LocalOutcomes => AssessOutcomes(e.agent, e.outcomes)
    case Recoverability => AssessRecovery(e.recovery)
  }

  /** The ten dimensions in order; the first that rejects its evidence decides. */
  function Assessments(e: Evidence): (results: seq<Result<Assessment, HealthError>>)
    ensures |results| == |ORDER| && forall i | 0 <= i < |ORDER| :: results[i] == Assess(e, ORDER[i])
  {
    seq(|ORDER|, i requires 0 <= i < |ORDER| => Assess(e, ORDER[i]))
  }

  function FirstError(results: seq<Result<Assessment, HealthError>>): (error: Option<HealthError>)
    ensures error.None? <==> forall i | 0 <= i < |results| :: results[i].Ok?
  {
    if results == [] then None
    else
      match FirstError(results[..|results| - 1])
      case Some(error) => Some(error)
      case None =>
        match results[|results| - 1]
        case Err(error) => Some(error)
        case Ok(_) => None
  }

  function KnownCount(dimensions: seq<Dimension>): (n: nat)
    ensures n <= |dimensions|
    ensures n == 0 <==> forall i | 0 <= i < |dimensions| :: dimensions[i].status.Unknown?
  {
    if dimensions == [] then 0
    else KnownCount(dimensions[..|dimensions| - 1]) + if dimensions[|dimensions| - 1].status.Unknown? then 0 else 1
  }

  function Contribution(d: Dimension): real {
    d.contribution
  }

  function RatingFor(score: real, known: nat, dimensions: seq<Dimension>): Rating {
    if known == 0 then Unrated
    else if score < 40.0 then CriticalRating
    else if exists d | d in dimensions :: d.status.Critical? then AttentionRating
    else if score >= 90.0 && forall d | d in dimensions :: d.status.Strong? then Excellent
    else if score >= 70.0 then Good
    else AttentionRating
  }

  function Dimensions(assessments: seq<Assessment>): (dimensions: seq<Dimension>)
    requires |assessments| == |ORDER|
    ensures |dimensions| == |ORDER|
    ensures forall i | 0 <= i < |ORDER| :: dimensions[i] == MakeDimension(ORDER[i], assessments[i])
  {
    seq(|ORDER|, i requires 0 <= i < |ORDER| => MakeDimension(ORDER[i], assessments[i]))
  }

  function ScoreOf(dimensions: seq<Dimension>): Score {
    var known, score := KnownCount(dimensions), Round(Total(dimensions, Contribution));
    Score(score, RatingFor(score, known, dimensions),
          if dimensions == [] then 0.0 else Round(Quotient(known as real, |dimensions| as real) * 100.0), known,
              dimensions)
  }

  /** buildAgentHealthScore. */
  function Build(e: Evidence): Result<Score, HealthError> {
    match Invalid(e)
    case Some(error) => Err(error)
    case None =>
      var results := Assessments(e);
      match FirstError(results)
      case Some(error) => Err(error)
      case None =>
        Ok(ScoreOf(Dimensions(seq(|ORDER|, i requires 0 <= i < |ORDER| => results[i].value))))
  }
}
