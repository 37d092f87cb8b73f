/** A package that is benchmarked for the first time: when that lowers the ratio of the benchmarks,
    by how much that moves the score, and evidence for which the score falls. */
module FirstRuns {
  import opened Wrappers
  import opened Strings
  import opened Rounding
  import opened HealthScore
  import opened HealthTheorems
  import opened HealthMonotonicity

  /** The package with its benchmark runs, none before. */
  function WithRuns(p: Package, b: Benchmark): Package {
    p.(benchmark := Some(b))
  }

  predicate FirstRunsOf(ps: seq<Package>, i: nat, b: Benchmark) {
    i < |ps| && !Assessed(ps[i]) && Assessed(WithRuns(ps[i], b))
  }

  function Gaining(e: Evidence, i: nat, b: Benchmark): Evidence
    requires i < |e.packages|
  {
    e.(packages := e.packages[i := WithRuns(e.packages[i], b)])
  }

  /** x of d is less than y of e. */
  predicate LessOf(x: int, d: int, y: int, e: int) {
    x * e < y * d
  }

  /** Coverage times pass rate before and after, compared by cross products: the new package adds
      one to the number of packages covered, and its runs to the pass rate. */
  predicate Drags(runs: Runs, b: Benchmark) {
    LessOf((runs.assessed + 1) * (runs.passed + b.passed), runs.passed + b.passed + runs.failed + b.failed,
           runs.assessed * runs.passed, runs.passed + runs.failed)
  }

  lemma {:induction false} RunsGained(ps: seq<Package>, i: nat, b: Benchmark)
    requires FirstRunsOf(ps, i, b)
    requires AllRuns(ps).Ok? && AllRuns(ps[i := WithRuns(ps[i], b)]).Ok?
    ensures b.passed >= 0 && b.failed >= 0 && b.passed + b.failed > 0
    ensures var old_, new_ := AllRuns(ps).value, AllRuns(ps[i := WithRuns(ps[i], b)]).value;
            && new_.assessed == old_.assessed + 1
            && new_.passed == old_.passed + b.passed && new_.failed == old_.failed + b.failed
  {
    var n, qs := |ps| - 1, ps[i := WithRuns(ps[i], b)];
    assert BenchmarkError(qs[n]).None?;
    if i == n {
      assert qs[..n] == ps[..n];
    } else {
      assert qs[..n] == ps[..n][i := WithRuns(ps[i], b)];
      RunsGained(ps[..n], i, b);
    }
  }

  function RatioOf(runs: Runs, n: nat): real
    requires n > 0
  {
    if runs.passed + runs.failed == 0 then 0.0
    else Scale(Quotient(runs.assessed as real, n as real), PassRate(runs))
  }

  lemma {:induction false} ProductOfQuotients(a: real, b: real, c: real, d: real)
    requires b > 0.0 && d > 0.0
    ensures b * d > 0.0 && Scale(Quotient(a, b), Quotient(c, d)) == Quotient(a * c, b * d)
  {
    var p, q := a / b, c / d;
    assert p * b == a && q * d == c;
    assert a * c == (p * q) * (b * d);
  }

  /** Cancelling the number of packages. */
  lemma {:induction false} CrossCompared(x: real, d: real, y: real, e: real, n: real)
    requires n > 0.0 && d > 0.0 && e > 0.0
    ensures Quotient(x, n * d) < Quotient(y, n * e) <==> x * e < y * d
  {
    QuotientLeExactly(y, n * e, x, n * d);
    var l, r := y * d, x * e;
    assert y * (n * d) == n * l && x * (n * e) == n * r;
    if l <= r { assert n * (r - l) >= 0.0; } else { assert n * (l - r) > 0.0; }
  }

  lemma {:induction false} ProductsCompared(a: real, p: real, d: real, a': real, p': real, e: real, n: real)
    requires n > 0.0 && d > 0.0 && e > 0.0
    ensures Scale(Quotient(a, n), Quotient(p, d)) < Scale(Quotient(a', n), Quotient(p', e))
            <==> (a * p) * e < (a' * p') * d
  {
    ProductOfQuotients(a, n, p, d);
    ProductOfQuotients(a', n, p', e);
    CrossCompared(a * p, d, a' * p', e, n);
  }

  lemma {:induction false} RealProduct(x: int, y: int)
    ensures x as real * y as real == (x * y) as real
  {
  }

  lemma {:induction false} WholeProducts(a: int, p: int, e: int, a': int, p': int, d: int)
    ensures (a as real * p as real) * e as real < (a' as real * p' as real) * d as real
            <==> LessOf(a * p, d, a' * p', e)
  {
    RealProduct(a, p);
    RealProduct(a', p');
    RealProduct(a * p, e);
    RealProduct(a' * p', d);
  }

  lemma {:induction false} RatiosCompared(a: Runs, c: Runs, n: nat)
    requires n > 0 && a.passed + a.failed > 0 && c.passed + c.failed > 0
    ensures RatioOf(c, n) < RatioOf(a, n)
            <==> LessOf(c.assessed * c.passed, c.passed + c.failed, a.assessed * a.passed, a.passed + a.failed)
  {
    var d, e := c.passed + c.failed, a.passed + a.failed;
    ProductsCompared(c.assessed as real, c.passed as real, d as real, a.assessed as real, a.passed as real, e as real,
                     n as real);
    WholeProducts(c.assessed, c.passed, e, a.assessed, a.passed, d);
  }

  lemma {:induction false} NothingToDrag(a: Runs, b: Benchmark)
    requires a.passed + a.failed == 0 && b.passed >= 0 && b.failed >= 0
    ensures !Drags(a, b)
  {
    var x := (a.assessed + 1) * (a.passed + b.passed);
    assert a.passed == 0 && x * 0 == 0 && a.assessed * 0 == 0;
  }

  lemma {:induction false} SameFraction(a: Runs, c: Runs, b: Benchmark)
    requires c.assessed == a.assessed + 1 && c.passed == a.passed + b.passed && c.failed == a.failed + b.failed
    ensures LessOf(c.assessed * c.passed, c.passed + c.failed, a.assessed * a.passed, a.passed + a.failed)
            <==> Drags(a, b)
  {
    var x, d := c.assessed * c.passed, c.passed + c.failed;
    assert x == (a.assessed + 1) * (a.passed + b.passed) && d == a.passed + b.passed + a.failed + b.failed;
  }

  lemma {:induction false} DragsExactly(a: Runs, c: Runs, b: Benchmark, n: nat)
    requires n > 0 && b.passed >= 0 && b.failed >= 0 && b.passed + b.failed > 0
    requires c.assessed == a.assessed + 1 && c.passed == a.passed + b.passed && c.failed == a.failed + b.failed
    requires c.assessed <= n
    ensures RatioOf(c, n) < RatioOf(a, n) <==> Drags(a, b)
  {
    if a.passed + a.failed == 0 {
      RunsFairRatio(c, n);
      NothingToDrag(a, b);
    } else {
      RatiosCompared(a, c, n);
      SameFraction(a, c, b);
    }
  }

  /** The ratio of the benchmark dimension falls exactly when the first runs drag it down. */
  lemma {:induction false} FirstRunsLowerExactly(ps: seq<Package>, i: nat, b: Benchmark)
    requires FirstRunsOf(ps, i, b)
    requires AssessBenchmarks(ps).Ok? && AssessBenchmarks(ps[i := WithRuns(ps[i], b)]).Ok?
    ensures AssessBenchmarks(ps[i := WithRuns(ps[i], b)]).value.ratio < AssessBenchmarks(ps).value.ratio
            <==> Drags(AllRuns(ps).value, b)
  {
    var qs := ps[i := WithRuns(ps[i], b)];
    RunsGained(ps, i, b);
    RunsFair(ps);
    RunsFair(qs);
    DragsExactly(AllRuns(ps).value, AllRuns(qs).value, b, |ps|);
  }

  // ---- The score ----

  lemma {:induction false} StatesStay(ps: seq<Package>, i: nat, b: Benchmark)
    requires i < |ps|
    ensures var qs := ps[i := WithRuns(ps[i], b)]; BetterStates(ps, qs) && BetterStates(qs, ps)
  {
  }

  /** No other dimension looks at benchmarks. */
  lemma {:induction false} OthersStay(e: Evidence, i: nat, b: Benchmark, id: DimensionId)
    requires i < |e.packages| && id != Benchmarks
    requires Assess(e, id).Ok? && Assess(Gaining(e, i, b), id).Ok?
    ensures Assess(Gaining(e, i, b), id) == Assess(e, id)
  {
    var ps, qs := e.packages, Gaining(e, i, b).packages;
    StatesStay(ps, i, b);
    match id
    case ProvenanceLicense =>
      ProvenanceAtMost(ps, qs);
      ProvenanceAtMost(qs, ps);
    case StaticRisk =>
      RiskAtMost(ps, qs);
      RiskAtMost(qs, ps);
    case Staleness =>
      StalenessAtMost(ps, qs);
      StalenessAtMost(qs, ps);
    case _ =>
  }

  lemma {:induction false} DimensionGains(e: Evidence, i: nat, b: Benchmark, id: DimensionId, x: Assessment,
                                          y: Assessment)
    requires FirstRunsOf(e.packages, i, b) && Assess(e, id) == Ok(x) && Assess(Gaining(e, i, b), id) == Ok(y)
    requires Fair(x) && Fair(y) && AllRuns(e.packages).Ok?
    ensures !Drags(AllRuns(e.packages).value, b) ==>
              MakeDimension(id, x).contribution <= MakeDimension(id, y).contribution
    ensures Drags(AllRuns(e.packages).value, b) ==>
              MakeDimension(id, y).contribution <= MakeDimension(id, x).contribution
  {
    if id == Benchmarks {
      FirstRunsLowerExactly(e.packages, i, b);
      if Drags(AllRuns(e.packages).value, b) { RatioOrder(id, y, x); } else { RatioOrder(id, x, y); }
    } else {
      OthersStay(e, i, b, id);
    }
  }

  lemma {:induction false} DimensionsGain(e: Evidence, i: nat, b: Benchmark, xs: seq<Assessment>, ys: seq<Assessment>)
    requires FirstRunsOf(e.packages, i, b) && AllRuns(e.packages).Ok? && |xs| == |ORDER| == |ys|
    requires forall k | 0 <= k < |ORDER| :: Assess(e, ORDER[k]) == Ok(xs[k]) && Fair(xs[k])
    requires forall k | 0 <= k < |ORDER| :: Assess(Gaining(e, i, b), ORDER[k]) == Ok(ys[k]) && Fair(ys[k])
    ensures if Drags(AllRuns(e.packages).value, b) then NoneLower(Dimensions(ys), Dimensions(xs))
            else NoneLower(Dimensions(xs), Dimensions(ys))
  {
    forall k | 0 <= k < |ORDER|
      ensures !Drags(AllRuns(e.packages).value, b) ==>
                Dimensions(xs)[k].contribution <= Dimensions(ys)[k].contribution
      ensures Drags(AllRuns(e.packages).value, b) ==>
                Dimensions(ys)[k].contribution <= Dimensions(xs)[k].contribution
    {
      DimensionGains(e, i, b, ORDER[k], xs[k], ys[k]);
    }
  }

  lemma {:induction false} RunsReadable(e: Evidence, s: Score)
    requires Build(e) == Ok(s) && e.packages != []
    ensures AllRuns(e.packages).Ok?
  {
    var xs := BuiltFrom(e, s);
    InOrder(Benchmarks);
    var k :| 0 <= k < |ORDER| && ORDER[k] == Benchmarks;
    assert Assess(e, ORDER[k]) == Ok(xs[k]);
  }

  /** First runs move the score no other way than they move the ratio of coverage and pass rate. */
  lemma {:induction false} FirstRunsMoveScore(e: Evidence, i: nat, b: Benchmark, s: Score, t: Score)
    requires FirstRunsOf(e.packages, i, b) && Build(e) == Ok(s) && Build(Gaining(e, i, b)) == Ok(t)
    ensures AllRuns(e.packages).Ok?
    ensures if Drags(AllRuns(e.packages).value, b) then t.score <= s.score else s.score <= t.score
  {
    RunsReadable(e, s);
    var xs := BuiltFrom(e, s);
    var ys := BuiltFrom(Gaining(e, i, b), t);
    DimensionsGain(e, i, b, xs, ys);
    if Drags(AllRuns(e.packages).value, b) {
      SumsMove(Dimensions(ys), Dimensions(xs));
    } else {
      SumsMove(Dimensions(xs), Dimensions(ys));
    }
  }

  lemma {:induction false} TotalDiffersAt(cs: seq<Dimension>, ds: seq<Dimension>, k: nat)
    requires |cs| == |ds| && k < |cs|
    requires forall i | 0 <= i < |cs| && i != k :: cs[i].contribution == ds[i].contribution
    ensures Total(ds, Contribution) - Total(cs, Contribution) == ds[k].contribution - cs[k].contribution
  {
    var n := |cs| - 1;
    if k < n {
      TotalDiffersAt(cs[..n], ds[..n], k);
    } else {
      TotalMonotone(cs[..n], ds[..n], Contribution);
      TotalMonotone(ds[..n], cs[..n], Contribution);
    }
  }

  /** What a set of packages contributes by its benchmarks. */
  function Earning(packages: seq<Package>): real {
    match AssessBenchmarks(packages)
    case Ok(a) => MakeDimension(Benchmarks, a).contribution
    case Err(_) => 0.0
  }

  /** The score moves by exactly as much as the benchmark contribution, rounding included. */
  lemma {:induction false} ScoreMovesExactly(e: Evidence, i: nat, b: Benchmark, s: Score, t: Score)
    requires FirstRunsOf(e.packages, i, b) && Build(e) == Ok(s) && Build(Gaining(e, i, b)) == Ok(t)
    ensures t.score - s.score == Earning(Gaining(e, i, b).packages) - Earning(e.packages)
  {
    var xs := BuiltFrom(e, s);
    var ys := BuiltFrom(Gaining(e, i, b), t);
    ScoreBounds(e, s);
    ScoreBounds(Gaining(e, i, b), t);
    assert ORDER[7] == Benchmarks;
    var cs, ds := Dimensions(xs), Dimensions(ys);
    forall k | 0 <= k < |cs| && k != 7 ensures cs[k].contribution == ds[k].contribution {
      OnlySeventh(k);
      OthersStay(e, i, b, ORDER[k]);
    }
    TotalDiffersAt(cs, ds, 7);
    BenchmarkEarning(e, xs[7]);
    BenchmarkEarning(Gaining(e, i, b), ys[7]);
  }

  lemma {:induction false} OnlySeventh(k: nat)
    requires k < |ORDER| && k != 7
    ensures ORDER[k] != Benchmarks
  {
  }

  lemma {:induction false} BenchmarkEarning(e: Evidence, a: Assessment)
    requires Assess(e, Benchmarks) == Ok(a)
    ensures Earning(e.packages) == MakeDimension(Benchmarks, a).contribution
  {
  }

  // ---- First runs that cost points ----

  function Unknown(id: string, benchmark: Option<Benchmark>): Package {
    Package(id, None, None, None, 0, None, None, benchmark)
  }

  function OnlyPackages(packages: seq<Package>): Evidence {
    Evidence("a", packages, None, None, None, [], [], None)
  }

  lemma {:induction false} PlainRuns(p: Package, b: Benchmark, id: string)
    requires p.benchmark == Some(b) && Count(b.passed) && Count(b.failed) && b.passed + b.failed > 0
    requires b.evidenceIds == [id] && Trim(id) != ""
    ensures BenchmarkError(p).None? && Assessed(p)
  {
  }

  lemma {:induction false} RunsOfOne(p: Package, b: Benchmark)
    requires p.benchmark == Some(b) && BenchmarkError(p).None? && Assessed(p)
    ensures AllRuns([p]) == Ok(Runs(1, b.passed, b.failed, b.evidenceIds))
  {
    assert [p][..0] == [] && [] + b.evidenceIds == b.evidenceIds;
  }

  lemma {:induction false} OnePassed(p: Package, q: Package)
    requires p.benchmark == Some(Benchmark(1, 0, ["b"])) && q.benchmark.None?
    ensures AllRuns([p, q]) == Ok(Runs(1, 1, 0, ["b"]))
  {
    assert Trim("b") == "b";
    PlainRuns(p, p.benchmark.value, "b");
    RunsOfOne(p, p.benchmark.value);
    assert [p, q][..1] == [p];
  }

  lemma {:induction false} ThreeFailed(p: Package, q: Package)
    requires p.benchmark == Some(Benchmark(1, 0, ["b"])) && q.benchmark == Some(Benchmark(0, 3, ["c"]))
    ensures AllRuns([p, q]) == Ok(Runs(2, 1, 3, ["b"] + ["c"])) && Assessed(q)
  {
    assert Trim("b") == "b" && Trim("c") == "c";
    PlainRuns(p, p.benchmark.value, "b");
    PlainRuns(q, q.benchmark.value, "c");
    RunsOfOne(p, p.benchmark.value);
    assert [p, q][..1] == [p];
  }

  lemma {:induction false} Earns(packages: seq<Package>, runs: Runs, ratio: real, points: int)
    requires |packages| == 2 && AllRuns(packages) == Ok(runs) && Unique(runs.ids) && runs.passed + runs.failed > 0
    requires Scale(Quotient(runs.assessed as real, 2.0), PassRate(runs)) == ratio && 0.0 <= ratio <= 1.0
    requires Scale(8.0, ratio) == points as real
    ensures AssessBenchmarks(packages) == Ok(Assessment(ratio, true)) && Earning(packages) == points as real
  {
    WholeIsHundredths(points);
    RoundNearest(points as real);
  }

  lemma {:induction false} HalfAndQuarter()
    ensures Scale(Quotient(1.0, 2.0), Quotient(1.0, 1.0)) == 0.5 && Scale(8.0, 0.5) == 4.0
    ensures Scale(Quotient(2.0, 2.0), Quotient(1.0, 4.0)) == 0.25 && Scale(8.0, 0.25) == 2.0
  {
  }

  lemma {:induction false} OnlyPackagesBuild(packages: seq<Package>)
    requires |packages| == 2 && packages[0].packageId == "p" && packages[1].packageId == "q"
    requires forall p | p in packages :: p.risk.None? && p.freshness.None?
    requires AssessBenchmarks(packages).Ok?
    ensures Build(OnlyPackages(packages)).Ok?
  {
    var e := OnlyPackages(packages);
    assert Trim("p") == "p" && Trim("q") == "q";
    BuiltExactly(e);
    forall id ensures Assess(e, id).Ok? {
    }
  }

  lemma {:induction false} EarnsFour(p: Package, q: Package)
    requires p.benchmark == Some(Benchmark(1, 0, ["b"])) && q.benchmark.None?
    ensures AssessBenchmarks([p, q]).Ok? && Earning([p, q]) == 4.0
  {
    OnePassed(p, q);
    HalfAndQuarter();
    Earns([p, q], Runs(1, 1, 0, ["b"]), 0.5, 4);
  }

  lemma {:induction false} EarnsTwo(p: Package, q: Package)
    requires p.benchmark == Some(Benchmark(1, 0, ["b"])) && q.benchmark == Some(Benchmark(0, 3, ["c"]))
    ensures AssessBenchmarks([p, q]).Ok? && Earning([p, q]) == 2.0 && Assessed(q)
  {
    ThreeFailed(p, q);
    HalfAndQuarter();
    Earns([p, q], Runs(2, 1, 3, ["b"] + ["c"]), 0.25, 2);
  }

  lemma {:induction false} GainsSecond(p: Package, q: Package, b: Benchmark)
    ensures Gaining(OnlyPackages([p, q]), 1, b) == OnlyPackages([p, WithRuns(q, b)])
  {
    assert [p, q][1 := WithRuns(q, b)] == [p, WithRuns(q, b)];
  }

  lemma {:induction false} TwoBuilt(p: Package, q: Package)
    requires p.packageId == "p" && q.packageId == "q"
    requires p.risk.None? && p.freshness.None? && q.risk.None? && q.freshness.None?
    requires AssessBenchmarks([p, q]).Ok?
    ensures Build(OnlyPackages([p, q])).Ok?
  {
    OnlyPackagesBuild([p, q]);
  }

  /** One package of two has a passing run; three failing first runs of the other cost two points. */
  lemma {:induction false} FirstRunsCostPoints(p: Package, q: Package, b: Benchmark) returns (s: Score, t: Score)
    requires p == Unknown("p", Some(Benchmark(1, 0, ["b"]))) && q == Unknown("q", None)
    requires b == Benchmark(0, 3, ["c"])
    ensures FirstRunsOf([p, q], 1, b) && Build(OnlyPackages([p, q])) == Ok(s)
    ensures Build(Gaining(OnlyPackages([p, q]), 1, b)) == Ok(t) && t.score == s.score - 2.0
  {
    EarnsFour(p, q);
    EarnsTwo(p, WithRuns(q, b));
    TwoBuilt(p, q);
    TwoBuilt(p, WithRuns(q, b));
    GainsSecond(p, q, b);
    s, t := Build(OnlyPackages([p, q])).value, Build(Gaining(OnlyPackages([p, q]), 1, b)).value;
    ScoreMovesExactly(OnlyPackages([p, q]), 1, b, s, t);
  }
}
