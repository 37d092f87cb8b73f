/** What single pieces of evidence are worth, and where the bands of status and rating lie. */
module HealthPoints {
  import opened Wrappers
  import opened Strings
  import opened Rounding
  import opened HealthScore
  import opened HealthTheorems
  import opened HealthMonotonicity

  // ---- Points ----

  function Points(id: DimensionId, a: Assessment): real {
    MakeDimension(id, a).contribution
  }

  /** A share of a cap that comes to whole hundredths is earned as it is. */
  lemma {:induction false} EarnedAsIs(id: DimensionId, a: Assessment, hundredths: int)
    requires 0.0 <= a.ratio <= 1.0 && Scale(Cap(id) as real, a.ratio) == Cents(hundredths)
    ensures Points(id, a) == Cents(hundredths)
  {
    RoundNearest(Cents(hundredths));
  }

  /** One outcome on record: acceptance or success earns 0.8 of the 8 points, activation 0.48, disabling
      0.2, and rejection, failure and rollback nothing. */
  lemma {:induction false} LoneOutcomePoints(x: Outcome)
    ensures Points(LocalOutcomes, OutcomesOf([x])) == match x.result
                                                      case Accept => 0.8
                                                      case Success => 0.8
                                                      case Activation => 0.48
                                                      case Disable => 0.2
                                                      case Reject => 0.0
                                                      case Failure => 0.0
                                                      case Rollback => 0.0
  {
    FewOutcomes([x]);
    OutcomesOfFair([x]);
    assert [x][..0] == [];
    assert Total([x], OutcomeValue) == OutcomeValue(x);
    EarnedAsIs(LocalOutcomes, OutcomesOf([x]),
               match x.result
               case Accept => 80
               case Success => 80
               case Activation => 48
               case Disable => 20
               case _ => 0);
  }

  /** One package: seven points for a verified source, half of them for a managed one, and seven for a
      license. */
  lemma {:induction false} LonePackagePoints(p: Package)
    ensures Points(ProvenanceLicense, ProvenanceAndLicense([p]))
            == (if p.provenance == Some(Verified) then 7.0 else if p.provenance == Some(Managed) then 3.5 else 0.0)
               + if AssertedLicense(p.license) then 7.0 else 0.0
  {
    MeanOfOne(p, PackageCredit);
    PackagesFair([p]);
    EarnedAsIs(ProvenanceLicense, ProvenanceAndLicense([p]),
               (if p.provenance == Some(Verified) then 700 else if p.provenance == Some(Managed) then 350 else 0)
               + if AssertedLicense(p.license) then 700 else 0);
  }

  /** A clear scan earns twelve, a warning six; a fresh source eight, an aging one four. */
  lemma {:induction false} LoneScanPoints(p: Package)
    requires p.risk.Some? ==> Count(p.findingCount)
    ensures AssessStaticRisk([p]).Ok? && AssessStaticRisk([p]).value.known == p.risk.Some?
    ensures Points(StaticRisk, AssessStaticRisk([p]).value)
            == if p.risk == Some(Clear) then 12.0 else if p.risk == Some(Warning) then 6.0 else 0.0
  {
    MeanOfOne(p, RiskValue);
    PackagesFair([p]);
    assert p in [p];
    EarnedAsIs(StaticRisk, AssessStaticRisk([p]).value,
               if p.risk == Some(Clear) then 1200 else if p.risk == Some(Warning) then 600 else 0);
  }

  lemma {:induction false} LoneSourcePoints(p: Package)
    requires p.freshness.Some? && p.ageDays.Some? ==> Count(p.ageDays.value)
    ensures AssessStaleness([p]).Ok? && AssessStaleness([p]).value.known == p.freshness.Some?
    ensures Points(Staleness, AssessStaleness([p]).value)
            == if p.freshness == Some(Fresh) then 8.0 else if p.freshness == Some(Aging) then 4.0 else 0.0
  {
    MeanOfOne(p, FreshnessValue);
    PackagesFair([p]);
    assert p in [p];
    EarnedAsIs(Staleness, AssessStaleness([p]).value,
               if p.freshness == Some(Fresh) then 800 else if p.freshness == Some(Aging) then 400 else 0);
  }

  /** A native component earns ten, an adapted one seven and a half, an unsupported or unmapped one nothing. */
  lemma {:induction false} LoneComponentPoints(c: Compatibility)
    ensures Points(AgentCompatibility, AssessCompatibility([c]))
            == if c.Native? then 10.0 else if c.Adapted? then 7.5 else 0.0
  {
    MeanOfOne(c, CompatibilityValue);
    EarnedAsIs(AgentCompatibility, AssessCompatibility([c]), if c.Native? then 1000 else if c.Adapted? then 750 else 0);
  }

  // ---- Licenses ----

  lemma {:induction false} CapitalsStay(s: string)
    requires forall i | 0 <= i < |s| :: 'A' <= s[i] <= 'Z'
    ensures UpperCase(s) == s
  {
    if s != "" {
      assert s == s[..|s| - 1] + [s[|s| - 1]];
      CapitalsStay(s[..|s| - 1]);
    }
  }

  lemma {:induction false} LowersRise(s: string)
    requires forall i | 0 <= i < |s| :: 'a' <= s[i] <= 'z'
    ensures |UpperCase(s)| == |s|
    ensures forall i | 0 <= i < |s| :: UpperCase(s)[i] as int == s[i] as int - 32
  {
    if s != "" { LowersRise(s[..|s| - 1]); }
  }

  lemma {:induction false} SmallRises(small: string, capital: string)
    requires |small| == |capital| && forall i | 0 <= i < |small| :: 'a' <= small[i] <= 'z'
    requires forall i | 0 <= i < |small| :: capital[i] as int == small[i] as int - 32
    ensures UpperCase(small) == capital
  {
    LowersRise(small);
  }

  lemma {:induction false} NoAssertionParts()
    ensures UpperCase("NOASSERTION") == "NOASSERTION" && UpperCase("noassertion") == "NOASSERTION"
  {
    CapitalsStay("NOASSERTION");
    SmallRises("noassertion", "NOASSERTION");
  }

  lemma {:induction false} UpperNext(s: string, c: char)
    ensures UpperCase(s + [c]) == UpperCase(s) + Upper(c)
  {
    assert (s + [c])[..|s|] == s;
  }

  /** Three small letters outside the alphabet have capitals in it: sharp s two, dotless i and long s one. */
  lemma {:induction false} SpecialCapitals(s: string)
    ensures UpperCase(s + ['\U{DF}']) == UpperCase(s) + "SS"
    ensures UpperCase(s + ['\U{131}']) == UpperCase(s) + "I"
    ensures UpperCase(s + ['\U{17F}']) == UpperCase(s) + "S"
  {
    UpperNext(s, '\U{DF}');
    UpperNext(s, '\U{131}');
    UpperNext(s, '\U{17F}');
  }

  /** No license, a blank one and NOASSERTION in any of these spellings count for nothing, MIT counts. */
  lemma {:induction false} LicensesThatCount()
    ensures !AssertedLicense(None) && !AssertedLicense(Some("")) && !AssertedLicense(Some(" "))
    ensures !AssertedLicense(Some("NOASSERTION")) && !AssertedLicense(Some("noassertion"))
    ensures AssertedLicense(Some("MIT"))
  {
    NoAssertionParts();
    NoAssertion("NOASSERTION");
    NoAssertion("noassertion");
    assert Trim(" ") == "";
    PlainLicense("MIT");
  }

  lemma {:induction false} NoAssertion(license: string)
    requires license != "" && Trimmed(license) && UpperCase(license) == "NOASSERTION"
    ensures !AssertedLicense(Some(license))
  {
    TrimmedStays(license);
  }

  lemma {:induction false} PlainLicense(license: string)
    requires license == "MIT"
    ensures AssertedLicense(Some(license))
  {
    Spelled(license);
    TrimmedStays(license);
  }

  // ---- Counted evidence ----

  /** Of so many checks this share was good. */
  ghost predicate IsShare(a: Assessment, good: int, all: int) {
    && (a.known <==> all > 0) && Scale(a.ratio, all as real) == good as real && (all == 0 ==> a.ratio == 0.0)
  }

  /** Counts are the integers that a double represents without gaps. */
  lemma {:induction false} CountsExactly(n: int)
    ensures Count(n) <==> n >= 0 && n < 0x20_0000_0000_0000
  {
  }

  lemma {:induction false} DriftExactly(d: Drift)
    ensures AssessDrift(Some(d)).Ok? <==>
              && Count(d.checkedFiles) && Count(d.checkedServers) && Count(d.driftedFiles) && Count(d.driftedServers)
              && d.driftedFiles <= d.checkedFiles && d.driftedServers <= d.checkedServers
    ensures AssessDrift(Some(d)).Ok? ==>
              IsShare(AssessDrift(Some(d)).value, d.checkedFiles - d.driftedFiles + d.checkedServers - d.driftedServers,
                      d.checkedFiles + d.checkedServers)
  {
    var checked, drifted := d.checkedFiles + d.checkedServers, d.driftedFiles + d.driftedServers;
    if AssessDrift(Some(d)).Ok? && checked > 0 { QuotientOfProduct((checked - drifted) as real, checked as real); }
  }

  lemma {:induction false} DuplicatesExactly(d: Duplicates)
    ensures AssessDuplicates(Some(d)).Ok? <==>
              && Count(d.scanned) && Count(d.groups) && Count(d.duplicates) && d.duplicates <= d.scanned
              && (d.groups > 0 <==> d.duplicates > 0)
    ensures AssessDuplicates(Some(d)).Ok? ==>
              IsShare(AssessDuplicates(Some(d)).value, d.scanned - d.duplicates, d.scanned)
  {
    if AssessDuplicates(Some(d)).Ok? && d.scanned > 0 {
      QuotientOfProduct((d.scanned - d.duplicates) as real, d.scanned as real);
    }
  }

  /** Within capacity in full, beyond it in proportion. */
  lemma {:induction false} ActiveSetExactly(s: ActiveSet)
    ensures AssessActiveSet(Some(s)).Ok? <==>
              Count(s.active) && Count(s.capacity) && Count(s.disabled) && Count(s.quarantined) && s.capacity > 0
    ensures AssessActiveSet(Some(s)).Ok? ==>
              && AssessActiveSet(Some(s)).value.known
              && (s.active <= s.capacity ==> AssessActiveSet(Some(s)).value.ratio == 1.0)
              && (s.active > s.capacity ==>
                    Scale(AssessActiveSet(Some(s)).value.ratio, s.active as real) == s.capacity as real)
  {
    if AssessActiveSet(Some(s)).Ok? && s.active > s.capacity {
      QuotientOfProduct(s.capacity as real, s.active as real);
    }
  }

  /** Three fifths for recoverable mutations, two fifths for readable snapshots, divided by one more than
      the transactions that are pending. */
  lemma {:induction false} RecoveryExactly(r: Recovery) returns (u: real, v: real)
    ensures AssessRecovery(Some(r)).Ok? <==>
              && Count(r.protectedMutations) && Count(r.recoverableMutations) && Count(r.readable) && Count(r.corrupt)
              && Count(r.pending) && r.recoverableMutations <= r.protectedMutations
    ensures AssessRecovery(Some(r)).Ok? ==>
              && (AssessRecovery(Some(r)).value.known
                  <==> r.protectedMutations > 0 || r.readable + r.corrupt > 0 || r.pending > 0)
              && Scale(AssessRecovery(Some(r)).value.ratio, (1 + r.pending) as real) == 0.6 * u + 0.4 * v
              && Scale(u, r.protectedMutations as real) == r.recoverableMutations as real
              && Scale(v, (r.readable + r.corrupt) as real) == r.readable as real
              && (r.protectedMutations == 0 ==> u == 0.0) && (r.readable + r.corrupt == 0 ==> v == 0.0)
  {
    u, v := 0.0, 0.0;
    if AssessRecovery(Some(r)).Ok? {
      u, v := Part(r.recoverableMutations, r.protectedMutations), Part(r.readable, r.readable + r.corrupt);
      PartExactly(r.recoverableMutations, r.protectedMutations);
      PartExactly(r.readable, r.readable + r.corrupt);
      DividedBack(u * 0.6 + v * 0.4, (1 + r.pending) as real);
    }
  }

  lemma {:induction false} PartExactly(good: int, all: int)
    requires 0 <= good <= all
    ensures Scale(Part(good, all), all as real) == good as real && (all == 0 ==> Part(good, all) == 0.0)
  {
    if all > 0 { QuotientOfProduct(good as real, all as real); }
  }

  lemma {:induction false} DividedBack(x: real, n: real)
    requires n > 0.0
    ensures Scale(Scale(x, Quotient(1.0, n)), n) == x
  {
    var q := 1.0 / n;
    assert q * n == 1.0;
    assert (x * q) * n == x * (q * n);
  }

  // ---- Bands ----

  /** Strong from four fifths of the cap, critical below two fifths, unknown without evidence. */
  lemma {:induction false} StatusBands(id: DimensionId, a: Assessment)
    ensures var d := MakeDimension(id, a);
            && (d.status.Unknown? <==> !a.known)
            && (d.status.Strong? <==> a.known && 5.0 * d.contribution >= 4.0 * Cap(id) as real)
            && (d.status.Critical? <==> a.known && 5.0 * d.contribution < 2.0 * Cap(id) as real)
  {
    var d := MakeDimension(id, a);
    QuotientLeExactly(4.0, 5.0, d.contribution, Cap(id) as real);
    QuotientLeExactly(2.0, 5.0, d.contribution, Cap(id) as real);
  }

  function KnownPlaces(dimensions: seq<Dimension>): set<int> {
    set i | 0 <= i < |dimensions| && !dimensions[i].status.Unknown?
  }

  lemma {:induction false} KnownAre(dimensions: seq<Dimension>)
    ensures KnownCount(dimensions) == |KnownPlaces(dimensions)|
  {
    if dimensions == [] {
      assert KnownPlaces(dimensions) == {};
    } else {
      var init, n := dimensions[..|dimensions| - 1], |dimensions| - 1;
      KnownAre(init);
      assert KnownPlaces(dimensions)
             == if dimensions[n].status.Unknown? then KnownPlaces(init) else KnownPlaces(init) + {n};
    }
  }

  /** How a score is rated: not at all without evidence, critical below forty, else not above attention
      with a critical dimension or below seventy, and excellent from ninety if all are strong. */
  lemma {:induction false} RatingBands(e: Evidence, s: Score)
    requires Build(e) == Ok(s)
    ensures s.rating.Unrated? <==> forall d | d in s.dimensions :: d.status.Unknown?
    ensures s.rating.CriticalRating? <==> !s.rating.Unrated? && s.score < 40.0
    ensures s.rating.Good? || s.rating.Excellent?
            <==> s.score >= 70.0 && !s.rating.Unrated? && forall d | d in s.dimensions :: !d.status.Critical?
    ensures s.rating.Excellent? <==> s.score >= 90.0 && forall d | d in s.dimensions :: d.status.Strong?
    ensures s.known == |KnownPlaces(s.dimensions)|
  {
    var xs := BuiltFrom(e, s);
    assert s == ScoreOf(Dimensions(xs)) && |s.dimensions| == |ORDER|;
    KnownAre(s.dimensions);
    BandOf(s.score, s.known, s.dimensions);
  }

  lemma {:induction false} BandOf(score: real, known: nat, dimensions: seq<Dimension>)
    requires known == KnownCount(dimensions) && dimensions != []
    ensures var rating := RatingFor(score, known, dimensions);
            && (rating.Unrated? <==> forall d | d in dimensions :: d.status.Unknown?)
            && (rating.CriticalRating? <==> !rating.Unrated? && score < 40.0)
            && (rating.Good? || rating.Excellent?
                <==> score >= 70.0 && !rating.Unrated? && forall d | d in dimensions :: !d.status.Critical?)
            && (rating.Excellent? <==> score >= 90.0 && forall d | d in dimensions :: d.status.Strong?)
  {
    if forall d | d in dimensions :: d.status.Unknown? {
      forall i | 0 <= i < |dimensions| ensures dimensions[i].status.Unknown? {
        assert dimensions[i] in dimensions;
      }
    }
    assert dimensions[0] in dimensions;
  }

  /** A tenth of a hundred per known dimension. */
  lemma {:induction false} CoverageExactly(e: Evidence, s: Score)
    requires Build(e) == Ok(s)
    ensures s.coverage == 10.0 * s.known as real
  {
    var xs := BuiltFrom(e, s);
    WholeIsHundredths(10 * s.known);
    RoundNearest(10.0 * s.known as real);
    TenthScaled(s.known as real);
  }

  lemma {:induction false} TenthScaled(x: real)
    ensures Quotient(x, 10.0) * 100.0 == 10.0 * x
  {
  }

  // ---- Rejected evidence ----

  lemma {:induction false} FirstErrorIs(results: seq<Result<Assessment, HealthError>>)
    ensures FirstError(results).Some? ==>
              exists i | 0 <= i < |results| ::
                results[i] == Err(FirstError(results).value) && forall j | 0 <= j < i :: results[j].Ok?
  {
    if results != [] {
      var init := results[..|results| - 1];
      FirstErrorIs(init);
      if FirstError(init).Some? {
        var i :| 0 <= i < |init| && init[i] == Err(FirstError(init).value) && forall j | 0 <= j < i :: init[j].Ok?;
        assert results[i] == init[i] && forall j | 0 <= j < i :: results[j] == init[j];
      } else if FirstError(results).Some? {
        assert forall j | 0 <= j < |init| :: results[j] == init[j];
      }
    }
  }

  /** The error is that of the package ids, or of the first dimension in order that rejects its evidence. */
  lemma {:induction false} FirstRejectionDecides(e: Evidence)
    requires Build(e).Err?
    ensures Invalid(e) == Some(Build(e).error)
            || (Invalid(e).None? &&
                exists i | 0 <= i < |ORDER| ::
                  Assess(e, ORDER[i]) == Err(Build(e).error) && forall j | 0 <= j < i :: Assess(e, ORDER[j]).Ok?)
  {
    if Invalid(e).None? {
      var results := Assessments(e);
      FirstErrorIs(results);
      var i :| 0 <= i < |results| && results[i] == Err(FirstError(results).value)
               && forall j | 0 <= j < i :: results[j].Ok?;
      assert Assess(e, ORDER[i]) == results[i];
      forall j | 0 <= j < i ensures Assess(e, ORDER[j]).Ok? { assert results[j].Ok?; }
    }
  }
}
