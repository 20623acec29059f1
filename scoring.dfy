/**
 * The parcel scorer: factor normalisation, the flood zero-out gate and the
 * weighted, normalised mean of the factors that carry a positive weight.
 *
 * Weights are the slider values (integers); the score is an exact real.
 */
module Scoring {

  /** One parcel of the static parcel table (coordinates left out). */
  datatype Parcel = Parcel(
    city: string,
    powerDist: int,
    fiberDist: int,
    waterAccess: int,
    highwayAccess: int,
    railAccess: int,
    solarPotential: int,
    windPotential: int,
    floodZone: bool,
    historicalContamination: int,
    councilSentiment: int)

  /** The ten labelled factors, in the order the scorer visits them. */
  datatype Factor =
    | Power | Fiber | Water | Highway | Rail | SolarGhi | Wind
    | LowFloodExposure | CleanHistory | CouncilSentiment

  const Factors: seq<Factor> :=
    [Power, Fiber, Water, Highway, Rail, SolarGhi, Wind, LowFloodExposure, CleanHistory, CouncilSentiment]

  /** The factor's display label, the key of the contributions map. */
  function Label(f: Factor): string {
    match f
    case Power => "Power"
    case Fiber => "Fiber"
    case Water => "Water"
    case Highway => "Highway"
    case Rail => "Rail"
    case SolarGhi => "Solar GHI"
    case Wind => "Wind"
    case LowFloodExposure => "Low Flood Exposure"
    case CleanHistory => "Clean History"
    case CouncilSentiment => "Council Sentiment"
  }

  /** The slider weight key each factor label is mapped to. */
  function WeightKey(f: Factor): string {
    match f
    case Power => "power"
    case Fiber => "fiber"
    case Water => "water"
    case Highway => "highway"
    case Rail => "rail"
    case SolarGhi => "solar"
    case Wind => "wind"
    case LowFloodExposure => "flood_risk"
    case CleanHistory => "sentiment"
    case CouncilSentiment => "sentiment"
  }

  /** The flood-exposure factor: full marks off a flood zone, else 100 - 10 * slider, floored at 0. */
  function FloodExposure(floodZone: bool, floodRiskSlider: int): int {
    if !floodZone then 100
    else if 100 - 10 * floodRiskSlider < 0 then 0
    else 100 - 10 * floodRiskSlider
  }

  /** The normalised value of one factor of a parcel. */
  function FactorValue(p: Parcel, floodRiskSlider: int, f: Factor): int {
    match f
    case Power => p.powerDist
    case Fiber => p.fiberDist
    case Water => p.waterAccess
    case Highway => p.highwayAccess
    case Rail => p.railAccess
    case SolarGhi => p.solarPotential
    case Wind => p.windPotential
    case LowFloodExposure => FloodExposure(p.floodZone, floodRiskSlider)
    case CleanHistory => 100 - p.historicalContamination
    case CouncilSentiment => p.councilSentiment
  }

  /** `weights.get(key, 0.0)`. */
  function Weight(weights: map<string, int>, key: string): int {
    if key in weights then weights[key] else 0
  }

  /** The weight the scorer applies to a factor. */
  function FactorWeight(weights: map<string, int>, f: Factor): int {
    Weight(weights, WeightKey(f))
  }

  /** The hard veto: a very flood-averse user and a parcel in a flood zone. */
  predicate GateFires(p: Parcel, floodRiskSlider: int) {
    floodRiskSlider >= 7 && p.floodZone
  }

  /** One factor's share of the weighted sum. */
  function Term(p: Parcel, weights: map<string, int>, floodRiskSlider: int, f: Factor): int {
    var w := FactorWeight(weights, f);
    if w <= 0 then 0 else FactorValue(p, floodRiskSlider, f) * w
  }

  /** One factor's share of the total weight. */
  function WeightTerm(weights: map<string, int>, f: Factor): int {
    var w := FactorWeight(weights, f);
    if w <= 0 then 0 else w * 100
  }

  /*
   * The loop's three accumulators after visiting the factors `fs`, defined
   * by recursion on the last factor visited.
   */

  function WeightedSum(p: Parcel, weights: map<string, int>, floodRiskSlider: int, fs: seq<Factor>): int {
    if fs == [] then 0
    else WeightedSum(p, weights, floodRiskSlider, fs[..|fs| - 1]) + Term(p, weights, floodRiskSlider, fs[|fs| - 1])
  }

  function TotalWeight(weights: map<string, int>, fs: seq<Factor>): int {
    if fs == [] then 0
    else TotalWeight(weights, fs[..|fs| - 1]) + WeightTerm(weights, fs[|fs| - 1])
  }

  function Contributions(p: Parcel, weights: map<string, int>, floodRiskSlider: int, fs: seq<Factor>): map<string, int> {
    if fs == [] then map[]
    else
      var f := fs[|fs| - 1];
      var w := FactorWeight(weights, f);
      var c := Contributions(p, weights, floodRiskSlider, fs[..|fs| - 1]);
      if w <= 0 then c else c[Label(f) := FactorValue(p, floodRiskSlider, f) * w]
  }

  datatype ScoreResult = ScoreResult(score: real, contributions: map<string, int>)

  /** What `compute_parcel_score` returns. */
  function ParcelScore(p: Parcel, weights: map<string, int>, floodRiskSlider: int): ScoreResult {
    if GateFires(p, floodRiskSlider) then ScoreResult(0.0, map[])
    else
      var total := TotalWeight(weights, Factors);
      var contributions := Contributions(p, weights, floodRiskSlider, Factors);
      if total == 0 then ScoreResult(0.0, contributions)
      else ScoreResult(100.0 * WeightedSum(p, weights, floodRiskSlider, Factors) as real / total as real, contributions)
  }

  /** `compute_parcel_score`: the gate, then one pass over the ten factors. */
  method ComputeParcelScore(p: Parcel, weights: map<string, int>, floodRiskSlider: int)
    returns (score: real, contributions: map<string, int>)
    ensures ScoreResult(score, contributions) == ParcelScore(p, weights, floodRiskSlider)
  {
    if floodRiskSlider >= 7 && p.floodZone {
      return 0.0, map[];
    }
    var weightedSum, totalWeight;
    weightedSum, totalWeight, contributions := AccumulateFactors(p, weights, floodRiskSlider);
    if totalWeight == 0 {
      return 0.0, contributions;
    }
    score := 100.0 * weightedSum as real / totalWeight as real;
  }

  /** The loop of `compute_parcel_score` over the labelled factors, skipping those without a positive weight. */
  method AccumulateFactors(p: Parcel, weights: map<string, int>, floodRiskSlider: int)
    returns (weightedSum: int, totalWeight: int, contributions: map<string, int>)
    ensures weightedSum == WeightedSum(p, weights, floodRiskSlider, Factors)
    ensures totalWeight == TotalWeight(weights, Factors)
    ensures contributions == Contributions(p, weights, floodRiskSlider, Factors)
  {
    weightedSum := 0;
    totalWeight := 0;
    contributions := map[];
    for i := 0 to |Factors|
      invariant && weightedSum == WeightedSum(p, weights, floodRiskSlider, Factors[..i])
                && totalWeight == TotalWeight(weights, Factors[..i])
                && contributions == Contributions(p, weights, floodRiskSlider, Factors[..i])
    {
      var f := Factors[i];
      var raw := FactorValue(p, floodRiskSlider, f);
      var key := WeightKey(f);
      var w := if key in weights then weights[key] else 0;
      PassStep(p, weights, floodRiskSlider, i);
      if w <= 0 {
        continue;
      }
      var contribution := raw * w;
      weightedSum := weightedSum + contribution;
      totalWeight := totalWeight + w * 100;
      contributions := contributions[Label(f) := contribution];
    }
    assert Factors[..|Factors|] == Factors;
  }

  /** What one iteration of the scorer's loop adds to the three accumulators. */
  lemma PassStep(p: Parcel, weights: map<string, int>, floodRiskSlider: int, i: nat)
    requires i < |Factors|
    ensures var f, fs := Factors[i], Factors[..i];
      var raw, w := FactorValue(p, floodRiskSlider, f), FactorWeight(weights, f);
      && WeightedSum(p, weights, floodRiskSlider, Factors[..i + 1]) ==
           WeightedSum(p, weights, floodRiskSlider, fs) + (if w <= 0 then 0 else raw * w)
      && TotalWeight(weights, Factors[..i + 1]) == TotalWeight(weights, fs) + (if w <= 0 then 0 else w * 100)
      && Contributions(p, weights, floodRiskSlider, Factors[..i + 1]) ==
           (if w <= 0 then Contributions(p, weights, floodRiskSlider, fs)
            else Contributions(p, weights, floodRiskSlider, fs)[Label(f) := raw * w])
  {
    assert Factors[..i + 1] == Factors[..i] + [Factors[i]];
    WeightedSumSnoc(p, weights, floodRiskSlider, Factors[..i], Factors[i]);
    TotalWeightSnoc(weights, Factors[..i], Factors[i]);
    ContributionsSnoc(p, weights, floodRiskSlider, Factors[..i], Factors[i]);
  }

  /* ---------------- Properties of the scorer ---------------- */

  lemma WeightedSumSnoc(p: Parcel, weights: map<string, int>, floodRiskSlider: int, fs: seq<Factor>, g: Factor)
    ensures WeightedSum(p, weights, floodRiskSlider, fs + [g]) ==
      WeightedSum(p, weights, floodRiskSlider, fs) + Term(p, weights, floodRiskSlider, g)
  {
    assert (fs + [g])[..|fs|] == fs;
  }

  lemma ContributionsSnoc(p: Parcel, weights: map<string, int>, floodRiskSlider: int, fs: seq<Factor>, g: Factor)
    ensures Contributions(p, weights, floodRiskSlider, fs + [g]) ==
      var c := Contributions(p, weights, floodRiskSlider, fs);
      if FactorWeight(weights, g) <= 0 then c else c[Label(g) := FactorValue(p, floodRiskSlider, g) * FactorWeight(weights, g)]
  {
    assert (fs + [g])[..|fs|] == fs;
  }

  lemma TotalWeightSnoc(weights: map<string, int>, fs: seq<Factor>, g: Factor)
    ensures TotalWeight(weights, fs + [g]) == TotalWeight(weights, fs) + WeightTerm(weights, g)
  {
    assert (fs + [g])[..|fs|] == fs;
  }

  /** The weighted sum over the ten factors, written out term by term. */
  lemma WeightedSumWrittenOut(p: Parcel, weights: map<string, int>, floodRiskSlider: int)
    ensures WeightedSum(p, weights, floodRiskSlider, Factors) ==
      Term(p, weights, floodRiskSlider, Power) + Term(p, weights, floodRiskSlider, Fiber)
      + Term(p, weights, floodRiskSlider, Water) + Term(p, weights, floodRiskSlider, Highway)
      + Term(p, weights, floodRiskSlider, Rail) + Term(p, weights, floodRiskSlider, SolarGhi)
      + Term(p, weights, floodRiskSlider, Wind) + Term(p, weights, floodRiskSlider, LowFloodExposure)
      + Term(p, weights, floodRiskSlider, CleanHistory) + Term(p, weights, floodRiskSlider, CouncilSentiment)
  {
    var s1 := [Power];
    var s2 := s1 + [Fiber];
    var s3 := s2 + [Water];
    var s4 := s3 + [Highway];
    var s5 := s4 + [Rail];
    var s6 := s5 + [SolarGhi];
    var s7 := s6 + [Wind];
    var s8 := s7 + [LowFloodExposure];
    var s9 := s8 + [CleanHistory];
    var s10 := s9 + [CouncilSentiment];
    assert s10 == Factors;
    WeightedSumSnoc(p, weights, floodRiskSlider, [], Power);
    assert [] + [Power] == s1;
    WeightedSumSnoc(p, weights, floodRiskSlider, s1, Fiber);
    WeightedSumSnoc(p, weights, floodRiskSlider, s2, Water);
    WeightedSumSnoc(p, weights, floodRiskSlider, s3, Highway);
    WeightedSumSnoc(p, weights, floodRiskSlider, s4, Rail);
    WeightedSumSnoc(p, weights, floodRiskSlider, s5, SolarGhi);
    WeightedSumSnoc(p, weights, floodRiskSlider, s6, Wind);
    WeightedSumSnoc(p, weights, floodRiskSlider, s7, LowFloodExposure);
    WeightedSumSnoc(p, weights, floodRiskSlider, s8, CleanHistory);
    WeightedSumSnoc(p, weights, floodRiskSlider, s9, CouncilSentiment);
  }

  /** The total weight over the ten factors, written out term by term. */
  lemma TotalWeightWrittenOut(weights: map<string, int>)
    ensures TotalWeight(weights, Factors) ==
      WeightTerm(weights, Power) + WeightTerm(weights, Fiber) + WeightTerm(weights, Water)
      + WeightTerm(weights, Highway) + WeightTerm(weights, Rail) + WeightTerm(weights, SolarGhi)
      + WeightTerm(weights, Wind) + WeightTerm(weights, LowFloodExposure)
      + WeightTerm(weights, CleanHistory) + WeightTerm(weights, CouncilSentiment)
  {
    var s1 := [Power];
    var s2 := s1 + [Fiber];
    var s3 := s2 + [Water];
    var s4 := s3 + [Highway];
    var s5 := s4 + [Rail];
    var s6 := s5 + [SolarGhi];
    var s7 := s6 + [Wind];
    var s8 := s7 + [LowFloodExposure];
    var s9 := s8 + [CleanHistory];
    var s10 := s9 + [CouncilSentiment];
    assert s10 == Factors;
    TotalWeightSnoc(weights, [], Power);
    assert [] + [Power] == s1;
    TotalWeightSnoc(weights, s1, Fiber);
    TotalWeightSnoc(weights, s2, Water);
    TotalWeightSnoc(weights, s3, Highway);
    TotalWeightSnoc(weights, s4, Rail);
    TotalWeightSnoc(weights, s5, SolarGhi);
    TotalWeightSnoc(weights, s6, Wind);
    TotalWeightSnoc(weights, s7, LowFloodExposure);
    TotalWeightSnoc(weights, s8, CleanHistory);
    TotalWeightSnoc(weights, s9, CouncilSentiment);
  }

  /** No two factors share a label, so contributions never overwrite each other. */
  lemma LabelInjective(f: Factor, g: Factor)
    ensures Label(f) == Label(g) ==> f == g
  {
    var a, b := Label(f), Label(g);
    if a == b {
      assert |a| == |b| && a[0] == b[0];
    }
  }

  /** The flood-risk slider at 7 or above vetoes a flood-zone parcel whatever the weights. */
  lemma ZeroOutGate(p: Parcel, weights: map<string, int>, floodRiskSlider: int)
    requires floodRiskSlider >= 7 && p.floodZone
    ensures ParcelScore(p, weights, floodRiskSlider) == ScoreResult(0.0, map[])
  {
  }

  /**
   * The contributions after visiting `fs` are keyed by exactly the labels of
   * the positively weighted factors, each holding value times weight.
   */
  lemma {:induction false} ContributionsOfPrefix(p: Parcel, weights: map<string, int>, floodRiskSlider: int, fs: seq<Factor>)
    ensures forall f :: f in fs && FactorWeight(weights, f) > 0 ==>
      Label(f) in Contributions(p, weights, floodRiskSlider, fs)
      && Contributions(p, weights, floodRiskSlider, fs)[Label(f)] == FactorValue(p, floodRiskSlider, f) * FactorWeight(weights, f)
    ensures forall l :: l in Contributions(p, weights, floodRiskSlider, fs) ==>
      exists f :: f in fs && FactorWeight(weights, f) > 0 && l == Label(f)
  {
    if fs != [] {
      var init := fs[..|fs| - 1];
      var g := fs[|fs| - 1];
      ContributionsOfPrefix(p, weights, floodRiskSlider, init);
      assert fs == init + [g];
      forall f | f in fs && FactorWeight(weights, f) > 0
        ensures Label(f) in Contributions(p, weights, floodRiskSlider, fs)
        ensures Contributions(p, weights, floodRiskSlider, fs)[Label(f)] == FactorValue(p, floodRiskSlider, f) * FactorWeight(weights, f)
      {
        LabelInjective(f, g);
      }
    }
  }

  /** A positively weighted factor's label holds raw value times weight. */
  lemma ContributionPresent(p: Parcel, weights: map<string, int>, floodRiskSlider: int, f: Factor)
    requires FactorWeight(weights, f) > 0
    ensures var c := Contributions(p, weights, floodRiskSlider, Factors);
      Label(f) in c && c[Label(f)] == FactorValue(p, floodRiskSlider, f) * FactorWeight(weights, f)
  {
    ContributionsOfPrefix(p, weights, floodRiskSlider, Factors);
    assert f in Factors;
  }

  /** A factor without a positive weight has no entry. */
  lemma ContributionAbsent(p: Parcel, weights: map<string, int>, floodRiskSlider: int, f: Factor)
    requires FactorWeight(weights, f) <= 0
    ensures Label(f) !in Contributions(p, weights, floodRiskSlider, Factors)
  {
    ContributionsOfPrefix(p, weights, floodRiskSlider, Factors);
    if Label(f) in Contributions(p, weights, floodRiskSlider, Factors) {
      var g :| g in Factors && FactorWeight(weights, g) > 0 && Label(f) == Label(g);
      LabelInjective(f, g);
    }
  }

  /**
   * Unless the gate fires, the contributions map has exactly the labels whose
   * mapped weight is positive as keys, each with value raw factor times weight.
   */
  lemma ContributionKeys(p: Parcel, weights: map<string, int>, floodRiskSlider: int, f: Factor)
    requires !GateFires(p, floodRiskSlider)
    ensures var c := ParcelScore(p, weights, floodRiskSlider).contributions;
      (Label(f) in c <==> FactorWeight(weights, f) > 0)
      && (Label(f) in c ==> c[Label(f)] == FactorValue(p, floodRiskSlider, f) * FactorWeight(weights, f))
  {
    assert ParcelScore(p, weights, floodRiskSlider).contributions == Contributions(p, weights, floodRiskSlider, Factors);
    if FactorWeight(weights, f) > 0 {
      ContributionPresent(p, weights, floodRiskSlider, f);
    } else {
      ContributionAbsent(p, weights, floodRiskSlider, f);
    }
  }

  /** Clean History and Council Sentiment are both weighted by the `sentiment` slider. */
  lemma SentimentKeyShared(p: Parcel, weights: map<string, int>, floodRiskSlider: int)
    requires !GateFires(p, floodRiskSlider)
    ensures var c := ParcelScore(p, weights, floodRiskSlider).contributions;
      (Label(CleanHistory) in c <==> Weight(weights, "sentiment") > 0)
      && (Label(CouncilSentiment) in c <==> Weight(weights, "sentiment") > 0)
  {
    ContributionKeys(p, weights, floodRiskSlider, CleanHistory);
    ContributionKeys(p, weights, floodRiskSlider, CouncilSentiment);
  }

  /** The accumulated weight is zero exactly when no visited factor has a positive weight. */
  lemma {:induction false} TotalWeightZero(weights: map<string, int>, fs: seq<Factor>)
    ensures TotalWeight(weights, fs) >= 0
    ensures TotalWeight(weights, fs) == 0 <==> forall f :: f in fs ==> FactorWeight(weights, f) <= 0
  {
    if fs != [] {
      var init := fs[..|fs| - 1];
      TotalWeightZero(weights, init);
      assert fs == init + [fs[|fs| - 1]];
    }
  }

  /**
   * When no factor's weight key has a positive weight (missing keys count as
   * zero) the score is 0 and the contributions map is empty.
   */
  lemma NoPositiveWeight(p: Parcel, weights: map<string, int>, floodRiskSlider: int)
    requires forall f :: f in Factors ==> FactorWeight(weights, f) <= 0
    ensures ParcelScore(p, weights, floodRiskSlider) == ScoreResult(0.0, map[])
  {
    TotalWeightZero(weights, Factors);
    if !GateFires(p, floodRiskSlider) {
      ContributionsOfPrefix(p, weights, floodRiskSlider, Factors);
      var c := Contributions(p, weights, floodRiskSlider, Factors);
      if c != map[] {
        assert false;
      }
    }
  }

  /** One positively weighted step keeps the accumulated sums between the bounds. */
  lemma StepBetween(lo: int, hi: int, sum: int, total: int, v: int, w: int, sum': int, total': int)
    requires lo * total <= 100 * sum <= hi * total
    requires lo <= v <= hi && w > 0
    requires sum' == sum + v * w && total' == total + w * 100
    ensures lo * total' <= 100 * sum' <= hi * total'
  {
    assert lo * total' == lo * total + 100 * (lo * w);
    assert hi * total' == hi * total + 100 * (hi * w);
    assert 100 * sum' == 100 * sum + 100 * (v * w);
    assert lo * w <= v * w <= hi * w;
  }

  /**
   * The weighted sum lies between the smallest and the largest positively
   * weighted factor value, each scaled by the total weight.
   */
  lemma {:induction false} WeightedSumBetween(p: Parcel, weights: map<string, int>, floodRiskSlider: int, fs: seq<Factor>, lo: int, hi: int)
    requires forall f :: f in fs && FactorWeight(weights, f) > 0 ==> lo <= FactorValue(p, floodRiskSlider, f) <= hi
    ensures lo * TotalWeight(weights, fs) <= 100 * WeightedSum(p, weights, floodRiskSlider, fs) <= hi * TotalWeight(weights, fs)
  {
    if fs != [] {
      var init := fs[..|fs| - 1];
      var g := fs[|fs| - 1];
      assert fs == init + [g];
      WeightedSumBetween(p, weights, floodRiskSlider, init, lo, hi);
      WeightedSumSnoc(p, weights, floodRiskSlider, init, g);
      TotalWeightSnoc(weights, init, g);
      var w := FactorWeight(weights, g);
      var sum, total := WeightedSum(p, weights, floodRiskSlider, init), TotalWeight(weights, init);
      var sum', total' := WeightedSum(p, weights, floodRiskSlider, fs), TotalWeight(weights, fs);
      if w > 0 {
        StepBetween(lo, hi, sum, total, FactorValue(p, floodRiskSlider, g), w, sum', total');
      } else {
        assert sum' == sum && total' == total;
      }
    }
  }

  lemma RealOfProduct(a: int, b: int)
    ensures (a * b) as real == a as real * b as real
  {
  }

  lemma DivBounds(lo: real, s: real, hi: real, t: real)
    requires t > 0.0 && lo * t <= s <= hi * t
    ensures lo <= s / t <= hi
  {
  }

  /** The normalisation 100 * sum / total of sums kept between the bounds. */
  lemma MeanBetween(lo: int, hi: int, sum: int, total: int)
    requires total > 0 && lo * total <= 100 * sum <= hi * total
    ensures lo as real <= 100.0 * sum as real / total as real <= hi as real
  {
    RealOfProduct(lo, total);
    RealOfProduct(hi, total);
    RealOfProduct(100, sum);
    DivBounds(lo as real, 100.0 * sum as real, hi as real, total as real);
  }

  /**
   * A weighted mean: when some factor is positively weighted and the gate
   * does not fire, the score lies between the minimum and the maximum of the
   * positively weighted normalised factor values.
   */
  lemma ScoreBetween(p: Parcel, weights: map<string, int>, floodRiskSlider: int, lo: int, hi: int)
    requires !GateFires(p, floodRiskSlider)
    requires exists f :: f in Factors && FactorWeight(weights, f) > 0
    requires forall f :: f in Factors && FactorWeight(weights, f) > 0 ==> lo <= FactorValue(p, floodRiskSlider, f) <= hi
    ensures lo as real <= ParcelScore(p, weights, floodRiskSlider).score <= hi as real
  {
    var sum := WeightedSum(p, weights, floodRiskSlider, Factors);
    var total := TotalWeight(weights, Factors);
    assert total > 0 by {
      TotalWeightZero(weights, Factors);
    }
    assert lo * total <= 100 * sum <= hi * total by {
      WeightedSumBetween(p, weights, floodRiskSlider, Factors, lo, hi);
    }
    MeanBetween(lo, hi, sum, total);
    assert ParcelScore(p, weights, floodRiskSlider).score == 100.0 * sum as real / total as real;
  }

  /** The raw attributes of a parcel lie in [0, 100]. */
  predicate WellFormed(p: Parcel) {
    && 0 <= p.powerDist <= 100 && 0 <= p.fiberDist <= 100 && 0 <= p.waterAccess <= 100
    && 0 <= p.highwayAccess <= 100 && 0 <= p.railAccess <= 100 && 0 <= p.solarPotential <= 100
    && 0 <= p.windPotential <= 100 && 0 <= p.historicalContamination <= 100
    && 0 <= p.councilSentiment <= 100
  }

  /** Every normalised factor of a well-formed parcel lies in [0, 100]. */
  lemma FactorValueInRange(p: Parcel, floodRiskSlider: int, f: Factor)
    requires WellFormed(p) && floodRiskSlider >= 0
    ensures 0 <= FactorValue(p, floodRiskSlider, f) <= 100
  {
  }

  /** With raw attributes in [0, 100] and a non-negative slider, the score lies in [0, 100]. */
  lemma ScoreInRange(p: Parcel, weights: map<string, int>, floodRiskSlider: int)
    requires WellFormed(p) && floodRiskSlider >= 0
    ensures 0.0 <= ParcelScore(p, weights, floodRiskSlider).score <= 100.0
  {
    if !GateFires(p, floodRiskSlider) {
      forall f | f in Factors
        ensures 0 <= FactorValue(p, floodRiskSlider, f) <= 100
      {
        FactorValueInRange(p, floodRiskSlider, f);
      }
      if exists f :: f in Factors && FactorWeight(weights, f) > 0 {
        ScoreBetween(p, weights, floodRiskSlider, 0, 100);
      } else {
        TotalWeightZero(weights, Factors);
      }
    }
  }

  /** With only `power` weighted, the score is the parcel's own power value. */
  lemma OnlyPowerWeighted(p: Parcel, weights: map<string, int>, floodRiskSlider: int)
    requires !GateFires(p, floodRiskSlider)
    requires Weight(weights, "power") > 0
    requires forall f :: f in Factors && f != Power ==> FactorWeight(weights, f) <= 0
    ensures ParcelScore(p, weights, floodRiskSlider).score == p.powerDist as real
  {
    assert Power in Factors && FactorWeight(weights, Power) > 0;
    ScoreBetween(p, weights, floodRiskSlider, p.powerDist, p.powerDist);
  }

  /** Every weight multiplied by the same factor `c`. */
  function Scale(weights: map<string, int>, c: int): (r: map<string, int>)
    ensures r.Keys == weights.Keys
  {
    map k | k in weights :: c * weights[k]
  }

  lemma ScaledWeight(weights: map<string, int>, c: int, f: Factor)
    ensures FactorWeight(Scale(weights, c), f) == c * FactorWeight(weights, f)
  {
  }

  lemma ScaleStep(c: int, v: int, w: int)
    ensures v * (c * w) == c * (v * w)
    ensures c * w * 100 == c * (w * 100)
    ensures c > 0 ==> (c * w > 0 <==> w > 0)
  {
    if c > 0 && w <= 0 {
      assert c * w <= 0 * w;
    }
  }

  lemma Distribute(c: int, a: int, b: int)
    ensures c * (a + b) == c * a + c * b
  {
  }

  lemma {:induction false} ScaledSums(p: Parcel, weights: map<string, int>, floodRiskSlider: int, fs: seq<Factor>, c: int)
    requires c > 0
    ensures WeightedSum(p, Scale(weights, c), floodRiskSlider, fs) == c * WeightedSum(p, weights, floodRiskSlider, fs)
    ensures TotalWeight(Scale(weights, c), fs) == c * TotalWeight(weights, fs)
  {
    if fs != [] {
      var init := fs[..|fs| - 1];
      var g := fs[|fs| - 1];
      ScaledSums(p, weights, floodRiskSlider, init, c);
      WeightedSumSnoc(p, weights, floodRiskSlider, init, g);
      TotalWeightSnoc(weights, init, g);
      WeightedSumSnoc(p, Scale(weights, c), floodRiskSlider, init, g);
      TotalWeightSnoc(Scale(weights, c), init, g);
      assert fs == init + [g];
      ScaledWeight(weights, c, g);
      ScaleArith(c, FactorValue(p, floodRiskSlider, g), FactorWeight(weights, g),
                 WeightedSum(p, weights, floodRiskSlider, init), TotalWeight(weights, init),
                 WeightedSum(p, weights, floodRiskSlider, fs), TotalWeight(weights, fs),
                 WeightedSum(p, Scale(weights, c), floodRiskSlider, fs), TotalWeight(Scale(weights, c), fs));
    }
  }

  /** One step of both passes, the second with every weight multiplied by `c`. */
  lemma ScaleArith(c: int, v: int, w: int, sum: int, total: int, sum': int, total': int, sumC': int, totalC': int)
    requires c > 0
    requires sum' == sum + (if w <= 0 then 0 else v * w)
    requires total' == total + (if w <= 0 then 0 else w * 100)
    requires sumC' == c * sum + (if c * w <= 0 then 0 else v * (c * w))
    requires totalC' == c * total + (if c * w <= 0 then 0 else c * w * 100)
    ensures sumC' == c * sum' && totalC' == c * total'
  {
    ScaleStep(c, v, w);
    if w > 0 {
      Distribute(c, sum, v * w);
      Distribute(c, total, w * 100);
    }
  }

  lemma DivCancel(x: real, t: real, c: real)
    requires c > 0.0 && t != 0.0
    ensures (c * x) / (c * t) == x / t
  {
    assert (c * x) / (c * t) * (c * t) == c * x;
    assert x / t * (c * t) == c * x;
  }

  /**
   * Multiplying every weight by the same positive constant leaves the score
   * unchanged (the flood-risk slider being held fixed).
   */
  lemma ScaleInvariant(p: Parcel, weights: map<string, int>, floodRiskSlider: int, c: int)
    requires c > 0
    ensures ParcelScore(p, Scale(weights, c), floodRiskSlider).score == ParcelScore(p, weights, floodRiskSlider).score
  {
    var sum, total := WeightedSum(p, weights, floodRiskSlider, Factors), TotalWeight(weights, Factors);
    var sum', total' := WeightedSum(p, Scale(weights, c), floodRiskSlider, Factors), TotalWeight(Scale(weights, c), Factors);
    ScaledSums(p, weights, floodRiskSlider, Factors, c);
    RealOfProduct(c, sum);
    RealOfProduct(c, total);
    if total != 0 {
      DivCancel(100.0 * sum as real, total as real, c as real);
      assert 100.0 * sum' as real == c as real * (100.0 * sum as real);
      assert total' as real == c as real * total as real;
    }
  }

  /**
   * The flood-exposure factor lies in [0, 100] for slider values in [0, 10],
   * reaches 0 at slider 10 in a flood zone and never grows as aversion grows.
   */
  lemma FloodExposureCurve(floodZone: bool, s: int, s': int)
    requires 0 <= s <= s'
    ensures 0 <= FloodExposure(floodZone, s) <= 100
    ensures FloodExposure(floodZone, s') <= FloodExposure(floodZone, s)
    ensures !floodZone ==> FloodExposure(floodZone, s) == 100
    ensures floodZone && s >= 10 ==> FloodExposure(floodZone, s) == 0
  {
  }
}
