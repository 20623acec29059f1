/**
 * The static parcel table the page scores, and what the model says about it
 * for a few weight settings.
 */
module TapData {
  import opened Scoring
  import opened Ranking
  import opened Session

  const Rosemount: Parcel := Parcel(
    "Rosemount, MN", 92, 88, 85, 78, 60, 74, 58, false, 15, 82)

  const Farmington: Parcel := Parcel(
    "Farmington, MN", 80, 75, 72, 82, 68, 79, 65, true, 28, 70)

  const Becker: Parcel := Parcel(
    "Becker, MN", 96, 70, 90, 88, 92, 69, 83, false, 40, 76)

  /** `TAP_DATA`, in its insertion order. */
  const Parcels: seq<(string, Parcel)> := [
    ("Rosemount – Utility-Ready Parcel", Rosemount),
    ("Farmington – Emerging Industrial Parcel", Farmington),
    ("Becker – Legacy Generation Parcel", Becker)
  ]

  /** Every parcel of the table has its raw attributes in [0, 100], so every score is in [0, 100]. */
  lemma TableScoresInRange(weights: map<string, int>, floodRiskSlider: int, i: nat)
    requires i < |Parcels| && floodRiskSlider >= 0
    ensures 0.0 <= ParcelScore(Parcels[i].1, weights, floodRiskSlider).score <= 100.0
  {
    ScoreInRange(Parcels[i].1, weights, floodRiskSlider);
  }

  /** Rosemount with only the power weight set scores its power value, 92. */
  lemma RosemountPowerOnly()
    ensures ParcelScore(Rosemount, map["power" := 10], 0).score == 92.0
  {
    var w := map["power" := 10];
    forall f | f in Factors && f != Power ensures FactorWeight(w, f) <= 0 {
      assert WeightKey(f) != "power" by {
        assert |WeightKey(f)| != 5 || WeightKey(f)[0] != 'p';
      }
    }
    OnlyPowerWeighted(Rosemount, w, 0);
  }

  /** Farmington lies in a flood zone: a flood-risk slider of 7 or more scores it 0. */
  lemma FarmingtonVetoed(weights: map<string, int>, floodRiskSlider: int)
    requires floodRiskSlider >= 7
    ensures ParcelScore(Farmington, weights, floodRiskSlider) == ScoreResult(0.0, map[])
  {
    ZeroOutGate(Farmington, weights, floodRiskSlider);
  }

  /** The slider weights of the Data Center preset. */
  const DataCenterWeights: map<string, int> := map[
    "power" := 10, "fiber" := 9, "water" := 5, "highway" := 4, "rail" := 2,
    "solar" := 5, "wind" := 2, "flood_risk" := 9, "sentiment" := 7]

  /** The first five Data Center sliders on a fresh session. */
  lemma DataCenterUtilitySliders()
    ensures Sliders(map[], PersonaWeights["Data Center"][..5]) == map["power" := 10, "fiber" := 9, "water" := 5, "highway" := 4, "rail" := 2]
  {
    var e := PersonaWeights["Data Center"];
    assert e[..1][..0] == e[..0] && e[0] == ("power", 10);
    assert Sliders(map[], e[..1]) == Sliders(map[], e[..0])["power" := 10];
    assert e[..2][..1] == e[..1] && e[1] == ("fiber", 9);
    assert Sliders(map[], e[..2]) == Sliders(map[], e[..1])["fiber" := 9];
    assert e[..3][..2] == e[..2] && e[2] == ("water", 5);
    assert Sliders(map[], e[..3]) == Sliders(map[], e[..2])["water" := 5];
    assert e[..4][..3] == e[..3] && e[3] == ("highway", 4);
    assert Sliders(map[], e[..4]) == Sliders(map[], e[..3])["highway" := 4];
    assert e[..5][..4] == e[..4] && e[4] == ("rail", 2);
    assert Sliders(map[], e[..5]) == Sliders(map[], e[..4])["rail" := 2];
  }

  /** They are what the sidebar shows for the Data Center persona on a fresh session. */
  lemma DataCenterFreshSliders()
    ensures SidebarWeights(map[], "Data Center") == DataCenterWeights
  {
    var e := PersonaWeights["Data Center"];
    DataCenterUtilitySliders();
    assert e[..6][..5] == e[..5] && e[5] == ("solar", 5);
    assert Sliders(map[], e[..6]) == Sliders(map[], e[..5])["solar" := 5];
    assert e[..7][..6] == e[..6] && e[6] == ("wind", 2);
    assert Sliders(map[], e[..7]) == Sliders(map[], e[..6])["wind" := 2];
    assert e[..8][..7] == e[..7] && e[7] == ("flood_risk", 9);
    assert Sliders(map[], e[..8]) == Sliders(map[], e[..7])["flood_risk" := 9];
    assert e[..9][..8] == e[..8] && e[8] == ("sentiment", 7);
    assert Sliders(map[], e[..9]) == Sliders(map[], e[..8])["sentiment" := 7];
    assert e[..9] == e;
  }

  /** A reset to the Data Center persona shows them again, whatever the sliders showed before. */
  lemma DataCenterReset(store: map<string, int>)
    ensures SidebarWeights(Applied(store, PersonaWeights["Data Center"]), "Data Center") == DataCenterWeights
  {
    DataCenterFreshSliders();
    ResetShowsDefaults(store, "Data Center");
  }


  /**
   * Under the Data Center preset Rosemount scores 5124 / 60, Becker 4939 / 60,
   * and Farmington, in a flood zone with the flood slider at 9, is vetoed.
   */
  lemma DataCenterScores()
    ensures ScoresOf(Parcels, DataCenterWeights) == [85.4, 0.0, 4939.0 / 60.0]
  {
    RosemountDataCenter();
    BeckerDataCenter();
    ZeroOutGate(Farmington, DataCenterWeights, 9);
  }

  /** The weight the Data Center preset gives each factor. */
  lemma DataCenterFactorWeights()
    ensures FactorWeight(DataCenterWeights, Power) == 10
    ensures FactorWeight(DataCenterWeights, Fiber) == 9
    ensures FactorWeight(DataCenterWeights, Water) == 5
    ensures FactorWeight(DataCenterWeights, Highway) == 4
    ensures FactorWeight(DataCenterWeights, Rail) == 2
    ensures FactorWeight(DataCenterWeights, SolarGhi) == 5
    ensures FactorWeight(DataCenterWeights, Wind) == 2
    ensures FactorWeight(DataCenterWeights, LowFloodExposure) == 9
    ensures FactorWeight(DataCenterWeights, CleanHistory) == 7
    ensures FactorWeight(DataCenterWeights, CouncilSentiment) == 7
  {
  }

  /** 100 * 5124 / 6000: every factor of Rosemount is weighted, the total weight is 60 * 100. */
  lemma RosemountDataCenter()
    ensures ParcelScore(Rosemount, DataCenterWeights, 9).score == 85.4
  {
    DataCenterFactorWeights();
    WeightedSumWrittenOut(Rosemount, DataCenterWeights, 9);
    TotalWeightWrittenOut(DataCenterWeights);
  }

  /** 100 * 4939 / 6000. */
  lemma BeckerDataCenter()
    ensures ParcelScore(Becker, DataCenterWeights, 9).score == 4939.0 / 60.0
  {
    DataCenterFactorWeights();
    WeightedSumWrittenOut(Becker, DataCenterWeights, 9);
    TotalWeightWrittenOut(DataCenterWeights);
  }

  /** The Data Center ranking is Rosemount, then Becker, then Farmington. */
  lemma DataCenterOrder()
    ensures RankedOrder(ScoresOf(Parcels, DataCenterWeights), [0, 2, 1])
  {
    DataCenterScores();
  }

  /** The page's overview under the Data Center preset: Rosemount on top with 85.4. */
  method DataCenterOverview() returns (ranked: seq<(string, real)>, top: Top)
    ensures ranked == [(Parcels[0].0, 85.4), (Parcels[2].0, 4939.0 / 60.0), (Parcels[1].0, 0.0)]
    ensures top == Top("Rosemount – Utility-Ready Parcel", 85.4)
  {
    ranked, top := RankParcels(Parcels, DataCenterWeights);
    DataCenterScores();
    var order :| && RankedOrder(ScoresOf(Parcels, DataCenterWeights), order)
                 && (forall k :: 0 <= k < |order| ==>
                       order[k] < |Parcels| && ranked[k] == (Parcels[order[k]].0, ScoresOf(Parcels, DataCenterWeights)[order[k]]));
    DataCenterEntries(ScoresOf(Parcels, DataCenterWeights), order, ranked);
  }

  /** Any listing that follows the ranked order of the Data Center scores is the one above. */
  lemma DataCenterEntries(keys: seq<real>, order: seq<nat>, ranked: seq<(string, real)>)
    requires keys == [85.4, 0.0, 4939.0 / 60.0]
    requires RankedOrder(keys, order) && |ranked| == |order|
    requires forall k :: 0 <= k < |order| ==> order[k] < |Parcels| && ranked[k] == (Parcels[order[k]].0, keys[order[k]])
    ensures ranked == [(Parcels[0].0, 85.4), (Parcels[2].0, 4939.0 / 60.0), (Parcels[1].0, 0.0)]
  {
    assert RankedOrder(keys, [0, 2, 1]);
    RankedOrderUnique(keys, order, [0, 2, 1]);
  }
}
