/**
 * The bucketizer: a 0-100 score mapped to one of three suitability tiers
 * and to the CSS class the parcel list uses for that tier's pill.
 */
module Buckets {

  const HighThreshold: real := 75.0
  const MediumThreshold: real := 50.0

  /** `score_to_bucket`. */
  function ScoreToBucket(score: real): string {
    if score >= HighThreshold then "High"
    else if score >= MediumThreshold then "Medium"
    else "Low"
  }

  /** `bucket_to_class`, which tests the score against the same thresholds. */
  function BucketToClass(score: real): string {
    if score >= HighThreshold then "pill-high"
    else if score >= MediumThreshold then "pill-medium"
    else "pill-low"
  }

  /** The pill class that belongs to each tier name, as the stylesheet pairs them. */
  function PillClass(bucket: string): string {
    if bucket == "High" then "pill-high"
    else if bucket == "Medium" then "pill-medium"
    else "pill-low"
  }

  /** The tiers' order: Low below Medium below High. */
  function TierRank(bucket: string): int {
    if bucket == "High" then 2
    else if bucket == "Medium" then 1
    else 0
  }

  /**
   * A score of 75 or more is High, a score in [50, 75) is Medium and a score
   * below 50 is Low; there is no other outcome.
   */
  lemma BucketThresholds(score: real)
    ensures ScoreToBucket(score) == "High" <==> score >= 75.0
    ensures ScoreToBucket(score) == "Medium" <==> 50.0 <= score < 75.0
    ensures ScoreToBucket(score) == "Low" <==> score < 50.0
  {
  }

  /** Boundary values belong to the higher tier. */
  lemma BucketBoundaries()
    ensures ScoreToBucket(75.0) == "High"
    ensures ScoreToBucket(74.999) == "Medium"
    ensures ScoreToBucket(50.0) == "Medium"
    ensures ScoreToBucket(49.999) == "Low"
  {
  }

  /** The display class is always the pill of the score's own tier. */
  lemma ClassMatchesBucket(score: real)
    ensures BucketToClass(score) == PillClass(ScoreToBucket(score))
    ensures BucketToClass(score) in {"pill-high", "pill-medium", "pill-low"}
  {
  }

  /** A higher score never lands in a lower tier. */
  lemma BucketMonotone(score: real, score': real)
    requires score <= score'
    ensures TierRank(ScoreToBucket(score)) <= TierRank(ScoreToBucket(score'))
  {
  }
}
