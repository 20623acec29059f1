/**
 * The score-and-rank pass of the page: every parcel is scored with the
 * current weights, the scores are sorted from best to worst (a stable sort,
 * so ties keep the parcel table's order) and the first entry is the top
 * parcel.
 */
module Ranking {
  import opened Scoring

  /** Entry `a` goes before entry `b`: a higher score, or an equal score and an earlier place. */
  predicate Precedes(keys: seq<real>, a: nat, b: nat)
    requires a < |keys| && b < |keys|
  {
    keys[a] > keys[b] || (keys[a] == keys[b] && a < b)
  }

  /** `order` lists every index of `keys` exactly once, best first, ties by position. */
  predicate RankedOrder(keys: seq<real>, order: seq<nat>) {
    && |order| == |keys|
    && (forall k :: 0 <= k < |order| ==> order[k] < |keys|)
    && (forall i :: 0 <= i < |keys| ==> i in order)
    && (forall a, b :: 0 <= a < b < |order| ==> order[a] < |keys| && order[b] < |keys| && Precedes(keys, order[a], order[b]))
  }

  /**
   * `sorted(..., key=score, reverse=True)` on indices: an insertion sort that
   * puts each new entry after every entry scoring at least as much.
   */
  method SortDescending(keys: seq<real>) returns (order: seq<nat>)
    ensures RankedOrder(keys, order)
  {
    order := [];
    for i := 0 to |keys|
      invariant |order| == i
      invariant forall k :: 0 <= k < |order| ==> order[k] < i
      invariant forall k :: 0 <= k < i ==> k in order
      invariant forall a, b :: 0 <= a < b < |order| ==> Precedes(keys, order[a], order[b])
    {
      var pos := 0;
      while pos < |order| && keys[order[pos]] >= keys[i]
        invariant 0 <= pos <= |order|
        invariant forall k :: 0 <= k < pos ==> keys[order[k]] >= keys[i]
      {
        pos := pos + 1;
      }
      var before := order;
      order := before[..pos] + [i] + before[pos..];
      assert forall k :: 0 <= k < pos ==> order[k] == before[k];
      assert order[pos] == i;
      assert forall k :: pos < k < |order| ==> order[k] == before[k - 1];
      assert forall k :: pos <= k < |before| ==> keys[before[k]] < keys[i] by {
        forall k | pos <= k < |before| ensures keys[before[k]] < keys[i] {
          if k > pos {
            assert Precedes(keys, before[pos], before[k]);
          }
        }
      }
      forall k | 0 <= k < i + 1 ensures k in order {
        if k < i {
          assert k in before;
          var j :| 0 <= j < |before| && before[j] == k;
          if j < pos {
            assert order[j] == k;
          } else {
            assert order[j + 1] == k;
          }
        } else {
          assert order[pos] == k;
        }
      }
    }
  }

  /** The top entry scores at least as much as every entry, and comes first among equals. */
  lemma TopIsFirstMaximum(keys: seq<real>, order: seq<nat>)
    requires RankedOrder(keys, order) && |keys| > 0
    ensures order[0] < |keys|
    ensures forall i :: 0 <= i < |keys| ==> keys[i] <= keys[order[0]]
    ensures forall i :: 0 <= i < |keys| && keys[i] == keys[order[0]] ==> order[0] <= i
  {
    forall i | 0 <= i < |keys|
      ensures keys[i] <= keys[order[0]]
      ensures keys[i] == keys[order[0]] ==> order[0] <= i
    {
      assert i in order;
      var j :| 0 <= j < |order| && order[j] == i;
      if j > 0 {
        assert Precedes(keys, order[0], order[j]);
      }
    }
  }

  /** The entries that go before entry `x`. */
  function Above(keys: seq<real>, x: nat): set<nat>
    requires x < |keys|
  {
    set i: nat | i < |keys| && Precedes(keys, i, x)
  }

  /** An entry's place in a ranked order is the number of entries that go before it. */
  lemma RankAt(keys: seq<real>, order: seq<nat>, k: nat)
    requires RankedOrder(keys, order) && k < |order|
    ensures order[k] < |keys| && |Above(keys, order[k])| == k
  {
    var x := order[k];
    var earlier := set j | 0 <= j < k :: order[j];
    assert Above(keys, x) == earlier by {
      forall i | i in Above(keys, x) ensures i in earlier {
        assert i in order;
        var j :| 0 <= j < |order| && order[j] == i;
        assert j < k;
      }
    }
    assert |earlier| == k by {
      DistinctImage(order, k);
    }
  }

  /** An entry that goes before another has strictly fewer entries above it. */
  lemma AboveGrows(keys: seq<real>, x: nat, y: nat)
    requires x < |keys| && y < |keys| && Precedes(keys, x, y)
    ensures |Above(keys, x)| < |Above(keys, y)|
  {
    var a := Above(keys, x) + {x};
    assert a <= Above(keys, y);
    assert x !in Above(keys, x);
    assert |a| == |Above(keys, x)| + 1;
    assert Above(keys, y) == a + (Above(keys, y) - a);
    assert |Above(keys, y)| == |a| + |Above(keys, y) - a|;
  }

  /**
   * Only one order ranks a list of scores: the stable descending sort is
   * fully determined by the scores.
   */
  lemma RankedOrderUnique(keys: seq<real>, order: seq<nat>, order': seq<nat>)
    requires RankedOrder(keys, order) && RankedOrder(keys, order')
    ensures order == order'
  {
    forall k | 0 <= k < |order| ensures order[k] == order'[k] {
      RankAt(keys, order, k);
      RankAt(keys, order', k);
      var x, y := order[k], order'[k];
      if x != y {
        if Precedes(keys, x, y) {
          AboveGrows(keys, x, y);
        } else {
          AboveGrows(keys, y, x);
        }
      }
    }
  }

  /** The first `k` entries of a ranked order are `k` distinct indices. */
  lemma {:induction false} DistinctImage(order: seq<nat>, k: nat)
    requires k <= |order|
    requires forall a, b :: 0 <= a < b < |order| ==> order[a] != order[b]
    ensures |set j | 0 <= j < k :: order[j]| == k
  {
    if k > 0 {
      DistinctImage(order, k - 1);
      var s := set j | 0 <= j < k - 1 :: order[j];
      assert (set j | 0 <= j < k :: order[j]) == s + {order[k - 1]};
      assert order[k - 1] !in s;
    }
  }

  /** What the page shows as the top parcel: the first ranked entry, or a dash and 0. */
  datatype Top = Top(name: string, score: real)

  /**
   * The ranking pass of `main`: score every parcel of the table with the
   * current weights (the flood-risk weight doubling as the gate's slider),
   * rank the scores best first, and pick the top parcel.
   */
  method RankParcels(parcels: seq<(string, Parcel)>, weights: map<string, int>)
    returns (ranked: seq<(string, real)>, top: Top)
    requires "flood_risk" in weights
    ensures |ranked| == |parcels|
    ensures exists order ::
      && RankedOrder(ScoresOf(parcels, weights), order)
      && (forall k :: 0 <= k < |order| ==>
            order[k] < |parcels| && ranked[k] == (parcels[order[k]].0, ScoresOf(parcels, weights)[order[k]]))
    ensures parcels == [] ==> top == Top("—", 0.0)
    ensures parcels != [] ==> top == Top(ranked[0].0, ranked[0].1)
    ensures forall i :: 0 <= i < |parcels| ==> ScoresOf(parcels, weights)[i] <= top.score
  {
    var scores: seq<real> := [];
    for i := 0 to |parcels|
      invariant scores == ScoresOf(parcels, weights)[..i]
    {
      var score, _ := ComputeParcelScore(parcels[i].1, weights, weights["flood_risk"]);
      scores := scores + [score];
    }
    assert scores == ScoresOf(parcels, weights);
    var order := SortDescending(scores);
    ranked := seq(|order|, k requires 0 <= k < |order| => (parcels[order[k]].0, scores[order[k]]));
    if |ranked| > 0 {
      top := Top(ranked[0].0, ranked[0].1);
      TopIsFirstMaximum(scores, order);
    } else {
      top := Top("—", 0.0);
    }
  }

  /** The score of every parcel, in table order. */
  function ScoresOf(parcels: seq<(string, Parcel)>, weights: map<string, int>): (scores: seq<real>)
    requires "flood_risk" in weights
    ensures |scores| == |parcels|
  {
    seq(|parcels|, i requires 0 <= i < |parcels| => ParcelScore(parcels[i].1, weights, weights["flood_risk"]).score)
  }
}
