/**
 * Two council transcripts worked through the keyword heuristic, word by word.
 * A keyword without a space matches a sentence exactly where it matches one of
 * its words, and each word of these sentences is too short for the keyword,
 * lacks one of its letters, or begins with it and has no room for a second
 * match.
 *
 * Each keyword fact about a transcript is its own lemma, one call of
 * `CountJoin` with that keyword's verdicts. Stated together, the facts about
 * one literal sentence cost the verifier far more than their sum, so these
 * lemmas share a shape and differ only in the keyword and its verdicts.
 */
module Transcripts {
  import opened Sentiment

  /** Words separated by single spaces, the last word outermost. */
  function Join(ws: seq<string>): string {
    if ws == [] then ""
    else if |ws| == 1 then ws[0]
    else Join(ws[..|ws| - 1]) + " " + ws[|ws| - 1]
  }

  /**
   * Why a word `b` holds no match of a keyword `w`: the verdict `v` is a space
   * when `b` is shorter than `w`, and otherwise a letter of `w` that `b` lacks.
   */
  predicate Misses(b: string, w: string, v: char) {
    if v == ' ' then |b| < |w| else v in w && v !in b
  }

  /** `b` begins with `w` and has no room for a second match. */
  predicate StartsOnce(b: string, w: string) {
    |w| <= |b| < 2 * |w| && b[..|w|] == w
  }

  /** A word counts the keyword once when it starts with it once, and never when it misses it. */
  lemma WordCount(b: string, w: string, hit: bool, v: char)
    requires |w| > 0
    requires if hit then StartsOnce(b, w) else Misses(b, w, v)
    ensures Count(b, w) == if hit then 1 else 0
  {
    if hit {
      StartsWithIsPrefix(b, w);
      assert |b[|w|..]| < |w|;
    } else if v != ' ' {
      CountMissingChar(b, w, v);
    }
  }

  /** Removing `n` from a set lowers its size by one exactly when `n` was in it. */
  lemma CardRemove(hits: set<nat>, n: nat)
    ensures |hits| == |hits - {n}| + if n in hits then 1 else 0
  {
    if n in hits {
      assert hits == (hits - {n}) + {n};
    } else {
      assert hits - {n} == hits;
    }
  }

  /**
   * A keyword without a space matches a joined sentence once in each word
   * listed in `hits`, and never in the others; `vs` gives the verdict for each
   * word not in `hits`.
   */
  lemma {:induction false} CountJoin(ws: seq<string>, w: string, hits: set<nat>, vs: string)
    requires ' ' !in w && |w| > 0 && |vs| == |ws|
    requires forall i :: i in hits ==> i < |ws|
    requires forall i :: 0 <= i < |ws| ==> if i in hits then StartsOnce(ws[i], w) else Misses(ws[i], w, vs[i])
    ensures Count(Join(ws), w) == |hits|
  {
    if ws == [] {
      assert hits == {};
    } else {
      var n := |ws| - 1;
      WordCount(ws[n], w, n in hits, vs[n]);
      CardRemove(hits, n);
      if n == 0 {
        assert hits - {n} == {};
      } else {
        CountJoin(ws[..n], w, hits - {n}, vs[..n]);
        CountSplit(Join(ws[..n]), ws[n], w);
      }
    }
  }

  /** Lower-casing works character by character, so it distributes over concatenation. */
  lemma ToLowerAppend(a: string, b: string)
    ensures ToLower(a + b) == ToLower(a) + ToLower(b)
  {
  }

  /** Lower-casing a joined sentence lower-cases each word. */
  lemma {:induction false} LowerJoin(ws: seq<string>, ls: seq<string>)
    requires |ls| == |ws|
    requires forall i :: 0 <= i < |ws| ==> ToLower(ws[i]) == ls[i]
    ensures ToLower(Join(ws)) == Join(ls)
  {
    if |ws| > 1 {
      var n := |ws| - 1;
      LowerJoin(ws[..n], ls[..n]);
      ToLowerAppend(Join(ws[..n]) + " ", ws[n]);
      ToLowerAppend(Join(ws[..n]), " ");
      assert ToLower(" ") == " ";
    }
  }

  /** A character other than the space that no word contains is not in the sentence. */
  lemma {:induction false} AbsentJoin(ws: seq<string>, c: char)
    requires c != ' '
    requires forall i :: 0 <= i < |ws| ==> c !in ws[i]
    ensures c !in Join(ws)
  {
    if |ws| > 1 {
      AbsentJoin(ws[..|ws| - 1], c);
    }
  }

  /** The sentence starts with the first letter of its first word. */
  lemma {:induction false} JoinStart(ws: seq<string>)
    requires |ws| > 0 && ws[0] != []
    ensures Join(ws) != [] && Join(ws)[0] == ws[0][0]
  {
    if |ws| > 1 {
      JoinStart(ws[..|ws| - 1]);
    }
  }

  /** The two transcripts as they were typed, and lower-cased, word by word. */
  const OpposingWords: seq<string> := ["Residents", "oppose", "this", "due", "to", "traffic", "and", "pollution", "concerns"]
  const OpposingLowerWords: seq<string> := ["residents", "oppose", "this", "due", "to", "traffic", "and", "pollution", "concerns"]
  const SupportingWords: seq<string> := ["We", "strongly", "support", "this", "investment", "and", "the", "jobs", "it", "brings"]
  const SupportingLowerWords: seq<string> := ["we", "strongly", "support", "this", "investment", "and", "the", "jobs", "it", "brings"]

  /** Lower-casing the opposing transcript lower-cases its first word only. */
  lemma OpposingLowered()
    ensures ToLower(Join(OpposingWords)) == Join(OpposingLowerWords)
  {
    LowerJoin(OpposingWords, OpposingLowerWords);
  }

  /** Lower-casing the supporting transcript lower-cases its first word only. */
  lemma SupportingLowered()
    ensures ToLower(Join(SupportingWords)) == Join(SupportingLowerWords)
  {
    LowerJoin(SupportingWords, SupportingLowerWords);
  }

  /** The hits of a keyword list, its first keyword split off. */
  lemma HitsCons(t: string, w: string, words: seq<string>)
    ensures Hits(t, [w] + words) == Count(t, w) + Hits(t, words)
  {
    assert ([w] + words)[1..] == words;
  }

  /** The negative hits of a text, keyword by keyword. */
  lemma NegativeHits(t: string)
    ensures Hits(t, NegativeWords) ==
      Count(t, "oppose") + Count(t, "against") + Count(t, "concern") + Count(t, "delay") + Count(t, "litigation")
      + Count(t, "moratorium") + Count(t, "protest") + Count(t, "traffic") + Count(t, "pollution")
  {
    var ws := NegativeWords;
    HitsCons(t, ws[0], ws[1..]); ws := ws[1..];
    HitsCons(t, ws[0], ws[1..]); ws := ws[1..];
    HitsCons(t, ws[0], ws[1..]); ws := ws[1..];
    HitsCons(t, ws[0], ws[1..]); ws := ws[1..];
    HitsCons(t, ws[0], ws[1..]); ws := ws[1..];
    HitsCons(t, ws[0], ws[1..]); ws := ws[1..];
    HitsCons(t, ws[0], ws[1..]); ws := ws[1..];
    HitsCons(t, ws[0], ws[1..]); ws := ws[1..];
    HitsCons(t, ws[0], ws[1..]);
  }

  /** The positive hits of a text, keyword by keyword. */
  lemma PositiveHits(t: string)
    ensures Hits(t, PositiveWords) ==
      Count(t, "support") + Count(t, "in favor") + Count(t, "approve") + Count(t, "opportunity") + Count(t, "jobs")
      + Count(t, "investment") + Count(t, "strategic") + Count(t, "tax base")
  {
    var ws := PositiveWords;
    HitsCons(t, ws[0], ws[1..]); ws := ws[1..];
    HitsCons(t, ws[0], ws[1..]); ws := ws[1..];
    HitsCons(t, ws[0], ws[1..]); ws := ws[1..];
    HitsCons(t, ws[0], ws[1..]); ws := ws[1..];
    HitsCons(t, ws[0], ws[1..]); ws := ws[1..];
    HitsCons(t, ws[0], ws[1..]); ws := ws[1..];
    HitsCons(t, ws[0], ws[1..]); ws := ws[1..];
    HitsCons(t, ws[0], ws[1..]);
  }

  /** Each keyword in the lower-cased opposing transcript. */
  lemma OpposingOppose()
    ensures Count(Join(OpposingLowerWords), "oppose") == 1
  {
    CountJoin(OpposingLowerWords, "oppose", {1}, "o    o sp");
  }

  lemma OpposingAgainst()
    ensures Count(Join(OpposingLowerWords), "against") == 0
  {
    CountJoin(OpposingLowerWords, "against", {}, "a    g aa");
  }

  lemma OpposingConcern()
    ensures Count(Join(OpposingLowerWords), "concern") == 1
  {
    CountJoin(OpposingLowerWords, "concern", {8}, "c    o c ");
  }

  lemma OpposingDelay()
    ensures Count(Join(OpposingLowerWords), "delay") == 0
  {
    CountJoin(OpposingLowerWords, "delay", {}, "ld   d dd");
  }

  lemma OpposingLitigation()
    ensures Count(Join(OpposingLowerWords), "litigation") == 0
  {
    CountJoin(OpposingLowerWords, "litigation", {}, "         ");
  }

  lemma OpposingMoratorium()
    ensures Count(Join(OpposingLowerWords), "moratorium") == 0
  {
    CountJoin(OpposingLowerWords, "moratorium", {}, "         ");
  }

  lemma OpposingProtest()
    ensures Count(Join(OpposingLowerWords), "protest") == 0
  {
    CountJoin(OpposingLowerWords, "protest", {}, "p    p rp");
  }

  lemma OpposingTraffic()
    ensures Count(Join(OpposingLowerWords), "traffic") == 1
  {
    CountJoin(OpposingLowerWords, "traffic", {5}, "a      rt");
  }

  lemma OpposingPollution()
    ensures Count(Join(OpposingLowerWords), "pollution") == 1
  {
    CountJoin(OpposingLowerWords, "pollution", {7}, "p        ");
  }

  lemma OpposingSupport()
    ensures Count(Join(OpposingLowerWords), "support") == 0
  {
    CountJoin(OpposingLowerWords, "support", {}, "u    s su");
  }

  lemma OpposingApprove()
    ensures Count(Join(OpposingLowerWords), "approve") == 0
  {
    CountJoin(OpposingLowerWords, "approve", {}, "a    p aa");
  }

  lemma OpposingOpportunity()
    ensures Count(Join(OpposingLowerWords), "opportunity") == 0
  {
    CountJoin(OpposingLowerWords, "opportunity", {}, "         ");
  }

  lemma OpposingJobs()
    ensures Count(Join(OpposingLowerWords), "jobs") == 0
  {
    CountJoin(OpposingLowerWords, "jobs", {}, "jjj  j jj");
  }

  lemma OpposingInvestment()
    ensures Count(Join(OpposingLowerWords), "investment") == 0
  {
    CountJoin(OpposingLowerWords, "investment", {}, "         ");
  }

  lemma OpposingStrategic()
    ensures Count(Join(OpposingLowerWords), "strategic") == 0
  {
    CountJoin(OpposingLowerWords, "strategic", {}, "a      s ");
  }

  /** The negative hits of the lower-cased opposing transcript. */
  lemma OpposingNegativeHits()
    ensures Hits(Join(OpposingLowerWords), NegativeWords) == 4
  {
    var t := Join(OpposingLowerWords);
    NegativeHits(t);
    OpposingOppose();
    OpposingAgainst();
    OpposingConcern();
    OpposingDelay();
    OpposingLitigation();
    OpposingMoratorium();
    OpposingProtest();
    OpposingTraffic();
    OpposingPollution();
  }

  lemma OpposingInFavor()
    ensures Count(Join(OpposingLowerWords), "in favor") == 0
  {
    AbsentJoin(OpposingLowerWords, 'v');
    CountMissingChar(Join(OpposingLowerWords), "in favor", 'v');
  }

  lemma OpposingTaxBase()
    ensures Count(Join(OpposingLowerWords), "tax base") == 0
  {
    AbsentJoin(OpposingLowerWords, 'x');
    CountMissingChar(Join(OpposingLowerWords), "tax base", 'x');
  }

  /** The positive hits of the lower-cased opposing transcript. */
  lemma OpposingPositiveHits()
    ensures Hits(Join(OpposingLowerWords), PositiveWords) == 0
  {
    var t := Join(OpposingLowerWords);
    PositiveHits(t);
    OpposingSupport();
    OpposingInFavor();
    OpposingApprove();
    OpposingOpportunity();
    OpposingJobs();
    OpposingInvestment();
    OpposingStrategic();
    OpposingTaxBase();
  }

  /** Each keyword in the lower-cased supporting transcript. */
  lemma SupportingOppose()
    ensures Count(Join(SupportingLowerWords), "oppose") == 0
  {
    CountJoin(SupportingLowerWords, "oppose", {}, " pe o    o");
  }

  lemma SupportingAgainst()
    ensures Count(Join(SupportingLowerWords), "against") == 0
  {
    CountJoin(SupportingLowerWords, "against", {}, " aa a     ");
  }

  lemma SupportingConcern()
    ensures Count(Join(SupportingLowerWords), "concern") == 0
  {
    CountJoin(SupportingLowerWords, "concern", {}, " cc c     ");
  }

  lemma SupportingDelay()
    ensures Count(Join(SupportingLowerWords), "delay") == 0
  {
    CountJoin(SupportingLowerWords, "delay", {}, " dd d    d");
  }

  lemma SupportingLitigation()
    ensures Count(Join(SupportingLowerWords), "litigation") == 0
  {
    CountJoin(SupportingLowerWords, "litigation", {}, "    l     ");
  }

  lemma SupportingMoratorium()
    ensures Count(Join(SupportingLowerWords), "moratorium") == 0
  {
    CountJoin(SupportingLowerWords, "moratorium", {}, "    o     ");
  }

  lemma SupportingProtest()
    ensures Count(Join(SupportingLowerWords), "protest") == 0
  {
    CountJoin(SupportingLowerWords, "protest", {}, " pe p     ");
  }

  lemma SupportingTraffic()
    ensures Count(Join(SupportingLowerWords), "traffic") == 0
  {
    CountJoin(SupportingLowerWords, "traffic", {}, " aa r     ");
  }

  lemma SupportingPollution()
    ensures Count(Join(SupportingLowerWords), "pollution") == 0
  {
    CountJoin(SupportingLowerWords, "pollution", {}, "    p     ");
  }

  lemma SupportingSupport()
    ensures Count(Join(SupportingLowerWords), "support") == 1
  {
    CountJoin(SupportingLowerWords, "support", {2}, " u  u     ");
  }

  lemma SupportingApprove()
    ensures Count(Join(SupportingLowerWords), "approve") == 0
  {
    CountJoin(SupportingLowerWords, "approve", {}, " aa a     ");
  }

  lemma SupportingOpportunity()
    ensures Count(Join(SupportingLowerWords), "opportunity") == 0
  {
    CountJoin(SupportingLowerWords, "opportunity", {}, "          ");
  }

  lemma SupportingJobs()
    ensures Count(Join(SupportingLowerWords), "jobs") == 1
  {
    CountJoin(SupportingLowerWords, "jobs", {7}, " jjjj    j");
  }

  lemma SupportingInvestment()
    ensures Count(Join(SupportingLowerWords), "investment") == 1
  {
    CountJoin(SupportingLowerWords, "investment", {4}, "          ");
  }

  lemma SupportingStrategic()
    ensures Count(Join(SupportingLowerWords), "strategic") == 0
  {
    CountJoin(SupportingLowerWords, "strategic", {}, "    r     ");
  }

  /** The negative hits of the lower-cased supporting transcript. */
  lemma SupportingNegativeHits()
    ensures Hits(Join(SupportingLowerWords), NegativeWords) == 0
  {
    var t := Join(SupportingLowerWords);
    NegativeHits(t);
    SupportingOppose();
    SupportingAgainst();
    SupportingConcern();
    SupportingDelay();
    SupportingLitigation();
    SupportingMoratorium();
    SupportingProtest();
    SupportingTraffic();
    SupportingPollution();
  }

  lemma SupportingInFavor()
    ensures Count(Join(SupportingLowerWords), "in favor") == 0
  {
    AbsentJoin(SupportingLowerWords, 'f');
    CountMissingChar(Join(SupportingLowerWords), "in favor", 'f');
  }

  lemma SupportingTaxBase()
    ensures Count(Join(SupportingLowerWords), "tax base") == 0
  {
    AbsentJoin(SupportingLowerWords, 'x');
    CountMissingChar(Join(SupportingLowerWords), "tax base", 'x');
  }

  /** The positive hits of the lower-cased supporting transcript. */
  lemma SupportingPositiveHits()
    ensures Hits(Join(SupportingLowerWords), PositiveWords) == 3
  {
    var t := Join(SupportingLowerWords);
    PositiveHits(t);
    SupportingSupport();
    SupportingInFavor();
    SupportingApprove();
    SupportingOpportunity();
    SupportingJobs();
    SupportingInvestment();
    SupportingStrategic();
    SupportingTaxBase();
  }

  /** Four negative keywords and no positive one give 50 - 40 = 10. */
  lemma OpposingJoinedScore()
    ensures SentimentScore(Join(OpposingWords)) == 10
  {
    JoinStart(OpposingWords);
    BlankIffAllSpace(Join(OpposingWords));
    OpposingLowered();
    OpposingNegativeHits();
    OpposingPositiveHits();
  }

  /** Three positive keywords and no negative one give 50 + 30 = 80. */
  lemma SupportingJoinedScore()
    ensures SentimentScore(Join(SupportingWords)) == 80
  {
    JoinStart(SupportingWords);
    BlankIffAllSpace(Join(SupportingWords));
    SupportingLowered();
    SupportingNegativeHits();
    SupportingPositiveHits();
  }

  /** The opposing transcript is its words joined by single spaces. */
  lemma OpposingText()
    ensures Join(OpposingWords) == "Residents oppose this due to traffic and pollution concerns"
  {
    var ws := OpposingWords;
    assert ws[..2][..1] == ws[..1];
    assert Join(ws[..2]) == "Residents oppose";
    assert ws[..3][..2] == ws[..2];
    assert Join(ws[..3]) == "Residents oppose this";
    assert ws[..4][..3] == ws[..3];
    assert Join(ws[..4]) == "Residents oppose this due";
    assert ws[..5][..4] == ws[..4];
    assert Join(ws[..5]) == "Residents oppose this due to";
    assert ws[..6][..5] == ws[..5];
    assert Join(ws[..6]) == "Residents oppose this due to traffic";
    assert ws[..7][..6] == ws[..6];
    assert Join(ws[..7]) == "Residents oppose this due to traffic and";
    assert ws[..8][..7] == ws[..7];
    assert Join(ws[..8]) == "Residents oppose this due to traffic and pollution";
    assert ws[..9][..8] == ws[..8];
    assert Join(ws[..9]) == "Residents oppose this due to traffic and pollution concerns";
    assert ws[..9] == ws;
  }

  /** The supporting transcript is its words joined by single spaces. */
  lemma SupportingText()
    ensures Join(SupportingWords) == "We strongly support this investment and the jobs it brings"
  {
    var ws := SupportingWords;
    assert ws[..2][..1] == ws[..1];
    assert Join(ws[..2]) == "We strongly";
    assert ws[..3][..2] == ws[..2];
    assert Join(ws[..3]) == "We strongly support";
    assert ws[..4][..3] == ws[..3];
    assert Join(ws[..4]) == "We strongly support this";
    assert ws[..5][..4] == ws[..4];
    assert Join(ws[..5]) == "We strongly support this investment";
    assert ws[..6][..5] == ws[..5];
    assert Join(ws[..6]) == "We strongly support this investment and";
    assert ws[..7][..6] == ws[..6];
    assert Join(ws[..7]) == "We strongly support this investment and the";
    assert ws[..8][..7] == ws[..7];
    assert Join(ws[..8]) == "We strongly support this investment and the jobs";
    assert ws[..9][..8] == ws[..8];
    assert Join(ws[..9]) == "We strongly support this investment and the jobs it";
    assert ws[..10][..9] == ws[..9];
    assert Join(ws[..10]) == "We strongly support this investment and the jobs it brings";
    assert ws[..10] == ws;
  }

  /**
   * An opposing council transcript: "oppose", "traffic", "pollution" and
   * "concern" (inside "concerns") are four negative hits, so it scores 10.
   */
  lemma OpposingTranscriptScore()
    ensures SentimentScore("Residents oppose this due to traffic and pollution concerns") == 10
  {
    OpposingText();
    OpposingJoinedScore();
  }

  /**
   * A supporting council transcript: "support", "investment" and "jobs" are
   * three positive hits and there is no negative one, so it scores 80.
   */
  lemma SupportingTranscriptScore()
    ensures SentimentScore("We strongly support this investment and the jobs it brings") == 80
  {
    SupportingText();
    SupportingJoinedScore();
  }
}
