/**
 * The simulated "AI sentiment scraper": a keyword-counting heuristic that maps
 * a council transcript to a 0-100 sentiment score, and the 0-10 weight
 * suggestion derived from that score.
 *
 * Strings are ASCII: lower-casing and whitespace stripping follow Python's
 * `str.lower` and `str.strip` on ASCII characters only.
 */
module Sentiment {

  /** Python's `str.isspace` on ASCII: space, \t \n \x0b \x0c \r and \x1c-\x1f. */
  predicate IsSpace(c: char) {
    c == ' ' || 9 <= c as int <= 13 || 28 <= c as int <= 31
  }

  /** Leading whitespace removed (`str.lstrip()`). */
  function TrimStart(s: string): (r: string)
    ensures |r| <= |s|
  {
    if s != [] && IsSpace(s[0]) then TrimStart(s[1..]) else s
  }

  /** Trailing whitespace removed (`str.rstrip()`). */
  function TrimEnd(s: string): (r: string)
    ensures |r| <= |s|
  {
    if s != [] && IsSpace(s[|s| - 1]) then TrimEnd(s[..|s| - 1]) else s
  }

  /** `str.strip()` with no argument. */
  function Strip(s: string): string {
    TrimEnd(TrimStart(s))
  }

  /** The guard `not text or not text.strip()`. */
  predicate IsBlank(text: string) {
    text == [] || Strip(text) == []
  }

  predicate AllSpace(s: string) {
    forall i :: 0 <= i < |s| ==> IsSpace(s[i])
  }

  lemma {:induction false} TrimStartEmpty(s: string)
    ensures TrimStart(s) == [] <==> AllSpace(s)
    ensures TrimStart(s) != [] ==> !IsSpace(TrimStart(s)[0])
    decreases |s|
  {
    if s != [] && IsSpace(s[0]) {
      TrimStartEmpty(s[1..]);
      assert AllSpace(s) <==> AllSpace(s[1..]) by {
        forall i | 0 <= i < |s[1..]| ensures s[1..][i] == s[i + 1] { }
      }
    }
  }

  lemma {:induction false} TrimEndKeepsFirst(s: string)
    requires s != [] && !IsSpace(s[0])
    ensures TrimEnd(s) != []
    decreases |s|
  {
    if IsSpace(s[|s| - 1]) {
      assert |s| > 1;
      TrimEndKeepsFirst(s[..|s| - 1]);
    }
  }

  /** A text is blank exactly when every character of it is whitespace. */
  lemma BlankIffAllSpace(text: string)
    ensures IsBlank(text) <==> AllSpace(text)
  {
    TrimStartEmpty(text);
    var t := TrimStart(text);
    if t != [] {
      TrimEndKeepsFirst(t);
    }
  }

  /** Python's `str.lower` on one ASCII character. */
  function LowerChar(c: char): char {
    if 'A' <= c <= 'Z' then (c as int + 32) as char else c
  }

  function ToLower(s: string): (r: string)
    ensures |r| == |s|
  {
    seq(|s|, i requires 0 <= i < |s| => LowerChar(s[i]))
  }

  /**
   * Python's `t.count(w)`: occurrences of `w` in `t`, scanned left to right,
   * a match resuming the scan after its last character (matches never
   * overlap). The empty word occurs at every one of the |t| + 1 positions.
   */
  function Count(t: string, w: string): nat
    decreases |t|
  {
    if |w| == 0 then |t| + 1
    else if |t| < |w| then 0
    else if StartsWith(t, w) then 1 + Count(t[|w|..], w)
    else Count(t[1..], w)
  }

  /** `t.startswith(w)`, compared character by character. */
  predicate StartsWith(t: string, w: string) {
    |w| == 0 || (|t| > 0 && t[0] == w[0] && StartsWith(t[1..], w[1..]))
  }

  /** The character-wise prefix test is the prefix slice test. */
  lemma {:induction false} StartsWithIsPrefix(t: string, w: string)
    ensures StartsWith(t, w) <==> |w| <= |t| && t[..|w|] == w
    decreases |w|
  {
    if |w| > 0 && |t| > 0 {
      StartsWithIsPrefix(t[1..], w[1..]);
      if |w| <= |t| {
        assert t[..|w|] == [t[0]] + t[1..][..|w| - 1];
        assert w == [w[0]] + w[1..];
      }
    }
  }

  predicate MatchesAt(t: string, w: string, i: nat) {
    i + |w| <= |t| && t[i..i + |w|] == w
  }

  /** `w in t`, Python's substring test. */
  predicate Occurs(w: string, t: string) {
    exists i: nat :: i <= |t| && MatchesAt(t, w, i)
  }

  /** Non-overlapping matches of a non-empty word fit side by side in the text. */
  lemma {:induction false} CountFits(t: string, w: string)
    requires |w| > 0
    ensures Count(t, w) * |w| <= |t|
    decreases |t|
  {
    if |t| >= |w| {
      if StartsWith(t, w) {
        CountFits(t[|w|..], w);
      } else {
        CountFits(t[1..], w);
      }
    }
  }

  /** The count is zero exactly when the word does not occur at all. */
  lemma {:induction false} CountZeroIffAbsent(t: string, w: string)
    requires |w| > 0
    ensures Count(t, w) == 0 <==> !Occurs(w, t)
    decreases |t|
  {
    StartsWithIsPrefix(t, w);
    if |t| < |w| {
      forall i: nat ensures !MatchesAt(t, w, i) { }
    } else if StartsWith(t, w) {
      assert MatchesAt(t, w, 0);
    } else {
      CountZeroIffAbsent(t[1..], w);
      forall i: nat ensures MatchesAt(t[1..], w, i) <==> MatchesAt(t, w, i + 1) {
        if i + |w| <= |t[1..]| {
          assert t[1..][i..i + |w|] == t[i + 1..i + 1 + |w|];
        }
      }
      assert !MatchesAt(t, w, 0);
      if Occurs(w, t) {
        var i: nat :| i <= |t| && MatchesAt(t, w, i);
        assert i > 0;
        assert MatchesAt(t[1..], w, i - 1);
      }
      if Occurs(w, t[1..]) {
        var i: nat :| i <= |t[1..]| && MatchesAt(t[1..], w, i);
        assert MatchesAt(t, w, i + 1);
      }
    }
  }

  /** A word with a character the text lacks does not occur in it. */
  lemma CountMissingChar(t: string, w: string, c: char)
    requires c in w && c !in t
    ensures Count(t, w) == 0
  {
    CountZeroIffAbsent(t, w);
  }

  /**
   * A word without a space never matches across a space: counting in two
   * pieces of text joined by a space is counting in each piece.
   */
  lemma {:induction false} CountSplit(a: string, b: string, w: string)
    requires ' ' !in w && |w| > 0
    ensures Count(a + " " + b, w) == Count(a, w) + Count(b, w)
    decreases |a|
  {
    var t := a + " " + b;
    StartsWithIsPrefix(t, w);
    if |a| < |w| {
      if |t| >= |w| {
        assert t[..|w|][|a|] == ' ';
        assert !StartsWith(t, w);
        if a == [] {
          assert t[1..] == b;
        } else {
          assert t[1..] == a[1..] + " " + b;
          CountSplit(a[1..], b, w);
          assert Count(a, w) == 0 && Count(a[1..], w) == 0;
        }
      } else {
        assert Count(b, w) == 0;
      }
    } else {
      StartsWithIsPrefix(a, w);
      assert t[..|w|] == a[..|w|];
      if StartsWith(a, w) {
        assert t[|w|..] == a[|w|..] + " " + b;
        CountSplit(a[|w|..], b, w);
      } else {
        assert t[1..] == a[1..] + " " + b;
        CountSplit(a[1..], b, w);
      }
    }
  }

  const PositiveWords: seq<string> :=
    ["support", "in favor", "approve", "opportunity", "jobs", "investment", "strategic", "tax base"]

  const NegativeWords: seq<string> :=
    ["oppose", "against", "concern", "delay", "litigation", "moratorium", "protest", "traffic", "pollution"]

  /** `sum(t.count(w) for w in words)`. */
  function Hits(t: string, words: seq<string>): nat {
    if words == [] then 0 else Count(t, words[0]) + Hits(t, words[1..])
  }

  /** `max(0, min(100, x))`. */
  function Clamp(x: int): (r: int)
    ensures 0 <= r <= 100
    ensures 0 <= x <= 100 ==> r == x
    ensures x < 0 ==> r == 0
    ensures x > 100 ==> r == 100
  {
    if x < 0 then 0 else if x > 100 then 100 else x
  }

  /** The keyword balance 50 + 10 * (positive hits - negative hits) of a lower-cased text. */
  function Balance(t: string): int {
    50 + 10 * (Hits(t, PositiveWords) - Hits(t, NegativeWords))
  }

  /** `simulate_sentiment_score`. */
  function SentimentScore(text: string): (score: int)
    ensures 0 <= score <= 100
    ensures score % 10 == 0
    ensures IsBlank(text) ==> score == 50
  {
    if IsBlank(text) then 50
    else
      var b := Balance(ToLower(text));
      assert b % 10 == 0;
      Clamp(b)
  }

  /** Python's built-in `round` on a real: to the nearest integer, ties to even. */
  function RoundHalfEven(x: real): (n: int)
    ensures x - 1.0 / 2.0 <= n as real <= x + 1.0 / 2.0
    ensures x - n as real == 1.0 / 2.0 || n as real - x == 1.0 / 2.0 ==> n % 2 == 0
  {
    var f := x.Floor;
    var d := x - f as real;
    if d < 0.5 then f
    else if d > 0.5 then f + 1
    else if f % 2 == 0 then f
    else f + 1
  }

  /** `int(round(sentiment_score / 10))`, the weight the scraper suggests. */
  function SuggestedWeight(score: int): int {
    RoundHalfEven(score as real / 10.0)
  }

  /**
   * Because the score is always a multiple of ten, the rounding is exact:
   * the suggested weight is the score divided by ten and is a valid slider
   * value in [0, 10].
   */
  lemma SuggestedWeightExact(text: string)
    ensures SuggestedWeight(SentimentScore(text)) * 10 == SentimentScore(text)
    ensures 0 <= SuggestedWeight(SentimentScore(text)) <= 10
  {
    var s := SentimentScore(text);
    var k := s / 10;
    assert s == 10 * k;
    assert s as real / 10.0 == k as real;
  }

  /** A text that differs only in letter case gets the same score. */
  lemma CaseInsensitive(text: string)
    ensures SentimentScore(ToLower(text)) == SentimentScore(text)
  {
    var l := ToLower(text);
    assert ToLower(l) == l;
    forall i | 0 <= i < |text| ensures IsSpace(l[i]) <==> IsSpace(text[i]) { }
    BlankIffAllSpace(text);
    BlankIffAllSpace(l);
  }

  /** Python's `"aaa".count("aa")` is 1: a match resumes after its end. */
  lemma CountDoesNotOverlap()
    ensures Count("aaa", "aa") == 1
  {
  }
}
