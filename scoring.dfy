/**
 * `calculateScore(query, text)`: one field's text scored against an already lower-cased query
 * by a priority chain whose first applicable branch decides the value:
 *   1. exact match, 2. substring match, 3. fuzzy subsequence match, 4. word prefix, infix or typo.
 */
module Scoring {
  import opened Basics
  import opened Strings
  import opened EditDistance
  import opened Fuzzy

  /** Branch 2: `0.8 * lengthRatio * positionBonus` for a first occurrence at `position`. */
  function SubstringScore(queryLength: nat, textLength: nat, position: nat): real
    requires textLength > 0
  {
    var lengthRatio := queryLength as real / textLength as real;
    var positionBonus := 1.0 - (position as real / textLength as real * 0.5);
    0.8 * lengthRatio * positionBonus
  }

  /** The typo-tolerance candidate of branch 4 for a word that neither starts with nor contains
      the query. */
  function TypoCandidate(q: String, w: String): real
    requires |q| > 0
  {
    var editDistance := Distance(q, w);
    var maxLength := Max(|q|, |w|);
    var similarity := 1.0 - (editDistance as real / maxLength as real);
    if similarity > 0.6 && editDistance <= 2 then 0.4 * similarity else 0.0
  }

  /** What one word contributes in branch 4 (0 when it yields no candidate). */
  function WordCandidate(q: String, w: String): real
    requires |q| > 0
  {
    if StartsWith(w, q) then 0.7 * (|q| as real / |w| as real)
    else if Contains(w, q) then 0.5 * (|q| as real / |w| as real)
    else TypoCandidate(q, w)
  }

  /** Branch 4: the best candidate over the words, starting from 0. */
  function WordScore(q: String, ws: seq<String>): (r: real)
    requires |q| > 0
    ensures r >= 0.0
    ensures forall k :: 0 <= k < |ws| ==> WordCandidate(q, ws[k]) <= r
  {
    if ws == [] then 0.0
    else MaxReal(WordScore(q, ws[..|ws| - 1]), WordCandidate(q, ws[|ws| - 1]))
  }

  /** The priority chain. */
  function Score(q: String, t: String): real
  {
    if |t| == 0 || |q| == 0 then 0.0
    else if t == q then 1.0
    else if Contains(t, q) then SubstringScore(|q|, |t|, IndexOf(t, q, 0).value)
    else if FuzzyScore(q, t) > 0.0 then FuzzyScore(q, t) * 0.6
    else WordScore(q, SplitWords(t))
  }

  /** The source's early-return chain and word loop, proved to compute `Score`. */
  method CalculateScore(query: String, text: String) returns (score: real)
    ensures score == Score(query, text)
  {
    if |text| == 0 || |query| == 0 { return 0.0; }

    if text == query { return 1.0; }

    if Contains(text, query) {
      var position := IndexOf(text, query, 0).value;
      var lengthRatio := |query| as real / |text| as real;
      var positionBonus := 1.0 - (position as real / |text| as real * 0.5);
      return 0.8 * lengthRatio * positionBonus;
    }

    var fuzzyScore := FuzzyMatchScore(query, text);
    if fuzzyScore > 0.0 { return fuzzyScore * 0.6; }

    var words := SplitWords(text);
    var wordMatchScore := 0.0;
    for k := 0 to |words|
      invariant wordMatchScore == WordScore(query, words[..k])
    {
      var word := words[k];
      assert words[..k + 1][..k] == words[..k];
      if StartsWith(word, query) {
        wordMatchScore := MaxReal(wordMatchScore, 0.7 * (|query| as real / |word| as real));
      } else if Contains(word, query) {
        wordMatchScore := MaxReal(wordMatchScore, 0.5 * (|query| as real / |word| as real));
      } else {
        var editDistance := LevenshteinDistance(query, word);
        var maxLength := Max(|query|, |word|);
        var similarity := 1.0 - (editDistance as real / maxLength as real);
        if similarity > 0.6 && editDistance <= 2 {
          wordMatchScore := MaxReal(wordMatchScore, 0.4 * similarity);
        }
      }
    }
    assert words[..|words|] == words;
    return wordMatchScore;
  }

  /** An empty query or an empty text scores 0. */
  lemma ScoreOfEmpty(q: String, t: String)
    requires |q| == 0 || |t| == 0
    ensures Score(q, t) == 0.0
  {
  }

  /** Branch 2's value lies in (0, 0.8], below 0.8 unless the query fills the text, and its
      position bonus lies in (0.5, 1]. */
  lemma SubstringScoreRange(queryLength: nat, textLength: nat, position: nat)
    requires queryLength > 0 && position + queryLength <= textLength
    ensures var bonus := 1.0 - (position as real / textLength as real * 0.5);
      0.5 < bonus <= 1.0
    ensures 0.0 < SubstringScore(queryLength, textLength, position) <= 0.8
    ensures queryLength < textLength ==> SubstringScore(queryLength, textLength, position) < 0.8
  {
    var q, t, p := queryLength as real, textLength as real, position as real;
    var a, r := p / t, q / t;
    assert a + r == (p + q) / t;
    DivAtMostOne(p + q, t);
    assert r > 0.0 && a >= 0.0;
    var bonus := 1.0 - (a * 0.5);
    assert 0.5 < bonus <= 1.0;
    assert SubstringScore(queryLength, textLength, position) == 0.8 * r * bonus;
    assert 0.8 * r * bonus <= 0.8 * r;
    if queryLength < textLength {
      DivBelowOne(q, t);
      assert 0.8 * r < 0.8;
    }
  }

  /** Later first occurrences score strictly lower, all else equal. */
  lemma SubstringScoreDecreases(queryLength: nat, textLength: nat, p1: nat, p2: nat)
    requires queryLength > 0 && p1 < p2 && p2 + queryLength <= textLength
    ensures SubstringScore(queryLength, textLength, p1) > SubstringScore(queryLength, textLength, p2)
  {
    var q, t := queryLength as real, textLength as real;
    assert p2 as real / t - p1 as real / t == (p2 - p1) as real / t;
    var bonus1 := 1.0 - (p1 as real / t * 0.5);
    var bonus2 := 1.0 - (p2 as real / t * 0.5);
    assert bonus1 > bonus2;
    assert q / t > 0.0;
  }

  /** The exact branch: a non-empty text against itself scores exactly 1. */
  lemma ScoreOfExact(t: String)
    requires |t| > 0
    ensures Score(t, t) == 1.0
  {
  }

  /** A query occurring in a different text is scored by branch 2 at its first occurrence and
      lands in (0, 0.8). */
  lemma ScoreOfSubstring(q: String, t: String, p: nat)
    requires |q| > 0 && t != q
    requires OccursAt(t, q, p) && forall i :: 0 <= i < p ==> !OccursAt(t, q, i)
    ensures Score(q, t) == SubstringScore(|q|, |t|, p)
    ensures 0.0 < Score(q, t) < 0.8
  {
    IndexOfFirst(t, q, 0);
    var r := IndexOf(t, q, 0);
    assert r.Some? && r.value == p;
    OccursAtWhole(t, q, p);
    SubstringScoreRange(|q|, |t|, p);
  }

  /** Branch 3 is taken exactly when the query is not a substring but its first character
      occurs in the text; its value lies in (0, 0.9]. */
  lemma ScoreOfFuzzy(q: String, t: String)
    requires |q| > 0 && |t| > 0 && !Contains(t, q) && q[0] in t
    ensures Score(q, t) == FuzzyScore(q, t) * 0.6
    ensures 0.0 < Score(q, t) <= 0.9
  {
    assert OccursAt(t, t, 0);
    FuzzyScoreZeroIff(q, t);
    FuzzyScoreBound(q, t);
  }

  /** `StartsWith` and `Contains` on a word need the query's first character in the word. */
  lemma MatchNeedsFirstChar(q: String, w: String)
    requires |q| > 0
    ensures StartsWith(w, q) || Contains(w, q) ==> q[0] in w
  {
    if Contains(w, q) {
      var i: nat :| OccursAt(w, q, i);
      assert w[i] == w[i..i + |q|][0];
    }
    if StartsWith(w, q) {
      assert w[0] == w[0..|q|][0];
    }
  }

  /** Branch 4 is reached only when the first query character is absent from the text; then no
      word can start with or contain the query, so every candidate is a typo candidate and the
      value lies in [0, 0.4]. */
  lemma ScoreOfWords(q: String, t: String)
    requires |q| > 0 && |t| > 0 && !Contains(t, q) && FuzzyScore(q, t) == 0.0
    ensures q[0] !in t
    ensures Score(q, t) == WordScore(q, SplitWords(t))
    ensures forall w :: w in SplitWords(t) ==> WordCandidate(q, w) == TypoCandidate(q, w)
    ensures 0.0 <= Score(q, t) <= 0.4
  {
    assert OccursAt(t, t, 0);
    FuzzyScoreZeroIff(q, t);
    var ws := SplitWords(t);
    forall w | w in ws
      ensures WordCandidate(q, w) == TypoCandidate(q, w) && TypoCandidate(q, w) <= 0.4
    {
      var k :| 0 <= k < |ws| && ws[k] == w;
      assert forall j :: 0 <= j < |w| ==> w[j] in t;
      assert q[0] !in w;
      MatchNeedsFirstChar(q, w);
      TypoCandidateRange(q, w);
    }
    WordScoreIsACandidate(q, ws);
  }

  /** The typo candidate is positive exactly when the edit distance is at most 2 and the
      similarity exceeds 0.6; it never exceeds 0.4. A single edit needs a word (or query) of at
      least 3 characters, two edits need at least 6. */
  lemma TypoCandidateRange(q: String, w: String)
    requires |q| > 0
    ensures var ed := Distance(q, w);
      var similarity := 1.0 - (ed as real / Max(|q|, |w|) as real);
      TypoCandidate(q, w) > 0.0 <==> similarity > 0.6 && ed <= 2
    ensures 0.0 <= TypoCandidate(q, w) <= 0.4
    ensures TypoCandidate(q, w) > 0.0 && Distance(q, w) == 1 ==> Max(|q|, |w|) >= 3
    ensures TypoCandidate(q, w) > 0.0 && Distance(q, w) == 2 ==> Max(|q|, |w|) >= 6
  {
    DistanceBounds(q, w);
    SimilarityBounds(Distance(q, w), Max(|q|, |w|));
  }

  /** The similarity `1 - ed / m` of `ed <= m` edits lies in [0, 1]; above 0.6 it needs
      `m >= 3` for one edit and `m >= 6` for two. */
  lemma SimilarityBounds(ed: nat, m: nat)
    requires 0 < m && ed <= m
    ensures 0.0 <= 1.0 - (ed as real / m as real) <= 1.0
    ensures 1.0 - (ed as real / m as real) > 0.6 && ed == 1 ==> m >= 3
    ensures 1.0 - (ed as real / m as real) > 0.6 && ed == 2 ==> m >= 6
  {
    var ratio := ed as real / m as real;
    DivAtMostOne(ed as real, m as real);
    if 1.0 - ratio > 0.6 {
      MulDivCancel(ed as real, m as real);
      MulLess(ratio, 0.4, m as real);
    }
  }

  /** Two transposed letters are tolerated: "stauts" is within two edits of "status", so its
      candidate is at least 0.4 * (1 - 2/6); "xyz" is at least three edits from "status" and
      gets nothing. */
  lemma TypoExamples(q: String, w: String, far: String)
    requires q == "stauts" && w == "status" && far == "xyz"
    ensures 0.8 / 3.0 <= TypoCandidate(q, w) <= 0.4
    ensures TypoCandidate(far, w) == 0.0
  {
    StautsWithinTwo(q, w);
    CloseCandidate(q, w);
    TypoCandidateRange(q, w);
    DistanceBounds(far, w);
  }

  /** Two words of six letters at most two edits apart give a candidate of at least
      0.4 * (1 - 2/6). */
  lemma CloseCandidate(q: String, w: String)
    requires |q| == |w| == 6 && Distance(q, w) <= 2
    ensures 0.8 / 3.0 <= TypoCandidate(q, w)
  {
    var ed := Distance(q, w);
    assert Max(|q|, |w|) == 6;
    DivMonotone(ed as real, 2.0, 6.0);
    assert 2.0 / 6.0 < 0.4;
    var similarity := 1.0 - (ed as real / 6.0);
    assert similarity >= 1.0 - 2.0 / 6.0;
    assert TypoCandidate(q, w) == 0.4 * similarity;
  }

  /** "stauts" and "status" share "sta" and differ by the swapped pair "ut"/"tu". */
  lemma StautsWithinTwo(q: String, w: String)
    requires q == "stauts" && w == "status"
    ensures |q| == |w| == 6 && Distance(q, w) <= 2
  {
    assert q[..3] == w[..3];
    LevCommonPrefix(q, w, 3);
    assert Lev(q, w, 4, 4) <= Lev(q, w, 3, 3) + 1;
    assert Lev(q, w, 5, 5) <= Lev(q, w, 4, 4) + 1;
    assert Distance(q, w) == Lev(q, w, 5, 5);
  }

  /** Branch 4's value is either 0 or the candidate of one of the words, and at most 0.7. */
  lemma {:induction false} WordScoreIsACandidate(q: String, ws: seq<String>)
    requires |q| > 0
    ensures WordScore(q, ws) == 0.0 || exists k :: 0 <= k < |ws| && WordScore(q, ws) == WordCandidate(q, ws[k])
    ensures WordScore(q, ws) <= 0.7
  {
    if ws != [] {
      var init := ws[..|ws| - 1];
      WordScoreIsACandidate(q, init);
      WordCandidateRange(q, ws[|ws| - 1]);
      if WordScore(q, ws) != 0.0 && WordScore(q, ws) != WordCandidate(q, ws[|ws| - 1]) {
        var k :| 0 <= k < |init| && WordScore(q, init) == WordCandidate(q, init[k]);
        assert ws[k] == init[k];
      }
    }
  }

  /** One word contributes a value in [0, 0.7]. */
  lemma WordCandidateRange(q: String, w: String)
    requires |q| > 0
    ensures 0.0 <= WordCandidate(q, w) <= 0.7
  {
    TypoCandidateRange(q, w);
    if StartsWith(w, q) || Contains(w, q) {
      if Contains(w, q) { var i: nat :| OccursAt(w, q, i); }
      DivAtMostOne(|q| as real, |w| as real);
    }
  }

  /** Every field score lies in [0, 1], and it is 1 exactly for a non-empty exact match. */
  lemma ScoreRange(q: String, t: String)
    ensures 0.0 <= Score(q, t) <= 1.0
    ensures Score(q, t) == 1.0 <==> |q| > 0 && t == q
  {
    if |q| > 0 && |t| > 0 && t != q {
      if Contains(t, q) {
        var p := IndexOf(t, q, 0).value;
        IndexOfFirst(t, q, 0);
        ScoreOfSubstring(q, t, p);
      } else if q[0] in t {
        ScoreOfFuzzy(q, t);
      } else {
        FuzzyScoreZeroIff(q, t);
        ScoreOfWords(q, t);
      }
    }
  }
}
