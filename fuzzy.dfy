/**
 * `fuzzyMatchScore(query, text)`: a greedy left-to-right scan that matches the query as a
 * subsequence of the text, counting the matched characters and the longest run of matches at
 * consecutive text positions, then combines the two into a score.
 */
module Fuzzy {
  import opened Basics
  import opened Strings

  /** The variables of the scan loop. */
  datatype ScanState = ScanState(queryIndex: nat, textIndex: nat, matches: nat,
                                 consecutive: nat, maxConsecutive: nat)

  const Start := ScanState(0, 0, 0, 0, 0)

  /** The scan, run from state `s` until the query or the text is used up. */
  function Scan(q: String, t: String, s: ScanState): ScanState
    requires s.queryIndex <= |q| && s.textIndex <= |t|
    decreases |t| - s.textIndex
  {
    if s.queryIndex < |q| && s.textIndex < |t| then
      if q[s.queryIndex] == t[s.textIndex] then
        Scan(q, t, ScanState(s.queryIndex + 1, s.textIndex + 1, s.matches + 1, s.consecutive + 1,
                             Max(s.maxConsecutive, s.consecutive + 1)))
      else
        Scan(q, t, s.(textIndex := s.textIndex + 1, consecutive := 0))
    else
      s
  }

  /** How many characters of `q`, from the front, a greedy scan finds in order in `t`. */
  function GreedyMatches(q: String, t: String): nat
    decreases |t|
  {
    if q == [] || t == [] then 0
    else if q[0] == t[0] then 1 + GreedyMatches(q[1..], t[1..])
    else GreedyMatches(q, t[1..])
  }

  /** `idx` places each character of `q` at a position of `t`, at strictly increasing positions. */
  ghost predicate Embedding(q: String, t: String, idx: seq<nat>)
  {
    && |idx| == |q|
    && (forall k :: 0 <= k < |q| ==> idx[k] < |t| && t[idx[k]] == q[k])
    && (forall k, l :: 0 <= k < l < |q| ==> idx[k] < idx[l])
  }

  /** `q` is a (not necessarily contiguous) subsequence of `t`. */
  ghost predicate IsSubsequence(q: String, t: String)
  {
    exists idx :: Embedding(q, t, idx)
  }

  function FuzzyFormula(matches: nat, maxConsecutive: nat, queryLength: nat, textLength: nat): real
    requires queryLength > 0 && textLength > 0
  {
    var completionRatio := matches as real / queryLength as real;
    var consecutiveBonus := maxConsecutive as real / queryLength as real * 0.5;
    var lengthPenalty := MaxReal(0.0, 1.0 - (textLength - queryLength) as real / textLength as real * 0.2);
    (completionRatio + consecutiveBonus) * lengthPenalty
  }

  /** The value the source returns. */
  function FuzzyScore(q: String, t: String): real
  {
    if |q| == 0 then 0.0
    else if |t| == 0 then 0.0
    else
      var s := Scan(q, t, Start);
      if s.matches == 0 then 0.0 else FuzzyFormula(s.matches, s.maxConsecutive, |q|, |t|)
  }

  /** The loop of the source, proved to compute `FuzzyScore`. */
  method FuzzyMatchScore(query: String, text: String) returns (score: real)
    ensures score == FuzzyScore(query, text)
  {
    if |query| == 0 { return 0.0; }
    if |text| == 0 { return 0.0; }

    var queryIndex: nat := 0;
    var textIndex: nat := 0;
    var matches: nat := 0;
    var consecutiveMatches: nat := 0;
    var maxConsecutive: nat := 0;

    while queryIndex < |query| && textIndex < |text|
      invariant matches == queryIndex <= |query|
      invariant consecutiveMatches <= maxConsecutive <= matches
      invariant textIndex <= |text|
      invariant Scan(query, text, ScanState(queryIndex, textIndex, matches, consecutiveMatches, maxConsecutive))
             == Scan(query, text, Start)
      decreases |text| - textIndex
    {
      if query[queryIndex] == text[textIndex] {
        matches := matches + 1;
        consecutiveMatches := consecutiveMatches + 1;
        maxConsecutive := Max(maxConsecutive, consecutiveMatches);
        queryIndex := queryIndex + 1;
      } else {
        consecutiveMatches := 0;
      }
      textIndex := textIndex + 1;
    }

    if matches == 0 { return 0.0; }

    var completionRatio := matches as real / |query| as real;
    var consecutiveBonus := maxConsecutive as real / |query| as real * 0.5;
    var lengthPenalty := MaxReal(0.0, 1.0 - (|text| - |query|) as real / |text| as real * 0.2);
    score := (completionRatio + consecutiveBonus) * lengthPenalty;
  }

  /** The loop invariants hold of the final state too, and the scan stops only when the query
      or the text is used up. */
  lemma {:induction false} ScanKeeps(q: String, t: String, s: ScanState)
    requires s.queryIndex <= |q| && s.textIndex <= |t|
    requires s.matches == s.queryIndex && s.consecutive <= s.maxConsecutive <= s.matches
    ensures var e := Scan(q, t, s);
      && e.matches == e.queryIndex <= |q| && e.textIndex <= |t|
      && e.consecutive <= e.maxConsecutive <= e.matches
      && (e.queryIndex == |q| || e.textIndex == |t|)
      && e.maxConsecutive >= s.maxConsecutive
      && (e.matches > s.matches ==> e.maxConsecutive >= 1)
    decreases |t| - s.textIndex
  {
    if s.queryIndex < |q| && s.textIndex < |t| {
      if q[s.queryIndex] == t[s.textIndex] {
        ScanKeeps(q, t, ScanState(s.queryIndex + 1, s.textIndex + 1, s.matches + 1, s.consecutive + 1,
                                  Max(s.maxConsecutive, s.consecutive + 1)));
      } else {
        ScanKeeps(q, t, s.(textIndex := s.textIndex + 1, consecutive := 0));
      }
    }
  }

  /** The matches the scan counts from a state are exactly the greedy matches of the rest of
      the query in the rest of the text. */
  lemma {:induction false} ScanCountsGreedy(q: String, t: String, s: ScanState)
    requires s.queryIndex <= |q| && s.textIndex <= |t|
    ensures Scan(q, t, s).matches == s.matches + GreedyMatches(q[s.queryIndex..], t[s.textIndex..])
    decreases |t| - s.textIndex
  {
    var q', t' := q[s.queryIndex..], t[s.textIndex..];
    if s.queryIndex < |q| && s.textIndex < |t| {
      assert q'[0] == q[s.queryIndex] && t'[0] == t[s.textIndex];
      assert t'[1..] == t[s.textIndex + 1..];
      if q[s.queryIndex] == t[s.textIndex] {
        assert q'[1..] == q[s.queryIndex + 1..];
        ScanCountsGreedy(q, t, ScanState(s.queryIndex + 1, s.textIndex + 1, s.matches + 1, s.consecutive + 1,
                                         Max(s.maxConsecutive, s.consecutive + 1)));
      } else {
        ScanCountsGreedy(q, t, s.(textIndex := s.textIndex + 1, consecutive := 0));
      }
    } else {
      assert q' == [] || t' == [];
    }
  }

  lemma {:induction false} GreedyBounds(q: String, t: String)
    ensures GreedyMatches(q, t) <= |q| && GreedyMatches(q, t) <= |t|
    decreases |t|
  {
    if q != [] && t != [] {
      if q[0] == t[0] {
        GreedyBounds(q[1..], t[1..]);
      } else {
        GreedyBounds(q, t[1..]);
      }
    }
  }

  /** The greedy scan matches nothing exactly when the first query character is absent. */
  lemma {:induction false} GreedyZeroIff(q: String, t: String)
    requires |q| > 0
    ensures GreedyMatches(q, t) == 0 <==> q[0] !in t
    decreases |t|
  {
    if t != [] && q[0] != t[0] {
      GreedyZeroIff(q, t[1..]);
      assert t == [t[0]] + t[1..];
    }
  }

  /** A complete greedy match gives an embedding of the query into the text. */
  lemma {:induction false} GreedyEmbeds(q: String, t: String) returns (idx: seq<nat>)
    requires GreedyMatches(q, t) == |q|
    ensures Embedding(q, t, idx)
    decreases |t|
  {
    if q == [] {
      idx := [];
    } else if t == [] {
      assert false;
    } else if q[0] == t[0] {
      var rest := GreedyEmbeds(q[1..], t[1..]);
      idx := [0] + seq(|rest|, k requires 0 <= k < |rest| => rest[k] + 1);
    } else {
      GreedyBounds(q, t[1..]);
      var rest := GreedyEmbeds(q, t[1..]);
      idx := seq(|rest|, k requires 0 <= k < |rest| => rest[k] + 1);
    }
  }

  /** An embedding of the query into the text is found completely by the greedy scan. */
  lemma {:induction false} EmbeddingGreedy(q: String, t: String, idx: seq<nat>)
    requires Embedding(q, t, idx)
    ensures GreedyMatches(q, t) == |q|
    decreases |t|
  {
    if q != [] {
      assert idx[0] < |t|;
      if q[0] == t[0] {
        var rest := seq(|q| - 1, k requires 0 <= k < |q| - 1 => idx[k + 1] - 1);
        forall k | 0 <= k < |q| - 1
          ensures rest[k] < |t| - 1 && t[1..][rest[k]] == q[1..][k]
        {
          assert idx[0] < idx[k + 1];
        }
        EmbeddingGreedy(q[1..], t[1..], rest);
      } else {
        assert idx[0] > 0;
        var rest := seq(|q|, k requires 0 <= k < |q| => idx[k] - 1);
        forall k | 0 <= k < |q|
          ensures rest[k] < |t| - 1 && t[1..][rest[k]] == q[k]
        {
          assert k > 0 ==> idx[0] < idx[k];
        }
        EmbeddingGreedy(q, t[1..], rest);
      }
    }
  }

  /** The completion ratio is 1 exactly when the query is a subsequence of the text. */
  lemma ScanMatchesAllIff(q: String, t: String)
    ensures Scan(q, t, Start).matches == |q| <==> IsSubsequence(q, t)
  {
    ScanCountsGreedy(q, t, Start);
    assert q[0..] == q && t[0..] == t;
    if GreedyMatches(q, t) == |q| {
      var idx := GreedyEmbeds(q, t);
    }
    if IsSubsequence(q, t) {
      var idx :| Embedding(q, t, idx);
      EmbeddingGreedy(q, t, idx);
    }
  }

  /** The length penalty never reaches its floor of 0: it stays above 0.8. */
  lemma LengthPenaltyAbove(queryLength: nat, textLength: nat)
    requires queryLength > 0 && textLength > 0
    ensures 1.0 - (textLength - queryLength) as real / textLength as real * 0.2 > 0.8
  {
    var d := (textLength - queryLength) as real;
    assert d < textLength as real;
    assert d / textLength as real < 1.0;
  }

  /** The score is zero exactly when nothing was matched, that is, when the first query
      character does not occur in the text; otherwise it is positive. */
  lemma FuzzyScoreZeroIff(q: String, t: String)
    requires |q| > 0 && |t| > 0
    ensures FuzzyScore(q, t) == 0.0 <==> q[0] !in t
    ensures FuzzyScore(q, t) >= 0.0
  {
    ScanCountsGreedy(q, t, Start);
    assert q[0..] == q && t[0..] == t;
    GreedyZeroIff(q, t);
    ScanKeeps(q, t, Start);
    var s := Scan(q, t, Start);
    if s.matches > 0 {
      LengthPenaltyAbove(|q|, |t|);
      var completionRatio := s.matches as real / |q| as real;
      var consecutiveBonus := s.maxConsecutive as real / |q| as real * 0.5;
      assert completionRatio > 0.0;
      assert consecutiveBonus >= 0.0;
    }
  }

  lemma ProductBound(a: real, b: real, c: real, r: real, p: real)
    requires 0.0 <= c <= a <= 1.0 && 0.0 <= b <= 1.0 && r > 0.0
    requires a * r == b && p == 0.8 + 0.2 * r
    ensures (a + c * 0.5) * p <= 1.5
  {
    assert (a + c * 0.5) * p <= (1.5 * a) * p;
    assert (1.5 * a) * p == 1.5 * (0.8 * a + 0.2 * (a * r));
  }

  /** Once floored, the length penalty is `0.8 + 0.2 * |q| / |t|`. */
  lemma PenaltyForm(ql: nat, tl: nat)
    requires ql > 0 && tl > 0
    ensures MaxReal(0.0, 1.0 - (tl - ql) as real / tl as real * 0.2) == 0.8 + 0.2 * (ql as real / tl as real)
  {
    LengthPenaltyAbove(ql, tl);
    var q, t := ql as real, tl as real;
    assert (tl - ql) as real == t - q;
    assert (t - q) / t == t / t - q / t && t / t == 1.0;
  }

  lemma RatioProduct(x: real, q: real, t: real)
    requires q > 0.0 && t > 0.0
    ensures q / t > 0.0
    ensures x / q * (q / t) == x / t
  {
    assert x / q * q == x;
  }

  lemma FormulaBound(m: nat, mc: nat, ql: nat, tl: nat)
    requires ql > 0 && tl > 0 && mc <= m && m <= ql && m <= tl
    ensures FuzzyFormula(m, mc, ql, tl) <= 1.5
  {
    var q, t, x, y := ql as real, tl as real, m as real, mc as real;
    PenaltyForm(ql, tl);
    RatioProduct(x, q, t);
    DivAtMostOne(x, q);
    DivAtMostOne(x, t);
    DivMonotone(y, x, q);
    ProductBound(x / q, x / t, y / q, q / t, 0.8 + 0.2 * (q / t));
  }

  /** The raw score never exceeds 1.5. */
  lemma FuzzyScoreBound(q: String, t: String)
    ensures 0.0 <= FuzzyScore(q, t) <= 1.5
  {
    if |q| > 0 && |t| > 0 {
      FuzzyScoreZeroIff(q, t);
      ScanCountsGreedy(q, t, Start);
      assert q[0..] == q && t[0..] == t;
      GreedyBounds(q, t);
      ScanKeeps(q, t, Start);
      var s := Scan(q, t, Start);
      if s.matches > 0 {
        FormulaBound(s.matches, s.maxConsecutive, |q|, |t|);
      }
    }
  }

  /** For a fixed number of matches and fixed lengths, a longer consecutive run scores higher. */
  lemma FormulaIncreasesWithRun(m: nat, mc1: nat, mc2: nat, ql: nat, tl: nat)
    requires ql > 0 && tl > 0 && mc1 < mc2
    ensures FuzzyFormula(m, mc1, ql, tl) < FuzzyFormula(m, mc2, ql, tl)
  {
    LengthPenaltyAbove(ql, tl);
    var q := ql as real;
    assert mc1 as real / q < mc2 as real / q;
  }
}
