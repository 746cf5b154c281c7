/**
 * `fuzzySearch(query, commands)`: every command is scored field by field against the
 * lower-cased query, the field scores are combined with fixed weights, commands whose total
 * does not exceed the threshold are dropped, and the rest are annotated with their total and
 * their highlight spans and sorted by total, highest first, ties in input order.
 */
module Ranking {
  import opened Basics
  import opened Strings
  import opened Scoring
  import opened Highlighting

  datatype Command = Command(id: String, name: String, value: String, description: String, tags: seq<String>)

  /** The spans of the query in each lower-cased field; one list per tag. */
  datatype FieldHighlights = FieldHighlights(
    name: seq<Span>, value: seq<Span>, description: seq<Span>, tags: seq<seq<Span>>)

  /** A command with its `_searchScore` and `_matchHighlights`. */
  datatype RankedResult = RankedResult(command: Command, score: real, highlights: FieldHighlights)

  const NameWeight: real := 3.0
  const ValueWeight: real := 2.0
  const DescriptionWeight: real := 1.0
  const TagsWeight: real := 2.5
  const Threshold: real := 0.1

  /** `Math.max(...tags.map(score), 0)`: the best tag score, 0 for no tags or no positive one. */
  function TagsScore(q: String, tags: seq<String>): (r: real)
    ensures r >= 0.0
    ensures forall k :: 0 <= k < |tags| ==> Score(q, Lower(tags[k])) <= r
    ensures r == 0.0 || exists k :: 0 <= k < |tags| && r == Score(q, Lower(tags[k]))
  {
    if tags == [] then 0.0
    else
      var init := tags[..|tags| - 1];
      assert forall k :: 0 <= k < |init| ==> init[k] == tags[k];
      MaxReal(TagsScore(q, init), Score(q, Lower(tags[|tags| - 1])))
  }

  /** The weighted sum of the field scores. */
  function TotalScore(q: String, c: Command): real
  {
    Score(q, Lower(c.name)) * NameWeight
      + Score(q, Lower(c.value)) * ValueWeight
      + Score(q, Lower(c.description)) * DescriptionWeight
      + TagsScore(q, c.tags) * TagsWeight
  }

  function TagHighlights(q: String, tags: seq<String>): (hs: seq<seq<Span>>)
    ensures |hs| == |tags|
    ensures forall k :: 0 <= k < |tags| ==> hs[k] == Highlights(q, Lower(tags[k]))
  {
    seq(|tags|, k requires 0 <= k < |tags| => Highlights(q, Lower(tags[k])))
  }

  function FieldHighlightsOf(q: String, c: Command): FieldHighlights
  {
    FieldHighlights(
      Highlights(q, Lower(c.name)), Highlights(q, Lower(c.value)),
      Highlights(q, Lower(c.description)), TagHighlights(q, c.tags))
  }

  function Annotate(q: String, c: Command): RankedResult
  {
    RankedResult(c, TotalScore(q, c), FieldHighlightsOf(q, c))
  }

  /** Every command with its total and its highlights, in input order. */
  function Annotated(q: String, cmds: seq<Command>): (rs: seq<RankedResult>)
    ensures |rs| == |cmds|
    ensures forall i :: 0 <= i < |cmds| ==> rs[i] == Annotate(q, cmds[i])
  {
    seq(|cmds|, i requires 0 <= i < |cmds| => Annotate(q, cmds[i]))
  }

  /** The results whose score exceeds the threshold, in their order. */
  function AboveThreshold(rs: seq<RankedResult>): seq<RankedResult>
  {
    if rs == [] then []
    else
      var r := rs[|rs| - 1];
      AboveThreshold(rs[..|rs| - 1]) + (if r.score > Threshold then [r] else [])
  }

  /** The annotated commands whose total exceeds the threshold, in input order. */
  function Kept(q: String, cmds: seq<Command>): seq<RankedResult>
  {
    AboveThreshold(Annotated(q, cmds))
  }

  /** Places `x` before the first element whose score does not exceed its own. */
  function Insert(x: RankedResult, s: seq<RankedResult>): seq<RankedResult>
  {
    if s == [] then [x]
    else if s[0].score <= x.score then [x] + s
    else [s[0]] + Insert(x, s[1..])
  }

  /** `results.sort((a, b) => b._searchScore - a._searchScore)` under a stable sort. */
  function SortDesc(s: seq<RankedResult>): seq<RankedResult>
  {
    if s == [] then [] else Insert(s[0], SortDesc(s[1..]))
  }

  /** The ranking the search returns for a (not yet lower-cased) query. */
  function Rank(query: String, cmds: seq<Command>): seq<RankedResult>
  {
    SortDesc(Kept(Lower(query), cmds))
  }

  ghost predicate SortedDesc(s: seq<RankedResult>)
  {
    forall i, j :: 0 <= i < j < |s| ==> s[i].score >= s[j].score
  }

  /** The elements of `s` whose score is `v`, in their order in `s`. */
  function WithScore(s: seq<RankedResult>, v: real): seq<RankedResult>
  {
    if s == [] then []
    else (if s[0].score == v then [s[0]] else []) + WithScore(s[1..], v)
  }

  // ---------------------------------------------------------------------------------------
  // The methods: the source's loops, proved against the functions above.
  // ---------------------------------------------------------------------------------------

  /** The tag scores and their maximum with 0. */
  method TagScores(queryLower: String, tags: seq<String>) returns (best: real)
    ensures best == TagsScore(queryLower, tags)
  {
    best := 0.0;
    for k := 0 to |tags|
      invariant best == TagsScore(queryLower, tags[..k])
    {
      assert tags[..k + 1][..k] == tags[..k];
      var tagScore := CalculateScore(queryLower, Lower(tags[k]));
      best := MaxReal(best, tagScore);
    }
    assert tags[..|tags|] == tags;
  }

  /** `cmd.tags.map(tag => getHighlights(queryLower, tag.toLowerCase()))`. */
  method TagHighlightLists(queryLower: String, tags: seq<String>) returns (lists: seq<seq<Span>>)
    ensures lists == TagHighlights(queryLower, tags)
  {
    lists := [];
    for k := 0 to |tags|
      invariant |lists| == k
      invariant forall i :: 0 <= i < k ==> lists[i] == Highlights(queryLower, Lower(tags[i]))
    {
      var spans := GetHighlights(queryLower, Lower(tags[k]));
      lists := lists + [spans];
    }
  }

  /** The field scores of one command and their weighted total. */
  method WeightedScore(queryLower: String, cmd: Command) returns (totalScore: real)
    ensures totalScore == TotalScore(queryLower, cmd)
  {
    var nameScore := CalculateScore(queryLower, Lower(cmd.name));
    var valueScore := CalculateScore(queryLower, Lower(cmd.value));
    var descriptionScore := CalculateScore(queryLower, Lower(cmd.description));
    var tagsScore := TagScores(queryLower, cmd.tags);
    totalScore := nameScore * NameWeight + valueScore * ValueWeight
      + descriptionScore * DescriptionWeight + tagsScore * TagsWeight;
  }

  /** The `_matchHighlights` of one command. */
  method CommandHighlights(queryLower: String, cmd: Command) returns (highlights: FieldHighlights)
    ensures highlights == FieldHighlightsOf(queryLower, cmd)
  {
    var nameHighlights := GetHighlights(queryLower, Lower(cmd.name));
    var valueHighlights := GetHighlights(queryLower, Lower(cmd.value));
    var descriptionHighlights := GetHighlights(queryLower, Lower(cmd.description));
    var tagHighlights := TagHighlightLists(queryLower, cmd.tags);
    highlights := FieldHighlights(nameHighlights, valueHighlights, descriptionHighlights, tagHighlights);
  }

  /** The search: the scoring loop over the commands, then the sort. The result is the
      ranking, sorted by score, every entry above the threshold and taken from the input. */
  method FuzzySearch(query: String, commands: seq<Command>) returns (results: seq<RankedResult>)
    ensures results == Rank(query, commands)
    ensures SortedDesc(results)
    ensures forall i :: 0 <= i < |results| ==>
      results[i].score > Threshold && results[i].command in commands
  {
    var queryLower := Lower(query);
    var kept: seq<RankedResult> := [];
    ghost var all := Annotated(queryLower, commands);
    for n := 0 to |commands|
      invariant kept == AboveThreshold(all[..n])
    {
      assert all[..n + 1][..n] == all[..n];
      var cmd := commands[n];
      var totalScore := WeightedScore(queryLower, cmd);
      if totalScore > Threshold {
        var highlights := CommandHighlights(queryLower, cmd);
        kept := kept + [RankedResult(cmd, totalScore, highlights)];
      }
    }
    assert all[..|commands|] == all;
    results := SortDesc(kept);
    RankProperties(query, commands);
  }

  // ---------------------------------------------------------------------------------------
  // Properties.
  // ---------------------------------------------------------------------------------------

  /** Each field score and the tag score lie in [0, 1], so the total lies in [0, 8.5]. */
  lemma TotalScoreRange(q: String, c: Command)
    ensures 0.0 <= TotalScore(q, c) <= NameWeight + ValueWeight + DescriptionWeight + TagsWeight
  {
    ScoreRange(q, Lower(c.name));
    ScoreRange(q, Lower(c.value));
    ScoreRange(q, Lower(c.description));
    TagsScoreRange(q, c.tags);
  }

  lemma TagsScoreRange(q: String, tags: seq<String>)
    ensures 0.0 <= TagsScore(q, tags) <= 1.0
  {
    var r := TagsScore(q, tags);
    if r != 0.0 {
      var k :| 0 <= k < |tags| && r == Score(q, Lower(tags[k]));
      ScoreRange(q, Lower(tags[k]));
    }
  }

  /** A command is kept exactly when it is in the input and its total exceeds the threshold;
      what is kept is that command annotated with its total and its highlights. */
  lemma {:induction false} AboveThresholdMembers(rs: seq<RankedResult>)
    ensures forall r :: r in AboveThreshold(rs) <==> r in rs && r.score > Threshold
    ensures |AboveThreshold(rs)| <= |rs|
  {
    if rs != [] {
      var n := |rs| - 1;
      AboveThresholdMembers(rs[..n]);
      assert rs == rs[..n] + [rs[n]];
    }
  }

  lemma KeptMembers(q: String, cmds: seq<Command>)
    ensures forall r :: r in Kept(q, cmds) ==>
      r.command in cmds && r == Annotate(q, r.command) && r.score > Threshold
    ensures forall c :: c in cmds && TotalScore(q, c) > Threshold ==> Annotate(q, c) in Kept(q, cmds)
    ensures |Kept(q, cmds)| <= |cmds|
  {
    var all := Annotated(q, cmds);
    AboveThresholdMembers(all);
    forall r | r in Kept(q, cmds)
      ensures r.command in cmds && r == Annotate(q, r.command) && r.score > Threshold
    {
      var i :| 0 <= i < |all| && all[i] == r;
    }
    forall c | c in cmds && TotalScore(q, c) > Threshold
      ensures Annotate(q, c) in Kept(q, cmds)
    {
      var i :| 0 <= i < |cmds| && cmds[i] == c;
      assert all[i] == Annotate(q, c);
    }
  }

  /** Inserting adds exactly `x`. */
  lemma {:induction false} InsertPermutes(x: RankedResult, s: seq<RankedResult>)
    ensures multiset(Insert(x, s)) == multiset(s) + multiset{x}
  {
    if s == [] {
      assert Insert(x, s) == [x];
    } else if s[0].score <= x.score {
      assert Insert(x, s) == [x] + s;
    } else {
      var tail := Insert(x, s[1..]);
      InsertPermutes(x, s[1..]);
      assert Insert(x, s) == [s[0]] + tail;
      assert multiset(Insert(x, s)) == multiset([s[0]]) + multiset(tail);
      assert s == [s[0]] + s[1..];
      assert multiset(s) == multiset([s[0]]) + multiset(s[1..]);
    }
  }

  /** Inserting below a bound keeps every element below it. */
  lemma {:induction false} InsertBelow(x: RankedResult, s: seq<RankedResult>, bound: real)
    requires x.score <= bound
    requires forall k :: 0 <= k < |s| ==> s[k].score <= bound
    ensures forall k :: 0 <= k < |Insert(x, s)| ==> Insert(x, s)[k].score <= bound
  {
    if s != [] && s[0].score > x.score {
      InsertBelow(x, s[1..], bound);
      assert Insert(x, s) == [s[0]] + Insert(x, s[1..]);
    }
  }

  /** Inserting into a descending sequence keeps it descending. */
  lemma {:induction false} InsertSorted(x: RankedResult, s: seq<RankedResult>)
    requires SortedDesc(s)
    ensures SortedDesc(Insert(x, s))
  {
    if s == [] {
    } else if s[0].score <= x.score {
      var r := [x] + s;
      forall i, j | 0 <= i < j < |r|
        ensures r[i].score >= r[j].score
      {
        assert r[j] == s[j - 1];
        if i > 0 {
          assert r[i] == s[i - 1];
        }
      }
    } else {
      var tail := Insert(x, s[1..]);
      InsertSorted(x, s[1..]);
      InsertBelow(x, s[1..], s[0].score);
      var r := [s[0]] + tail;
      assert Insert(x, s) == r;
      forall i, j | 0 <= i < j < |r|
        ensures r[i].score >= r[j].score
      {
        assert r[j] == tail[j - 1];
        if i > 0 {
          assert r[i] == tail[i - 1];
        }
      }
    }
  }

  /** One step of `WithScore` at the front. */
  lemma WithScoreCons(y: RankedResult, s: seq<RankedResult>, v: real)
    ensures WithScore([y] + s, v) == (if y.score == v then [y] else []) + WithScore(s, v)
  {
    assert ([y] + s)[1..] == s;
  }

  /** Inserting puts `x` ahead of the elements that share its score. */
  lemma {:induction false} InsertWithScore(x: RankedResult, s: seq<RankedResult>, v: real)
    ensures WithScore(Insert(x, s), v) == (if x.score == v then [x] else []) + WithScore(s, v)
  {
    if s == [] {
      WithScoreCons(x, s, v);
      assert [x] + s == [x];
    } else if s[0].score <= x.score {
      WithScoreCons(x, s, v);
    } else {
      var tail := Insert(x, s[1..]);
      InsertWithScore(x, s[1..], v);
      WithScoreCons(s[0], tail, v);
      WithScoreCons(s[0], s[1..], v);
      assert [s[0]] + s[1..] == s;
    }
  }

  /** The sort yields a permutation of its input. */
  lemma {:induction false} SortDescPermutes(s: seq<RankedResult>)
    ensures multiset(SortDesc(s)) == multiset(s)
  {
    if s != [] {
      SortDescPermutes(s[1..]);
      InsertPermutes(s[0], SortDesc(s[1..]));
      assert s == [s[0]] + s[1..];
    }
  }

  /** The sort yields a descending sequence. */
  lemma {:induction false} SortDescSorted(s: seq<RankedResult>)
    ensures SortedDesc(SortDesc(s))
  {
    if s != [] {
      SortDescSorted(s[1..]);
      InsertSorted(s[0], SortDesc(s[1..]));
    }
  }

  /** The sort keeps the input order among equal scores. */
  lemma {:induction false} SortDescStable(s: seq<RankedResult>, v: real)
    ensures WithScore(SortDesc(s), v) == WithScore(s, v)
  {
    if s != [] {
      SortDescStable(s[1..], v);
      InsertWithScore(s[0], SortDesc(s[1..]), v);
    }
  }

  /** The sort yields a descending permutation that keeps the input order among equal scores. */
  lemma SortDescProperties(s: seq<RankedResult>)
    ensures multiset(SortDesc(s)) == multiset(s)
    ensures SortedDesc(SortDesc(s))
    ensures forall v :: WithScore(SortDesc(s), v) == WithScore(s, v)
  {
    SortDescPermutes(s);
    SortDescSorted(s);
    forall v
      ensures WithScore(SortDesc(s), v) == WithScore(s, v)
    {
      SortDescStable(s, v);
    }
  }

  lemma {:induction false} WithScoreMembers(s: seq<RankedResult>, v: real)
    ensures forall r :: r in WithScore(s, v) ==> r in s && r.score == v
    ensures forall k :: 0 <= k < |s| && s[k].score == v ==> WithScore(s, v) != []
  {
    if s != [] {
      WithScoreMembers(s[1..], v);
      forall k | 0 <= k < |s| && s[k].score == v
        ensures WithScore(s, v) != []
      {
        if k > 0 {
          assert s[1..][k - 1] == s[k];
        }
      }
    }
  }

  lemma WithScoreOfHead(s: seq<RankedResult>)
    ensures s == [] || WithScore(s, s[0].score) != []
  {
  }

  /** A descending sequence is determined by its per-score subsequences: so any stable
      descending sort of the kept results yields `SortDesc` of them. */
  lemma {:induction false} SortedUnique(a: seq<RankedResult>, b: seq<RankedResult>)
    requires SortedDesc(a) && SortedDesc(b)
    requires forall v :: WithScore(a, v) == WithScore(b, v)
    ensures a == b
    decreases |a|
  {
    if a == [] {
      WithScoreOfHead(b);
    } else {
      WithScoreMembers(a, a[0].score);
      WithScoreMembers(b, a[0].score);
      assert WithScore(b, a[0].score) != [];
      var rb := WithScore(b, a[0].score)[0];
      assert rb in WithScore(b, a[0].score);
      assert b != [];
      WithScoreMembers(a, b[0].score);
      WithScoreMembers(b, b[0].score);
      var ra := WithScore(a, b[0].score)[0];
      assert ra in WithScore(a, b[0].score);
      var m := a[0].score;
      assert a[0].score == b[0].score by {
        assert rb in b && rb.score == m;
        assert ra in a && ra.score == b[0].score;
      }
      assert a[0] == b[0] by {
        assert WithScore(a, m)[0] == a[0];
        assert WithScore(b, m)[0] == b[0];
      }
      forall v
        ensures WithScore(a[1..], v) == WithScore(b[1..], v)
      {
        assert WithScore(a, v) == WithScore(b, v);
        if m == v {
          assert WithScore(a, v) == [a[0]] + WithScore(a[1..], v);
          assert WithScore(b, v) == [b[0]] + WithScore(b[1..], v);
          assert WithScore(a[1..], v) == WithScore(a, v)[1..];
          assert WithScore(b[1..], v) == WithScore(b, v)[1..];
        } else {
          assert WithScore(a, v) == [] + WithScore(a[1..], v);
          assert WithScore(b, v) == [] + WithScore(b[1..], v);
          assert [] + WithScore(a[1..], v) == WithScore(a[1..], v);
          assert [] + WithScore(b[1..], v) == WithScore(b[1..], v);
        }
      }
      SortedUnique(a[1..], b[1..]);
      assert a == [a[0]] + a[1..];
      assert b == [b[0]] + b[1..];
    }
  }

  /** The ranking is a descending, stable permutation of the kept results, and a command
      appears in it exactly when it is an input command whose total exceeds the threshold. */
  lemma RankProperties(query: String, cmds: seq<Command>)
    ensures var q := Lower(query);
      && multiset(Rank(query, cmds)) == multiset(Kept(q, cmds))
      && SortedDesc(Rank(query, cmds))
      && (forall v :: WithScore(Rank(query, cmds), v) == WithScore(Kept(q, cmds), v))
      && (forall r :: r in Rank(query, cmds) ==>
            r.command in cmds && r == Annotate(q, r.command) && r.score > Threshold)
      && (forall c :: c in cmds && TotalScore(q, c) > Threshold ==> Annotate(q, c) in Rank(query, cmds))
  {
    var q := Lower(query);
    SortDescProperties(Kept(q, cmds));
    KeptMembers(q, cmds);
    forall r | r in Rank(query, cmds)
      ensures r in Kept(q, cmds)
    {
      assert r in multiset(Rank(query, cmds));
    }
    forall c | c in cmds && TotalScore(q, c) > Threshold
      ensures Annotate(q, c) in Rank(query, cmds)
    {
      assert Annotate(q, c) in multiset(Kept(q, cmds));
    }
  }

  /** Index by index: every ranked entry is above the threshold and for an input command,
      and the scores descend. */
  lemma RankEntries(query: String, cmds: seq<Command>)
    ensures var rs := Rank(query, cmds);
      && (forall i :: 0 <= i < |rs| ==> rs[i].score > Threshold && rs[i].command in cmds)
      && SortedDesc(rs)
  {
    var q := Lower(query);
    var kept := Kept(q, cmds);
    var rs := SortDesc(kept);
    SortDescSorted(kept);
    SortDescPermutes(kept);
    KeptMembers(q, cmds);
    forall i | 0 <= i < |rs|
      ensures rs[i].score > Threshold && rs[i].command in cmds
    {
      assert rs[i] in multiset(kept) by {
        assert rs[i] in multiset(rs);
      }
    }
  }

  /** Any stable descending ordering of the kept results is the ranking. */
  lemma RankIsTheStableSort(query: String, cmds: seq<Command>, out: seq<RankedResult>)
    requires SortedDesc(out)
    requires forall v :: WithScore(out, v) == WithScore(Kept(Lower(query), cmds), v)
    ensures out == Rank(query, cmds)
  {
    RankProperties(query, cmds);
    SortedUnique(out, Rank(query, cmds));
  }

  /** A command whose lower-cased name is the non-empty lower-cased query scores at least the
      name weight and is always ranked. */
  lemma ExactNameIsRanked(query: String, cmds: seq<Command>, c: Command)
    requires c in cmds && |query| > 0 && Lower(c.name) == Lower(query)
    ensures TotalScore(Lower(query), c) >= NameWeight
    ensures Annotate(Lower(query), c) in Rank(query, cmds)
  {
    var q := Lower(query);
    ScoreRange(q, Lower(c.value));
    ScoreRange(q, Lower(c.description));
    TagsScoreRange(q, c.tags);
    RankProperties(query, cmds);
  }

  /** The query "git" against a command named "Git Status": the name scores as a substring at
      position 0 (0.8 * 3/10), the command is ranked, and its name is highlighted on [0, 3). */
  lemma GitExample(query: String, cmds: seq<Command>, c: Command)
    requires query == "git" && c.name == "Git Status" && c in cmds
    ensures Score(Lower(query), Lower(c.name)) == 0.24
    ensures FieldHighlightsOf(Lower(query), c).name == [Span(0, 3)]
    ensures Annotate(Lower(query), c) in Rank(query, cmds)
  {
    var q := Lower(query);
    LowerGit(query, c.name);
    GitInName(q, Lower(c.name));
    ScoreRange(q, Lower(c.value));
    ScoreRange(q, Lower(c.description));
    TagsScoreRange(q, c.tags);
    RankProperties(query, cmds);
  }

  lemma LowerGit(query: String, name: String)
    requires query == "git" && name == "Git Status"
    ensures Lower(query) == "git" && Lower(name) == "git status"
  {
  }

  lemma GitInName(q: String, t: String)
    requires q == "git" && t == "git status"
    ensures Score(q, t) == 0.24
    ensures Highlights(q, t) == [Span(0, 3)]
  {
    assert OccursAt(t, q, 0);
    assert IndexOf(t, q, 0) == Some(0);
    forall k: nat | 3 <= k
      ensures !OccursAt(t, q, k)
    {
      if k + 3 <= |t| {
        assert t[k..k + 3][0] == t[k] != 'g';
      }
    }
    assert IndexOf(t, q, 3).None?;
    assert SpansFrom(q, t, 3) == [];
  }
}
