/**
 * `getHighlights(query, text)`: every non-overlapping occurrence of the query in the text,
 * leftmost first, as half-open spans `[start, end)`.
 */
module Highlighting {
  import opened Basics
  import opened Strings

  datatype Span = Span(start: nat, end: nat)

  /** The spans found by repeated `indexOf` calls, each search starting at the end of the
      previous occurrence. */
  function SpansFrom(q: String, t: String, from: nat): seq<Span>
    requires |q| > 0 && from <= |t|
    decreases |t| - from
  {
    match IndexOf(t, q, from)
    case None => []
    case Some(i) => [Span(i, i + |q|)] + SpansFrom(q, t, i + |q|)
  }

  /** What the source returns: no spans for an empty query or text or for a text without an
      occurrence, otherwise all the spans found from position 0. */
  function Highlights(q: String, t: String): seq<Span>
  {
    if |t| == 0 || |q| == 0 || !Contains(t, q) then [] else SpansFrom(q, t, 0)
  }

  /** Each span marks an occurrence of `q`, spans are ordered and never overlap. */
  ghost predicate WellFormed(spans: seq<Span>, q: String, t: String)
  {
    OccurrencesFrom(spans, q, t, 0) && Ordered(spans)
  }

  /** The `while (true)` loop of the source, proved to compute `Highlights`. */
  method GetHighlights(query: String, text: String) returns (highlights: seq<Span>)
    ensures highlights == Highlights(query, text)
  {
    if |text| == 0 || |query| == 0 || !Contains(text, query) {
      return [];
    }

    highlights := [];
    var searchFrom: nat := 0;
    ghost var all := SpansFrom(query, text, 0);

    while true
      invariant searchFrom <= |text|
      invariant highlights + SpansFrom(query, text, searchFrom) == all
      decreases |text| - searchFrom
    {
      var index := IndexOf(text, query, searchFrom);
      if index.None? {
        assert SpansFrom(query, text, searchFrom) == [];
        break;
      }
      ghost var found, from := highlights, searchFrom;
      highlights := highlights + [Span(index.value, index.value + |query|)];

      searchFrom := index.value + |query|;
      SpansStep(query, text, from, index.value, found, all, highlights, searchFrom);
    }
    assert highlights == all;
  }

  /** One turn of the loop: the span found at `from` moves from the spans still to find to
      the spans found. */
  lemma SpansStep(q: String, t: String, from: nat, i: nat, found: seq<Span>, all: seq<Span>,
                  found': seq<Span>, from': nat)
    requires |q| > 0 && from <= |t| && found + SpansFrom(q, t, from) == all
    requires IndexOf(t, q, from) == Some(i)
    requires found' == found + [Span(i, i + |q|)] && from' == i + |q|
    ensures from < from' <= |t|
    ensures found' + SpansFrom(q, t, from') == all
  {
    SpansFromSome(q, t, from, i);
    AppendAssoc(found, [Span(i, i + |q|)], SpansFrom(q, t, from'));
  }

  lemma AppendAssoc(a: seq<Span>, b: seq<Span>, c: seq<Span>)
    ensures (a + b) + c == a + (b + c)
  {
  }

  /** The spans from `from` when the next occurrence is at `i`. */
  lemma SpansFromSome(q: String, t: String, from: nat, i: nat)
    requires |q| > 0 && from <= |t| && IndexOf(t, q, from) == Some(i)
    ensures i + |q| <= |t|
    ensures SpansFrom(q, t, from) == [Span(i, i + |q|)] + SpansFrom(q, t, i + |q|)
  {
  }

  /** Position `p` lies inside one of the spans. */
  ghost predicate Covered(spans: seq<Span>, p: nat)
  {
    exists k :: 0 <= k < |spans| && spans[k].start <= p < spans[k].end
  }

  /** Each span marks an occurrence of `q` at or after `from`. */
  ghost predicate OccurrencesFrom(spans: seq<Span>, q: String, t: String, from: nat)
  {
    forall k :: 0 <= k < |spans| ==>
      from <= spans[k].start && spans[k].end == spans[k].start + |q| && OccursAt(t, q, spans[k].start)
  }

  /** Every span ends at or before the start of each later one. */
  ghost predicate Ordered(spans: seq<Span>)
  {
    forall k, l :: 0 <= k < l < |spans| ==> spans[k].end <= spans[l].start
  }

  /** An occurrence at or after `from` followed by spans that start after it. */
  lemma ConsProperties(s: Span, rest: seq<Span>, spans: seq<Span>, q: String, t: String, from: nat)
    requires from <= s.start && s.end == s.start + |q| && OccursAt(t, q, s.start)
    requires OccurrencesFrom(rest, q, t, s.end) && Ordered(rest)
    requires spans == [s] + rest
    ensures OccurrencesFrom(spans, q, t, from) && Ordered(spans)
  {
    forall k | 0 <= k < |spans|
      ensures from <= spans[k].start && spans[k].end == spans[k].start + |q| && OccursAt(t, q, spans[k].start)
    {
      if k > 0 {
        assert spans[k] == rest[k - 1];
      }
    }
    forall k, l | 0 <= k < l < |spans|
      ensures spans[k].end <= spans[l].start
    {
      assert spans[l] == rest[l - 1];
      if k > 0 {
        assert spans[k] == rest[k - 1];
      }
    }
  }

  /** The spans from `from` are occurrences at or after `from`, in order and disjoint. */
  lemma {:induction false} SpansProperties(q: String, t: String, from: nat)
    requires |q| > 0 && from <= |t|
    ensures OccurrencesFrom(SpansFrom(q, t, from), q, t, from)
    ensures Ordered(SpansFrom(q, t, from))
    decreases |t| - from
  {
    var r := IndexOf(t, q, from);
    if r.Some? {
      var i := r.value;
      SpansFromSome(q, t, from, i);
      SpansProperties(q, t, i + |q|);
      ConsProperties(Span(i, i + |q|), SpansFrom(q, t, i + |q|), SpansFrom(q, t, from), q, t, from);
    }
  }

  lemma CoveredCons(s: Span, spans: seq<Span>, p: nat)
    requires Covered(spans, p)
    ensures Covered([s] + spans, p)
  {
    var k :| 0 <= k < |spans| && spans[k].start <= p < spans[k].end;
    assert ([s] + spans)[k + 1] == spans[k];
  }

  lemma CoveredFirst(s: Span, spans: seq<Span>, p: nat)
    requires s.start <= p < s.end
    ensures Covered([s] + spans, p)
  {
    assert ([s] + spans)[0] == s;
  }

  /** The spans from `from` cover the start of every occurrence at or after `from`. */
  lemma {:induction false} SpansCover(q: String, t: String, from: nat, p: nat)
    requires |q| > 0 && from <= |t|
    requires from <= p && OccursAt(t, q, p)
    ensures Covered(SpansFrom(q, t, from), p)
    decreases |t| - from
  {
    IndexOfFirst(t, q, from);
    var r := IndexOf(t, q, from);
    if r.Some? {
      var i := r.value;
      SpansFromSome(q, t, from, i);
      if p < i + |q| {
        CoveredFirst(Span(i, i + |q|), SpansFrom(q, t, i + |q|), p);
      } else {
        SpansCover(q, t, i + |q|, p);
        CoveredCons(Span(i, i + |q|), SpansFrom(q, t, i + |q|), p);
      }
    }
  }

  /** Each highlight marks an occurrence of the query; highlights are ordered and disjoint. */
  lemma HighlightsWellFormed(q: String, t: String)
    ensures WellFormed(Highlights(q, t), q, t)
  {
    if |t| > 0 && |q| > 0 && Contains(t, q) {
      SpansProperties(q, t, 0);
    }
  }

  /** The start of every occurrence of a non-empty query lies inside one of the spans (an
      occurrence overlapping a found one need not lie inside a span as a whole). */
  lemma HighlightsCoverOccurrences(q: String, t: String, p: nat)
    requires |q| > 0 && OccursAt(t, q, p)
    ensures Covered(Highlights(q, t), p)
  {
    assert Contains(t, q);
    SpansCover(q, t, 0, p);
  }

  /** There are no spans exactly when the query is empty or does not occur; in particular a
      text that contains a non-empty query gets at least one span. */
  lemma HighlightsEmptyIff(q: String, t: String)
    ensures Highlights(q, t) == [] <==> |q| == 0 || !Contains(t, q)
  {
    if |q| > 0 && Contains(t, q) {
      var p: nat :| OccursAt(t, q, p);
      HighlightsCoverOccurrences(q, t, p);
    }
  }
}
