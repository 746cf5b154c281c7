/**
 * The JavaScript string built-ins the search engine relies on: `trim`, `toLowerCase`,
 * `indexOf` / `includes`, `startsWith`, `split(/\s+/)` and `split(',')`.
 * Strings are sequences of Unicode scalar values (`seq<char>`), not of UTF-16 code units;
 * whitespace is the ASCII subset of what `\s` and `trim` accept, and lower-casing is ASCII
 * lower-casing.
 */
module Strings {
  import opened Basics

  type String = seq<char>

  /** The ASCII characters that `\s` matches and `trim` removes. */
  predicate IsSpace(c: char)
  {
    c == ' ' || c == '\t' || c == '\n' || c == '\r' || c == '\U{0B}' || c == '\U{0C}'
  }

  function LowerChar(c: char): char
  {
    if 'A' <= c <= 'Z' then (c as int + 32) as char else c
  }

  /** `s.toLowerCase()` on ASCII letters. */
  function Lower(s: String): (r: String)
    ensures |r| == |s|
    ensures forall i :: 0 <= i < |s| ==> r[i] == LowerChar(s[i])
  {
    seq(|s|, i requires 0 <= i < |s| => LowerChar(s[i]))
  }

  function TrimStart(s: String): (r: String)
    ensures |r| <= |s| && r == s[|s| - |r|..]
    ensures r == [] || !IsSpace(r[0])
    ensures forall i :: 0 <= i < |s| - |r| ==> IsSpace(s[i])
  {
    if s != [] && IsSpace(s[0]) then TrimStart(s[1..]) else s
  }

  function TrimEnd(s: String): (r: String)
    ensures |r| <= |s| && r == s[..|r|]
    ensures r == [] || !IsSpace(r[|r| - 1])
    ensures forall i :: |r| <= i < |s| ==> IsSpace(s[i])
  {
    if s != [] && IsSpace(s[|s| - 1]) then TrimEnd(s[..|s| - 1]) else s
  }

  /** A non-empty string that starts and ends with a non-space character. */
  predicate Trimmed(s: String)
  {
    s != [] && !IsSpace(s[0]) && !IsSpace(s[|s| - 1])
  }

  /** `s.trim()`: empty exactly when `s` is all whitespace, otherwise it starts and ends with a
      non-space character, and a string that already does is left alone. */
  function Trim(s: String): (r: String)
    ensures (r == []) == (forall i :: 0 <= i < |s| ==> IsSpace(s[i]))
    ensures r != [] ==> Trimmed(r)
    ensures Trimmed(s) ==> r == s
  {
    TrimEnd(TrimStart(s))
  }

  /** `trim` removes exactly the leading and trailing whitespace: what it leaves is a slice of
      `s` with only whitespace before and after it. */
  lemma TrimIsSlice(s: String)
    ensures exists i, j :: 0 <= i <= j <= |s| && Trim(s) == s[i..j] && SpacesOutside(s, i, j)
  {
    PrefixOfSuffix(s, TrimStart(s), TrimEnd(TrimStart(s)));
  }

  /** Every character of `s` before `i` or from `j` on is whitespace. */
  predicate SpacesOutside(s: String, i: nat, j: nat)
    requires i <= j <= |s|
  {
    (forall k :: 0 <= k < i ==> IsSpace(s[k])) && (forall k :: j <= k < |s| ==> IsSpace(s[k]))
  }

  /** A prefix `r` of a suffix `t` of `s` is a slice of `s`; when only whitespace was cut
      off, only whitespace lies outside the slice. */
  lemma PrefixOfSuffix(s: String, t: String, r: String)
    requires |t| <= |s| && t == s[|s| - |t|..]
    requires |r| <= |t| && r == t[..|r|]
    requires forall k :: 0 <= k < |s| - |t| ==> IsSpace(s[k])
    requires forall k :: |r| <= k < |t| ==> IsSpace(t[k])
    ensures r == s[|s| - |t|..|s| - |t| + |r|]
    ensures SpacesOutside(s, |s| - |t|, |s| - |t| + |r|)
  {
    var i := |s| - |t|;
    forall k | i + |r| <= k < |s|
      ensures IsSpace(s[k])
    {
      assert s[k] == t[k - i];
    }
  }

  /** `q` occurs in `t` starting at index `i`. */
  predicate OccursAt(t: String, q: String, i: nat)
  {
    i + |q| <= |t| && t[i..i + |q|] == q
  }

  /** An occurrence as long as the text is the whole text. */
  lemma OccursAtWhole(t: String, q: String, p: nat)
    requires OccursAt(t, q, p)
    ensures |q| == |t| ==> p == 0 && t == q
  {
    if |q| == |t| {
      assert t[0..|t|] == t;
    }
  }

  /** `t.indexOf(q, from)`: the first occurrence of `q` at or after `from`. */
  function IndexOf(t: String, q: String, from: nat): (r: Option<nat>)
    requires from <= |t|
    ensures r.Some? ==> from <= r.value && OccursAt(t, q, r.value)
    decreases |t| - from
  {
    if from + |q| > |t| then None
    else if OccursAt(t, q, from) then Some(from)
    else IndexOf(t, q, from + 1)
  }

  /** The occurrence `indexOf` finds is the first one at or after `from`, and when it finds
      none there is none. */
  lemma {:induction false} IndexOfFirst(t: String, q: String, from: nat)
    requires from <= |t|
    ensures IndexOf(t, q, from).Some? ==> forall i :: from <= i < IndexOf(t, q, from).value ==> !OccursAt(t, q, i)
    ensures IndexOf(t, q, from).None? ==> forall i :: from <= i ==> !OccursAt(t, q, i)
    decreases |t| - from
  {
    if from + |q| <= |t| && !OccursAt(t, q, from) {
      IndexOfFirst(t, q, from + 1);
    }
  }

  /** `t.includes(q)`. */
  function Contains(t: String, q: String): (b: bool)
    ensures b == exists i :: OccursAt(t, q, i)
  {
    IndexOfFirst(t, q, 0);
    var r := IndexOf(t, q, 0);
    if r.Some? then assert OccursAt(t, q, r.value); true else false
  }

  /** `w.startsWith(q)`. */
  predicate StartsWith(w: String, q: String)
  {
    OccursAt(w, q, 0)
  }

  /** `t.split(/\s+/)`: the pieces between maximal runs of whitespace; a leading or a trailing
      run gives an empty first or last piece, and the empty string splits into one empty piece.
      No piece holds whitespace, and every character of a piece is a character of `t`. */
  function SplitWords(t: String): (ws: seq<String>)
    ensures |ws| >= 1
    ensures forall k, j :: 0 <= k < |ws| && 0 <= j < |ws[k]| ==> !IsSpace(ws[k][j]) && ws[k][j] in t
  {
    if t == [] then [[]]
    else if IsSpace(t[0]) then
      if |t| > 1 && IsSpace(t[1]) then SplitWords(t[1..]) else [[]] + SplitWords(t[1..])
    else
      var rest := SplitWords(t[1..]);
      [[t[0]] + rest[0]] + rest[1..]
  }

  /** `s.split(sep)` for a one-character separator: the pieces between separators, one more
      than there are separators, none holding the separator. */
  function SplitOn(s: String, sep: char): (ps: seq<String>)
    ensures |ps| >= 1
    ensures forall k, j :: 0 <= k < |ps| && 0 <= j < |ps[k]| ==> ps[k][j] != sep
  {
    if s == [] then [[]]
    else if s[0] == sep then [[]] + SplitOn(s[1..], sep)
    else
      var rest := SplitOn(s[1..], sep);
      [[s[0]] + rest[0]] + rest[1..]
  }

  /** The inverse of `SplitOn`: the pieces written out with `sep` between them. */
  function Join(ps: seq<String>, sep: char): String
  {
    if ps == [] then []
    else if |ps| == 1 then ps[0]
    else ps[0] + [sep] + Join(ps[1..], sep)
  }

  lemma {:induction false} SplitOnPrefix(a: String, b: String, sep: char)
    requires forall j :: 0 <= j < |a| ==> a[j] != sep
    ensures SplitOn(a + [sep] + b, sep) == [a] + SplitOn(b, sep)
  {
    if a == [] {
      assert a + [sep] + b == [sep] + b;
      assert ([sep] + b)[1..] == b;
    } else {
      assert (a + [sep] + b)[0] == a[0];
      assert (a + [sep] + b)[1..] == a[1..] + [sep] + b;
      SplitOnPrefix(a[1..], b, sep);
      assert [a[0]] + a[1..] == a;
    }
  }

  lemma {:induction false} SplitOnNoSeparator(a: String, sep: char)
    requires forall j :: 0 <= j < |a| ==> a[j] != sep
    ensures SplitOn(a, sep) == [a]
  {
    if a != [] {
      SplitOnNoSeparator(a[1..], sep);
      assert [a[0]] + a[1..] == a;
    }
  }

  /** Splitting a joined list of separator-free pieces gives the pieces back. */
  lemma {:induction false} SplitOnJoin(ps: seq<String>, sep: char)
    requires |ps| >= 1
    requires forall k, j :: 0 <= k < |ps| && 0 <= j < |ps[k]| ==> ps[k][j] != sep
    ensures SplitOn(Join(ps, sep), sep) == ps
  {
    if |ps| == 1 {
      SplitOnNoSeparator(ps[0], sep);
    } else {
      assert forall j :: 0 <= j < |ps[0]| ==> ps[0][j] != sep;
      SplitOnPrefix(ps[0], Join(ps[1..], sep), sep);
      SplitOnJoin(ps[1..], sep);
      assert [ps[0]] + ps[1..] == ps;
    }
  }

  /** The words written one after another. */
  function Concat(ws: seq<String>): String
  {
    if ws == [] then [] else ws[0] + Concat(ws[1..])
  }

  /** `t` without its whitespace characters. */
  function RemoveSpaces(t: String): (r: String)
    ensures forall k :: 0 <= k < |r| ==> !IsSpace(r[k])
  {
    if t == [] then []
    else (if IsSpace(t[0]) then [] else [t[0]]) + RemoveSpaces(t[1..])
  }

  /** `t` with every maximal run of whitespace replaced by one space. */
  function Squeeze(t: String): String
  {
    if t == [] then []
    else if IsSpace(t[0]) then
      (if |t| > 1 && IsSpace(t[1]) then [] else [' ']) + Squeeze(t[1..])
    else [t[0]] + Squeeze(t[1..])
  }

  /** The split loses only whitespace: the words together are `t` without its whitespace. */
  lemma {:induction false} SplitWordsConcat(t: String)
    ensures Concat(SplitWords(t)) == RemoveSpaces(t)
  {
    if t == [] {
      assert Concat([[]]) == [] + Concat([]);
    } else {
      var ws := SplitWords(t[1..]);
      SplitWordsConcat(t[1..]);
      if IsSpace(t[0]) {
        if !(|t| > 1 && IsSpace(t[1])) {
          assert ([[]] + ws)[1..] == ws;
        }
      } else {
        var first := [t[0]] + ws[0];
        assert ([first] + ws[1..])[1..] == ws[1..];
        assert Concat(ws) == ws[0] + Concat(ws[1..]);
        assert Concat([first] + ws[1..]) == first + Concat(ws[1..]);
      }
    }
  }

  /** The split is undone by joining with single spaces, up to each whitespace run becoming
      one space. */
  lemma {:induction false} SplitWordsJoin(t: String)
    ensures Join(SplitWords(t), ' ') == Squeeze(t)
  {
    if t != [] {
      var ws := SplitWords(t[1..]);
      SplitWordsJoin(t[1..]);
      if IsSpace(t[0]) {
        if !(|t| > 1 && IsSpace(t[1])) {
          assert ([[]] + ws)[1..] == ws;
        }
      } else {
        JoinExtendFirst(t[0], ws, ' ');
      }
    }
  }

  /** Putting `c` in front of the first piece puts it in front of the joined text. */
  lemma JoinExtendFirst(c: char, ws: seq<String>, sep: char)
    requires |ws| >= 1
    ensures Join([[c] + ws[0]] + ws[1..], sep) == [c] + Join(ws, sep)
  {
    var vs := [[c] + ws[0]] + ws[1..];
    assert vs[1..] == ws[1..];
  }

  /** Lower-casing twice is lower-casing once. */
  lemma LowerIdempotent(s: String)
    ensures Lower(Lower(s)) == Lower(s)
  {
    forall i | 0 <= i < |s|
      ensures Lower(Lower(s))[i] == Lower(s)[i]
    {
      assert Lower(s)[i] == LowerChar(s[i]);
    }
  }

  /** The pieces of a split, joined with the separator, spell the text again. */
  lemma {:induction false} JoinSplitOn(s: String, sep: char)
    ensures Join(SplitOn(s, sep), sep) == s
  {
    if s != [] {
      var ps := SplitOn(s[1..], sep);
      JoinSplitOn(s[1..], sep);
      if s[0] == sep {
        assert ([[]] + ps)[1..] == ps;
        assert [s[0]] + s[1..] == s;
      } else {
        JoinExtendFirst(s[0], ps, sep);
        assert [s[0]] + s[1..] == s;
      }
    }
  }
}
