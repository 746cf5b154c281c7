/**
 * `levenshteinDistance(str1, str2)`: the Levenshtein edit distance, computed by filling a
 * `(|str2| + 1) x (|str1| + 1)` matrix row by row.
 */
module EditDistance {
  import opened Strings

  function Min3(a: nat, b: nat, c: nat): nat
  {
    if a <= b && a <= c then a else if b <= c then b else c
  }

  /** The value of matrix cell (row `i`, column `j`): the edit distance between the first `j`
      characters of `a` and the first `i` characters of `b`, by the source's recurrence (a
      matching last character copies the diagonal cell without comparing it with its other
      neighbours; otherwise one substitution, insertion or deletion is added to the cheapest
      neighbour). */
  function Lev(a: String, b: String, j: nat, i: nat): nat
    requires j <= |a| && i <= |b|
    decreases i + j
  {
    if i == 0 then j
    else if j == 0 then i
    else if b[i - 1] == a[j - 1] then Lev(a, b, j - 1, i - 1)
    else Min3(Lev(a, b, j - 1, i - 1) + 1, Lev(a, b, j - 1, i) + 1, Lev(a, b, j, i - 1) + 1)
  }

  /** The distance between the whole of `a` and the whole of `b`. */
  function Distance(a: String, b: String): nat
  {
    Lev(a, b, |a|, |b|)
  }

  /** Rows `0 .. rows - 1` of `m` hold the recurrence for `a` (columns) and `b` (rows). */
  ghost predicate RowsHold(m: array2<nat>, a: String, b: String, rows: nat)
    requires m.Length0 == |b| + 1 && m.Length1 == |a| + 1 && rows <= |b| + 1
    reads m
  {
    forall r, c {:trigger m[r, c]} :: 0 <= r < rows && 0 <= c <= |a| ==> m[r, c] == Lev(a, b, c, r)
  }

  /** The matrix fill of the source, proved to compute `Distance`. */
  method LevenshteinDistance(str1: String, str2: String) returns (d: nat)
    ensures d == Distance(str1, str2)
  {
    var matrix := new nat[|str2| + 1, |str1| + 1];
    for i := 0 to |str2| + 1
      invariant forall r :: 0 <= r < i ==> matrix[r, 0] == r
    {
      matrix[i, 0] := i;
    }
    for j := 0 to |str1| + 1
      invariant forall r :: 1 <= r <= |str2| ==> matrix[r, 0] == r
      invariant forall c :: 0 <= c < j ==> matrix[0, c] == c
    {
      matrix[0, j] := j;
    }
    for i := 1 to |str2| + 1
      invariant RowsHold(matrix, str1, str2, i)
      invariant forall r :: i <= r <= |str2| ==> matrix[r, 0] == r
    {
      FillRow(matrix, str1, str2, i);
    }
    d := matrix[|str2|, |str1|];
  }

  /** The inner loop of the fill: row `i`, column by column. */
  method FillRow(matrix: array2<nat>, str1: String, str2: String, i: nat)
    requires matrix.Length0 == |str2| + 1 && matrix.Length1 == |str1| + 1
    requires 1 <= i <= |str2|
    requires RowsHold(matrix, str1, str2, i)
    requires forall r :: i <= r <= |str2| ==> matrix[r, 0] == r
    modifies matrix
    ensures RowsHold(matrix, str1, str2, i + 1)
    ensures forall r :: i < r <= |str2| ==> matrix[r, 0] == r
    ensures forall r, c :: 0 <= r <= |str2| && r != i && 0 <= c <= |str1| ==> matrix[r, c] == old(matrix[r, c])
    ensures matrix[i, 0] == old(matrix[i, 0])
  {
    for j := 1 to |str1| + 1
      invariant RowsHold(matrix, str1, str2, i)
      invariant forall r :: i < r <= |str2| ==> matrix[r, 0] == r
      invariant forall r, c :: 0 <= r <= |str2| && r != i && 0 <= c <= |str1| ==> matrix[r, c] == old(matrix[r, c])
      invariant matrix[i, 0] == old(matrix[i, 0])
      invariant forall c {:trigger matrix[i, c]} :: 0 <= c < j ==> matrix[i, c] == Lev(str1, str2, c, i)
    {
      LevCell(str1, str2, j, i, matrix[i - 1, j - 1], matrix[i, j - 1], matrix[i - 1, j]);
      if str2[i - 1] == str1[j - 1] {
        matrix[i, j] := matrix[i - 1, j - 1];
      } else {
        matrix[i, j] := Min3(matrix[i - 1, j - 1] + 1,  // substitution
                             matrix[i, j - 1] + 1,      // insertion
                             matrix[i - 1, j] + 1);     // deletion
      }
    }
  }

  /** The recurrence at cell (row `i`, column `j`) in terms of its three neighbours. */
  lemma LevCell(a: String, b: String, j: nat, i: nat, diag: nat, left: nat, up: nat)
    requires 0 < j <= |a| && 0 < i <= |b|
    requires diag == Lev(a, b, j - 1, i - 1) && left == Lev(a, b, j - 1, i) && up == Lev(a, b, j, i - 1)
    ensures Lev(a, b, j, i) == if b[i - 1] == a[j - 1] then diag else Min3(diag + 1, left + 1, up + 1)
  {
  }

  /** Row 0 and column 0: the distance from or to the empty prefix is the other length. */
  lemma DistanceFromEmpty(s: String)
    ensures Distance([], s) == |s| && Distance(s, []) == |s|
  {
  }

  /** Equal prefixes are at distance 0. */
  lemma {:induction false} LevCommonPrefix(a: String, b: String, k: nat)
    requires k <= |a| && k <= |b| && a[..k] == b[..k]
    ensures Lev(a, b, k, k) == 0
  {
    if k > 0 {
      assert a[k - 1] == a[..k][k - 1] == b[..k][k - 1] == b[k - 1];
      assert a[..k - 1] == a[..k][..k - 1] == b[..k][..k - 1] == b[..k - 1];
      LevCommonPrefix(a, b, k - 1);
    }
  }

  /** A string is at distance 0 from itself. */
  lemma DistanceSelf(s: String)
    ensures Distance(s, s) == 0
  {
    LevCommonPrefix(s, s, |s|);
  }

  lemma {:induction false} LevSymmetric(a: String, b: String, j: nat, i: nat)
    requires j <= |a| && i <= |b|
    ensures Lev(a, b, j, i) == Lev(b, a, i, j)
    decreases i + j
  {
    if i > 0 && j > 0 {
      LevSymmetric(a, b, j - 1, i - 1);
      LevSymmetric(a, b, j - 1, i);
      LevSymmetric(a, b, j, i - 1);
      if b[i - 1] != a[j - 1] {
        var sub, ins, del := Lev(a, b, j - 1, i - 1) + 1, Lev(a, b, j - 1, i) + 1, Lev(a, b, j, i - 1) + 1;
        assert Lev(a, b, j, i) == Min3(sub, ins, del);
        assert Lev(b, a, i, j) == Min3(sub, del, ins);
        Min3Swap(sub, ins, del);
      }
    }
  }

  lemma Min3Swap(x: nat, y: nat, z: nat)
    ensures Min3(x, y, z) == Min3(x, z, y)
  {
  }

  /** The distance does not depend on which string is transformed into which. */
  lemma DistanceSymmetric(a: String, b: String)
    ensures Distance(a, b) == Distance(b, a)
  {
    LevSymmetric(a, b, |a|, |b|);
  }

  lemma {:induction false} LevBounds(a: String, b: String, j: nat, i: nat)
    requires j <= |a| && i <= |b|
    ensures Lev(a, b, j, i) <= if i >= j then i else j
    ensures Lev(a, b, j, i) >= i - j && Lev(a, b, j, i) >= j - i
    decreases i + j
  {
    if i > 0 && j > 0 {
      LevBounds(a, b, j - 1, i - 1);
      LevBounds(a, b, j - 1, i);
      LevBounds(a, b, j, i - 1);
    }
  }

  /** The distance is at least the difference of the lengths and at most the longer length. */
  lemma DistanceBounds(a: String, b: String)
    ensures Distance(a, b) <= if |a| >= |b| then |a| else |b|
    ensures Distance(a, b) >= |a| - |b| && Distance(a, b) >= |b| - |a|
  {
    LevBounds(a, b, |a|, |b|);
  }

  lemma {:induction false} LevZero(a: String, b: String, j: nat, i: nat)
    requires j <= |a| && i <= |b|
    requires Lev(a, b, j, i) == 0
    ensures i == j && a[..j] == b[..i]
    decreases i + j
  {
    if i > 0 && j > 0 && b[i - 1] == a[j - 1] {
      LevZero(a, b, j - 1, i - 1);
      assert a[..j] == a[..j - 1] + [a[j - 1]];
      assert b[..i] == b[..i - 1] + [b[i - 1]];
    }
  }

  /** Distance 0 only between equal strings. */
  lemma DistanceZeroIff(a: String, b: String)
    ensures Distance(a, b) == 0 <==> a == b
  {
    if Distance(a, b) == 0 {
      LevZero(a, b, |a|, |b|);
      assert a == a[..|a|] && b == b[..|b|];
    }
    if a == b {
      DistanceSelf(a);
    }
  }
}
