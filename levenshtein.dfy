/** Edit distance between two strings (unit cost for insert, delete and
    substitute), as computed by `levenshteinDistance` in the search utility. */
module Levenshtein {

  function Min3(x: int, y: int, z: int): (m: int)
    ensures m <= x && m <= y && m <= z
    ensures m == x || m == y || m == z
  {
    if x <= y && x <= z then x else if y <= z then y else z
  }

  function Max(x: int, y: int): (m: int)
    ensures m >= x && m >= y && (m == x || m == y)
  {
    if x >= y then x else y
  }

  /** The recurrence the table fill follows: `Table(a, b, i, j)` is the
      distance between the first `i` characters of `a` and the first `j` of
      `b`. Against an empty prefix it is the other prefix's length;
      otherwise the best of deleting `a[i - 1]`, inserting `b[j - 1]`, or
      matching the two (cost 0 when equal, 1 otherwise). */
  function Table(a: string, b: string, i: nat, j: nat): nat
    requires i <= |a| && j <= |b|
    decreases i + j
  {
    if i == 0 then j
    else if j == 0 then i
    else
      Min3(Table(a, b, i - 1, j) + 1,
           Table(a, b, i, j - 1) + 1,
           Table(a, b, i - 1, j - 1) + (if a[i - 1] == b[j - 1] then 0 else 1))
  }

  /** The distance between the two whole strings. */
  function Dist(a: string, b: string): nat {
    Table(a, b, |a|, |b|)
  }

  /** `levenshteinDistance(a, b)`: the early returns for an empty string,
      then the (|a|+1) x (|b|+1) table: first column, first row, then the
      remaining rows in order. */
  method LevenshteinDistance(a: string, b: string) returns (d: nat)
    ensures d == Dist(a, b)
    ensures a == [] ==> d == |b|
    ensures b == [] ==> d == |a|
  {
    if |a| == 0 { return |b|; }
    if |b| == 0 { return |a|; }
    var m := new nat[|a| + 1, |b| + 1];
    for i := 0 to |a| + 1
      invariant forall i' {:trigger m[i', 0]} :: 0 <= i' < i ==> m[i', 0] == Table(a, b, i', 0)
    {
      m[i, 0] := i;
    }
    for j := 0 to |b| + 1
      invariant forall i' {:trigger m[i', 0]} :: 0 <= i' <= |a| ==> m[i', 0] == Table(a, b, i', 0)
      invariant forall j' {:trigger m[0, j']} :: 0 <= j' < j ==> m[0, j'] == Table(a, b, 0, j')
    {
      m[0, j] := j;
    }
    for i := 1 to |a| + 1
      invariant forall i', j' {:trigger m[i', j']} :: 0 <= i' < i && 0 <= j' <= |b| ==> m[i', j'] == Table(a, b, i', j')
      invariant forall i' {:trigger m[i', 0]} :: 0 <= i' <= |a| ==> m[i', 0] == Table(a, b, i', 0)
    {
      FillRow(m, a, b, i);
    }
    d := m[|a|, |b|];
  }

  /** The inner loop of the table fill: row `i` from column 1 on, each cell
      the minimum over its three neighbours already filled. */
  method FillRow(m: array2<nat>, a: string, b: string, i: nat)
    requires m.Length0 == |a| + 1 && m.Length1 == |b| + 1 && 1 <= i <= |a|
    requires forall i', j' {:trigger m[i', j']} :: 0 <= i' < i && 0 <= j' <= |b| ==> m[i', j'] == Table(a, b, i', j')
    requires forall i' {:trigger m[i', 0]} :: 0 <= i' <= |a| ==> m[i', 0] == Table(a, b, i', 0)
    modifies m
    ensures forall i', j' {:trigger m[i', j']} :: 0 <= i' <= i && 0 <= j' <= |b| ==> m[i', j'] == Table(a, b, i', j')
    ensures forall i' {:trigger m[i', 0]} :: 0 <= i' <= |a| ==> m[i', 0] == Table(a, b, i', 0)
  {
    for j := 1 to |b| + 1
      invariant forall i', j' {:trigger m[i', j']} :: 0 <= i' < i && 0 <= j' <= |b| ==> m[i', j'] == Table(a, b, i', j')
      invariant forall i' {:trigger m[i', 0]} :: 0 <= i' <= |a| ==> m[i', 0] == Table(a, b, i', 0)
      invariant forall j' {:trigger m[i, j']} :: 0 <= j' < j ==> m[i, j'] == Table(a, b, i, j')
    {
      var cost := if a[i - 1] == b[j - 1] then 0 else 1;
      var best := Min3(m[i - 1, j] + 1, m[i, j - 1] + 1, m[i - 1, j - 1] + cost);
      assert best == Table(a, b, i, j);
      m[i, j] := best;
    }
  }

  /** A prefix is at distance 0 from itself. */
  lemma {:induction false} TableSelf(a: string, i: nat)
    requires i <= |a|
    ensures Table(a, a, i, i) == 0
  {
    if i > 0 {
      TableSelf(a, i - 1);
    }
  }

  /** A string is at distance 0 from itself. */
  lemma DistSelf(a: string)
    ensures Dist(a, a) == 0
  {
    TableSelf(a, |a|);
  }

  /** Distance 0 between prefixes means they are equal. */
  lemma {:induction false} TableZeroEqual(a: string, b: string, i: nat, j: nat)
    requires i <= |a| && j <= |b| && Table(a, b, i, j) == 0
    ensures i == j && a[..i] == b[..j]
    decreases i + j
  {
    if i > 0 && j > 0 {
      TableZeroEqual(a, b, i - 1, j - 1);
      assert a[..i] == a[..i - 1] + [a[i - 1]] && b[..j] == b[..j - 1] + [b[j - 1]];
    }
  }

  /** Distance 0 means the strings are equal. */
  lemma DistZeroEqual(a: string, b: string)
    requires Dist(a, b) == 0
    ensures a == b
  {
    TableZeroEqual(a, b, |a|, |b|);
    assert a[..|a|] == a && b[..|b|] == b;
  }

  lemma {:induction false} TableSymmetric(a: string, b: string, i: nat, j: nat)
    requires i <= |a| && j <= |b|
    ensures Table(a, b, i, j) == Table(b, a, j, i)
    decreases i + j
  {
    if i > 0 && j > 0 {
      TableSymmetric(a, b, i - 1, j);
      TableSymmetric(a, b, i, j - 1);
      TableSymmetric(a, b, i - 1, j - 1);
    }
  }

  /** The distance is symmetric. */
  lemma DistSymmetric(a: string, b: string)
    ensures Dist(a, b) == Dist(b, a)
  {
    TableSymmetric(a, b, |a|, |b|);
  }

  lemma {:induction false} TableBounds(a: string, b: string, i: nat, j: nat)
    requires i <= |a| && j <= |b|
    ensures Table(a, b, i, j) >= i - j && Table(a, b, i, j) >= j - i
    ensures Table(a, b, i, j) <= Max(i, j)
    decreases i + j
  {
    if i > 0 && j > 0 {
      TableBounds(a, b, i - 1, j);
      TableBounds(a, b, i, j - 1);
      TableBounds(a, b, i - 1, j - 1);
    }
  }

  /** The distance is at least the difference of the lengths and at most
      the longer length; so `maxLen - distance` is never negative. */
  lemma DistBounds(a: string, b: string)
    ensures Dist(a, b) >= |a| - |b| && Dist(a, b) >= |b| - |a|
    ensures Dist(a, b) <= Max(|a|, |b|)
  {
    TableBounds(a, b, |a|, |b|);
  }
}
