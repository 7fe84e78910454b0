/** Levenshtein edit distance (unit-cost insertion, deletion and
    substitution), as the single-token path of the matcher computes it with
    a dynamic-programming table.
 */
module Levenshtein {

  function Max(a: nat, b: nat): nat {
    if a >= b then a else b
  }

  /** `Math.min(a, b, c)`. */
  function Min3(a: nat, b: nat, c: nat): (r: nat)
    ensures r <= a && r <= b && r <= c
    ensures r == a || r == b || r == c
  {
    if a <= b && a <= c then a else if b <= c then b else c
  }

  /** Substitution cost of the last characters of two prefixes. */
  function Cost(x: char, y: char): nat {
    if x == y then 0 else 1
  }

  /** The edit distance, by the recurrence on prefixes: the empty prefix
      costs the other's length; otherwise the cheapest of deleting the last
      character of `a`, inserting the last character of `b`, or matching the
      two last characters. */
  function Lev(a: string, b: string): nat
    decreases |a| + |b|
  {
    if |a| == 0 then |b|
    else if |b| == 0 then |a|
    else
      Min3(Lev(a[..|a| - 1], b) + 1,
           Lev(a, b[..|b| - 1]) + 1,
           Lev(a[..|a| - 1], b[..|b| - 1]) + Cost(a[|a| - 1], b[|b| - 1]))
  }

  /** One cell of the table: the recurrence, stated on prefixes of two
      fixed strings. */
  lemma LevStep(s: string, t: string, i: nat, j: nat)
    requires 1 <= i <= |s| && 1 <= j <= |t|
    ensures Lev(s[..i], t[..j])
         == Min3(Lev(s[..i - 1], t[..j]) + 1,
                 Lev(s[..i], t[..j - 1]) + 1,
                 Lev(s[..i - 1], t[..j - 1]) + Cost(s[i - 1], t[j - 1]))
  {
    assert s[..i][..i - 1] == s[..i - 1];
    assert t[..j][..j - 1] == t[..j - 1];
  }

  /** Cell `j` of row `cur` follows from the row `prev` above it by the
      recurrence, `cur` being row `i` of the table for `s` and `t`. */
  predicate RowStep(prev: seq<nat>, cur: seq<nat>, s: string, i: nat, t: string, j: nat)
    requires 1 <= i <= |s| && 1 <= j <= |t| && |prev| == |t| + 1 && |cur| == |t| + 1
  {
    cur[j] == Min3(prev[j] + 1, cur[j - 1] + 1, prev[j - 1] + Cost(s[i - 1], t[j - 1]))
  }

  /** A row built by the recurrence from the distances for the prefix of
      length `i - 1` holds the distances for the prefix of length `i`. */
  lemma {:induction false} RowIsLev(s: string, t: string, i: nat, prev: seq<nat>, cur: seq<nat>, j: nat)
    requires 1 <= i <= |s| && |prev| == |t| + 1 && |cur| == |t| + 1 && j <= |t|
    requires forall j' :: 0 <= j' <= |t| ==> prev[j'] == Lev(s[..i - 1], t[..j'])
    requires cur[0] == i
    requires forall j' :: 1 <= j' <= |t| ==> RowStep(prev, cur, s, i, t, j')
    ensures cur[j] == Lev(s[..i], t[..j])
    decreases j
  {
    if j == 0 {
      assert t[..0] == [] && |s[..i]| == i;
    } else {
      RowIsLev(s, t, i, prev, cur, j - 1);
      assert RowStep(prev, cur, s, i, t, j);
      LevStep(s, t, i, j);
    }
  }

  /** The table fill of the single-token path: `dp[i][0] = i`,
      `dp[0][j] = j`, then each inner row from the one above it. The answer
      is the bottom-right cell, the distance between the two strings. */
  method EditDistance(s: string, t: string) returns (d: nat)
    ensures d == Lev(s, t)
  {
    var n, m := |s|, |t|;
    var dp := new nat[n + 1, m + 1];
    for i := 0 to n + 1
      invariant forall i' :: 0 <= i' < i ==> dp[i', 0] == i'
    {
      dp[i, 0] := i;
    }
    for j := 0 to m + 1
      invariant forall i' :: 0 <= i' <= n ==> dp[i', 0] == i'
      invariant forall j' :: 0 <= j' < j ==> dp[0, j'] == j'
    {
      dp[0, j] := j;
    }
    assert s[..0] == [];
    for i := 1 to n + 1
      invariant forall j' :: 0 <= j' <= m ==> dp[i - 1, j'] == Lev(s[..i - 1], t[..j'])
      invariant forall i' :: i <= i' <= n ==> dp[i', 0] == i'
    {
      FillRow(dp, s, t, i);
      FilledRowIsLev(dp, s, t, i);
    }
    d := dp[n, m];
    assert s[..n] == s && t[..m] == t;
  }

  /** A row filled by the recurrence below a row of distances holds the
      distances of the next prefix. */
  lemma FilledRowIsLev(dp: array2<nat>, s: string, t: string, i: nat)
    requires dp.Length0 == |s| + 1 && dp.Length1 == |t| + 1 && 1 <= i <= |s|
    requires forall j' :: 0 <= j' <= |t| ==> dp[i - 1, j'] == Lev(s[..i - 1], t[..j'])
    requires dp[i, 0] == i
    requires forall j :: 1 <= j <= |t| ==> CellStep(dp, s, i, t, j)
    ensures forall j :: 0 <= j <= |t| ==> dp[i, j] == Lev(s[..i], t[..j])
  {
    var m := |t|;
    var prev := seq(m + 1, j requires 0 <= j <= m reads dp => dp[i - 1, j]);
    var cur := seq(m + 1, j requires 0 <= j <= m reads dp => dp[i, j]);
    forall j | 1 <= j <= m
      ensures RowStep(prev, cur, s, i, t, j)
    {
      assert CellStep(dp, s, i, t, j);
    }
    forall j | 0 <= j <= m
      ensures dp[i, j] == Lev(s[..i], t[..j])
    {
      RowIsLev(s, t, i, prev, cur, j);
    }
  }

  /** Cell `(i, j)` of the table follows from its three neighbours by the
      recurrence, with `s[i - 1]` the character of the first string for
      row `i`. */
  predicate CellStep(dp: array2<nat>, s: string, i: nat, t: string, j: nat)
    requires 1 <= i <= |s| && dp.Length0 == |s| + 1 && 1 <= j <= |t| && dp.Length1 == |t| + 1
    reads dp
  {
    dp[i, j] == Min3(dp[i - 1, j] + 1, dp[i, j - 1] + 1, dp[i - 1, j - 1] + Cost(s[i - 1], t[j - 1]))
  }

  /** One row of the table: `dp[i][j]` for `j` from 1 up is the minimum
      of deletion, insertion and substitution. Nothing else changes. */
  method FillRow(dp: array2<nat>, s: string, t: string, i: nat)
    requires dp.Length0 == |s| + 1 && dp.Length1 == |t| + 1 && 1 <= i <= |s|
    modifies dp
    ensures forall j :: 1 <= j <= |t| ==> CellStep(dp, s, i, t, j)
    ensures forall a, b :: 0 <= a <= |s| && 0 <= b <= |t| && (a != i || b == 0) ==> dp[a, b] == old(dp[a, b])
  {
    for j := 1 to |t| + 1
      invariant forall j' :: 1 <= j' < j ==> CellStep(dp, s, i, t, j')
      invariant forall a, b :: 0 <= a <= |s| && 0 <= b <= |t| && (a != i || b == 0 || b >= j) ==> dp[a, b] == old(dp[a, b])
    {
      var cost := if s[i - 1] == t[j - 1] then 0 else 1;
      label before:
      dp[i, j] := Min3(dp[i - 1, j] + 1, dp[i, j - 1] + 1, dp[i - 1, j - 1] + cost);
      // the cells earlier in the row read only cells left of `j`
      forall j' | 1 <= j' < j
        ensures CellStep(dp, s, i, t, j')
      {
        assert old@before(CellStep(dp, s, i, t, j'));
      }
    }
  }

  /** The distance never exceeds the longer length, so the similarity
      `1 - d / max` is never negative. */
  lemma {:induction false} LevAtMostMax(a: string, b: string)
    ensures Lev(a, b) <= Max(|a|, |b|)
    decreases |a| + |b|
  {
    if |a| != 0 && |b| != 0 {
      LevAtMostMax(a[..|a| - 1], b[..|b| - 1]);
    }
  }

  /** The distance is at least the difference of the lengths. */
  lemma {:induction false} LevAtLeastLengthGap(a: string, b: string)
    ensures Lev(a, b) >= |a| - |b| && Lev(a, b) >= |b| - |a|
    decreases |a| + |b|
  {
    if |a| != 0 && |b| != 0 {
      LevAtLeastLengthGap(a[..|a| - 1], b);
      LevAtLeastLengthGap(a, b[..|b| - 1]);
      LevAtLeastLengthGap(a[..|a| - 1], b[..|b| - 1]);
    }
  }

  /** A string is at distance zero from itself. */
  lemma {:induction false} LevSelf(a: string)
    ensures Lev(a, a) == 0
    decreases |a|
  {
    if |a| != 0 {
      LevSelf(a[..|a| - 1]);
    }
  }

  /** Distance zero means equal strings, and only then. */
  lemma {:induction false} LevZeroIff(a: string, b: string)
    ensures Lev(a, b) == 0 <==> a == b
    decreases |a| + |b|
  {
    if a == b {
      LevSelf(a);
    } else if Lev(a, b) == 0 {
      LevAtLeastLengthGap(a, b);
      assert |a| == |b| && |a| != 0;
      LevAtLeastLengthGap(a[..|a| - 1], b);
      LevAtLeastLengthGap(a, b[..|b| - 1]);
      var a', b' := a[..|a| - 1], b[..|b| - 1];
      assert Lev(a', b') == 0 && a[|a| - 1] == b[|b| - 1];
      LevZeroIff(a', b');
      assert false;
    }
  }

  /** Dropping or replacing the last character costs at most one edit. */
  lemma LevDropLast(p: string, x: char)
    ensures Lev(p + [x], p) <= 1
  {
    var a := p + [x];
    assert a[..|a| - 1] == p;
    LevSelf(p);
    if p != [] {
      assert Lev(a, p) <= Lev(a[..|a| - 1], p) + 1;
    }
  }

  lemma LevReplaceLast(p: string, x: char, y: char)
    ensures Lev(p + [x], p + [y]) <= 1
  {
    var a, b := p + [x], p + [y];
    assert a[..|a| - 1] == p && b[..|b| - 1] == p;
    LevSelf(p);
  }

  /** Appending the same character to both strings adds nothing. */
  lemma LevAppendSame(a: string, b: string, c: char)
    ensures Lev(a + [c], b + [c]) <= Lev(a, b)
  {
    var a', b' := a + [c], b + [c];
    assert a'[..|a'| - 1] == a && b'[..|b'| - 1] == b;
  }

  /** Editing `a` into `b` costs the same as editing `b` into `a`. */
  lemma {:induction false} LevSymmetric(a: string, b: string)
    ensures Lev(a, b) == Lev(b, a)
    decreases |a| + |b|
  {
    if |a| != 0 && |b| != 0 {
      LevSymmetric(a[..|a| - 1], b);
      LevSymmetric(a, b[..|b| - 1]);
      LevSymmetric(a[..|a| - 1], b[..|b| - 1]);
    }
  }
}
