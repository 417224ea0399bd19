/** longestCommonSubsequence: the in-place table, and what its last cell means. */
module Lcs {

  function Max(x: nat, y: nat): nat { if x > y then x else y }

  /** The recurrence the table is filled by, for the first `i` words of `a` and the first `j` of `b`. */
  function Length(a: seq<string>, b: seq<string>, i: nat, j: nat): nat
    requires i <= |a| && j <= |b|
  {
    if i == 0 || j == 0 then 0
    else if a[i - 1] == b[j - 1] then Length(a, b, i - 1, j - 1) + 1
    else Max(Length(a, b, i - 1, j), Length(a, b, i, j - 1))
  }

  lemma Recurrence(a: seq<string>, b: seq<string>, i: nat, j: nat)
    requires 0 < i <= |a| && 0 < j <= |b|
    ensures Length(a, b, i, j) == if a[i - 1] == b[j - 1] then Length(a, b, i - 1, j - 1) + 1
                                  else Max(Length(a, b, i - 1, j), Length(a, b, i, j - 1))
  {
  }

  lemma EmptyPrefixes(a: seq<string>, b: seq<string>)
    ensures forall j :: 0 <= j <= |b| ==> Length(a, b, 0, j) == 0
    ensures forall i :: 0 <= i <= |a| ==> Length(a, b, i, 0) == 0
  {
  }

  /** All cells before (i, j) in reading order, and the first column, hold their final values. */
  ghost predicate Filled(dp: array2<nat>, a: seq<string>, b: seq<string>, i: nat, j: nat)
    reads dp
  {
    && dp.Length0 == |a| + 1 && dp.Length1 == |b| + 1
    && forall x, y :: 0 <= x <= |a| && 0 <= y <= |b| && (x < i || (x == i && y < j) || y == 0)
         ==> dp[x, y] == Length(a, b, x, y)
  }

  /** The body of the inner loop. */
  method FillCell(dp: array2<nat>, a: seq<string>, b: seq<string>, i: nat, j: nat)
    requires 0 < i <= |a| && 0 < j <= |b| && Filled(dp, a, b, i, j)
    modifies dp
    ensures Filled(dp, a, b, i, j + 1)
  {
    Recurrence(a, b, i, j);
    hide Length;
    if a[i - 1] == b[j - 1] {
      dp[i, j] := dp[i - 1, j - 1] + 1;
    } else if dp[i - 1, j] > dp[i, j - 1] {
      dp[i, j] := dp[i - 1, j];
    } else {
      dp[i, j] := dp[i, j - 1];
    }
  }

  method LongestCommonSubsequence(a: seq<string>, b: seq<string>) returns (r: nat)
    ensures r == Length(a, b, |a|, |b|)
  {
    var m, n := |a|, |b|;
    if m == 0 || n == 0 { return 0; }
    hide Length;
    EmptyPrefixes(a, b);
    var dp := new nat[m + 1, n + 1]((_, _) => 0);
    for i := 1 to m + 1
      invariant Filled(dp, a, b, i, 1)
    {
      for j := 1 to n + 1
        invariant Filled(dp, a, b, i, j)
      {
        FillCell(dp, a, b, i, j);
      }
    }
    r := dp[m, n];
  }

  /** `s` is what `a` has at the strictly increasing positions `f`, all of them below `i`. */
  ghost predicate Picks(s: seq<string>, a: seq<string>, i: nat, f: seq<nat>) {
    && |f| == |s| && i <= |a|
    && (forall x :: 0 <= x < |f| ==> f[x] < i && s[x] == a[f[x]])
    && (forall x, y :: 0 <= x < y < |f| ==> f[x] < f[y])
  }

  ghost predicate CommonSubsequence(s: seq<string>, a: seq<string>, b: seq<string>) {
    (exists f :: Picks(s, a, |a|, f)) && (exists g :: Picks(s, b, |b|, g))
  }

  /** No common subsequence is longer. */
  lemma {:induction false} NoneIsLonger(a: seq<string>, b: seq<string>, i: nat, j: nat,
                                        s: seq<string>, f: seq<nat>, g: seq<nat>)
    requires Picks(s, a, i, f) && Picks(s, b, j, g)
    ensures |s| <= Length(a, b, i, j)
    decreases i + j
  {
    var n := |s|;
    if n > 0 {
      assert f[n - 1] < i && g[n - 1] < j && s[n - 1] == a[f[n - 1]] == b[g[n - 1]];
      if a[i - 1] == b[j - 1] {
        NoneIsLonger(a, b, i - 1, j - 1, s[..n - 1], f[..n - 1], g[..n - 1]);
      } else if f[n - 1] < i - 1 {
        NoneIsLonger(a, b, i - 1, j, s, f, g);
      } else {
        NoneIsLonger(a, b, i, j - 1, s, f, g);
      }
    }
  }

  /** Some common subsequence is that long. */
  lemma {:induction false} OneIsThatLong(a: seq<string>, b: seq<string>, i: nat, j: nat)
    returns (s: seq<string>, f: seq<nat>, g: seq<nat>)
    requires i <= |a| && j <= |b|
    ensures Picks(s, a, i, f) && Picks(s, b, j, g) && |s| == Length(a, b, i, j)
    decreases i + j
  {
    if i == 0 || j == 0 {
      s, f, g := [], [], [];
    } else if a[i - 1] == b[j - 1] {
      s, f, g := OneIsThatLong(a, b, i - 1, j - 1);
      s, f, g := s + [a[i - 1]], f + [i - 1], g + [j - 1];
    } else if Length(a, b, i - 1, j) > Length(a, b, i, j - 1) {
      s, f, g := OneIsThatLong(a, b, i - 1, j);
    } else {
      s, f, g := OneIsThatLong(a, b, i, j - 1);
    }
  }

  /** The result is the exact maximum of the lengths of all common subsequences. */
  lemma LengthIsMaximum(a: seq<string>, b: seq<string>)
    ensures exists s :: CommonSubsequence(s, a, b) && |s| == Length(a, b, |a|, |b|)
    ensures forall s :: CommonSubsequence(s, a, b) ==> |s| <= Length(a, b, |a|, |b|)
  {
    var s, f, g := OneIsThatLong(a, b, |a|, |b|);
    assert CommonSubsequence(s, a, b);
    forall s | CommonSubsequence(s, a, b) ensures |s| <= Length(a, b, |a|, |b|) {
      var f :| Picks(s, a, |a|, f);
      var g :| Picks(s, b, |b|, g);
      NoneIsLonger(a, b, |a|, |b|, s, f, g);
    }
  }

  lemma {:induction false} LengthBounds(a: seq<string>, b: seq<string>, i: nat, j: nat)
    requires i <= |a| && j <= |b|
    ensures Length(a, b, i, j) <= i && Length(a, b, i, j) <= j
    ensures Length(a, b, i, j) == Length(b, a, j, i)
    decreases i + j
  {
    if i > 0 && j > 0 {
      LengthBounds(a, b, i - 1, j - 1);
      LengthBounds(a, b, i - 1, j);
      LengthBounds(a, b, i, j - 1);
    }
  }

  lemma LengthIsSymmetric(a: seq<string>, b: seq<string>)
    ensures Length(a, b, |a|, |b|) == Length(b, a, |b|, |a|)
    ensures Length(a, b, |a|, |b|) <= |a| && Length(a, b, |a|, |b|) <= |b|
  {
    LengthBounds(a, b, |a|, |b|);
  }
}
