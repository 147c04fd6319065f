// The two-row longest common subsequence behind the near-quote ratio.
module WordRatio {

  type Words = seq<string>

  function Lcs(a: Words, b: Words): nat
    decreases |a| + |b|
  {
    if a == [] || b == [] then 0
    else if a[|a| - 1] == b[|b| - 1] then Lcs(a[..|a| - 1], b[..|b| - 1]) + 1
    else if Lcs(a[..|a| - 1], b) >= Lcs(a, b[..|b| - 1]) then Lcs(a[..|a| - 1], b)
    else Lcs(a, b[..|b| - 1])
  }

  // ── subsequences ──

  // at names, in increasing order, where each word of s is found in a.
  ghost predicate Embeds(s: Words, a: Words, at: seq<int>) {
    && |at| == |s|
    && (forall i, j | 0 <= i < j < |at| :: at[i] < at[j])
    && forall i | 0 <= i < |at| :: 0 <= at[i] < |a| && a[at[i]] == s[i]
  }

  ghost predicate IsSubsequence(s: Words, a: Words) { exists at :: Embeds(s, a, at) }

  lemma SubsequenceInit(s: Words, a: Words)
    requires IsSubsequence(s, a) && s != []
    ensures a != []
    ensures IsSubsequence(s[..|s| - 1], a[..|a| - 1])
    ensures s[|s| - 1] != a[|a| - 1] ==> IsSubsequence(s, a[..|a| - 1])
  {
    var at :| Embeds(s, a, at);
    assert at[|s| - 1] < |a|;
    assert forall i | 0 <= i < |s| - 1 :: at[i] < at[|s| - 1];
    assert Embeds(s[..|s| - 1], a[..|a| - 1], at[..|s| - 1]);
    if s[|s| - 1] != a[|a| - 1] {
      assert Embeds(s, a[..|a| - 1], at);
    }
  }

  lemma SubsequenceLonger(s: Words, a: Words, w: string)
    requires IsSubsequence(s, a)
    ensures IsSubsequence(s, a + [w]) && IsSubsequence(s + [w], a + [w])
  {
    var at :| Embeds(s, a, at);
    assert Embeds(s, a + [w], at);
    assert Embeds(s + [w], a + [w], at + [|a|]);
  }

  // Some common subsequence is that long.
  lemma {:induction false} LcsIsReached(a: Words, b: Words) returns (s: Words)
    ensures IsSubsequence(s, a) && IsSubsequence(s, b) && |s| == Lcs(a, b)
    decreases |a| + |b|
  {
    if a == [] || b == [] {
      s := [];
      assert Embeds([], a, []) && Embeds([], b, []);
    } else {
      var a', x, b', y := a[..|a| - 1], a[|a| - 1], b[..|b| - 1], b[|b| - 1];
      assert a == a' + [x] && b == b' + [y];
      if x == y {
        s := LcsIsReached(a', b');
        SubsequenceLonger(s, a', x);
        SubsequenceLonger(s, b', x);
        s := s + [x];
      } else if Lcs(a', b) >= Lcs(a, b') {
        s := LcsIsReached(a', b);
        SubsequenceLonger(s, a', x);
      } else {
        s := LcsIsReached(a, b');
        SubsequenceLonger(s, b', y);
      }
    }
  }

  // None is longer.
  lemma {:induction false} LcsIsLongest(a: Words, b: Words, s: Words)
    requires IsSubsequence(s, a) && IsSubsequence(s, b)
    ensures |s| <= Lcs(a, b)
    decreases |a| + |b|
  {
    if s != [] {
      SubsequenceInit(s, a);
      SubsequenceInit(s, b);
      var a', b' := a[..|a| - 1], b[..|b| - 1];
      if a[|a| - 1] == b[|b| - 1] {
        LcsIsLongest(a', b', s[..|s| - 1]);
      } else if s[|s| - 1] != a[|a| - 1] {
        LcsIsLongest(a', b, s);
      } else {
        LcsIsLongest(a, b', s);
      }
    }
  }

  // ── the ratio ──

  function Ratio(a: Words, b: Words): real {
    if a == [] || b == [] then 0.0 else 2.0 * Lcs(a, b) as real / (|a| + |b|) as real
  }

  lemma {:induction false} LcsBounds(a: Words, b: Words)
    ensures Lcs(a, b) <= |a| && Lcs(a, b) <= |b|
    ensures Lcs(a, b) == Lcs(b, a)
    decreases |a| + |b|
  {
    if a != [] && b != [] {
      LcsBounds(a[..|a| - 1], b[..|b| - 1]);
      LcsBounds(a[..|a| - 1], b);
      LcsBounds(a, b[..|b| - 1]);
    }
  }

  lemma {:induction false} LcsFullIffEqual(a: Words, b: Words)
    requires |a| == |b|
    ensures Lcs(a, b) == |a| <==> a == b
    decreases |a|
  {
    if a != [] {
      var a', b' := a[..|a| - 1], b[..|b| - 1];
      LcsFullIffEqual(a', b');
      LcsBounds(a', b);
      LcsBounds(a, b');
      assert a == a' + [a[|a| - 1]] && b == b' + [b[|b| - 1]];
    }
  }

  // For nonempty word lists the ratio lies in [0, 1], does not depend on the
  // order of its arguments, and is 1 exactly for equal lists.
  lemma RatioIsASimilarity(a: Words, b: Words)
    requires a != [] && b != []
    ensures 0.0 <= Ratio(a, b) <= 1.0
    ensures Ratio(a, b) == Ratio(b, a)
    ensures Ratio(a, b) == 1.0 <==> a == b
  {
    LcsBounds(a, b);
    var l, n := Lcs(a, b), |a| + |b|;
    Quotient(2 * l, n);
    assert 2.0 * l as real == (2 * l) as real;
    if |a| == |b| {
      LcsFullIffEqual(a, b);
    }
  }

  lemma Quotient(x: nat, n: nat)
    requires x <= n && n > 0
    ensures 0.0 <= x as real / n as real <= 1.0
    ensures x as real / n as real == 1.0 <==> x == n
  {}

  // ── the loop ──

  lemma LcsCell(a: Words, b: Words, i: nat, j: nat)
    requires 0 < i <= |a| && 0 < j <= |b|
    ensures Lcs(a[..i], b[..j]) ==
            if a[i - 1] == b[j - 1] then Lcs(a[..i - 1], b[..j - 1]) + 1
            else if Lcs(a[..i - 1], b[..j]) >= Lcs(a[..i], b[..j - 1]) then Lcs(a[..i - 1], b[..j])
            else Lcs(a[..i], b[..j - 1])
  {
    assert a[..i][..i - 1] == a[..i - 1] && b[..j][..j - 1] == b[..j - 1];
  }

  method Compute(a: Words, b: Words) returns (r: real)
    ensures r == Ratio(a, b)
    ensures a != [] && b != [] ==> 0.0 <= r <= 1.0 && (r == 1.0 <==> a == b)
  {
    if |a| == 0 || |b| == 0 {
      return 0.0;
    }
    RatioIsASimilarity(a, b);
    var l := TwoRows(a, b);
    r := 2.0 * l as real / (|a| + |b|) as real;
  }

  method FillRow(a: Words, b: Words, i: nat, prev: array<nat>, cur: array<nat>)
    requires 1 <= i <= |a| && prev != cur && prev.Length == cur.Length == |b| + 1 && cur[0] == 0
    requires forall k | 0 <= k <= |b| :: prev[k] == Lcs(a[..i - 1], b[..k])
    modifies cur
    ensures forall k | 0 <= k <= |b| :: cur[k] == Lcs(a[..i], b[..k])
  {
    assert b[..0] == [];
    for j := 1 to |b| + 1
      invariant forall k | 0 <= k < j :: cur[k] == Lcs(a[..i], b[..k])
    {
      LcsCell(a, b, i, j);
      if a[i - 1] == b[j - 1] {
        cur[j] := prev[j - 1] + 1;
      } else if prev[j] >= cur[j - 1] {
        cur[j] := prev[j];
      } else {
        cur[j] := cur[j - 1];
      }
    }
  }

  method TwoRows(a: Words, b: Words) returns (l: nat)
    ensures l == Lcs(a, b)
  {
    var prev, cur := new nat[|b| + 1](_ => 0), new nat[|b| + 1](_ => 0);
    assert a[..0] == [];
    for i := 1 to |a| + 1
      invariant prev != cur && prev.Length == cur.Length == |b| + 1
      invariant fresh(prev) && fresh(cur)
      invariant forall k | 0 <= k <= |b| :: prev[k] == Lcs(a[..i - 1], b[..k])
      invariant cur[0] == 0
    {
      FillRow(a, b, i, prev, cur);
      prev, cur := cur, prev;
      for k := 0 to cur.Length
        invariant forall j | 0 <= j < k :: cur[j] == 0
        invariant forall j | 0 <= j <= |b| :: prev[j] == Lcs(a[..i], b[..j])
      {
        cur[k] := 0;
      }
    }
    assert a[..|a|] == a && b[..|b|] == b;
    l := prev[|b|];
  }
}
