// The two-row Levenshtein distance, and why it is the least number of edits.
module EditDistance {

  // ── the recurrence the rows hold ──

  function Cost(x: char, y: char): nat { if x == y then 0 else 1 }

  function Min3(x: nat, y: nat, z: nat): nat { if x <= y && x <= z then x else if y <= z then y else z }

  function Dist(a: string, b: string): nat
    decreases |a| + |b|
  {
    if a == "" then |b|
    else if b == "" then |a|
    else
      Min3(Dist(a[..|a| - 1], b) + 1,
           Dist(a, b[..|b| - 1]) + 1,
           Dist(a[..|a| - 1], b[..|b| - 1]) + Cost(a[|a| - 1], b[|b| - 1]))
  }

  // ── single-character edits ──

  // t is s with one character inserted, removed or replaced.
  ghost predicate OneEdit(s: string, t: string) {
    || (exists i, c :: 0 <= i <= |s| && t == s[..i] + [c] + s[i..])
    || (exists i :: 0 <= i < |s| && t == s[..i] + s[i + 1..])
    || (exists i, c :: 0 <= i < |s| && t == s[..i] + [c] + s[i + 1..])
  }

  ghost predicate Edits(a: string, b: string, n: nat)
    decreases n
  {
    if n == 0 then a == b else exists s :: OneEdit(a, s) && Edits(s, b, n - 1)
  }

  // ── a metric ──

  lemma {:induction false} DistBounds(a: string, b: string)
    ensures |a| - |b| <= Dist(a, b) && |b| - |a| <= Dist(a, b)
    ensures Dist(a, b) <= if |a| >= |b| then |a| else |b|
    decreases |a| + |b|
  {
    if a != "" && b != "" {
      DistBounds(a[..|a| - 1], b);
      DistBounds(a, b[..|b| - 1]);
      DistBounds(a[..|a| - 1], b[..|b| - 1]);
    }
  }

  // The shorter length is no bound.
  lemma ShorterIsNoBound()
    ensures Dist("", "a") == 1 > |""|
  {}

  lemma {:induction false} DistSymmetric(a: string, b: string)
    ensures Dist(a, b) == Dist(b, a)
    decreases |a| + |b|
  {
    if a != "" && b != "" {
      DistSymmetric(a[..|a| - 1], b);
      DistSymmetric(a, b[..|b| - 1]);
      DistSymmetric(a[..|a| - 1], b[..|b| - 1]);
    }
  }

  lemma {:induction false} DistZeroIffEqual(a: string, b: string)
    ensures Dist(a, b) == 0 <==> a == b
    decreases |a| + |b|
  {
    if a != "" && b != "" {
      var a', b', x, y := a[..|a| - 1], b[..|b| - 1], a[|a| - 1], b[|b| - 1];
      DistZeroIffEqual(a', b');
      assert a == a' + [x] && b == b' + [y];
    }
  }

  lemma {:induction false} Triangle(a: string, b: string, c: string)
    ensures Dist(a, c) <= Dist(a, b) + Dist(b, c)
    decreases |a| + |b| + |c|
  {
    if a != "" && b != "" && c != "" {
      var a', b', c' := a[..|a| - 1], b[..|b| - 1], c[..|c| - 1];
      Triangle(a', b, c);
      Triangle(a, b, c');
      Triangle(a, b', c);
      Triangle(a, b', c');
      Triangle(a', b', c);
      Triangle(a', b', c');
    } else {
      DistBounds(a, b);
      DistBounds(b, c);
      DistBounds(a, c);
    }
  }

  // ── the least number of edits ──

  lemma {:induction false} EditsJoin(a: string, b: string, c: string, m: nat, n: nat)
    requires Edits(a, b, m) && Edits(b, c, n)
    ensures Edits(a, c, m + n)
    decreases m
  {
    if m > 0 {
      var s :| OneEdit(a, s) && Edits(s, b, m - 1);
      EditsJoin(s, b, c, m - 1, n);
    }
  }

  lemma OneEditAppend(s: string, t: string, ch: char)
    requires OneEdit(s, t)
    ensures OneEdit(s + [ch], t + [ch])
  {
    if i, c :| 0 <= i <= |s| && t == s[..i] + [c] + s[i..] {
      InsertedBefore(s, i, c, ch);
    } else if i :| 0 <= i < |s| && t == s[..i] + s[i + 1..] {
      DeletedBefore(s, i, ch);
    } else {
      var i, c :| 0 <= i < |s| && t == s[..i] + [c] + s[i + 1..];
      ReplacedBefore(s, i, c, ch);
    }
  }

  lemma InsertedBefore(s: string, i: nat, c: char, ch: char)
    requires i <= |s|
    ensures var s' := s + [ch]; s[..i] + [c] + s[i..] + [ch] == s'[..i] + [c] + s'[i..]
  {
    var s' := s + [ch];
    assert s'[..i] == s[..i] && s'[i..] == s[i..] + [ch];
  }

  lemma DeletedBefore(s: string, i: nat, ch: char)
    requires i < |s|
    ensures var s' := s + [ch]; s[..i] + s[i + 1..] + [ch] == s'[..i] + s'[i + 1..]
  {
    var s' := s + [ch];
    assert s'[..i] == s[..i] && s'[i + 1..] == s[i + 1..] + [ch];
  }

  lemma ReplacedBefore(s: string, i: nat, c: char, ch: char)
    requires i < |s|
    ensures var s' := s + [ch]; s[..i] + [c] + s[i + 1..] + [ch] == s'[..i] + [c] + s'[i + 1..]
  {
    var s' := s + [ch];
    assert s'[..i] == s[..i] && s'[i + 1..] == s[i + 1..] + [ch];
  }

  lemma {:induction false} EditsAppend(a: string, b: string, n: nat, ch: char)
    requires Edits(a, b, n)
    ensures Edits(a + [ch], b + [ch], n)
    decreases n
  {
    if n > 0 {
      var s :| OneEdit(a, s) && Edits(s, b, n - 1);
      OneEditAppend(a, s, ch);
      EditsAppend(s, b, n - 1, ch);
      EditsVia(a + [ch], s + [ch], b + [ch], n);
    }
  }

  lemma EditsVia(a: string, s: string, b: string, n: nat)
    requires n > 0 && OneEdit(a, s) && Edits(s, b, n - 1)
    ensures Edits(a, b, n)
  {}

  lemma EditLast(s: string, x: char, y: char)
    ensures OneEdit(s + [x], s) && OneEdit(s, s + [y]) && OneEdit(s + [x], s + [y])
  {
    var sx := s + [x];
    assert sx[..|s|] == s && sx[|s| + 1..] == "" && s[..|s|] == s && s[|s|..] == "";
    assert s == sx[..|s|] + sx[|s| + 1..];
    assert s + [y] == s[..|s|] + [y] + s[|s|..];
    assert s + [y] == sx[..|s|] + [y] + sx[|s| + 1..];
  }

  lemma EditsOne(a: string, b: string)
    requires OneEdit(a, b)
    ensures Edits(a, b, 1)
  {
    assert Edits(b, b, 0);
  }

  lemma ViaDelete(a: string, x: char, b: string, n: nat)
    requires Edits(a, b, n)
    ensures Edits(a + [x], b, n + 1)
  {
    EditLast(a, x, x);
  }

  lemma ViaInsert(a: string, b: string, y: char, n: nat)
    requires Edits(a, b, n)
    ensures Edits(a, b + [y], n + 1)
  {
    EditLast(b, y, y);
    EditsOne(b, b + [y]);
    EditsJoin(a, b, b + [y], n, 1);
  }

  lemma ViaReplace(a: string, x: char, b: string, y: char, n: nat)
    requires Edits(a, b, n)
    ensures Edits(a + [x], b + [y], n + Cost(x, y))
  {
    EditsAppend(a, b, n, x);
    if x != y {
      EditLast(b, x, y);
      EditsOne(b + [x], b + [y]);
      EditsJoin(a + [x], b + [x], b + [y], n, 1);
    }
  }

  // Some sequence of Dist(a, b) edits leads from a to b.
  lemma {:induction false} DistIsReached(a: string, b: string)
    ensures Edits(a, b, Dist(a, b))
    decreases |a| + |b|
  {
    if a != "" && b != "" {
      var a', x, b', y := a[..|a| - 1], a[|a| - 1], b[..|b| - 1], b[|b| - 1];
      SnocOf(a);
      SnocOf(b);
      if Dist(a, b) == Dist(a', b) + 1 {
        DistIsReached(a', b);
        ViaDelete(a', x, b, Dist(a', b));
      } else if Dist(a, b) == Dist(a, b') + 1 {
        DistIsReached(a, b');
        ViaInsert(a, b', y, Dist(a, b'));
      } else {
        DistIsReached(a', b');
        ViaReplace(a', x, b', y, Dist(a', b'));
      }
    } else {
      FromNothing(b);
      ToNothing(a);
    }
  }

  lemma {:induction false} FromNothing(b: string)
    ensures Edits("", b, |b|)
    decreases |b|
  {
    if b != "" {
      SnocOf(b);
      FromNothing(b[..|b| - 1]);
      ViaInsert("", b[..|b| - 1], b[|b| - 1], |b| - 1);
    }
  }

  lemma {:induction false} ToNothing(a: string)
    ensures Edits(a, "", |a|)
    decreases |a|
  {
    if a != "" {
      SnocOf(a);
      ToNothing(a[..|a| - 1]);
      ViaDelete(a[..|a| - 1], a[|a| - 1], "", |a| - 1);
    }
  }

  lemma SnocOf(s: string)
    requires s != ""
    ensures s == s[..|s| - 1] + [s[|s| - 1]]
  {}

  lemma {:induction false} SameTail(s: string, t: string, tail: string)
    ensures Dist(s + tail, t + tail) <= Dist(s, t)
    decreases |tail|
  {
    if tail == "" {
      assert s + tail == s && t + tail == t;
    } else {
      var rest, ch := tail[..|tail| - 1], tail[|tail| - 1];
      SameTail(s, t, rest);
      WithoutLast(s, tail);
      WithoutLast(t, tail);
    }
  }

  lemma WithoutLast(s: string, tail: string)
    requires tail != ""
    ensures (s + tail)[..|s + tail| - 1] == s + tail[..|tail| - 1]
    ensures (s + tail)[|s + tail| - 1] == tail[|tail| - 1]
  {}

  // Two texts that differ in the middle by at most one character.
  lemma MiddleDistance(p: string, x: char, y: char, q: string)
    ensures Dist(p + q, p + [y] + q) <= 1
    ensures Dist(p + [x] + q, p + q) <= 1
    ensures Dist(p + [x] + q, p + [y] + q) <= 1
  {
    LastDistance(p, x, y);
    SameTail(p, p + [y], q);
    SameTail(p + [x], p, q);
    SameTail(p + [x], p + [y], q);
  }

  lemma InsertDistance(s: string, t: string, i: nat, c: char)
    requires i <= |s| && t == s[..i] + [c] + s[i..]
    ensures Dist(s, t) <= 1
  {
    MiddleDistance(s[..i], c, c, s[i..]);
    assert s == s[..i] + s[i..];
  }

  lemma RemoveDistance(s: string, t: string, i: nat)
    requires i < |s| && t == s[..i] + s[i + 1..]
    ensures Dist(s, t) <= 1
  {
    MiddleDistance(s[..i], s[i], s[i], s[i + 1..]);
    assert s == s[..i] + [s[i]] + s[i + 1..];
  }

  lemma ReplaceDistance(s: string, t: string, i: nat, c: char)
    requires i < |s| && t == s[..i] + [c] + s[i + 1..]
    ensures Dist(s, t) <= 1
  {
    MiddleDistance(s[..i], s[i], c, s[i + 1..]);
    assert s == s[..i] + [s[i]] + s[i + 1..];
  }

  lemma OneEditDistance(s: string, t: string)
    requires OneEdit(s, t)
    ensures Dist(s, t) <= 1
  {
    if i, c :| 0 <= i <= |s| && t == s[..i] + [c] + s[i..] {
      InsertDistance(s, t, i, c);
    } else if i :| 0 <= i < |s| && t == s[..i] + s[i + 1..] {
      RemoveDistance(s, t, i);
    } else {
      var i, c :| 0 <= i < |s| && t == s[..i] + [c] + s[i + 1..];
      ReplaceDistance(s, t, i, c);
    }
  }

  lemma LastDistance(s: string, x: char, y: char)
    ensures Dist(s, s + [y]) <= 1 && Dist(s + [x], s) <= 1 && Dist(s + [x], s + [y]) <= 1
  {
    DistZeroIffEqual(s, s);
    assert (s + [x])[..|s|] == s && (s + [y])[..|s|] == s;
  }

  // No shorter sequence of edits does.
  lemma {:induction false} DistIsLeast(a: string, b: string, n: nat)
    requires Edits(a, b, n)
    ensures Dist(a, b) <= n
    decreases n
  {
    if n == 0 {
      DistZeroIffEqual(a, b);
    } else {
      var s :| OneEdit(a, s) && Edits(s, b, n - 1);
      DistIsLeast(s, b, n - 1);
      OneEditDistance(a, s);
      Triangle(a, s, b);
    }
  }

  // ── the loop ──

  lemma DistCell(a: string, b: string, i: nat, j: nat)
    requires 0 < i <= |a| && 0 < j <= |b|
    ensures Dist(a[..i], b[..j]) ==
            Min3(Dist(a[..i - 1], b[..j]) + 1, Dist(a[..i], b[..j - 1]) + 1,
                 Dist(a[..i - 1], b[..j - 1]) + Cost(a[i - 1], b[j - 1]))
  {
    assert a[..i][..i - 1] == a[..i - 1] && b[..j][..j - 1] == b[..j - 1];
  }

  method Compute(a: string, b: string) returns (d: nat)
    ensures d == Dist(a, b)
    ensures Edits(a, b, d) && forall n | Edits(a, b, n) :: d <= n
  {
    DistIsReached(a, b);
    forall n | Edits(a, b, n)
      ensures Dist(a, b) <= n
    {
      DistIsLeast(a, b, n);
    }
    if a == b {
      DistZeroIffEqual(a, b);
      return 0;
    }
    d := TwoRows(a, b);
  }

  // Row i of prev is the distances from a's first i characters to every prefix
  // of b; each new row is written over the one before last.
  method TwoRows(a: string, b: string) returns (d: nat)
    ensures d == Dist(a, b)
  {
    var prev, cur := new nat[|b| + 1], new nat[|b| + 1];
    for j := 0 to |b| + 1
      invariant forall k | 0 <= k < j :: prev[k] == k
    {
      prev[j] := j;
    }
    assert a[..0] == "";
    for i := 1 to |a| + 1
      invariant prev != cur && prev.Length == cur.Length == |b| + 1
      invariant fresh(prev) && fresh(cur)
      invariant IsRow(a, b, i - 1, prev[..])
    {
      FillRow(a, b, i, prev, cur);
      prev, cur := cur, prev;
    }
    assert a[..|a|] == a && b[..|b|] == b;
    d := prev[..][|b|];
  }

  ghost predicate IsRow(a: string, b: string, i: nat, row: seq<nat>)
    requires i <= |a|
  {
    |row| == |b| + 1 && forall k | 0 <= k <= |b| :: row[k] == Dist(a[..i], b[..k])
  }

  lemma RowCell(a: string, b: string, i: nat, j: nat, prev: seq<nat>, left: nat)
    requires 0 < i <= |a| && 0 < j <= |b| && IsRow(a, b, i - 1, prev) && left == Dist(a[..i], b[..j - 1])
    ensures Dist(a[..i], b[..j]) == Min3(prev[j] + 1, left + 1, prev[j - 1] + Cost(a[i - 1], b[j - 1]))
  {
    DistCell(a, b, i, j);
  }

  method FillRow(a: string, b: string, i: nat, prev: array<nat>, cur: array<nat>)
    requires 1 <= i <= |a| && prev != cur && prev.Length == cur.Length == |b| + 1
    requires IsRow(a, b, i - 1, prev[..])
    modifies cur
    ensures IsRow(a, b, i, cur[..])
  {
    cur[0] := i;
    assert b[..0] == "";
    for j := 1 to |b| + 1
      invariant IsRow(a, b, i - 1, prev[..])
      invariant forall k | 0 <= k < j :: cur[k] == Dist(a[..i], b[..k])
    {
      var cost := 1;
      if a[i - 1] == b[j - 1] {
        cost := 0;
      }
      var m := prev[j] + 1;
      if cur[j - 1] + 1 < m {
        m := cur[j - 1] + 1;
      }
      if prev[j - 1] + cost < m {
        m := prev[j - 1] + cost;
      }
      RowCell(a, b, i, j, prev[..], cur[j - 1]);
      cur[j] := m;
    }
  }
}
