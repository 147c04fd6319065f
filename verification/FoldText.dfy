// The fold a quote and a document both go through before they are compared:
// letters and digits only, lower case, star-page numbers skipped, with the
// place each kept character came from.
module FoldText {
  import opened Strings

  // ── the fold ──

  // unicode.ToLower, and what is a letter or a digit in any script.
  datatype Unicode = Unicode(lower: char -> char, wordy: char -> bool)

  predicate IsLetter(c: char) { 'a' <= c <= 'z' || 'A' <= c <= 'Z' }

  function AsciiLower(c: char): char {
    if 'A' <= c <= 'Z' then (c as int + 32) as char else c
  }

  predicate Ascii(c: char) { c < 128 as char }

  // The tables are the familiar ones on ASCII, and lower case is lower already.
  ghost predicate Tables(u: Unicode) {
    && (forall c | Ascii(c) :: u.lower(c) == AsciiLower(c) && (u.wordy(c) <==> IsLetter(c) || IsDigit(c)))
    && (forall c :: u.lower(u.lower(c)) == u.lower(c))
  }

  function Lower(u: Unicode, c: char): char { u.lower(c) }

  predicate Kept(u: Unicode, c: char) { u.wordy(Lower(u, c)) }

  lemma TablesExist() returns (u: Unicode)
    ensures Tables(u)
  {
    u := Unicode(AsciiLower, c => IsLetter(c) || IsDigit(c));
  }

  // The first position at or after j that holds no digit.
  function DigitsEnd(s: string, j: nat): (e: nat)
    requires j <= |s|
    ensures j <= e <= |s|
    decreases |s| - j
  {
    if j < |s| && IsDigit(s[j]) then DigitsEnd(s, j + 1) else j
  }

  // Where reading goes on after the character at i: past its digits for a star.
  function Next(s: string, i: nat): (n: nat)
    requires i < |s|
    ensures i < n <= |s|
  {
    if s[i] == '*' then DigitsEnd(s, i + 1) else i + 1
  }

  function FoldFrom(u: Unicode, s: string, i: nat): string
    requires i <= |s|
    decreases |s| - i
  {
    if i == |s| then ""
    else if Kept(u, s[i]) then [Lower(u, s[i])] + FoldFrom(u, s, i + 1)
    else FoldFrom(u, s, Next(s, i))
  }

  function Fold(u: Unicode, s: string): string { FoldFrom(u, s, 0) }

  // The positions the fold keeps, from position i on.
  function OffsetsFrom(u: Unicode, s: string, i: nat): seq<nat>
    requires i <= |s|
    decreases |s| - i
  {
    if i == |s| then []
    else if Kept(u, s[i]) then [i] + OffsetsFrom(u, s, i + 1)
    else OffsetsFrom(u, s, Next(s, i))
  }

  function Offsets(u: Unicode, s: string): seq<nat> { OffsetsFrom(u, s, 0) }

  // ── the offset map ──

  ghost predicate Maps(u: Unicode, s: string, i: nat, offs: seq<nat>, f: string) {
    |offs| == |f| && forall k | 0 <= k < |offs| :: MapsTo(u, s, i, offs[k], f[k])
  }

  ghost predicate MapsTo(u: Unicode, s: string, i: nat, p: nat, c: char) {
    i <= p < |s| && Kept(u, s[p]) && c == Lower(u, s[p])
  }

  ghost predicate Increasing(offs: seq<nat>) {
    forall j, k | 0 <= j < k < |offs| :: offs[j] < offs[k]
  }

  lemma MapsWiden(u: Unicode, s: string, i: nat, n: nat, offs: seq<nat>, f: string)
    requires i <= n && Maps(u, s, n, offs, f)
    ensures Maps(u, s, i, offs, f)
  {
    forall k | 0 <= k < |offs|
      ensures MapsTo(u, s, i, offs[k], f[k])
    {
      assert MapsTo(u, s, n, offs[k], f[k]);
    }
  }

  lemma MapsCons(u: Unicode, s: string, i: nat, offs: seq<nat>, f: string)
    requires i < |s| && Kept(u, s[i]) && Maps(u, s, i + 1, offs, f) && Increasing(offs)
    ensures Maps(u, s, i, [i] + offs, [Lower(u, s[i])] + f) && Increasing([i] + offs)
  {
    MapsWiden(u, s, i, i + 1, offs, f);
    assert forall k | 0 <= k < |offs| :: MapsTo(u, s, i + 1, offs[k], f[k]);
  }

  // One offset per folded character, each naming the character it was folded
  // from, in increasing order.
  lemma {:induction false} OffsetsMapTheFold(u: Unicode, s: string, i: nat)
    requires i <= |s|
    ensures Maps(u, s, i, OffsetsFrom(u, s, i), FoldFrom(u, s, i))
    ensures Increasing(OffsetsFrom(u, s, i))
    decreases |s| - i
  {
    if i < |s| && Kept(u, s[i]) {
      OffsetsMapTheFold(u, s, i + 1);
      MapsCons(u, s, i, OffsetsFrom(u, s, i + 1), FoldFrom(u, s, i + 1));
    } else if i < |s| {
      OffsetsMapTheFold(u, s, Next(s, i));
      MapsWiden(u, s, i, Next(s, i), OffsetsFrom(u, s, i), FoldFrom(u, s, i));
    }
  }

  lemma OffsetAt(u: Unicode, s: string, i: nat, k: nat)
    requires i <= |s| && k < |OffsetsFrom(u, s, i)|
    ensures |OffsetsFrom(u, s, i)| == |FoldFrom(u, s, i)| && i <= OffsetsFrom(u, s, i)[k] < |s|
  {
    OffsetsMapTheFold(u, s, i);
    assert MapsTo(u, s, i, OffsetsFrom(u, s, i)[k], FoldFrom(u, s, i)[k]);
  }

  // Folding from a kept position gives the fold from there.
  lemma {:induction false} FoldFromKept(u: Unicode, s: string, i: nat, k: nat, p: nat)
    requires i <= |s| && k < |OffsetsFrom(u, s, i)| && p == OffsetsFrom(u, s, i)[k] && p <= |s|
    ensures OffsetsFrom(u, s, p) == OffsetsFrom(u, s, i)[k..]
    ensures k <= |FoldFrom(u, s, i)| && FoldFrom(u, s, p) == FoldFrom(u, s, i)[k..]
    decreases |s| - i
  {
    if !Kept(u, s[i]) {
      FoldFromKept(u, s, Next(s, i), k, p);
    } else if k > 0 {
      FoldFromKept(u, s, i + 1, k - 1, p);
    }
  }

  // ── suffixes ──

  lemma {:induction false} DigitsEndShift(s: string, i: nat, j: nat)
    requires i <= |s| && j <= |s| - i
    ensures DigitsEnd(s[i..], j) + i == DigitsEnd(s, i + j)
    decreases |s| - i - j
  {
    if i + j < |s| && IsDigit(s[i + j]) {
      DigitsEndShift(s, i, j + 1);
    }
  }

  lemma {:induction false} FoldShift(u: Unicode, s: string, i: nat, j: nat)
    requires i <= |s| && j <= |s| - i
    ensures FoldFrom(u, s[i..], j) == FoldFrom(u, s, i + j)
    decreases |s| - i - j
  {
    var t := s[i..];
    if j < |t| {
      if Kept(u, t[j]) {
        FoldShift(u, s, i, j + 1);
      } else {
        DigitsEndShift(s, i, j + 1);
        FoldShift(u, s, i, Next(t, j));
      }
    }
  }

  // ── cutting a text in two ──

  // A star page number begins at j and runs to the end of the text, so that
  // digits put after the text would belong to it.
  predicate OpenAt(s: string, j: nat) {
    j < |s| && s[j] == '*' && DigitsEnd(s, j + 1) == |s|
  }

  ghost predicate OpenFrom(s: string, i: nat) { exists j :: i <= j && OpenAt(s, j) }

  ghost predicate OpenPage(s: string) { OpenFrom(s, 0) }

  lemma {:induction false} DigitsBefore(s: string, i: nat, j: nat)
    requires i <= j < |s| && j < DigitsEnd(s, i)
    ensures IsDigit(s[j])
    decreases |s| - i
  {
    if i < j {
      DigitsBefore(s, i + 1, j);
    }
  }

  lemma OpenNext(s: string, i: nat)
    requires i < |s| && !OpenAt(s, i)
    ensures OpenFrom(s, i) == OpenFrom(s, Next(s, i))
  {
    if j :| i <= j && OpenAt(s, j) {
      if j < Next(s, i) && s[i] == '*' {
        DigitsBefore(s, i + 1, j);
      }
      assert Next(s, i) <= j;
    }
  }

  lemma {:induction false} DigitsEndOfParts(a: string, b: string, j: nat)
    requires j <= |a|
    ensures DigitsEnd(a + b, j) ==
            if DigitsEnd(a, j) == |a| then |a| + DigitsEnd(b, 0) else DigitsEnd(a, j)
    decreases |a| - j
  {
    if j == |a| {
      DigitsEndShift(a + b, |a|, 0);
      assert (a + b)[|a|..] == b;
    } else if IsDigit(a[j]) {
      DigitsEndOfParts(a, b, j + 1);
    }
  }

  // Where reading b begins when it follows a text.
  ghost function Entry(open: bool, b: string): (e: nat)
    ensures e <= |b|
  {
    if open then DigitsEnd(b, 0) else 0
  }

  lemma FoldOfSecond(u: Unicode, a: string, b: string, e: nat)
    requires e <= |b|
    ensures FoldFrom(u, a + b, |a| + e) == FoldFrom(u, b, e)
  {
    FoldShift(u, a + b, |a|, e);
    assert (a + b)[|a|..] == b;
  }

  lemma NextOfParts(a: string, b: string, i: nat)
    requires i < |a| && !OpenAt(a, i)
    ensures (a + b)[i] == a[i] && Next(a + b, i) == Next(a, i)
  {
    DigitsEndOfParts(a, b, i + 1);
  }

  lemma FoldStep(u: Unicode, s: string, i: nat)
    requires Tables(u)
    requires i < |s|
    ensures FoldFrom(u, s, i) == (if Kept(u, s[i]) then [Lower(u, s[i])] else "") + FoldFrom(u, s, Next(s, i))
  {}

  // The parts of a text fold separately, except that digits beginning the
  // second are swallowed when the first ends inside a star page number.
  lemma {:induction false} FoldOfParts(u: Unicode, a: string, b: string, i: nat)
    requires Tables(u)
    requires i <= |a|
    ensures FoldFrom(u, a + b, i) == FoldFrom(u, a, i) + FoldFrom(u, b, Entry(OpenFrom(a, i), b))
    decreases |a| - i
  {
    if i == |a| {
      FoldOfSecond(u, a, b, 0);
    } else if OpenAt(a, i) {
      DigitsEndOfParts(a, b, i + 1);
      FoldOfSecond(u, a, b, DigitsEnd(b, 0));
      assert OpenFrom(a, i);
    } else {
      OpenNext(a, i);
      NextOfParts(a, b, i);
      FoldOfParts(u, a, b, Next(a, i));
      FoldStep(u, a, i);
      FoldStep(u, a + b, i);
      Joined(if Kept(u, a[i]) then [Lower(u, a[i])] else "", FoldFrom(u, a, Next(a, i)),
             FoldFrom(u, b, Entry(OpenFrom(a, i), b)));
    }
  }

  lemma Joined(x: string, y: string, z: string)
    ensures x + (y + z) == x + y + z
  {}

  lemma {:induction false} DigitsFoldToThemselves(u: Unicode, b: string, i: nat)
    requires Tables(u)
    requires i <= |b|
    ensures |FoldFrom(u, b, i)| == |FoldFrom(u, b, DigitsEnd(b, i))| + DigitsEnd(b, i) - i
    decreases |b| - i
  {
    if i < |b| && IsDigit(b[i]) {
      DigitsFoldToThemselves(u, b, i + 1);
    }
  }

  // Two passages fold to the concatenation of their folds exactly when the cut
  // between them does not fall inside a star page number.
  lemma FoldJoinsIff(u: Unicode, a: string, b: string)
    requires Tables(u)
    ensures Fold(u, a + b) == Fold(u, a) + Fold(u, b) <==> !(OpenPage(a) && b != "" && IsDigit(b[0]))
  {
    FoldOfParts(u, a, b, 0);
    DigitsFoldToThemselves(u, b, 0);
  }

  lemma {:induction false} AllDigitsEnd(s: string, i: nat)
    requires i <= |s| && AllDigits(s[i..])
    ensures DigitsEnd(s, i) == |s|
    decreases |s| - i
  {
    if i < |s| {
      assert s[i] == s[i..][0] && s[i + 1..] == s[i..][1..];
      AllDigitsEnd(s, i + 1);
    }
  }

  // A printed page boundary inside a sentence is not content.
  lemma PageMarkIsNotContent(u: Unicode, a: string, page: string, b: string)
    requires Tables(u)
    requires page != "" && AllDigits(page)
    requires b == "" || !IsDigit(b[0])
    ensures Fold(u, a + (['*'] + page + b)) == Fold(u, a + b)
  {
    var mark := ['*'] + page;
    assert mark[1..] == page;
    AllDigitsEnd(mark, 1);
    FoldJoinsIff(u, a, mark + b);
    FoldJoinsIff(u, a, b);
    FoldJoinsIff(u, mark, b);
    FoldStep(u, mark, 0);
    assert Fold(u, mark) == FoldFrom(u, mark, |mark|) == "";
  }

  // ── a match locates a passage ──

  // The place of folded character k, or the end of the text.
  function Place(u: Unicode, s: string, k: nat): nat
    requires k <= |Offsets(u, s)|
  {
    if k < |Offsets(u, s)| then Offsets(u, s)[k] else |s|
  }

  lemma {:induction false} DigitsEndOfPrefix(s: string, c: nat, j: nat)
    requires j <= c <= |s|
    ensures DigitsEnd(s[..c], j) == if DigitsEnd(s, j) <= c then DigitsEnd(s, j) else c
    decreases c - j
  {
    if j < c && IsDigit(s[j]) {
      DigitsEndOfPrefix(s, c, j + 1);
    }
  }

  // c cuts s after its first k kept characters from i on and before the next.
  ghost predicate CutsAfter(u: Unicode, s: string, i: nat, c: nat, k: nat)
    requires i <= |s|
  {
    var offs := OffsetsFrom(u, s, i);
    c <= |s| && k <= |offs| && (k > 0 ==> offs[k - 1] < c) && (k < |offs| ==> c <= offs[k])
  }

  lemma CutAt(u: Unicode, s: string, c: nat, k: nat)
    requires c <= |s| && CutsAfter(u, s, c, c, k)
    ensures k == 0
  {
    if k > 0 {
      OffsetAt(u, s, c, k - 1);
    }
  }

  lemma NoneBefore(u: Unicode, s: string, i: nat, n: nat, c: nat, k: nat)
    requires i <= n <= |s| && OffsetsFrom(u, s, i) == OffsetsFrom(u, s, n)
    requires c <= n && CutsAfter(u, s, i, c, k)
    ensures k == 0
  {
    if k > 0 {
      OffsetAt(u, s, n, k - 1);
    }
  }

  // Wherever a text is cut off, what is left folds to the characters kept
  // before the cut.
  lemma {:induction false} FoldOfPrefix(u: Unicode, s: string, i: nat, c: nat, k: nat)
    requires i <= c <= |s| && CutsAfter(u, s, i, c, k)
    ensures k <= |FoldFrom(u, s, i)| && FoldFrom(u, s[..c], i) == FoldFrom(u, s, i)[..k]
    decreases |s| - i
  {
    if i == c {
      CutAt(u, s, c, k);
    } else if Kept(u, s[i]) {
      assert OffsetsFrom(u, s, i)[0] == i;
      FoldOfPrefix(u, s, i + 1, c, k - 1);
    } else {
      var n := Next(s, i);
      DigitsEndOfPrefix(s, c, i + 1);
      if n <= c {
        assert Next(s[..c], i) == n;
        FoldOfPrefix(u, s, n, c, k);
      } else {
        assert Next(s[..c], i) == c;
        NoneBefore(u, s, i, n, c, k);
      }
    }
  }

  // The passage folded characters k to m came from folds to exactly those
  // characters, wherever after the last of them it is cut off.
  lemma SpanFoldsToMatch(u: Unicode, s: string, k: nat, m: nat, cut: nat)
    requires k < m <= |Offsets(u, s)|
    requires Place(u, s, m - 1) < cut <= Place(u, s, m) && cut <= |s|
    ensures Place(u, s, k) < cut && m <= |Fold(u, s)|
    ensures Fold(u, s[Place(u, s, k)..cut]) == Fold(u, s)[k..m]
  {
    OffsetsMapTheFold(u, s, 0);
    OffsetAt(u, s, 0, k);
    var lo := Place(u, s, k);
    FoldFromKept(u, s, 0, k, lo);
    assert OffsetsFrom(u, s, lo)[m - 1 - k] == Offsets(u, s)[m - 1];
    assert m < |Offsets(u, s)| ==> OffsetsFrom(u, s, lo)[m - k] == Offsets(u, s)[m];
    FoldOfPrefix(u, s, lo, cut, m - k);
    FoldShift(u, s[..cut], lo, 0);
    assert s[..cut][lo..] == s[lo..cut];
  }

  // Wherever the folded quote occurs in the folded document, the document holds
  // a passage, starting where the offset map says, that folds to the quote.
  lemma MatchLocatesPassage(u: Unicode, doc: string, quote: string, at: nat)
    requires Fold(u, quote) != "" && at + |Fold(u, quote)| <= |Fold(u, doc)|
    requires Fold(u, doc)[at..at + |Fold(u, quote)|] == Fold(u, quote)
    ensures at + |Fold(u, quote)| <= |Offsets(u, doc)|
    ensures
      var end := Place(u, doc, at + |Fold(u, quote)|);
      Place(u, doc, at) < end <= |doc| && Fold(u, doc[Place(u, doc, at)..end]) == Fold(u, quote)
  {
    var m := at + |Fold(u, quote)|;
    OffsetsMapTheFold(u, doc, 0);
    OffsetAt(u, doc, 0, m - 1);
    if m < |Offsets(u, doc)| {
      OffsetAt(u, doc, 0, m);
    }
    SpanFoldsToMatch(u, doc, at, m, Place(u, doc, m));
  }

  // ── folding twice ──

  predicate Plain(u: Unicode, c: char) { Kept(u, c) && Lower(u, c) == c }

  predicate AllPlain(u: Unicode, s: string) { forall k | 0 <= k < |s| :: Plain(u, s[k]) }

  lemma {:induction false} FoldIsPlain(u: Unicode, s: string, i: nat)
    requires Tables(u)
    requires i <= |s|
    ensures AllPlain(u, FoldFrom(u, s, i))
    decreases |s| - i
  {
    if i < |s| {
      FoldIsPlain(u, s, if Kept(u, s[i]) then i + 1 else Next(s, i));
    }
  }

  lemma {:induction false} PlainFoldsToItself(u: Unicode, s: string, i: nat)
    requires i <= |s| && AllPlain(u, s)
    ensures FoldFrom(u, s, i) == s[i..]
    decreases |s| - i
  {
    if i < |s| {
      assert Plain(u, s[i]);
      PlainFoldsToItself(u, s, i + 1);
    }
  }

  lemma FoldIsIdempotent(u: Unicode, s: string)
    requires Tables(u)
    ensures Fold(u, Fold(u, s)) == Fold(u, s)
  {
    FoldIsPlain(u, s, 0);
    PlainFoldsToItself(u, Fold(u, s), 0);
  }

  // ── the loop ──

  method FoldTextIdx(u: Unicode, s: string) returns (f: string, offs: seq<nat>)
    requires Tables(u)
    ensures f == Fold(u, s) && offs == Offsets(u, s)
    ensures Maps(u, s, 0, offs, f) && Increasing(offs)
  {
    f, offs := "", [];
    var skipTo: int := -1;
    for i := 0 to |s|
      invariant skipTo <= |s|
      invariant f + FoldFrom(u, s, if i < skipTo then skipTo else i) == Fold(u, s)
      invariant offs + OffsetsFrom(u, s, if i < skipTo then skipTo else i) == Offsets(u, s)
    {
      if i < skipTo {
        continue;
      }
      if s[i] == '*' {
        var j := i + 1;
        while j < |s| && IsDigit(s[j])
          invariant i < j <= |s|
          invariant DigitsEnd(s, j) == Next(s, i)
        {
          j := j + 1;
        }
        if j > i + 1 {
          skipTo := j;
          continue;
        }
      }
      if Kept(u, s[i]) {
        f := f + [Lower(u, s[i])];
        offs := offs + [i];
      }
    }
    OffsetsMapTheFold(u, s, 0);
  }
}
