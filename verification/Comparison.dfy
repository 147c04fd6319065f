// `compare`: numeric when both sides read as numbers, lexical otherwise. On date
// literals of any precision it is the lexical order; on arbitrary strings it need
// not be transitive, and this file says exactly when it is.
module Comparison {
  import opened Strings
  import opened Options

  // What a numeral denotes. The infinities are two numbers beyond every finite one.
  datatype Numeral = NaN | Number(value: real)

  // strconv.ParseFloat, whose exponents, spellings and rounding are its own: the
  // numeral a text reads as, if it is one.
  type Reading = string -> Option<Numeral>

  function StrCompare(a: string, b: string): int {
    if StrLess(a, b) then -1 else if StrLess(b, a) then 1 else 0
  }

  function Compare(num: Reading, a: string, b: string): int {
    match (num(a), num(b))
    case (Some(Number(x)), Some(Number(y))) => if x < y then -1 else if x > y then 1 else 0
    case (Some(_), Some(_)) => 0
    case (_, _) => StrCompare(a, b)
  }

  // ── when the order is coherent ──

  // A three-way comparison that is a total preorder at these three points.
  ghost predicate Coherent(ab: int, ba: int, bc: int, ac: int) {
    && ab == -ba
    && (ab <= 0 && bc <= 0 ==> ac <= 0)
    && (ab <= 0 && bc <= 0 && (ab < 0 || bc < 0) ==> ac < 0)
    && (ab >= 0 && bc >= 0 ==> ac >= 0)
    && (ab >= 0 && bc >= 0 && (ab > 0 || bc > 0) ==> ac > 0)
  }

  ghost predicate CoherentAt(num: Reading, a: string, b: string, c: string) {
    Coherent(Compare(num, a, b), Compare(num, b, a), Compare(num, b, c), Compare(num, a, c))
  }

  predicate IsNumeral(num: Reading, s: string) { num(s).Some? }

  // A text that is no numeral, lying between two numerals as text.
  predicate LiesBetween(num: Reading, x: string, t: string, y: string) {
    IsNumeral(num, x) && IsNumeral(num, y) && !IsNumeral(num, t) && StrLess(x, t) && StrLess(t, y)
  }

  // Numerals with another text between them are ordered as their texts are, and
  // NaN stands only with numerals that are all equal.
  ghost predicate Orderly(num: Reading, values: set<string>) {
    && (forall x, t, y | x in values && t in values && y in values && LiesBetween(num, x, t, y) ::
          Compare(num, x, y) < 0)
    && (forall z, x, y | z in values && x in values && y in values && num(z) == Some(NaN)
                         && IsNumeral(num, x) && IsNumeral(num, y) ::
          Compare(num, x, y) == 0)
  }

  lemma StrCompareCoherent(a: string, b: string, c: string)
    ensures Coherent(StrCompare(a, b), StrCompare(b, a), StrCompare(b, c), StrCompare(a, c))
    ensures StrCompare(a, b) == 0 <==> a == b
  {
    StrLessTotal(a, b);
    StrLessTotal(b, c);
    StrLessIrreflexive(a);
    if StrLess(a, b) { StrLessAsymmetric(a, b); }
    if StrLess(a, b) && StrLess(b, c) { StrLessTransitive(a, b, c); }
    if StrLess(c, b) && StrLess(b, a) { StrLessTransitive(c, b, a); StrLessAsymmetric(c, a); }
    if StrLess(b, c) { StrLessAsymmetric(b, c); }
  }

  lemma NumeralsCoherent(num: Reading, values: set<string>, a: string, b: string, c: string)
    requires Orderly(num, values) && a in values && b in values && c in values
    requires IsNumeral(num, a) && IsNumeral(num, b) && IsNumeral(num, c)
    ensures CoherentAt(num, a, b, c)
  {}

  // The text t compares as text with both numerals.
  lemma OneTextCoherent(num: Reading, values: set<string>, x: string, y: string, t: string)
    requires Orderly(num, values) && x in values && y in values && t in values
    requires IsNumeral(num, x) && IsNumeral(num, y) && !IsNumeral(num, t)
    ensures CoherentAt(num, x, y, t) && CoherentAt(num, x, t, y) && CoherentAt(num, t, x, y)
  {
    StrCompareCoherent(x, t, y);
    StrCompareCoherent(y, t, x);
    StrCompareCoherent(t, x, y);
    assert StrLess(x, t) && StrLess(t, y) ==> LiesBetween(num, x, t, y);
    assert StrLess(y, t) && StrLess(t, x) ==> LiesBetween(num, y, t, x);
    assert StrCompare(x, t) != 0 && StrCompare(t, y) != 0;
    assert Compare(num, x, y) == -Compare(num, y, x);
  }

  lemma OrderlyCoherent(num: Reading, values: set<string>, a: string, b: string, c: string)
    requires Orderly(num, values) && a in values && b in values && c in values
    ensures CoherentAt(num, a, b, c)
  {
    if IsNumeral(num, a) && IsNumeral(num, b) && IsNumeral(num, c) {
      NumeralsCoherent(num, values, a, b, c);
    } else if IsNumeral(num, a) && IsNumeral(num, b) {
      OneTextCoherent(num, values, a, b, c);
    } else if IsNumeral(num, a) && IsNumeral(num, c) {
      OneTextCoherent(num, values, a, c, b);
    } else if IsNumeral(num, b) && IsNumeral(num, c) {
      OneTextCoherent(num, values, b, c, a);
    } else {
      StrCompareCoherent(a, b, c);
    }
  }

  // `compare` is a total preorder on a set of values exactly when they are orderly.
  lemma CompareCoherentIff(num: Reading, values: set<string>)
    ensures (forall a, b, c | a in values && b in values && c in values :: CoherentAt(num, a, b, c))
            <==> Orderly(num, values)
  {
    if Orderly(num, values) {
      forall a, b, c | a in values && b in values && c in values
        ensures CoherentAt(num, a, b, c)
      {
        OrderlyCoherent(num, values, a, b, c);
      }
    }
    if forall a, b, c | a in values && b in values && c in values :: CoherentAt(num, a, b, c) {
      forall x, t, y | x in values && t in values && y in values && LiesBetween(num, x, t, y)
        ensures Compare(num, x, y) < 0
      {
        assert CoherentAt(num, x, t, y);
      }
      forall z, x, y | z in values && x in values && y in values && num(z) == Some(NaN)
                       && IsNumeral(num, x) && IsNumeral(num, y)
        ensures Compare(num, x, y) == 0
      {
        assert CoherentAt(num, x, z, y) && CoherentAt(num, y, z, x);
      }
    }
  }

  // Columns of dates, of numbers, or without numerals are orderly.
  lemma PlainColumnsAreOrderly(num: Reading, values: set<string>)
    requires || (ReadsDates(num) && forall v | v in values :: DateLiteral(v))
             || (forall v | v in values :: num(v).Some? && num(v).value.Number?)
             || (forall v | v in values :: !IsNumeral(num, v))
    ensures Orderly(num, values)
  {
    if ReadsDates(num) && forall v | v in values :: DateLiteral(v) {
      forall x, t, y | x in values && t in values && y in values && LiesBetween(num, x, t, y)
        ensures Compare(num, x, y) < 0
      {
        StrLessTransitive(x, t, y);
        CompareOnDatesIsLexical(num, x, y);
      }
    }
  }

  // `^\d{4}(-\d{2}(-\d{2})?)?$`
  predicate DateLiteral(s: string) {
    && |s| in {4, 7, 10}
    && AllDigits(s[..4])
    && (|s| >= 7 ==> s[4] == '-' && AllDigits(s[5..7]))
    && (|s| == 10 ==> s[7] == '-' && AllDigits(s[8..10]))
  }

  lemma {:induction false} DecimalBound(s: string)
    requires AllDigits(s)
    ensures Decimal(s) < Pow10(|s|)
    decreases |s|
  {
    if s != [] {
      DecimalBound(s[..|s| - 1]);
    }
  }

  lemma {:induction false} DecimalHead(s: string)
    requires AllDigits(s) && s != []
    ensures Decimal(s) == DigitValue(s[0]) * Pow10(|s| - 1) + Decimal(s[1..])
    decreases |s|
  {
    var init, last := s[..|s| - 1], s[|s| - 1];
    if init != [] {
      DecimalHead(init);
      assert s[1..][..|s| - 2] == init[1..];
      TimesTen(DigitValue(s[0]), Pow10(|s| - 2), Decimal(init[1..]));
    } else {
      assert Decimal([]) == 0 && s[1..] == [];
    }
  }

  lemma TimesTen(d: nat, p: nat, r: nat)
    ensures 10 * (d * p + r) == d * (10 * p) + 10 * r
  {}

  // Runs of digits of one length order as their numbers do.
  lemma {:induction false} DigitsOrder(a: string, b: string)
    requires AllDigits(a) && AllDigits(b) && |a| == |b|
    ensures StrLess(a, b) <==> Decimal(a) < Decimal(b)
    ensures a == b <==> Decimal(a) == Decimal(b)
    decreases |a|
  {
    if a != [] {
      DecimalHead(a);
      DecimalHead(b);
      DigitsOrder(a[1..], b[1..]);
      DecimalBound(a[1..]);
      DecimalBound(b[1..]);
      assert a == [a[0]] + a[1..] && b == [b[0]] + b[1..];
      LeadingDigitDecides(DigitValue(a[0]), DigitValue(b[0]), Pow10(|a| - 1), Decimal(a[1..]), Decimal(b[1..]));
    }
  }

  lemma LeadingDigitDecides(x: nat, y: nat, p: nat, u: nat, v: nat)
    requires u < p && v < p
    ensures x * p + u < y * p + v <==> x < y || (x == y && u < v)
    ensures x * p + u == y * p + v <==> x == y && u == v
  {
    if x < y {
      assert (x + 1) * p <= y * p;
    } else if y < x {
      assert (y + 1) * p <= x * p;
    }
  }

  // Of the date literals a bare year alone is a numeral, and spells its number.
  ghost predicate ReadsDates(num: Reading) {
    forall s | DateLiteral(s) ::
      num(s) == if |s| == 4 then (assert s[..4] == s; Some(Number(Decimal(s) as real))) else None
  }

  function DigitRun(s: string): (n: nat)
    ensures n <= |s|
    ensures AllDigits(s[..n])
    ensures n < |s| ==> !IsDigit(s[n])
  {
    if s != [] && IsDigit(s[0]) then 1 + DigitRun(s[1..]) else 0
  }

  // The plain numerals: a sign, digits, an optional fraction.
  function PlainNumeral(s: string): Option<Numeral> {
    if s == [] then None
    else
      var body := if s[0] == '+' || s[0] == '-' then s[1..] else s;
      var n := DigitRun(body);
      if n == |body| then
        if n == 0 then None else Some(Signed(s[0], Decimal(body) as real))
      else if body[n] == '.' && AllDigits(body[n + 1..]) && |body| > 1 then
        var frac := body[n + 1..];
        Some(Signed(s[0], Decimal(body[..n]) as real + Decimal(frac) as real / Pow10(|frac|) as real))
      else None
  }

  function Signed(sign: char, magnitude: real): Numeral {
    Number(if sign == '-' then 0.0 - magnitude else magnitude)
  }

  lemma {:induction false} DigitRunSplit(s: string, n: nat)
    requires n <= |s| && AllDigits(s[..n]) && (n == |s| || !IsDigit(s[n]))
    ensures DigitRun(s) == n
  {
    if n > 0 {
      assert s[..n][0] == s[0] && s[1..][..n - 1] == s[..n][1..];
      DigitRunSplit(s[1..], n - 1);
    }
  }

  lemma DateParses(s: string)
    requires DateLiteral(s)
    ensures PlainNumeral(s) == if |s| == 4 then (assert s[..4] == s; Some(Number(Decimal(s) as real))) else None
  {
    assert IsDigit(s[..4][0]);
    DigitRunSplit(s, 4);
    if |s| == 4 {
      assert s[..4] == s;
    }
  }

  lemma PlainNumeralsReadDates()
    ensures ReadsDates(PlainNumeral)
  {
    forall s | DateLiteral(s)
      ensures PlainNumeral(s) == if |s| == 4 then (assert s[..4] == s; Some(Number(Decimal(s) as real))) else None
    {
      DateParses(s);
    }
  }

  // On date literals of mixed precision `compare` is the lexical order, which is
  // a total order on strings.
  lemma CompareOnDatesIsLexical(num: Reading, a: string, b: string)
    requires ReadsDates(num) && DateLiteral(a) && DateLiteral(b)
    ensures Compare(num, a, b) == StrCompare(a, b)
    ensures Compare(num, a, b) == 0 <==> a == b
    ensures Compare(num, a, b) == -Compare(num, b, a)
  {
    StrCompareCoherent(a, b, a);
    if |a| == 4 && |b| == 4 {
      assert a[..4] == a && b[..4] == b;
      DigitsOrder(a, b);
      DigitsOrder(b, a);
    }
  }

  lemma CompareOnDatesTransitive(num: Reading, a: string, b: string, c: string)
    requires ReadsDates(num) && DateLiteral(a) && DateLiteral(b) && DateLiteral(c)
    requires Compare(num, a, b) <= 0 && Compare(num, b, c) <= 0
    ensures Compare(num, a, c) <= 0
    ensures Compare(num, a, b) < 0 || Compare(num, b, c) < 0 ==> Compare(num, a, c) < 0
  {
    CompareOnDatesIsLexical(num, a, b);
    CompareOnDatesIsLexical(num, b, c);
    CompareOnDatesIsLexical(num, a, c);
    StrCompareCoherent(a, b, c);
  }

  // Off the dates transitivity can fail: 9 < 10 as numbers, 10 < 1a < 9 as text.
  lemma CompareIsNotTransitive(num: Reading)
    requires num("9") == Some(Number(9.0)) && num("10") == Some(Number(10.0)) && num("1a") == None
    ensures Compare(num, "9", "10") < 0 && Compare(num, "10", "1a") < 0 && Compare(num, "1a", "9") < 0
    ensures !Orderly(num, {"9", "10", "1a"})
  {
    var nine, ten, mixed := "9", "10", "1a";
    assert ten[1..][0] == '0' && mixed[1..][0] == 'a';
    assert StrLess(ten[1..], mixed[1..]);
    assert LiesBetween(num, ten, mixed, nine);
  }
}
