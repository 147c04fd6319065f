// When a text that some query begins with runs past the end: exactly when it
// breaks off where a value is wanted. The text is read beside a query it begins,
// and the two readings part only behind the last token they share.
module BrokenOff {
  import opened Options
  import Graphs
  import opened Queries
  import opened Lexer
  import opened Grammar
  import opened PastTheEnd

  // The tokens, but for their end mark, begin those of `full`.
  ghost predicate Begins(toks: seq<Tok>, full: seq<Tok>) {
    Ended(toks) && Ended(full) && |toks| <= |full| && forall k | 0 <= k < |toks| - 1 :: toks[k] == full[k]
  }

  // Read on both, something is the same when it ends before the end mark, and
  // otherwise either steps past the end or no value was wanted there.
  ghost predicate Together<T>(toks: seq<Tok>, a: Parsed<T>, b: Parsed<T>) {
    b.Got? ==>
      if b.i < |toks| - 1 then a == b else a == Fail(PastEnd) || !BreaksOff(toks)
  }

  // What a reading of one kind keeps: it goes the same way on both, and ends where
  // no value is wanted.
  ghost predicate Kept<T>(toks: seq<Tok>, a: Parsed<T>, b: Parsed<T>) {
    Together(toks, a, b) && (b.Got? && b.i < |toks| ==> Closes(toks, b.i))
  }

  // ── places where no value is wanted ──

  predicate Calm(toks: seq<Tok>, i: nat) { !WantsValueAt(toks, i) }

  predicate After(toks: seq<Tok>, i: nat, t: Tok)
    requires i <= |toks|
  {
    i > 0 && toks[i - 1] == t
  }

  predicate AfterIdent(toks: seq<Tok>, i: nat)
    requires i <= |toks|
  {
    i > 0 && toks[i - 1].Ident?
  }

  // A term or an atom may begin here.
  predicate Opens(toks: seq<Tok>, i: nat) {
    i <= |toks| && Calm(toks, i) && !AfterIdent(toks, i) && !After(toks, i, Punct(AtSign))
  }

  // One may have ended here.
  predicate Closes(toks: seq<Tok>, i: nat) {
    0 < i <= |toks| && Calm(toks, i) && !ComparedValueAt(toks, i - 1)
  }

  lemma NothingWanted(toks: seq<Tok>, i: nat)
    requires 0 < i <= |toks|
    requires toks[i - 1] !in {Punct(Bar), Punct(OpenParen), Punct(Comma), Punct(OpenList)} && OpOf(toks[i - 1]).None?
    ensures Calm(toks, i)
  {}

  // ── values ──

  // A value stands at k, after a sign that is none.
  predicate Slot(toks: seq<Tok>, k: nat, sep: Sign) {
    && 2 <= k <= |toks| && !toks[k - 1].Ident? && toks[k - 1] != Punct(AtSign)
    && !ComparedValueAt(toks, k - 1) && !ListedValueAt(toks, k - 1)
    && !(k >= 3 && toks[k - 2] == Punct(OpenList) && toks[k - 3] == Punct(AtSign))
    && (sep == Bar ==> toks[k - 1] != Punct(Comma) && toks[k - 1] != Punct(OpenParen) && toks[k - 1] != Punct(OpenList))
  }

  lemma BehindValue(toks: seq<Tok>, k: nat, sep: Sign)
    requires Slot(toks, k, sep) && k < |toks|
    ensures Calm(toks, k + 1)
  {}

  lemma NextSlot(toks: seq<Tok>, k: nat, sep: Sign)
    requires Slot(toks, k, sep) && k + 1 < |toks| && toks[k + 1] == Punct(sep) && (sep == Bar || sep == Comma)
    ensures Slot(toks, k + 2, sep)
  {
    BehindValue(toks, k, sep);
  }

  lemma {:induction false} ValuesTogether(
      toks: seq<Tok>, full: seq<Tok>, k: nat, sep: Sign, done: seq<string>)
    requires Begins(toks, full) && k < |toks| && Slot(toks, k, sep) && (sep == Bar || sep == Comma)
    ensures Together(toks, ValuesFrom(toks, k, sep, done), ValuesFrom(full, k, sep, done))
    ensures var b := ValuesFrom(full, k, sep, done); b.Got? && b.i < |toks| ==> Slot(toks, b.i - 1, sep)
    decreases |toks| - k
  {
    BehindValue(toks, k, sep);
    if k + 1 < |toks| - 1 && IsP(full, k + 1, sep) {
      NextSlot(toks, k, sep);
      ValuesTogether(toks, full, k + 2, sep, done + [TokText(toks[k])]);
    }
  }

  // ── predicates ──

  // A predicate may begin here.
  predicate PredOpens(toks: seq<Tok>, i: nat) {
    && 0 < i <= |toks| && Calm(toks, i)
    && !(i >= 2 && toks[i - 1] == Punct(OpenList) && toks[i - 2] == Punct(AtSign))
  }

  // One may have ended here.
  predicate PredCloses(toks: seq<Tok>, i: nat) {
    && 0 < i <= |toks| && Calm(toks, i) && !ListedValueAt(toks, i - 1)
    && !(i >= 3 && toks[i - 2] == Punct(OpenList) && toks[i - 3] == Punct(AtSign))
  }

  lemma FirstListed(toks: seq<Tok>, i: nat)
    requires 2 <= i < |toks| && toks[i - 1] == Ident("in") && toks[i - 2].Ident? && toks[i] == Punct(OpenParen)
    ensures Slot(toks, i + 1, Comma)
  {}

  lemma BehindList(toks: seq<Tok>, i: nat)
    requires 1 <= i < |toks| && Slot(toks, i - 1, Comma) && toks[i] == Punct(CloseParen)
    ensures PredCloses(toks, i + 1)
  {
    BehindValue(toks, i - 1, Comma);
  }

  lemma InListTogether(toks: seq<Tok>, full: seq<Tok>, i: nat, key: string)
    requires Begins(toks, full) && 2 <= i < |toks| && toks[i - 1] == Ident("in") && toks[i - 2].Ident?
    ensures Together(toks, InListAt(toks, i, key), InListAt(full, i, key))
    ensures var b := InListAt(full, i, key); b.Got? && b.i < |toks| ==> PredCloses(toks, b.i)
  {
    NothingWanted(toks, i);
    if i < |toks| - 1 && IsP(full, i, OpenParen) {
      FirstListed(toks, i);
      ValuesTogether(toks, full, i + 1, Comma, []);
      var b := ValuesFrom(full, i + 1, Comma, []);
      if b.Got? && b.i < |toks| - 1 && IsP(full, b.i, CloseParen) {
        BehindList(toks, b.i);
      }
    }
  }

  lemma FirstCompared(toks: seq<Tok>, i: nat)
    requires 2 <= i <= |toks| && OpOf(toks[i - 1]).Some? && toks[i - 2].Ident?
    ensures Slot(toks, i, Bar)
  {}

  lemma BehindComparison(toks: seq<Tok>, i: nat)
    requires 1 <= i <= |toks| && Slot(toks, i - 1, Bar) && i - 1 < |toks|
    ensures PredCloses(toks, i)
  {
    BehindValue(toks, i - 1, Bar);
  }

  lemma CompareTogether(toks: seq<Tok>, full: seq<Tok>, i: nat, key: string, op: Op)
    requires Begins(toks, full) && 2 <= i < |toks| && OpOf(toks[i - 1]).Some? && toks[i - 2].Ident?
    ensures Together(toks, CompareAt(toks, i, key, op), CompareAt(full, i, key, op))
    ensures var b := CompareAt(full, i, key, op); b.Got? && b.i < |toks| ==> PredCloses(toks, b.i)
  {
    FirstCompared(toks, i);
    ValuesTogether(toks, full, i, Bar, []);
    var b := ValuesFrom(full, i, Bar, []);
    if b.Got? && b.i < |toks| {
      BehindComparison(toks, b.i);
    }
  }

  lemma PredTogether(toks: seq<Tok>, full: seq<Tok>, i: nat)
    requires Begins(toks, full) && i < |toks| && PredOpens(toks, i)
    ensures Together(toks, PredAt(toks, i), PredAt(full, i))
    ensures var b := PredAt(full, i); b.Got? && b.i < |toks| ==> PredCloses(toks, b.i)
  {
    if i < |toks| - 1 && full[i].Ident? {
      NothingWanted(toks, i + 1);
      if i + 1 < |toks| - 1 {
        if IsWord(full, i + 1, "in") {
          NothingWanted(toks, i + 2);
          InListTogether(toks, full, i + 2, full[i].s);
        } else if OpOf(full[i + 1]).Some? {
          CompareTogether(toks, full, i + 2, full[i].s, OpOf(full[i + 1]).value);
        }
      }
    }
  }

  lemma BehindPred(toks: seq<Tok>, i: nat)
    requires PredCloses(toks, i) && i < |toks|
    ensures toks[i] == Punct(Comma) ==> PredOpens(toks, i + 1)
    ensures toks[i] == Punct(CloseList) ==> Closes(toks, i + 1)
  {}

  // One predicate read, and what stands behind it.
  lemma PredsStep(toks: seq<Tok>, i: nat, done: seq<Pred>)
    requires Ended(toks) && i < |toks|
    ensures PredsFrom(toks, i, done) ==
            match PredAt(toks, i)
            case Fail(why) => Fail(why)
            case Got(p, j) =>
              if IsP(toks, j, Comma) then PredsFrom(toks, j + 1, done + [p])
              else if IsP(toks, j, CloseList) then Got(done + [p], j + 1)
              else Fail(Expected(CloseList))
  {}

  lemma {:induction false} PredsTogether(toks: seq<Tok>, full: seq<Tok>, i: nat, done: seq<Pred>)
    requires Begins(toks, full) && i < |toks| && PredOpens(toks, i)
    ensures PredsKept(toks, PredsFrom(toks, i, done), PredsFrom(full, i, done))
    decreases |toks| - i
  {
    PredTogether(toks, full, i);
    var b := PredAt(full, i);
    if b.Got? {
      if b.i >= |toks| - 1 {
        PredsCut(toks, full, i, done);
      } else if IsP(full, b.i, Comma) {
        BehindPred(toks, b.i);
        PredsTogether(toks, full, b.i + 1, done + [b.v]);
        PredsGoOn(toks, full, i, done);
      } else {
        PredsStop(toks, full, i, done);
      }
    }
  }

  lemma PredsGoOn(toks: seq<Tok>, full: seq<Tok>, i: nat, done: seq<Pred>)
    requires Begins(toks, full) && i < |toks| && PredAt(full, i).Got? && PredAt(full, i).i < |toks| - 1
    requires var b := PredAt(full, i);
             && PredAt(toks, i) == b && toks[b.i] == full[b.i] == Punct(Comma)
             && PredsKept(toks, PredsFrom(toks, b.i + 1, done + [b.v]), PredsFrom(full, b.i + 1, done + [b.v]))
    ensures PredsKept(toks, PredsFrom(toks, i, done), PredsFrom(full, i, done))
  {
    PredsStep(toks, i, done);
    PredsStep(full, i, done);
  }

  lemma PredsStop(toks: seq<Tok>, full: seq<Tok>, i: nat, done: seq<Pred>)
    requires Begins(toks, full) && i < |toks| && PredAt(full, i).Got? && PredAt(full, i).i < |toks| - 1
    requires var b := PredAt(full, i);
             PredAt(toks, i) == b && toks[b.i] == full[b.i] != Punct(Comma) && PredCloses(toks, b.i)
    ensures PredsKept(toks, PredsFrom(toks, i, done), PredsFrom(full, i, done))
  {
    PredsStep(toks, i, done);
    PredsStep(full, i, done);
    BehindPred(toks, PredAt(full, i).i);
  }

  lemma PredsCut(toks: seq<Tok>, full: seq<Tok>, i: nat, done: seq<Pred>)
    requires Begins(toks, full) && i < |toks| && PredAt(full, i).Got? && PredAt(full, i).i >= |toks| - 1
    requires PredAt(toks, i) == Fail(PastEnd) || !BreaksOff(toks)
    ensures PredsKept(toks, PredsFrom(toks, i, done), PredsFrom(full, i, done))
  {
    PredsMove(full, i, done);
    PredsStep(toks, i, done);
  }

  ghost predicate PredsKept(toks: seq<Tok>, a: Parsed<seq<Pred>>, b: Parsed<seq<Pred>>) {
    && Together(toks, a, b)
    && (b.Got? && b.i < |toks| ==> Closes(toks, b.i) && toks[b.i - 1] == Punct(CloseList))
  }

  lemma PredsMove(full: seq<Tok>, i: nat, done: seq<Pred>)
    requires Ended(full) && i < |full| && PredAt(full, i).Got?
    ensures PredsFrom(full, i, done).Got? ==> PredsFrom(full, i, done).i > PredAt(full, i).i
  {}

  // ── atoms ──

  // The parts of an atom read so far end here.
  predicate Part(toks: seq<Tok>, start: nat, i: nat) {
    && start <= i <= |toks| && Calm(toks, i) && !After(toks, i, Punct(AtSign))
    && (start < i ==> !ComparedValueAt(toks, i - 1))
  }

  lemma {:induction false} KindsTogether(toks: seq<Tok>, full: seq<Tok>, i: nat, done: seq<string>)
    requires Begins(toks, full) && 0 < i < |toks| && Calm(toks, i)
    ensures Together(toks, KindsFrom(toks, i, done), KindsFrom(full, i, done))
    ensures var b := KindsFrom(full, i, done);
            b.Got? && b.i < |toks| ==> Closes(toks, b.i) && toks[b.i - 1] == Punct(CloseParen)
    decreases |toks| - i
  {
    if i < |toks| - 1 && full[i].Ident? {
      NothingWanted(toks, i + 1);
      if i + 1 < |toks| - 1 {
        if IsP(full, i + 1, Bar) {
          KindsTogether(toks, full, i + 2, done + [full[i].s]);
        } else if IsP(full, i + 1, CloseParen) {
          NothingWanted(toks, i + 2);
        }
      }
    }
  }

  lemma AtomKindsTogether(toks: seq<Tok>, full: seq<Tok>, i: nat)
    requires Begins(toks, full) && i < |toks| && Opens(toks, i)
    ensures Together(toks, AtomKinds(toks, i), AtomKinds(full, i))
    ensures var b := AtomKinds(full, i); b.Got? && b.i < |toks| ==> Part(toks, i, b.i)
  {
    if i < |toks| - 1 {
      if IsP(full, i, OpenParen) {
        KindsTogether(toks, full, i + 1, []);
      } else if full[i].Ident? && IsKind(full[i].s) {
        NothingWanted(toks, i + 1);
      }
    }
  }

  lemma AtomIdTogether(toks: seq<Tok>, full: seq<Tok>, start: nat, i: nat)
    requires Begins(toks, full) && i < |toks| && Part(toks, start, i)
    ensures Together(toks, AtomId(toks, i), AtomId(full, i))
    ensures var b := AtomId(full, i); b.Got? && b.i < |toks| ==> Part(toks, start, b.i)
  {
    if i < |toks| - 1 && IsP(full, i, Hash) {
      NothingWanted(toks, i + 1);
      if i + 1 < |toks| - 1 && (full[i + 1].Ident? || full[i + 1].Value? || full[i + 1].Str?) {
        NothingWanted(toks, i + 2);
      }
    }
  }

  lemma PartOpensPreds(toks: seq<Tok>, start: nat, i: nat)
    requires Part(toks, start, i) && i < |toks| && toks[i] == Punct(OpenList)
    ensures PredOpens(toks, i + 1)
  {}

  lemma PredsEndPart(toks: seq<Tok>, start: nat, i: nat)
    requires start < i <= |toks| && Closes(toks, i) && toks[i - 1] == Punct(CloseList)
    ensures Part(toks, start, i)
  {}

  lemma AtomPredsTogether(toks: seq<Tok>, full: seq<Tok>, start: nat, i: nat)
    requires Begins(toks, full) && i < |toks| && Part(toks, start, i)
    ensures Together(toks, AtomPreds(toks, i), AtomPreds(full, i))
    ensures var b := AtomPreds(full, i); b.Got? && b.i < |toks| ==> Part(toks, start, b.i)
  {
    if i < |toks| - 1 && IsP(full, i, OpenList) {
      PartOpensPreds(toks, start, i);
      PredsTogether(toks, full, i + 1, []);
      var b := PredsFrom(full, i + 1, []);
      if b.Got? && b.i < |toks| { PredsEndPart(toks, start, b.i); }
    }
  }

  lemma AtomTextTogether(toks: seq<Tok>, full: seq<Tok>, start: nat, i: nat)
    requires Begins(toks, full) && i < |toks| && Part(toks, start, i)
    ensures Together(toks, AtomText(toks, i), AtomText(full, i))
    ensures var b := AtomText(full, i); b.Got? && b.i < |toks| ==> Part(toks, start, b.i)
  {
    if i < |toks| - 1 && IsP(full, i, Tilde) {
      NothingWanted(toks, i + 1);
      if i + 1 < |toks| - 1 && full[i + 1].Str? {
        NothingWanted(toks, i + 2);
      }
    }
  }

  lemma AtomTogether(toks: seq<Tok>, full: seq<Tok>, i: nat)
    requires Begins(toks, full) && i < |toks| && Opens(toks, i)
    ensures Together(toks, AtomAt(toks, i), AtomAt(full, i))
    ensures var b := AtomAt(full, i); b.Got? && b.i < |toks| ==> Closes(toks, b.i)
  {
    AtomKindsTogether(toks, full, i);
    var kinds := AtomKinds(full, i);
    if kinds.Got? && kinds.i < |toks| - 1 {
      AtomIdTogether(toks, full, i, kinds.i);
      var id := AtomId(full, kinds.i);
      if id.Got? && id.i < |toks| - 1 {
        AtomPredsTogether(toks, full, i, id.i);
        var preds := AtomPreds(full, id.i);
        if preds.Got? && preds.i < |toks| - 1 {
          AtomTextTogether(toks, full, i, preds.i);
        }
      }
    }
  }

  // ── hops and suffixes ──

  lemma HopCloseTogether(toks: seq<Tok>, full: seq<Tok>, i: nat, typ: Graphs.EdgeType, inverse: bool, star: bool)
    requires Begins(toks, full) && 0 < i < |toks| && Calm(toks, i)
    ensures Together(toks, HopClose(toks, i, typ, inverse, star), HopClose(full, i, typ, inverse, star))
    ensures var b := HopClose(full, i, typ, inverse, star);
            b.Got? ==> b.v.Some? && (b.i < |toks| ==> Opens(toks, b.i))
  {
    if i < |toks| - 1 && (IsP(full, i, Arrow) || IsP(full, i, Dash)) {
      NothingWanted(toks, i + 1);
    }
  }

  // No hop begins here on the longer text, and none on the shorter.
  lemma NoHopTogether(toks: seq<Tok>, full: seq<Tok>, i: nat)
    requires Begins(toks, full) && i < |toks| && Closes(toks, i)
    requires i == |toks| - 1 || !(IsP(full, i, BackArrow) || IsP(full, i, Dash))
    ensures Together(toks, HopAt(toks, i), HopAt(full, i))
  {}

  lemma HopTogether(toks: seq<Tok>, full: seq<Tok>, i: nat)
    requires Begins(toks, full) && i < |toks| && Closes(toks, i)
    ensures Together(toks, HopAt(toks, i), HopAt(full, i))
    ensures var b := HopAt(full, i);
            b.Got? && b.i < |toks| ==> if b.v.None? then b.i == i else Opens(toks, b.i)
  {
    if i == |toks| - 1 || !(IsP(full, i, BackArrow) || IsP(full, i, Dash)) {
      NoHopTogether(toks, full, i);
    } else {
      NothingWanted(toks, i + 1);
      if i + 1 < |toks| - 1 && full[i + 1].Ident? {
        NothingWanted(toks, i + 2);
        if i + 2 < |toks| - 1 { TypedHopTogether(toks, full, i); }
      }
    }
  }

  lemma TypedHopTogether(toks: seq<Tok>, full: seq<Tok>, i: nat)
    requires Begins(toks, full) && i + 2 < |toks| - 1 && Calm(toks, i + 2) && full[i + 1].Ident?
    requires IsP(full, i, BackArrow) || IsP(full, i, Dash)
    ensures Together(toks, HopAt(toks, i), HopAt(full, i))
    ensures var b := HopAt(full, i); b.Got? ==> b.v.Some? && (b.i < |toks| ==> Opens(toks, b.i))
  {
    var star := IsP(full, i + 2, Star);
    if star { NothingWanted(toks, i + 3); }
    if EdgeNamed(full[i + 1].s).Some? {
      HopCloseTogether(toks, full, if star then i + 3 else i + 2, EdgeNamed(full[i + 1].s).value,
                       IsP(full, i, BackArrow), star);
    }
  }

  lemma {:induction false} ChainTogether(
      toks: seq<Tok>, full: seq<Tok>, i: nat, atoms: seq<Atom>, hops: seq<Hop>)
    requires Begins(toks, full) && i < |toks| && Closes(toks, i)
    ensures Together(toks, ChainFrom(toks, i, atoms, hops), ChainFrom(full, i, atoms, hops))
    ensures var b := ChainFrom(full, i, atoms, hops); b.Got? && b.i < |toks| ==> Closes(toks, b.i)
    decreases |toks| - i
  {
    HopTogether(toks, full, i);
    var h := HopAt(full, i);
    if h.Got? && h.v.Some? && h.i < |toks| - 1 {
      AtomTogether(toks, full, h.i);
      var a := AtomAt(full, h.i);
      if a.Got? && a.i < |toks| - 1 {
        ChainTogether(toks, full, a.i, atoms + [a.v], hops + [h.v.value]);
      }
    }
  }

  // Behind the bounds of a range nothing is wanted, whatever tokens they are.
  lemma BoundsCalm(toks: seq<Tok>, i: nat)
    requires RangeOpens(toks, i)
    ensures Calm(toks, i + 1)
    ensures i + 2 < |toks| && toks[i + 1] == Punct(Comma) ==> Calm(toks, i + 3)
  {
    assert !ComparedValueAt(toks, i - 1) && !ListedValueAt(toks, i - 1);
    assert Calm(toks, i + 1);
  }

  predicate RangeOpens(toks: seq<Tok>, i: nat) {
    2 <= i < |toks| && toks[i - 1] == Punct(OpenList) && toks[i - 2] == Punct(AtSign)
  }

  lemma RangeCloses(toks: seq<Tok>, i: nat)
    requires RangeOpens(toks, i) && i + 3 < |toks| && toks[i + 1] == Punct(Comma) && toks[i + 3] == Punct(CloseList)
    ensures Closes(toks, i + 4)
  {
    BoundsCalm(toks, i);
    NothingWanted(toks, i + 4);
  }

  // A range that the end mark cuts short.
  lemma RangeCut(toks: seq<Tok>, i: nat)
    requires Ended(toks) && RangeOpens(toks, i) && |toks| - 1 < i + 4
    requires i + 1 < |toks| - 1 ==> toks[i + 1] == Punct(Comma)
    ensures RangeAt(toks, i) == Fail(PastEnd) || !BreaksOff(toks)
  {
    BoundsCalm(toks, i);
    var n := |toks| - 1;
    if n == i + 1 {
      assert Calm(toks, n);
    } else if n == i + 3 {
      assert Calm(toks, n);
    }
  }

  lemma RangeSame(toks: seq<Tok>, full: seq<Tok>, i: nat)
    requires Begins(toks, full) && i + 4 < |toks|
    ensures RangeAt(toks, i) == RangeAt(full, i)
  {
    assert toks[i] == full[i] && toks[i + 1] == full[i + 1] && toks[i + 2] == full[i + 2] && toks[i + 3] == full[i + 3];
  }

  lemma RangeTogether(toks: seq<Tok>, full: seq<Tok>, i: nat)
    requires Begins(toks, full) && RangeOpens(toks, i)
    ensures Together(toks, RangeAt(toks, i), RangeAt(full, i))
    ensures var b := RangeAt(full, i); b.Got? && b.i < |toks| ==> Closes(toks, b.i)
  {
    if RangeAt(full, i).Got? {
      if i + 4 < |toks| {
        RangeSame(toks, full, i);
        RangeCloses(toks, i);
      } else {
        assert i + 1 < |toks| - 1 ==> toks[i + 1] == full[i + 1];
        RangeCut(toks, i);
      }
    }
  }

  lemma TemporalTogether(toks: seq<Tok>, full: seq<Tok>, i: nat)
    requires Begins(toks, full) && 0 < i < |toks| && toks[i - 1] == Punct(AtSign)
    ensures Together(toks, TemporalAt(toks, i), TemporalAt(full, i))
    ensures var b := TemporalAt(full, i); b.Got? && b.i < |toks| ==> Closes(toks, b.i)
  {
    NothingWanted(toks, i);
    if i < |toks| - 1 {
      if IsP(full, i, OpenList) {
        RangeTogether(toks, full, i + 1);
      } else if full[i].Ident? || full[i].Value? {
        NothingWanted(toks, i + 1);
      }
    }
  }

  lemma AtSuffixTogether(toks: seq<Tok>, full: seq<Tok>, i: nat)
    requires Begins(toks, full) && i < |toks| && Closes(toks, i)
    ensures Together(toks, AtSuffix(toks, i), AtSuffix(full, i))
    ensures var b := AtSuffix(full, i); b.Got? && b.i < |toks| ==> Closes(toks, b.i)
  {
    if i < |toks| - 1 && IsP(full, i, AtSign) {
      TemporalTogether(toks, full, i + 1);
    }
  }

  // A sort field may stand here.
  predicate KeyOpens(toks: seq<Tok>, i: nat) {
    0 < i <= |toks| && Calm(toks, i) && !After(toks, i, Punct(OpenList))
  }

  // Where the next field, or nothing more, may stand behind a field and its direction.
  lemma BehindKey(toks: seq<Tok>, i: nat, j: nat)
    requires KeyOpens(toks, i) && i < j <= |toks| && toks[i].Ident?
    requires j == i + 1 || (j == i + 2 && toks[i + 1].Ident?)
    ensures Closes(toks, j)
    ensures j < |toks| && toks[j] == Punct(Comma) ==> KeyOpens(toks, j + 1)
  {
    NothingWanted(toks, j);
    NothingWanted(toks, i + 1);
  }

  function KeyEnd(toks: seq<Tok>, i: nat): (j: nat)
    requires Ended(toks) && i < |toks| && toks[i].Ident?
    ensures i < j < |toks| && (j == i + 1 || (j == i + 2 && toks[i + 1].Ident?))
  {
    if IsWord(toks, i + 1, "desc") || IsWord(toks, i + 1, "asc") then i + 2 else i + 1
  }

  lemma SortKeysStep(toks: seq<Tok>, i: nat, done: seq<SortKey>)
    requires Ended(toks) && i < |toks| && toks[i].Ident?
    ensures var j, more := KeyEnd(toks, i), done + [SortKey(toks[i].s, IsWord(toks, i + 1, "desc"))];
            SortKeysFrom(toks, i, done) == if IsP(toks, j, Comma) then SortKeysFrom(toks, j + 1, more) else Got(more, j)
  {}

  lemma {:induction false} SortKeysTogether(toks: seq<Tok>, full: seq<Tok>, i: nat, done: seq<SortKey>)
    requires Begins(toks, full) && i < |toks| && KeyOpens(toks, i)
    ensures Kept(toks, SortKeysFrom(toks, i, done), SortKeysFrom(full, i, done))
    decreases |toks| - i
  {
    if i < |toks| - 1 && full[i].Ident? {
      SortKeysStep(toks, i, done);
      SortKeysStep(full, i, done);
      var j := KeyEnd(toks, i);
      BehindKey(toks, i, j);
      if i + 1 < |toks| - 1 && j < |toks| - 1 && IsP(full, j, Comma) {
        SortKeysTogether(toks, full, j + 1, done + [SortKey(full[i].s, IsWord(full, i + 1, "desc"))]);
      }
    }
  }

  lemma SortSuffixTogether(toks: seq<Tok>, full: seq<Tok>, i: nat)
    requires Begins(toks, full) && i < |toks| && Closes(toks, i)
    ensures Together(toks, SortSuffix(toks, i), SortSuffix(full, i))
    ensures var b := SortSuffix(full, i); b.Got? && b.i < |toks| ==> Closes(toks, b.i)
  {
    if i < |toks| - 1 && IsWord(full, i, "sort") {
      NothingWanted(toks, i + 1);
      SortKeysTogether(toks, full, i + 1, []);
    }
  }

  lemma SuffixesTogether(toks: seq<Tok>, full: seq<Tok>, i: nat)
    requires Begins(toks, full) && i < |toks| && Closes(toks, i)
    ensures Together(toks, SuffixesAt(toks, i), SuffixesAt(full, i))
    ensures var b := SuffixesAt(full, i); b.Got? && b.i < |toks| ==> Closes(toks, b.i)
  {
    AtSuffixTogether(toks, full, i);
    var at := AtSuffix(full, i);
    if at.Got? && at.i < |toks| - 1 {
      SortSuffixTogether(toks, full, at.i);
    }
  }

  lemma PatternTogether(toks: seq<Tok>, full: seq<Tok>, i: nat)
    requires Begins(toks, full) && i < |toks| && Opens(toks, i)
    ensures Together(toks, PatternAt(toks, i), PatternAt(full, i))
    ensures var b := PatternAt(full, i); b.Got? && b.i < |toks| ==> Closes(toks, b.i)
  {
    AtomTogether(toks, full, i);
    var a := AtomAt(full, i);
    if a.Got? && a.i < |toks| - 1 {
      ChainTogether(toks, full, a.i, [a.v], []);
      var p := ChainFrom(full, a.i, [a.v], []);
      if p.Got? && p.i < |toks| - 1 {
        SuffixesTogether(toks, full, p.i);
      }
    }
  }

  // ── set expressions ──

  // The look-ahead for a kind list says the same on both, unless the list runs on
  // past the shorter, where nothing is wanted.
  lemma {:induction false} LookAheadTogether(toks: seq<Tok>, full: seq<Tok>, i: nat, done: seq<string>)
    requires Begins(toks, full) && 0 < i < |toks| && Calm(toks, i)
    ensures KindListFrom(toks, i) ==> KindListFrom(full, i)
    ensures KindListFrom(full, i) && !KindListFrom(toks, i) ==>
              !BreaksOff(toks) && KindsFrom(full, i, done).Got? && KindsFrom(full, i, done).i >= |toks|
    decreases |toks| - i
  {
    if i == |toks| - 1 {
      KindListIsRead(full, i, done);
    } else if full[i].Ident? {
      NothingWanted(toks, i + 1);
      if i + 1 == |toks| - 1 {
        KindListIsRead(full, i, done);
      } else if IsP(full, i + 1, Bar) {
        LookAheadTogether(toks, full, i + 2, done + [full[i].s]);
      }
    }
  }

  lemma {:induction false} KindListIsRead(toks: seq<Tok>, i: nat, done: seq<string>)
    requires Ended(toks) && i < |toks|
    ensures KindListFrom(toks, i) ==> KindsFrom(toks, i, done).Got? && KindsFrom(toks, i, done).i >= i + 2
    decreases |toks| - i
  {
    if toks[i].Ident? && IsP(toks, i + 1, Bar) {
      KindListIsRead(toks, i + 2, done + [toks[i].s]);
    }
  }

  lemma CloseTogether(toks: seq<Tok>, full: seq<Tok>, i: nat, x: Query)
    requires Begins(toks, full) && i < |toks| && Closes(toks, i)
    ensures Together(toks, GroupClose(toks, i, x), GroupClose(full, i, x))
    ensures var b := GroupClose(full, i, x); b.Got? && b.i < |toks| ==> Closes(toks, b.i)
  {
    if i < |toks| - 1 && IsP(full, i, CloseParen) {
      NothingWanted(toks, i + 1);
      SuffixesTogether(toks, full, i + 1);
    }
  }

  lemma RefTogether(toks: seq<Tok>, full: seq<Tok>, i: nat)
    requires Begins(toks, full) && i < |toks| - 1 && Opens(toks, i) && IsP(full, i, AtSign)
    ensures Kept(toks, PrimaryAt(toks, i), PrimaryAt(full, i))
  {
    NothingWanted(toks, i + 1);
    if i + 1 < |toks| - 1 && full[i + 1].Ident? { NothingWanted(toks, i + 2); }
    PatternTogether(toks, full, i);
  }

  lemma PrimaryIsGroup(toks: seq<Tok>, i: nat)
    requires Ended(toks) && i + 1 < |toks| && IsP(toks, i, OpenParen) && !KindListFrom(toks, i + 1)
    ensures PrimaryAt(toks, i) ==
            match UnionAt(toks, i + 1) case Fail(why) => Fail(why) case Got(x, j) => GroupClose(toks, j, x)
  {}

  lemma PrimaryIsPattern(toks: seq<Tok>, i: nat)
    requires Ended(toks) && i + 1 < |toks| && !IsP(toks, i, AtSign)
    requires IsP(toks, i, OpenParen) ==> KindListFrom(toks, i + 1)
    ensures PrimaryAt(toks, i) == PatternAt(toks, i)
  {}

  lemma {:induction false} GroupTogether(toks: seq<Tok>, full: seq<Tok>, i: nat)
    requires Begins(toks, full) && i < |toks| - 1 && Opens(toks, i) && IsP(full, i, OpenParen)
    requires !KindListFrom(full, i + 1)
    ensures Kept(toks, PrimaryAt(toks, i), PrimaryAt(full, i))
    decreases |toks| - i, 0
  {
    OpensGroup(toks, i);
    LookAheadTogether(toks, full, i + 1, []);
    PrimaryIsGroup(toks, i);
    PrimaryIsGroup(full, i);
    UnionTogether(toks, full, i + 1);
    var x := UnionAt(full, i + 1);
    if x.Got? && x.i < |toks| - 1 {
      CloseTogether(toks, full, x.i, x.v);
    } else if x.Got? {
      CloseMoves(full, x.i, x.v);
    }
  }

  lemma OpensGroup(toks: seq<Tok>, i: nat)
    requires Opens(toks, i) && i + 1 < |toks| && toks[i] == Punct(OpenParen)
    ensures Opens(toks, i + 1)
  {}

  lemma CloseMoves(full: seq<Tok>, i: nat, x: Query)
    requires Ended(full) && i < |full|
    ensures GroupClose(full, i, x).Got? ==> GroupClose(full, i, x).i > i
  {}

  // A pattern reads its kinds first.
  lemma PatternBeyond(full: seq<Tok>, i: nat)
    requires Ended(full) && i < |full| && PatternAt(full, i).Got?
    ensures AtomKinds(full, i).Got? && AtomKinds(full, i).i <= PatternAt(full, i).i
  {}

  lemma PatternHere(toks: seq<Tok>, full: seq<Tok>, i: nat)
    requires Begins(toks, full) && i < |toks| - 1 && Opens(toks, i) && !IsP(full, i, AtSign)
    requires IsP(full, i, OpenParen) ==> KindListFrom(full, i + 1)
    ensures Kept(toks, PrimaryAt(toks, i), PrimaryAt(full, i))
  {
    PrimaryIsPattern(full, i);
    if IsP(full, i, OpenParen) && !KindListFrom(toks, i + 1) {
      OpensGroup(toks, i);
      LookAheadTogether(toks, full, i + 1, []);
      if PatternAt(full, i).Got? { PatternBeyond(full, i); }
    } else {
      PrimaryIsPattern(toks, i);
      PatternTogether(toks, full, i);
    }
  }

  lemma {:induction false} PrimaryTogether(toks: seq<Tok>, full: seq<Tok>, i: nat)
    requires Begins(toks, full) && i < |toks| && Opens(toks, i)
    ensures Kept(toks, PrimaryAt(toks, i), PrimaryAt(full, i))
    decreases |toks| - i, 1
  {
    if i == |toks| - 1 {
      PrimaryMoves(full, i);
    } else if IsP(full, i, AtSign) {
      RefTogether(toks, full, i);
    } else if IsP(full, i, OpenParen) && !KindListFrom(full, i + 1) {
      GroupTogether(toks, full, i);
    } else {
      PatternHere(toks, full, i);
    }
  }

  lemma PrimaryMoves(full: seq<Tok>, i: nat)
    requires Ended(full) && i < |full|
    ensures PrimaryAt(full, i).Got? ==> PrimaryAt(full, i).i > i
  {}

  lemma {:induction false} UnaryTogether(toks: seq<Tok>, full: seq<Tok>, i: nat)
    requires Begins(toks, full) && i < |toks| && Opens(toks, i)
    ensures Kept(toks, UnaryAt(toks, i), UnaryAt(full, i))
    decreases |toks| - i, 2
  {
    if i < |toks| - 1 && IsP(full, i, Bang) {
      NothingWanted(toks, i + 1);
      UnaryTogether(toks, full, i + 1);
    } else {
      PrimaryTogether(toks, full, i);
    }
  }

  lemma {:induction false} InterFromTogether(toks: seq<Tok>, full: seq<Tok>, i: nat, terms: seq<Query>)
    requires Begins(toks, full) && i < |toks| && Closes(toks, i)
    ensures Kept(toks, InterFrom(toks, i, terms), InterFrom(full, i, terms))
    decreases |toks| - i, 3
  {
    if i < |toks| - 1 && IsP(full, i, Amp) {
      NothingWanted(toks, i + 1);
      UnaryTogether(toks, full, i + 1);
      var t := UnaryAt(full, i + 1);
      if t.Got? && t.i < |toks| - 1 {
        InterFromTogether(toks, full, t.i, terms + [t.v]);
      }
    }
  }

  lemma {:induction false} InterTogether(toks: seq<Tok>, full: seq<Tok>, i: nat)
    requires Begins(toks, full) && i < |toks| && Opens(toks, i)
    ensures Kept(toks, InterAt(toks, i), InterAt(full, i))
    decreases |toks| - i, 3
  {
    UnaryTogether(toks, full, i);
    var x := UnaryAt(full, i);
    if x.Got? && x.i < |toks| - 1 {
      InterFromTogether(toks, full, x.i, [x.v]);
    }
  }

  lemma {:induction false} UnionFromTogether(toks: seq<Tok>, full: seq<Tok>, i: nat, terms: seq<Query>)
    requires Begins(toks, full) && i < |toks| && Closes(toks, i)
    ensures Kept(toks, UnionFrom(toks, i, terms), UnionFrom(full, i, terms))
    decreases |toks| - i, 4
  {
    if i < |toks| - 1 && IsP(full, i, Bar) {
      InterTogether(toks, full, i + 1);
      var t := InterAt(full, i + 1);
      if t.Got? && t.i < |toks| - 1 {
        UnionFromTogether(toks, full, t.i, terms + [t.v]);
      }
    }
  }

  lemma {:induction false} UnionTogether(toks: seq<Tok>, full: seq<Tok>, i: nat)
    requires Begins(toks, full) && i < |toks| && Opens(toks, i)
    ensures Kept(toks, UnionAt(toks, i), UnionAt(full, i))
    decreases |toks| - i, 5
  {
    InterTogether(toks, full, i);
    var x := InterAt(full, i);
    if x.Got? && x.i < |toks| - 1 {
      UnionFromTogether(toks, full, x.i, [x.v]);
    }
  }

  // ── the exact condition ──

  // The tokens before the end mark begin a query.
  ghost predicate BeginsAQuery(toks: seq<Tok>) {
    exists full :: Begins(toks, full) && Parse(full).Ok?
  }

  lemma {:induction false} OneEnd(toks: seq<Tok>, k: nat)
    requires Lexed(toks) && k < |toks| - 1
    ensures toks[k] != End
  {
    if k > 0 {
      OneEnd(toks[1..], k - 1);
    }
  }

  // On a text that begins a query the parser steps past its tokens exactly when the
  // text breaks off where a value is wanted.
  lemma RunsPastTheEndIff(src: string)
    requires Lex(src).Ok? && BeginsAQuery(Lex(src).value)
    ensures ParseQuery(src) == Err(NotParsed(PastEnd)) <==> BreaksOff(Lex(src).value)
  {
    var toks := Lex(src).value;
    var full :| Begins(toks, full) && Parse(full).Ok?;
    if ParseQuery(src) == Err(NotParsed(PastEnd)) {
      OnlyABrokenOffTextRunsPastTheEnd(src);
    }
    UnionTogether(toks, full, 0);
    LexIsGood(src, 0);
    if UnionAt(full, 0).i < |toks| - 1 {
      OneEnd(toks, UnionAt(full, 0).i);
    }
  }
}
