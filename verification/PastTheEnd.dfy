// When the parser steps over the end mark: it reads values and range bounds
// without looking whether there is a token left.
module PastTheEnd {
  import opened Options
  import opened Queries
  import opened Lexer
  import opened Grammar

  // A value of a comparison is read at i: after a field and its sign, or after
  // another value and a bar.
  predicate ComparedValueAt(toks: seq<Tok>, i: nat) {
    && 2 <= i <= |toks|
    && if toks[i - 1] == Punct(Bar) then ComparedValueAt(toks, i - 2)
       else OpOf(toks[i - 1]).Some? && toks[i - 2].Ident?
  }

  // A value of a list is read at i: after a field, `in` and a parenthesis, or
  // after another value and a comma.
  predicate ListedValueAt(toks: seq<Tok>, i: nat) {
    && 3 <= i <= |toks|
    && if toks[i - 1] == Punct(Comma) then ListedValueAt(toks, i - 2)
       else toks[i - 1] == Punct(OpenParen) && toks[i - 2] == Ident("in") && toks[i - 3].Ident?
  }

  // A bound of a date range is read at i.
  predicate BoundAt(toks: seq<Tok>, i: nat) {
    || (2 <= i <= |toks| && toks[i - 1] == Punct(OpenList) && toks[i - 2] == Punct(AtSign))
    || (4 <= i <= |toks| && toks[i - 1] == Punct(Comma)
        && toks[i - 3] == Punct(OpenList) && toks[i - 4] == Punct(AtSign))
  }

  predicate WantsValueAt(toks: seq<Tok>, i: nat) {
    ComparedValueAt(toks, i) || ListedValueAt(toks, i) || BoundAt(toks, i)
  }

  // The text breaks off where a value is wanted.
  predicate BreaksOff(toks: seq<Tok>) { toks != [] && WantsValueAt(toks, |toks| - 1) }

  lemma {:induction false} ListBreaksOff(toks: seq<Tok>, i: nat, done: seq<string>)
    requires Ended(toks) && i < |toks| && ListedValueAt(toks, i)
    ensures ValuesFrom(toks, i, Comma, done) == Fail(PastEnd) ==> BreaksOff(toks)
    decreases |toks| - i
  {
    if i + 1 < |toks| && IsP(toks, i + 1, Comma) {
      ListBreaksOff(toks, i + 2, done + [TokText(toks[i])]);
    }
  }

  lemma {:induction false} ComparisonBreaksOff(toks: seq<Tok>, i: nat, done: seq<string>)
    requires Ended(toks) && i < |toks| && ComparedValueAt(toks, i)
    ensures ValuesFrom(toks, i, Bar, done) == Fail(PastEnd) ==> BreaksOff(toks)
    decreases |toks| - i
  {
    if i + 1 < |toks| && IsP(toks, i + 1, Bar) {
      ComparisonBreaksOff(toks, i + 2, done + [TokText(toks[i])]);
    }
  }

  lemma {:induction false} PredBreaksOff(toks: seq<Tok>, i: nat)
    requires Ended(toks) && i < |toks|
    ensures PredAt(toks, i) == Fail(PastEnd) ==> BreaksOff(toks)
  {
    if toks[i].Ident? && IsWord(toks, i + 1, "in") {
      if IsP(toks, i + 2, OpenParen) {
        ListBreaksOff(toks, i + 3, []);
      }
    } else if toks[i].Ident? && OpOf(toks[i + 1]).Some? {
      ComparisonBreaksOff(toks, i + 2, []);
    }
  }

  lemma {:induction false} PredsBreakOff(toks: seq<Tok>, i: nat, done: seq<Pred>)
    requires Ended(toks) && i < |toks|
    ensures PredsFrom(toks, i, done) == Fail(PastEnd) ==> BreaksOff(toks)
    decreases |toks| - i
  {
    PredBreaksOff(toks, i);
    var p := PredAt(toks, i);
    if p.Got? && IsP(toks, p.i, Comma) {
      PredsBreakOff(toks, p.i + 1, done + [p.v]);
    }
  }

  lemma {:induction false} KindsNeverPastEnd(toks: seq<Tok>, i: nat, done: seq<string>)
    requires Ended(toks) && i < |toks|
    ensures KindsFrom(toks, i, done) != Fail(PastEnd)
    decreases |toks| - i
  {
    if toks[i].Ident? && IsP(toks, i + 1, Bar) {
      KindsNeverPastEnd(toks, i + 2, done + [toks[i].s]);
    }
  }

  lemma {:induction false} AtomBreaksOff(toks: seq<Tok>, i: nat)
    requires Ended(toks) && i < |toks|
    ensures AtomAt(toks, i) == Fail(PastEnd) ==> BreaksOff(toks)
  {
    AtomKindsNeverPastEnd(toks, i);
    var kinds := AtomKinds(toks, i);
    if kinds.Got? && AtomId(toks, kinds.i).Got? {
      AtomPredsBreakOff(toks, AtomId(toks, kinds.i).i);
    }
  }

  lemma AtomKindsNeverPastEnd(toks: seq<Tok>, i: nat)
    requires Ended(toks) && i < |toks|
    ensures AtomKinds(toks, i) != Fail(PastEnd)
  {
    if IsP(toks, i, OpenParen) {
      KindsNeverPastEnd(toks, i + 1, []);
    }
  }

  lemma AtomPredsBreakOff(toks: seq<Tok>, i: nat)
    requires Ended(toks) && i < |toks|
    ensures AtomPreds(toks, i) == Fail(PastEnd) ==> BreaksOff(toks)
  {
    if IsP(toks, i, OpenList) {
      PredsBreakOff(toks, i + 1, []);
    }
  }

  lemma {:induction false} ChainBreaksOff(toks: seq<Tok>, i: nat, atoms: seq<Atom>, hops: seq<Hop>)
    requires Ended(toks) && i < |toks|
    ensures ChainFrom(toks, i, atoms, hops) == Fail(PastEnd) ==> BreaksOff(toks)
    decreases |toks| - i
  {
    var h := HopAt(toks, i);
    if h.Got? && h.v.Some? {
      AtomBreaksOff(toks, h.i);
      var a := AtomAt(toks, h.i);
      if a.Got? {
        ChainBreaksOff(toks, a.i, atoms + [a.v], hops + [h.v.value]);
      }
    }
  }

  lemma {:induction false} KeysNeverPastEnd(toks: seq<Tok>, i: nat, done: seq<SortKey>)
    requires Ended(toks) && i < |toks|
    ensures SortKeysFrom(toks, i, done) != Fail(PastEnd)
    decreases |toks| - i
  {
    if toks[i].Ident? {
      var desc := IsWord(toks, i + 1, "desc");
      var j := if desc || IsWord(toks, i + 1, "asc") then i + 2 else i + 1;
      if IsP(toks, j, Comma) {
        KeysNeverPastEnd(toks, j + 1, done + [SortKey(toks[i].s, desc)]);
      }
    }
  }

  lemma {:induction false} SuffixesBreakOff(toks: seq<Tok>, i: nat)
    requires Ended(toks) && i < |toks|
    ensures SuffixesAt(toks, i) == Fail(PastEnd) ==> BreaksOff(toks)
  {
    var at := AtSuffix(toks, i);
    if at.Got? && IsWord(toks, at.i, "sort") {
      KeysNeverPastEnd(toks, at.i + 1, []);
    }
  }

  lemma {:induction false} PatternBreaksOff(toks: seq<Tok>, i: nat)
    requires Ended(toks) && i < |toks|
    ensures PatternAt(toks, i) == Fail(PastEnd) ==> BreaksOff(toks)
  {
    AtomBreaksOff(toks, i);
    var a := AtomAt(toks, i);
    if a.Got? {
      ChainBreaksOff(toks, a.i, [a.v], []);
      var p := ChainFrom(toks, a.i, [a.v], []);
      if p.Got? {
        SuffixesBreakOff(toks, p.i);
      }
    }
  }

  lemma {:induction false} CloseBreaksOff(toks: seq<Tok>, i: nat, x: Query)
    requires Ended(toks) && i < |toks|
    ensures GroupClose(toks, i, x) == Fail(PastEnd) ==> BreaksOff(toks)
  {
    if IsP(toks, i, CloseParen) {
      SuffixesBreakOff(toks, i + 1);
    }
  }

  lemma {:induction false} PrimaryBreaksOff(toks: seq<Tok>, i: nat)
    requires Ended(toks) && i < |toks|
    ensures PrimaryAt(toks, i) == Fail(PastEnd) ==> BreaksOff(toks)
    decreases |toks| - i, 1
  {
    if IsP(toks, i, OpenParen) && !KindListFrom(toks, i + 1) {
      UnionBreaksOff(toks, i + 1);
      var x := UnionAt(toks, i + 1);
      if x.Got? {
        CloseBreaksOff(toks, x.i, x.v);
      }
    } else {
      PatternBreaksOff(toks, i);
    }
  }

  lemma {:induction false} UnaryBreaksOff(toks: seq<Tok>, i: nat)
    requires Ended(toks) && i < |toks|
    ensures UnaryAt(toks, i) == Fail(PastEnd) ==> BreaksOff(toks)
    decreases |toks| - i, 2
  {
    if IsP(toks, i, Bang) {
      UnaryBreaksOff(toks, i + 1);
    } else {
      PrimaryBreaksOff(toks, i);
    }
  }

  lemma {:induction false} InterFromBreaksOff(toks: seq<Tok>, i: nat, terms: seq<Query>)
    requires Ended(toks) && i < |toks|
    ensures InterFrom(toks, i, terms) == Fail(PastEnd) ==> BreaksOff(toks)
    decreases |toks| - i, 3
  {
    if IsP(toks, i, Amp) {
      UnaryBreaksOff(toks, i + 1);
      var t := UnaryAt(toks, i + 1);
      if t.Got? {
        InterFromBreaksOff(toks, t.i, terms + [t.v]);
      }
    }
  }

  lemma {:induction false} InterBreaksOff(toks: seq<Tok>, i: nat)
    requires Ended(toks) && i < |toks|
    ensures InterAt(toks, i) == Fail(PastEnd) ==> BreaksOff(toks)
    decreases |toks| - i, 3
  {
    UnaryBreaksOff(toks, i);
    var x := UnaryAt(toks, i);
    if x.Got? {
      InterFromBreaksOff(toks, x.i, [x.v]);
    }
  }

  lemma {:induction false} UnionFromBreaksOff(toks: seq<Tok>, i: nat, terms: seq<Query>)
    requires Ended(toks) && i < |toks|
    ensures UnionFrom(toks, i, terms) == Fail(PastEnd) ==> BreaksOff(toks)
    decreases |toks| - i, 4
  {
    if IsP(toks, i, Bar) {
      InterBreaksOff(toks, i + 1);
      var t := InterAt(toks, i + 1);
      if t.Got? {
        UnionFromBreaksOff(toks, t.i, terms + [t.v]);
      }
    }
  }

  lemma {:induction false} UnionBreaksOff(toks: seq<Tok>, i: nat)
    requires Ended(toks) && i < |toks|
    ensures UnionAt(toks, i) == Fail(PastEnd) ==> BreaksOff(toks)
    decreases |toks| - i, 5
  {
    InterBreaksOff(toks, i);
    var x := InterAt(toks, i);
    if x.Got? {
      UnionFromBreaksOff(toks, x.i, [x.v]);
    }
  }

  // The parser stays inside its tokens unless the text breaks off where a
  // comparison, a list or a date range wants its next value.
  lemma OnlyABrokenOffTextRunsPastTheEnd(src: string)
    requires ParseQuery(src) == Err(NotParsed(PastEnd))
    ensures Lex(src).Ok? && BreaksOff(Lex(src).value)
  {
    UnionBreaksOff(Lex(src).value, 0);
  }

  // `claim [status =` does run past the end.
  lemma ABrokenOffTextRunsPastTheEnd()
    ensures exists src :: ParseQuery(src) == Err(NotParsed(PastEnd))
  {
    var toks := [Ident("claim"), Punct(OpenList), Ident("status"), Punct(Equals), End];
    assert ScanWord("claim", 0) == 5 && ScanWord("status", 0) == 6;
    assert toks[1..] == [Punct(OpenList), Ident("status"), Punct(Equals), End];
    assert toks[1..][1..] == [Ident("status"), Punct(Equals), End];
    assert toks[1..][1..][1..] == [Punct(Equals), End];
    assert toks[1..][1..][1..][1..] == [End];
    assert Lexed(toks[1..][1..][1..]);
    assert Lexed(toks);
    LexOfSpell(toks);
    BrokenComparison(toks);
    assert ParseQuery(Spell(toks)) == Err(NotParsed(PastEnd));
  }

  lemma {:induction false} BrokenComparison(toks: seq<Tok>)
    requires toks == [Ident("claim"), Punct(OpenList), Ident("status"), Punct(Equals), End]
    ensures UnionAt(toks, 0) == Fail(PastEnd)
  {
    assert ValuesFrom(toks, 4, Bar, []) == Fail(PastEnd);
    assert PredAt(toks, 2) == Fail(PastEnd);
    assert AtomPreds(toks, 1) == Fail(PastEnd);
    assert AtomKinds(toks, 0) == Got(["claim"], 1);
    assert AtomAt(toks, 0) == Fail(PastEnd);
    assert PatternAt(toks, 0) == Fail(PastEnd);
    assert PrimaryAt(toks, 0) == Fail(PastEnd);
    assert UnaryAt(toks, 0) == Fail(PastEnd);
    assert InterAt(toks, 0) == Fail(PastEnd);
  }
}
