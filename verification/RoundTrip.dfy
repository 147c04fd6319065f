// What the surface language can say: a query has a text exactly when it is
// Surface, and the text Print gives it is parsed back to it.
module RoundTrip {
  import opened Options
  import opened Graphs
  import opened Queries
  import opened Lexer
  import opened Grammar
  import opened Printing

  // ── the printed tokens can be lexed ──

  predicate Plain(c: char) { 'a' <= c <= 'z' || c == '_' }

  predicate PlainWord(w: string) {
    w != "" && 'a' <= w[0] <= 'z' && forall i | 0 <= i < |w| :: Plain(w[i])
  }

  lemma {:induction false} PlainScan(w: string, i: nat)
    requires i <= |w| && forall k | 0 <= k < |w| :: Plain(w[k])
    ensures ScanWord(w, i) == |w|
    decreases |w| - i
  {
    if i < |w| {
      assert Plain(w[i]);
      PlainScan(w, i + 1);
    }
  }

  lemma {:induction false} PlainIdentifier(w: string)
    requires PlainWord(w)
    ensures Identifier(w)
  {
    PlainScan(w, 0);
  }

  lemma {:induction false} KindIdentifier(k: string)
    requires IsKind(k)
    ensures Identifier(k)
  {
    assert PlainWord("claim") && PlainWord("question") && PlainWord("group") && PlainWord("entity");
    assert PlainWord("event") && PlainWord("action") && PlainWord("source");
    PlainIdentifier(k);
  }

  lemma {:induction false} EdgeIdentifier(t: EdgeType)
    ensures Identifier(EdgeName(t))
  {
    assert PlainWord(EdgeName(t));
    PlainIdentifier(EdgeName(t));
  }

  lemma {:induction false} GoodCons(t: Tok, rest: seq<Tok>)
    requires Good(t) && Lexed(rest)
    ensures Lexed([t] + rest)
  {
    assert ([t] + rest)[1..] == rest;
  }

  lemma {:induction false} ValuesGood(vals: seq<string>, sep: Sign, rest: seq<Tok>)
    requires Lexed(rest) && forall v | v in vals :: QuoteFree(v)
    ensures Lexed(ValuesToks(vals, sep, rest))
    decreases |vals|
  {
    if |vals| == 1 {
      GoodCons(Str(vals[0]), rest);
    } else if |vals| > 1 {
      var more := ValuesToks(vals[1..], sep, rest);
      ValuesGood(vals[1..], sep, rest);
      GoodCons(Punct(sep), more);
      GoodCons(Str(vals[0]), [Punct(sep)] + more);
    }
  }

  lemma {:induction false} OpGood(op: Op, vals: seq<string>, rest: seq<Tok>)
    requires Lexed(rest) && forall v | v in vals :: QuoteFree(v)
    ensures Lexed(OpToks(op, vals, rest))
  {
    if op == In {
      GoodCons(Punct(CloseParen), rest);
      ValuesGood(vals, Comma, [Punct(CloseParen)] + rest);
      GoodCons(Punct(OpenParen), ValuesToks(vals, Comma, [Punct(CloseParen)] + rest));
      PlainIdentifier("in");
      GoodCons(Ident("in"), ListToks(vals, rest));
    } else if op != Has {
      ValuesGood(vals, Bar, rest);
      GoodCons(Punct(OpSign(op)), ValuesToks(vals, Bar, rest));
    }
  }

  lemma {:induction false} PredGood(p: Pred, rest: seq<Tok>)
    requires Lexed(rest) && PlainPred(p)
    ensures Lexed(PredToks(p, rest))
  {
    OpGood(p.op, p.vals, rest);
    GoodCons(Ident(p.key), OpToks(p.op, p.vals, rest));
  }

  lemma {:induction false} PredsGood(preds: seq<Pred>, rest: seq<Tok>)
    requires Lexed(rest) && PlainPreds(preds)
    ensures Lexed(PredsToks(preds, rest))
    decreases |preds|
  {
    if |preds| == 1 {
      GoodCons(Punct(CloseList), rest);
      PredGood(preds[0], [Punct(CloseList)] + rest);
    } else if |preds| > 1 {
      PredsGood(preds[1..], rest);
      GoodCons(Punct(Comma), PredsToks(preds[1..], rest));
      PredGood(preds[0], [Punct(Comma)] + PredsToks(preds[1..], rest));
    }
  }

  predicate Identifiers(kinds: seq<string>) { forall i | 0 <= i < |kinds| :: Identifier(kinds[i]) }

  lemma {:induction false} KindsGood(kinds: seq<string>, rest: seq<Tok>)
    requires Lexed(rest) && Identifiers(kinds)
    ensures Lexed(KindsToks(kinds, rest))
    decreases |kinds|
  {
    if |kinds| == 1 {
      GoodCons(Punct(CloseParen), rest);
      GoodCons(Ident(kinds[0]), [Punct(CloseParen)] + rest);
    } else if |kinds| > 1 {
      var more := KindsToks(kinds[1..], rest);
      KindsGood(kinds[1..], rest);
      GoodCons(Punct(Bar), more);
      GoodCons(Ident(kinds[0]), [Punct(Bar)] + more);
    }
  }

  lemma {:induction false} AtomIdentifiers(a: Atom, first: bool)
    requires PlainAtom(a, first)
    ensures Identifiers(a.kinds)
  {
    forall i | 0 <= i < |a.kinds|
      ensures Identifier(a.kinds[i])
    {
      assert a.kinds[i] in a.kinds;
      if first {
        KindIdentifier(a.kinds[i]);
      }
    }
  }

  lemma {:induction false} PartsGood(kinds: seq<string>, id: Id, preds: seq<Pred>, text: string, rest: seq<Tok>)
    requires Lexed(rest) && Identifiers(kinds) && QuoteFree(id) && PlainPreds(preds) && QuoteFree(text)
    ensures Lexed(KindPart(kinds, rest)) && Lexed(IdPart(id, rest))
    ensures Lexed(PredPart(preds, rest)) && Lexed(TextPart(text, rest))
  {
    KindsGood(kinds, rest);
    GoodCons(Punct(OpenParen), KindsToks(kinds, rest));
    GoodCons(Str(id), rest);
    GoodCons(Punct(Hash), [Str(id)] + rest);
    PredsGood(preds, rest);
    GoodCons(Punct(OpenList), PredsToks(preds, rest));
    GoodCons(Str(text), rest);
    GoodCons(Punct(Tilde), [Str(text)] + rest);
  }

  lemma {:induction false} AtomGood(a: Atom, first: bool, rest: seq<Tok>)
    requires Lexed(rest) && PlainAtom(a, first)
    ensures Lexed(AtomToks(a, rest))
  {
    AtomIdentifiers(a, first);
    PartsGood(a.kinds, a.id, a.preds, a.text, rest);
    var text := TextPart(a.text, rest);
    PartsGood(a.kinds, a.id, a.preds, a.text, text);
    var preds := PredPart(a.preds, text);
    PartsGood(a.kinds, a.id, a.preds, a.text, preds);
    PartsGood(a.kinds, a.id, a.preds, a.text, IdPart(a.id, preds));
  }

  lemma {:induction false} HopGood(h: Hop, rest: seq<Tok>)
    requires Lexed(rest)
    ensures Lexed(HopToks(h, rest))
  {
    var close := CloseToks(h, rest);
    GoodCons(Punct(if h.dir == Forward then Arrow else Dash), rest);
    GoodCons(Punct(Star), close);
    var tail := if h.star then [Punct(Star)] + close else close;
    EdgeIdentifier(h.typ);
    GoodCons(Ident(EdgeName(h.typ)), tail);
    GoodCons(Punct(if h.dir == Inverse then BackArrow else Dash), [Ident(EdgeName(h.typ))] + tail);
  }

  lemma {:induction false} ChainGood(atoms: seq<Atom>, hops: seq<Hop>, rest: seq<Tok>)
    requires Lexed(rest) && PlainAtoms(atoms)
    ensures Lexed(ChainToks(atoms, hops, rest))
    decreases |atoms|
  {
    if atoms != [] && hops != [] {
      assert PlainAtom(atoms[0], false);
      ChainGood(atoms[1..], hops[1..], rest);
      AtomGood(atoms[0], false, ChainToks(atoms[1..], hops[1..], rest));
      HopGood(hops[0], AtomToks(atoms[0], ChainToks(atoms[1..], hops[1..], rest)));
    }
  }

  lemma {:induction false} RangeGood(from: string, to: string, rest: seq<Tok>)
    requires Lexed(rest) && QuoteFree(from) && QuoteFree(to)
    ensures Lexed(RangeToks(from, to, rest))
  {
    var close := [Punct(CloseList)] + rest;
    GoodCons(Punct(CloseList), rest);
    GoodCons(Str(to), close);
    GoodCons(Punct(Comma), [Str(to)] + close);
    GoodCons(Str(from), [Punct(Comma)] + ([Str(to)] + close));
  }

  lemma {:induction false} AtGood(at: Option<Temporal>, rest: seq<Tok>)
    requires Lexed(rest) && PlainAt(at)
    ensures Lexed(AtToks(at, rest))
  {
    if at.Some? {
      var range := RangeToks(at.value.from, at.value.to, rest);
      PlainIdentifier("now");
      GoodCons(Ident("now"), rest);
      RangeGood(at.value.from, at.value.to, rest);
      GoodCons(Punct(OpenList), range);
      GoodCons(Punct(AtSign), if at.value.now then [Ident("now")] + rest else [Punct(OpenList)] + range);
    }
  }

  lemma {:induction false} KeysGood(keys: seq<SortKey>, rest: seq<Tok>)
    requires Lexed(rest) && PlainSort(keys)
    ensures Lexed(KeyToks(keys, rest))
    decreases |keys|
  {
    if keys != [] {
      assert keys[0] in keys;
      KeysGood(keys[1..], rest);
      GoodCons(Punct(Comma), KeyToks(keys[1..], rest));
      var tail := if |keys| == 1 then rest else [Punct(Comma)] + KeyToks(keys[1..], rest);
      var order := Ident(if keys[0].desc then "desc" else "asc");
      PlainIdentifier("desc");
      PlainIdentifier("asc");
      GoodCons(order, tail);
      GoodCons(Ident(keys[0].key), [order] + tail);
    }
  }

  lemma {:induction false} SortGood(sort: seq<SortKey>, rest: seq<Tok>)
    requires Lexed(rest) && PlainSort(sort)
    ensures Lexed(SortToks(sort, rest))
  {
    KeysGood(sort, rest);
    PlainIdentifier("sort");
    GoodCons(Ident("sort"), KeyToks(sort, rest));
  }

  lemma {:induction false} PatternGood(p: Pattern, rest: seq<Tok>)
    requires Lexed(rest) && PlainPattern(p)
    ensures Lexed(PatternToks(p, rest))
  {
    SortGood(p.sort, rest);
    var sort := SortToks(p.sort, rest);
    AtGood(p.at, sort);
    ChainGood(p.atoms[1..], p.hops, AtToks(p.at, sort));
    AtomGood(p.atoms[0], true, ChainToks(p.atoms[1..], p.hops, AtToks(p.at, sort)));
  }

  lemma {:induction false} QueryGood(q: Query, level: nat, rest: seq<Tok>)
    requires Lexed(rest) && Surface(q)
    ensures Lexed(QueryToks(q, level, rest))
    decreases q, 2
  {
    if Level(q) < level {
      GoodCons(Punct(CloseParen), rest);
      BodyGood(q, [Punct(CloseParen)] + rest);
      GoodCons(Punct(OpenParen), BodyToks(q, [Punct(CloseParen)] + rest));
    } else {
      BodyGood(q, rest);
    }
  }

  lemma {:induction false} BodyGood(q: Query, rest: seq<Tok>)
    requires Lexed(rest) && Surface(q)
    ensures Lexed(BodyToks(q, rest))
    decreases q, 1
  {
    match q
    case Union(terms) =>
      TailGood(q, 1, rest);
      QueryGood(terms[0], 1, TailToks(q, 1, rest));
    case Inter(terms) =>
      TailGood(q, 1, rest);
      QueryGood(terms[0], 2, TailToks(q, 1, rest));
    case Not(x) =>
      QueryGood(x, 2, rest);
      GoodCons(Punct(Bang), QueryToks(x, 2, rest));
    case Ref(name) =>
      GoodCons(Ident(name), rest);
      GoodCons(Punct(AtSign), [Ident(name)] + rest);
    case Match(p) => PatternGood(p, rest);
    case Scoped(x, at, sort) =>
      SortGood(sort, rest);
      AtGood(at, SortToks(sort, rest));
      var close := [Punct(CloseParen)] + AtToks(at, SortToks(sort, rest));
      GoodCons(Punct(CloseParen), AtToks(at, SortToks(sort, rest)));
      QueryGood(x, 0, close);
      GoodCons(Punct(OpenParen), QueryToks(x, 0, close));
  }

  lemma {:induction false} TailGood(q: Query, k: nat, rest: seq<Tok>)
    requires Lexed(rest) && Surface(q) && Level(q) < 2 && k <= |q.terms|
    ensures Lexed(TailToks(q, k, rest))
    decreases q, 0, |q.terms| - k
  {
    if k < |q.terms| {
      TailGood(q, k + 1, rest);
      QueryGood(q.terms[k], Level(q) + 1, TailToks(q, k + 1, rest));
      GoodCons(Punct(if q.Union? then Bar else Amp), QueryToks(q.terms[k], Level(q) + 1, TailToks(q, k + 1, rest)));
    }
  }

  // Every Surface query is parsed back from its own text.
  lemma PrintThenParse(q: Query)
    requires Surface(q)
    ensures ParseQuery(Print(q)) == Ok(q)
  {
    var toks := QueryToks(q, 0, [End]);
    assert Lexed([End]);
    QueryGood(q, 0, [End]);
    LexOfSpell(toks);
    LexedEnds(toks);
    WholeRead(q, toks);
    ReadWhole(Print(q), toks, q);
  }

  lemma {:induction false} LexedEnds(toks: seq<Tok>)
    requires Lexed(toks)
    ensures Ended(toks)
  {
    if toks != [End] {
      LexedEnds(toks[1..]);
    }
  }

  lemma WholeRead(q: Query, toks: seq<Tok>)
    requires Surface(q) && toks == QueryToks(q, 0, [End]) && Ended(toks)
    ensures UnionAt(toks, 0) == Got(q, |toks| - 1)
  {
    forall k | 0 <= k < |toks|
      ensures Same(toks, toks, k)
    {}
    assert Ends(toks, toks);
    UnionRead(toks, q, [End]);
  }

  lemma ReadWhole(src: string, toks: seq<Tok>, q: Query)
    requires Ended(toks) && Lex(src) == Ok(toks) && UnionAt(toks, 0) == Got(q, |toks| - 1)
    ensures ParseQuery(src) == Ok(q)
  {}

  // ── what the parser produces ──

  ghost predicate AllGood(toks: seq<Tok>) {
    Ended(toks) && forall k | 0 <= k < |toks| - 1 :: Good(toks[k])
  }

  lemma {:induction false} LexedIsGood(toks: seq<Tok>, k: nat)
    requires Lexed(toks) && k + 1 < |toks|
    ensures Good(toks[k])
    decreases k
  {
    if k > 0 {
      LexedIsGood(toks[1..], k - 1);
    }
  }

  lemma {:induction false} ScanAll(w: string, i: nat, k: nat)
    requires i <= k < |w| && ScanWord(w, i) == |w|
    ensures InWord(w, k)
    decreases k - i
  {
    if i < k {
      ScanAll(w, i + 1, k);
    }
  }

  lemma {:induction false} TextQuoteFree(toks: seq<Tok>, i: nat)
    requires AllGood(toks) && i < |toks|
    ensures QuoteFree(TokText(toks[i]))
  {
    var t := toks[i];
    if t.Ident? || t.Value? {
      forall k | 0 <= k < |t.s|
        ensures t.s[k] != '"'
      {
        ScanAll(t.s, 0, k);
      }
    }
  }

  lemma {:induction false} ValuesPlain(toks: seq<Tok>, i: nat, sep: Sign, done: seq<string>)
    requires AllGood(toks) && i < |toks| && forall v | v in done :: QuoteFree(v)
    ensures
      var r := ValuesFrom(toks, i, sep, done);
      r.Got? ==> |r.v| > |done| && forall v | v in r.v :: QuoteFree(v)
    decreases |toks| - i
  {
    TextQuoteFree(toks, i);
    if i + 1 < |toks| && IsP(toks, i + 1, sep) {
      ValuesPlain(toks, i + 2, sep, done + [TokText(toks[i])]);
    }
  }

  lemma {:induction false} PredPlain(toks: seq<Tok>, i: nat)
    requires AllGood(toks) && i < |toks| && PredAt(toks, i).Got?
    ensures PlainPred(PredAt(toks, i).v)
  {
    assert Good(toks[i]);
    if IsWord(toks, i + 1, "in") {
      ValuesPlain(toks, i + 3, Comma, []);
    } else if OpOf(toks[i + 1]).Some? {
      ValuesPlain(toks, i + 2, Bar, []);
    }
  }

  lemma {:induction false} PredsPlain(toks: seq<Tok>, i: nat, done: seq<Pred>)
    requires AllGood(toks) && i < |toks| && PlainPreds(done)
    ensures
      var r := PredsFrom(toks, i, done);
      r.Got? ==> PlainPreds(r.v)
    decreases |toks| - i
  {
    var p := PredAt(toks, i);
    if p.Got? {
      PredPlain(toks, i);
      assert PlainPreds(done + [p.v]);
      if IsP(toks, p.i, Comma) {
        PredsPlain(toks, p.i + 1, done + [p.v]);
      }
    }
  }

  lemma {:induction false} KindsPlain(toks: seq<Tok>, i: nat, done: seq<string>)
    requires AllGood(toks) && i < |toks| && Identifiers(done)
    ensures
      var r := KindsFrom(toks, i, done);
      r.Got? ==> Identifiers(r.v) && (KindListFrom(toks, i) && AllKinds(done) ==> AllKinds(r.v))
    decreases |toks| - i
  {
    if toks[i].Ident? {
      assert Good(toks[i]);
      var more := done + [toks[i].s];
      assert Identifiers(more);
      assert IsKind(toks[i].s) && AllKinds(done) ==> AllKinds(more);
      if IsP(toks, i + 1, Bar) {
        KindsPlain(toks, i + 2, more);
      }
    }
  }

  // The first atom of a pattern: a parenthesis there opens a list of known kinds.
  ghost predicate FirstAtomAt(toks: seq<Tok>, i: nat)
    requires Ended(toks) && i < |toks|
  {
    IsP(toks, i, OpenParen) ==> KindListFrom(toks, i + 1)
  }

  lemma {:induction false} AtomKindsPlain(toks: seq<Tok>, i: nat, first: bool)
    requires AllGood(toks) && i < |toks| && (first ==> FirstAtomAt(toks, i)) && AtomKinds(toks, i).Got?
    ensures forall k | k in AtomKinds(toks, i).v :: if first then IsKind(k) else Identifier(k)
  {
    if IsP(toks, i, OpenParen) {
      KindsPlain(toks, i + 1, []);
    } else if toks[i].Ident? && IsKind(toks[i].s) {
      KindIdentifier(toks[i].s);
    }
  }

  lemma {:induction false} AtomPredsPlain(toks: seq<Tok>, i: nat)
    requires AllGood(toks) && i < |toks| && AtomPreds(toks, i).Got?
    ensures PlainPreds(AtomPreds(toks, i).v)
  {
    if IsP(toks, i, OpenList) {
      PredsPlain(toks, i + 1, []);
    }
  }

  lemma {:induction false} AtomTextsPlain(toks: seq<Tok>, i: nat)
    requires AllGood(toks) && i < |toks|
    ensures AtomId(toks, i).Got? ==> QuoteFree(AtomId(toks, i).v)
    ensures AtomText(toks, i).Got? ==> QuoteFree(AtomText(toks, i).v)
  {
    if i + 1 < |toks| {
      TextQuoteFree(toks, i + 1);
    }
  }

  lemma {:induction false} AtomPlain(toks: seq<Tok>, i: nat, first: bool)
    requires AllGood(toks) && i < |toks| && (first ==> FirstAtomAt(toks, i)) && AtomAt(toks, i).Got?
    ensures PlainAtom(AtomAt(toks, i).v, first)
  {
    var j := AtomKinds(toks, i).i;
    var k := AtomId(toks, j).i;
    var l := AtomPreds(toks, k).i;
    AtomKindsPlain(toks, i, first);
    AtomTextsPlain(toks, j);
    AtomPredsPlain(toks, k);
    AtomTextsPlain(toks, l);
  }

  ghost predicate PlainChain(atoms: seq<Atom>, hops: seq<Hop>) {
    |atoms| == |hops| + 1 && PlainAtom(atoms[0], true) && PlainAtoms(atoms[1..])
  }

  lemma {:induction false} ChainPlain(toks: seq<Tok>, i: nat, atoms: seq<Atom>, hops: seq<Hop>)
    requires AllGood(toks) && i < |toks| && PlainChain(atoms, hops)
    ensures
      var r := ChainFrom(toks, i, atoms, hops);
      r.Got? ==> PlainChain(r.v.atoms, r.v.hops)
    decreases |toks| - i
  {
    var h := HopAt(toks, i);
    if h.Got? && h.v.Some? {
      var a := AtomAt(toks, h.i);
      if a.Got? {
        AtomPlain(toks, h.i, false);
        assert (atoms + [a.v])[1..] == atoms[1..] + [a.v];
        ChainPlain(toks, a.i, atoms + [a.v], hops + [h.v.value]);
      }
    }
  }

  lemma {:induction false} AtPlain(toks: seq<Tok>, i: nat)
    requires AllGood(toks) && i < |toks| && AtSuffix(toks, i).Got?
    ensures PlainAt(AtSuffix(toks, i).v)
  {
    if IsP(toks, i, AtSign) {
      TextQuoteFree(toks, i + 1);
      if IsP(toks, i + 1, OpenList) {
        TextQuoteFree(toks, i + 2);
        TextQuoteFree(toks, i + 4);
      }
    }
  }

  lemma {:induction false} KeysPlain(toks: seq<Tok>, i: nat, done: seq<SortKey>)
    requires AllGood(toks) && i < |toks| && PlainSort(done)
    ensures
      var r := SortKeysFrom(toks, i, done);
      r.Got? ==> PlainSort(r.v)
    decreases |toks| - i
  {
    if toks[i].Ident? {
      assert Good(toks[i]);
      var desc := IsWord(toks, i + 1, "desc");
      var j := if desc || IsWord(toks, i + 1, "asc") then i + 2 else i + 1;
      if IsP(toks, j, Comma) {
        KeysPlain(toks, j + 1, done + [SortKey(toks[i].s, desc)]);
      }
    }
  }

  lemma {:induction false} SortPlain(toks: seq<Tok>, i: nat)
    requires AllGood(toks) && i < |toks| && SortSuffix(toks, i).Got?
    ensures PlainSort(SortSuffix(toks, i).v)
  {
    if IsWord(toks, i, "sort") {
      KeysPlain(toks, i + 1, []);
    }
  }

  lemma {:induction false} PatternPlain(toks: seq<Tok>, i: nat)
    requires AllGood(toks) && i < |toks| && FirstAtomAt(toks, i) && PatternAt(toks, i).Got?
    ensures Surface(PatternAt(toks, i).v)
  {
    var a := AtomAt(toks, i);
    AtomPlain(toks, i, true);
    ChainPlain(toks, a.i, [a.v], []);
    var chain := ChainFrom(toks, a.i, [a.v], []);
    AtPlain(toks, chain.i);
    SortPlain(toks, AtSuffix(toks, chain.i).i);
  }

  lemma {:induction false} ClosePlain(toks: seq<Tok>, i: nat, x: Query)
    requires AllGood(toks) && i < |toks| && Surface(x) && GroupClose(toks, i, x).Got?
    ensures Surface(GroupClose(toks, i, x).v)
  {
    AtPlain(toks, i + 1);
    SortPlain(toks, AtSuffix(toks, i + 1).i);
  }

  ghost predicate Surfaces(terms: seq<Query>) { forall t | t in terms :: Surface(t) }

  lemma {:induction false} PrimaryPlain(toks: seq<Tok>, i: nat)
    requires AllGood(toks) && i < |toks| && PrimaryAt(toks, i).Got?
    ensures Surface(PrimaryAt(toks, i).v)
    decreases |toks| - i, 1
  {
    if IsP(toks, i, AtSign) && toks[i + 1].Ident? && toks[i + 1].s != "now" {
      assert Good(toks[i + 1]);
    } else if IsP(toks, i, OpenParen) && !KindListFrom(toks, i + 1) {
      UnionPlain(toks, i + 1);
      var x := UnionAt(toks, i + 1);
      ClosePlain(toks, x.i, x.v);
    } else {
      PatternPlain(toks, i);
    }
  }

  lemma {:induction false} UnaryPlain(toks: seq<Tok>, i: nat)
    requires AllGood(toks) && i < |toks| && UnaryAt(toks, i).Got?
    ensures Surface(UnaryAt(toks, i).v)
    decreases |toks| - i, 2
  {
    if IsP(toks, i, Bang) {
      UnaryPlain(toks, i + 1);
    } else {
      PrimaryPlain(toks, i);
    }
  }

  lemma {:induction false} InterFromPlain(toks: seq<Tok>, i: nat, terms: seq<Query>)
    requires AllGood(toks) && i < |toks| && Surfaces(terms)
    ensures
      var r := InterFrom(toks, i, terms);
      r.Got? ==> Surfaces(r.v)
    decreases |toks| - i, 3
  {
    if IsP(toks, i, Amp) {
      var t := UnaryAt(toks, i + 1);
      if t.Got? {
        UnaryPlain(toks, i + 1);
        InterFromPlain(toks, t.i, terms + [t.v]);
      }
    }
  }

  lemma {:induction false} InterPlain(toks: seq<Tok>, i: nat)
    requires AllGood(toks) && i < |toks| && InterAt(toks, i).Got?
    ensures Surface(InterAt(toks, i).v)
    decreases |toks| - i, 3
  {
    var x := UnaryAt(toks, i);
    UnaryPlain(toks, i);
    InterFromPlain(toks, x.i, [x.v]);
  }

  lemma {:induction false} UnionFromPlain(toks: seq<Tok>, i: nat, terms: seq<Query>)
    requires AllGood(toks) && i < |toks| && Surfaces(terms)
    ensures
      var r := UnionFrom(toks, i, terms);
      r.Got? ==> Surfaces(r.v)
    decreases |toks| - i, 4
  {
    if IsP(toks, i, Bar) {
      var t := InterAt(toks, i + 1);
      if t.Got? {
        InterPlain(toks, i + 1);
        UnionFromPlain(toks, t.i, terms + [t.v]);
      }
    }
  }

  lemma {:induction false} UnionPlain(toks: seq<Tok>, i: nat)
    requires AllGood(toks) && i < |toks| && UnionAt(toks, i).Got?
    ensures Surface(UnionAt(toks, i).v)
    decreases |toks| - i, 5
  {
    var x := InterAt(toks, i);
    InterPlain(toks, i);
    UnionFromPlain(toks, x.i, [x.v]);
  }

  lemma ParsedIsSurface(src: string)
    requires ParseQuery(src).Ok?
    ensures Surface(ParseQuery(src).value)
  {
    var toks := Lex(src).value;
    LexIsGood(src, 0);
    forall k | 0 <= k < |toks| - 1
      ensures Good(toks[k])
    {
      LexedIsGood(toks, k);
    }
    UnionPlain(toks, 0);
  }

  // A query is what some text says exactly when it is Surface.
  lemma SayableIffSurface(q: Query)
    ensures (exists src :: ParseQuery(src) == Ok(q)) <==> Surface(q)
  {
    if src :| ParseQuery(src) == Ok(q) {
      ParsedIsSurface(src);
    }
    if Surface(q) {
      PrintThenParse(q);
    }
  }

  // Printing what was parsed and parsing that again changes nothing.
  lemma ReprintingIsStable(src: string)
    requires ParseQuery(src).Ok?
    ensures ParseQuery(Print(ParseQuery(src).value)) == ParseQuery(src)
  {
    ParsedIsSurface(src);
    PrintThenParse(ParseQuery(src).value);
  }

  // What the parser produces never trips the evaluator.
  lemma {:induction false} SurfaceIsWellFormed(q: Query)
    requires Surface(q)
    ensures WellFormed(q)
  {
    match q
    case Union(terms) =>
      forall t | t in terms
        ensures WellFormed(t)
      {
        SurfaceIsWellFormed(t);
      }
    case Inter(terms) =>
      forall t | t in terms
        ensures WellFormed(t)
      {
        SurfaceIsWellFormed(t);
      }
    case Not(x) => SurfaceIsWellFormed(x);
    case Ref(_) =>
    case Match(p) => PatternIsWellFormed(p);
    case Scoped(x, _, _) => SurfaceIsWellFormed(x);
  }

  lemma {:induction false} PatternIsWellFormed(p: Pattern)
    requires PlainPattern(p)
    ensures WellFormedPattern(p)
  {
    forall a, r | a in p.atoms && r in a.preds
      ensures r.op.In? || r.op.Has? || r.vals != []
    {
      assert PlainPreds(a.preds) by {
        var i :| 0 <= i < |p.atoms| && p.atoms[i] == a;
        assert i > 0 ==> PlainAtom(p.atoms[1..][i - 1], false);
      }
      assert PlainPred(r);
    }
  }
}
