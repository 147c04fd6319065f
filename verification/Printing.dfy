// A surface text for every query a text can say, and why the parser reads it
// back: precedence, grouping against kind alternation, hop direction and the
// reach of suffixes are all unambiguous.
module Printing {
  import opened Options
  import opened Graphs
  import opened Queries
  import opened Lexer
  import opened Grammar
  import Sorting

  // ── what a text can say ──

  predicate PlainPred(p: Pred) {
    && Identifier(p.key)
    && (forall v | v in p.vals :: QuoteFree(v))
    && match p.op
       case Has => p.vals == []
       case Eq => |p.vals| == 1
       case _ => p.vals != []
  }

  predicate PlainPreds(preds: seq<Pred>) { forall i | 0 <= i < |preds| :: PlainPred(preds[i]) }

  // The first atom of a pattern takes kinds only from the fixed list; an atom
  // after a hop takes any identifiers in parentheses.
  predicate PlainAtom(a: Atom, first: bool) {
    && !Empty(a) && QuoteFree(a.id) && QuoteFree(a.text)
    && (forall k | k in a.kinds :: if first then IsKind(k) else Identifier(k))
    && PlainPreds(a.preds)
  }

  predicate PlainAtoms(atoms: seq<Atom>) { forall i | 0 <= i < |atoms| :: PlainAtom(atoms[i], false) }

  predicate PlainAt(at: Option<Temporal>) {
    at.Some? ==>
      && QuoteFree(at.value.from) && QuoteFree(at.value.to)
      && (at.value.now ==> at.value.from == at.value.to == "")
  }

  predicate PlainSort(sort: seq<SortKey>) { forall s | s in sort :: Identifier(s.key) }

  predicate PlainPattern(p: Pattern) {
    && |p.atoms| == |p.hops| + 1 && PlainAtom(p.atoms[0], true)
    && PlainAtoms(p.atoms[1..])
    && PlainAt(p.at) && PlainSort(p.sort)
  }

  predicate Surface(q: Query) {
    match q
    case Union(terms) => |terms| >= 2 && forall t | t in terms :: Surface(t)
    case Inter(terms) => |terms| >= 2 && forall t | t in terms :: Surface(t)
    case Not(x) => Surface(x)
    case Ref(name) => Identifier(name) && name != "now"
    case Match(p) => PlainPattern(p)
    case Scoped(x, at, sort) => Surface(x) && (at.Some? || sort != []) && PlainAt(at) && PlainSort(sort)
  }

  // ── printing: the tokens of a thing, in front of the tokens `rest` ──

  function ValuesToks(vals: seq<string>, sep: Sign, rest: seq<Tok>): seq<Tok> {
    if vals == [] then rest
    else [Str(vals[0])] + if |vals| == 1 then rest else [Punct(sep)] + ValuesToks(vals[1..], sep, rest)
  }

  function ListToks(vals: seq<string>, rest: seq<Tok>): seq<Tok> {
    [Punct(OpenParen)] + ValuesToks(vals, Comma, [Punct(CloseParen)] + rest)
  }

  function OpSign(op: Op): Sign
    requires op != In && op != Has
  {
    match op
    case Ne => NotEqual case Le => NotAbove case Ge => NotBelow
    case Eq => Equals case Lt => Less case Gt => Greater
  }

  function OpToks(op: Op, vals: seq<string>, rest: seq<Tok>): seq<Tok> {
    match op
    case Has => rest
    case In => [Ident("in")] + ListToks(vals, rest)
    case _ => [Punct(OpSign(op))] + ValuesToks(vals, Bar, rest)
  }

  function PredToks(p: Pred, rest: seq<Tok>): seq<Tok> { [Ident(p.key)] + OpToks(p.op, p.vals, rest) }

  function PredsToks(preds: seq<Pred>, rest: seq<Tok>): seq<Tok> {
    if preds == [] then rest
    else
      PredToks(preds[0],
        if |preds| == 1 then [Punct(CloseList)] + rest else [Punct(Comma)] + PredsToks(preds[1..], rest))
  }

  function KindsToks(kinds: seq<string>, rest: seq<Tok>): seq<Tok> {
    if kinds == [] then rest
    else
      [Ident(kinds[0])]
      + if |kinds| == 1 then [Punct(CloseParen)] + rest else [Punct(Bar)] + KindsToks(kinds[1..], rest)
  }

  function KindPart(kinds: seq<string>, rest: seq<Tok>): seq<Tok> {
    if kinds == [] then rest else [Punct(OpenParen)] + KindsToks(kinds, rest)
  }

  function IdPart(id: Id, rest: seq<Tok>): seq<Tok> {
    if id == "" then rest else [Punct(Hash)] + ([Str(id)] + rest)
  }

  function PredPart(preds: seq<Pred>, rest: seq<Tok>): seq<Tok> {
    if preds == [] then rest else [Punct(OpenList)] + PredsToks(preds, rest)
  }

  function TextPart(text: string, rest: seq<Tok>): seq<Tok> {
    if text == "" then rest else [Punct(Tilde)] + ([Str(text)] + rest)
  }

  function AtomToks(a: Atom, rest: seq<Tok>): seq<Tok> {
    KindPart(a.kinds, IdPart(a.id, PredPart(a.preds, TextPart(a.text, rest))))
  }

  function CloseToks(h: Hop, rest: seq<Tok>): seq<Tok> {
    [Punct(if h.dir == Forward then Arrow else Dash)] + rest
  }

  function HopToks(h: Hop, rest: seq<Tok>): seq<Tok> {
    [Punct(if h.dir == Inverse then BackArrow else Dash)]
    + ([Ident(EdgeName(h.typ))] + if h.star then [Punct(Star)] + CloseToks(h, rest) else CloseToks(h, rest))
  }

  function ChainToks(atoms: seq<Atom>, hops: seq<Hop>, rest: seq<Tok>): seq<Tok> {
    if atoms == [] || hops == [] then rest
    else HopToks(hops[0], AtomToks(atoms[0], ChainToks(atoms[1..], hops[1..], rest)))
  }

  function RangeToks(from: string, to: string, rest: seq<Tok>): seq<Tok> {
    [Str(from)] + ([Punct(Comma)] + ([Str(to)] + ([Punct(CloseList)] + rest)))
  }

  function AtToks(at: Option<Temporal>, rest: seq<Tok>): seq<Tok> {
    match at
    case None => rest
    case Some(t) =>
      [Punct(AtSign)]
      + if t.now then [Ident("now")] + rest else [Punct(OpenList)] + RangeToks(t.from, t.to, rest)
  }

  function KeyToks(keys: seq<SortKey>, rest: seq<Tok>): seq<Tok> {
    if keys == [] then rest
    else
      [Ident(keys[0].key)] + ([Ident(if keys[0].desc then "desc" else "asc")]
      + if |keys| == 1 then rest else [Punct(Comma)] + KeyToks(keys[1..], rest))
  }

  function SortToks(sort: seq<SortKey>, rest: seq<Tok>): seq<Tok> {
    if sort == [] then rest else [Ident("sort")] + KeyToks(sort, rest)
  }

  function PatternToks(p: Pattern, rest: seq<Tok>): seq<Tok> {
    if p.atoms == [] then rest
    else AtomToks(p.atoms[0], ChainToks(p.atoms[1..], p.hops, AtToks(p.at, SortToks(p.sort, rest))))
  }

  // How tightly a query binds: 0 for a union, 1 for an intersection, 2 for the rest.
  function Level(q: Query): nat { if q.Union? then 0 else if q.Inter? then 1 else 2 }

  // A query as a term at a level, in parentheses only when it binds less tightly.
  function QueryToks(q: Query, level: nat, rest: seq<Tok>): seq<Tok>
    decreases q, 2
  {
    if Level(q) < level then [Punct(OpenParen)] + BodyToks(q, [Punct(CloseParen)] + rest) else BodyToks(q, rest)
  }

  function BodyToks(q: Query, rest: seq<Tok>): seq<Tok>
    decreases q, 1
  {
    match q
    case Union(terms) => if terms == [] then rest else QueryToks(terms[0], 1, TailToks(q, 1, rest))
    case Inter(terms) => if terms == [] then rest else QueryToks(terms[0], 2, TailToks(q, 1, rest))
    case Not(x) => [Punct(Bang)] + QueryToks(x, 2, rest)
    case Ref(name) => [Punct(AtSign)] + ([Ident(name)] + rest)
    case Match(p) => PatternToks(p, rest)
    case Scoped(x, at, sort) =>
      [Punct(OpenParen)] + QueryToks(x, 0, [Punct(CloseParen)] + AtToks(at, SortToks(sort, rest)))
  }

  // The terms of a union or intersection from the k-th on, each behind its sign.
  function TailToks(q: Query, k: nat, rest: seq<Tok>): seq<Tok>
    requires Level(q) < 2 && k <= |q.terms|
    decreases q, 0, |q.terms| - k
  {
    if k == |q.terms| then rest
    else [Punct(if q.Union? then Bar else Amp)] + QueryToks(q.terms[k], Level(q) + 1, TailToks(q, k + 1, rest))
  }

  function Print(q: Query): string { Spell(QueryToks(q, 0, [End])) }

  // ── tokens at the end of a text ──

  function Pos(toks: seq<Tok>, xs: seq<Tok>): nat
    requires |xs| <= |toks|
  {
    |toks| - |xs|
  }

  predicate Same(toks: seq<Tok>, xs: seq<Tok>, k: nat)
    requires |xs| <= |toks| && k < |xs|
  {
    toks[|toks| - |xs| + k] == xs[k]
  }

  predicate Ends(toks: seq<Tok>, xs: seq<Tok>) {
    |xs| <= |toks| && forall k | 0 <= k < |xs| :: Same(toks, xs, k)
  }

  lemma {:induction false} EndsCons(toks: seq<Tok>, x: Tok, xs: seq<Tok>)
    requires Ends(toks, [x] + xs)
    ensures Ends(toks, xs) && Pos(toks, [x] + xs) + 1 == Pos(toks, xs) <= |toks|
    ensures toks[Pos(toks, [x] + xs)] == x
  {
    forall k | 0 <= k < |xs|
      ensures Same(toks, xs, k)
    {
      SameCons(toks, x, xs, k);
    }
    assert Same(toks, [x] + xs, 0);
  }

  lemma {:induction false} SameCons(toks: seq<Tok>, x: Tok, xs: seq<Tok>, k: nat)
    requires Ends(toks, [x] + xs) && k < |xs|
    ensures Same(toks, xs, k)
  {
    assert Same(toks, [x] + xs, k + 1);
  }

  lemma {:induction false} EndsFirst(toks: seq<Tok>, xs: seq<Tok>)
    requires Ends(toks, xs) && xs != []
    ensures Pos(toks, xs) < |toks| && toks[Pos(toks, xs)] == xs[0]
  {
    assert Same(toks, xs, 0);
  }

  lemma {:induction false} Onward<T>(done: seq<T>, xs: seq<T>)
    requires xs != []
    ensures done + [xs[0]] + xs[1..] == done + xs
    ensures |xs| == 1 ==> done + [xs[0]] == done + xs
  {}

  lemma {:induction false} FirstAndRest<T>(xs: seq<T>)
    requires xs != []
    ensures [xs[0]] + xs[1..] == xs
  {}

  // ── predicates ──

  lemma {:induction false} ValuesRead(toks: seq<Tok>, vals: seq<string>, sep: Sign, rest: seq<Tok>, done: seq<string>)
    requires Ended(toks) && vals != [] && rest != [] && rest[0] != Punct(sep)
    requires Ends(toks, ValuesToks(vals, sep, rest))
    ensures Ends(toks, rest) && Pos(toks, ValuesToks(vals, sep, rest)) < |toks|
    ensures ValuesFrom(toks, Pos(toks, ValuesToks(vals, sep, rest)), sep, done) == Got(done + vals, Pos(toks, rest))
    decreases |vals|
  {
    if |vals| == 1 {
      EndsCons(toks, Str(vals[0]), rest);
      EndsFirst(toks, rest);
      Onward(done, vals);
    } else {
      var more := ValuesToks(vals[1..], sep, rest);
      EndsCons(toks, Str(vals[0]), [Punct(sep)] + more);
      EndsCons(toks, Punct(sep), more);
      ValuesRead(toks, vals[1..], sep, rest, done + [vals[0]]);
      Onward(done, vals);
    }
  }

  lemma {:induction false} ListRead(toks: seq<Tok>, key: string, vals: seq<string>, rest: seq<Tok>)
    requires Ended(toks) && vals != [] && rest != [] && Ends(toks, ListToks(vals, rest))
    ensures Ends(toks, rest) && Pos(toks, ListToks(vals, rest)) < |toks|
    ensures InListAt(toks, Pos(toks, ListToks(vals, rest)), key) == Got(Pred(key, In, vals), Pos(toks, rest))
  {
    var close := [Punct(CloseParen)] + rest;
    EndsCons(toks, Punct(OpenParen), ValuesToks(vals, Comma, close));
    ValuesRead(toks, vals, Comma, close, []);
    EndsCons(toks, Punct(CloseParen), rest);
    assert [] + vals == vals;
  }

  lemma {:induction false} OpSignRead(op: Op)
    requires op != In && op != Has
    ensures OpOf(Punct(OpSign(op))) == Some(op)
  {}

  lemma {:induction false} CompareRead(toks: seq<Tok>, key: string, op: Op, vals: seq<string>, rest: seq<Tok>)
    requires Ended(toks) && op != In && op != Has && vals != [] && (op == Eq ==> |vals| == 1)
    requires rest != [] && rest[0] != Punct(Bar)
    requires Ends(toks, [Ident(key)] + ([Punct(OpSign(op))] + ValuesToks(vals, Bar, rest)))
    ensures Ends(toks, rest)
    ensures PredAt(toks, Pos(toks, [Ident(key)] + ([Punct(OpSign(op))] + ValuesToks(vals, Bar, rest)))) ==
            Got(Pred(key, op, vals), Pos(toks, rest))
  {
    EndsCons(toks, Ident(key), [Punct(OpSign(op))] + ValuesToks(vals, Bar, rest));
    EndsCons(toks, Punct(OpSign(op)), ValuesToks(vals, Bar, rest));
    ValuesRead(toks, vals, Bar, rest, []);
    OpSignRead(op);
    assert [] + vals == vals;
  }

  lemma {:induction false} PredRead(toks: seq<Tok>, p: Pred, rest: seq<Tok>)
    requires Ended(toks) && PlainPred(p) && Ends(toks, PredToks(p, rest))
    requires rest != [] && (rest[0] == Punct(Comma) || rest[0] == Punct(CloseList))
    ensures Ends(toks, rest) && Pos(toks, PredToks(p, rest)) < |toks|
    ensures PredAt(toks, Pos(toks, PredToks(p, rest))) == Got(p, Pos(toks, rest))
  {
    match p.op
    case Has =>
      EndsCons(toks, Ident(p.key), rest);
      EndsFirst(toks, rest);
    case In =>
      EndsCons(toks, Ident(p.key), [Ident("in")] + ListToks(p.vals, rest));
      EndsCons(toks, Ident("in"), ListToks(p.vals, rest));
      ListRead(toks, p.key, p.vals, rest);
    case _ => CompareRead(toks, p.key, p.op, p.vals, rest);
  }

  lemma {:induction false} PredsRead(toks: seq<Tok>, preds: seq<Pred>, rest: seq<Tok>, done: seq<Pred>)
    requires Ended(toks) && preds != [] && PlainPreds(preds) && rest != []
    requires Ends(toks, PredsToks(preds, rest))
    ensures Ends(toks, rest) && Pos(toks, PredsToks(preds, rest)) < |toks|
    ensures PredsFrom(toks, Pos(toks, PredsToks(preds, rest)), done) == Got(done + preds, Pos(toks, rest))
    decreases |preds|
  {
    if |preds| == 1 {
      PredRead(toks, preds[0], [Punct(CloseList)] + rest);
      EndsCons(toks, Punct(CloseList), rest);
      Onward(done, preds);
    } else {
      var more := PredsToks(preds[1..], rest);
      PredRead(toks, preds[0], [Punct(Comma)] + more);
      EndsCons(toks, Punct(Comma), more);
      PredsRead(toks, preds[1..], rest, done + [preds[0]]);
      Onward(done, preds);
    }
  }

  // ── atoms ──

  predicate AllKinds(kinds: seq<string>) { forall i | 0 <= i < |kinds| :: IsKind(kinds[i]) }

  lemma {:induction false} KindsRead(toks: seq<Tok>, kinds: seq<string>, rest: seq<Tok>, done: seq<string>)
    requires Ended(toks) && kinds != [] && rest != [] && Ends(toks, KindsToks(kinds, rest))
    ensures Ends(toks, rest) && Pos(toks, KindsToks(kinds, rest)) < |toks|
    ensures KindsFrom(toks, Pos(toks, KindsToks(kinds, rest)), done) == Got(done + kinds, Pos(toks, rest))
    ensures AllKinds(kinds) ==> KindListFrom(toks, Pos(toks, KindsToks(kinds, rest)))
    decreases |kinds|
  {
    if |kinds| == 1 {
      EndsCons(toks, Ident(kinds[0]), [Punct(CloseParen)] + rest);
      EndsCons(toks, Punct(CloseParen), rest);
      Onward(done, kinds);
    } else {
      var more := KindsToks(kinds[1..], rest);
      EndsCons(toks, Ident(kinds[0]), [Punct(Bar)] + more);
      EndsCons(toks, Punct(Bar), more);
      KindsRead(toks, kinds[1..], rest, done + [kinds[0]]);
      Onward(done, kinds);
    }
  }

  lemma {:induction false} KindPartRead(toks: seq<Tok>, kinds: seq<string>, rest: seq<Tok>)
    requires Ended(toks) && rest != [] && Ends(toks, KindPart(kinds, rest))
    requires kinds == [] ==> rest[0] != Punct(OpenParen) && !rest[0].Ident?
    ensures Ends(toks, rest) && Pos(toks, KindPart(kinds, rest)) < |toks|
    ensures AtomKinds(toks, Pos(toks, KindPart(kinds, rest))) == Got(kinds, Pos(toks, rest))
  {
    if kinds == [] {
      EndsFirst(toks, rest);
    } else {
      EndsCons(toks, Punct(OpenParen), KindsToks(kinds, rest));
      KindsRead(toks, kinds, rest, []);
      assert [] + kinds == kinds;
    }
  }

  lemma {:induction false} IdPartRead(toks: seq<Tok>, id: Id, rest: seq<Tok>)
    requires Ended(toks) && rest != [] && Ends(toks, IdPart(id, rest))
    requires id == "" ==> rest[0] != Punct(Hash)
    ensures Ends(toks, rest) && Pos(toks, IdPart(id, rest)) < |toks|
    ensures AtomId(toks, Pos(toks, IdPart(id, rest))) == Got(id, Pos(toks, rest))
  {
    if id == "" {
      EndsFirst(toks, rest);
    } else {
      EndsCons(toks, Punct(Hash), [Str(id)] + rest);
      EndsCons(toks, Str(id), rest);
    }
  }

  lemma {:induction false} PredPartRead(toks: seq<Tok>, preds: seq<Pred>, rest: seq<Tok>)
    requires Ended(toks) && PlainPreds(preds) && rest != [] && Ends(toks, PredPart(preds, rest))
    requires preds == [] ==> rest[0] != Punct(OpenList)
    ensures Ends(toks, rest) && Pos(toks, PredPart(preds, rest)) < |toks|
    ensures AtomPreds(toks, Pos(toks, PredPart(preds, rest))) == Got(preds, Pos(toks, rest))
  {
    if preds == [] {
      EndsFirst(toks, rest);
    } else {
      EndsCons(toks, Punct(OpenList), PredsToks(preds, rest));
      PredsRead(toks, preds, rest, []);
      PredPartStep(toks, Pos(toks, PredPart(preds, rest)), Pos(toks, rest), preds);
    }
  }

  lemma {:induction false} PredPartStep(toks: seq<Tok>, i: nat, j: nat, preds: seq<Pred>)
    requires Ended(toks) && i + 1 < |toks| && toks[i] == Punct(OpenList)
    requires PredsFrom(toks, i + 1, []) == Got([] + preds, j)
    ensures AtomPreds(toks, i) == Got(preds, j)
  {
    assert [] + preds == preds;
  }

  lemma {:induction false} TextPartRead(toks: seq<Tok>, text: string, rest: seq<Tok>)
    requires Ended(toks) && rest != [] && Ends(toks, TextPart(text, rest))
    requires text == "" ==> rest[0] != Punct(Tilde)
    ensures Ends(toks, rest) && Pos(toks, TextPart(text, rest)) < |toks|
    ensures AtomText(toks, Pos(toks, TextPart(text, rest))) == Got(text, Pos(toks, rest))
  {
    if text == "" {
      EndsFirst(toks, rest);
    } else {
      EndsCons(toks, Punct(Tilde), [Str(text)] + rest);
      EndsCons(toks, Str(text), rest);
    }
  }

  // What may stand after an atom.
  predicate EndsAtom(rest: seq<Tok>) {
    rest != [] && rest[0] != Punct(Hash) && rest[0] != Punct(OpenList) && rest[0] != Punct(Tilde)
  }

  lemma {:induction false} AtomStep(toks: seq<Tok>, i: nat, j: nat, k: nat, l: nat, m: nat, a: Atom)
    requires Ended(toks) && i <= j <= k <= l <= m < |toks| && !Empty(a)
    requires AtomKinds(toks, i) == Got(a.kinds, j) && AtomId(toks, j) == Got(a.id, k)
    requires AtomPreds(toks, k) == Got(a.preds, l) && AtomText(toks, l) == Got(a.text, m)
    ensures AtomAt(toks, i) == Got(a, m)
  {}

  lemma {:induction false} AtomRead(toks: seq<Tok>, a: Atom, rest: seq<Tok>)
    requires Ended(toks) && !Empty(a) && PlainPreds(a.preds) && EndsAtom(rest) && Ends(toks, AtomToks(a, rest))
    ensures Ends(toks, rest) && Pos(toks, AtomToks(a, rest)) < |toks|
    ensures AtomAt(toks, Pos(toks, AtomToks(a, rest))) == Got(a, Pos(toks, rest))
  {
    var text := TextPart(a.text, rest);
    var preds := PredPart(a.preds, text);
    var id := IdPart(a.id, preds);
    PredPartFirst(a.preds, text);
    KindPartRead(toks, a.kinds, id);
    IdPartRead(toks, a.id, preds);
    PredPartRead(toks, a.preds, text);
    TextPartRead(toks, a.text, rest);
    AtomStep(toks, Pos(toks, AtomToks(a, rest)), Pos(toks, id), Pos(toks, preds), Pos(toks, text), Pos(toks, rest), a);
  }

  lemma {:induction false} PredPartFirst(preds: seq<Pred>, rest: seq<Tok>)
    ensures PredPart(preds, rest) != [] <==> preds != [] || rest != []
    ensures PredPart(preds, rest) != [] ==>
              PredPart(preds, rest)[0] == if preds == [] then rest[0] else Punct(OpenList)
  {}

  lemma {:induction false} AtomFirst(a: Atom, rest: seq<Tok>)
    requires !Empty(a)
    ensures AtomToks(a, rest) != []
    ensures AtomToks(a, rest)[0] in {Punct(OpenParen), Punct(Hash), Punct(OpenList), Punct(Tilde)}
    ensures AtomToks(a, rest)[0] == Punct(OpenParen) <==> a.kinds != []
  {
    PredPartFirst(a.preds, TextPart(a.text, rest));
  }

  // ── chains ──

  lemma {:induction false} EdgeNameRead(t: EdgeType)
    ensures EdgeNamed(EdgeName(t)) == Some(t)
  {}

  lemma {:induction false} HopRead(toks: seq<Tok>, h: Hop, rest: seq<Tok>)
    requires Ended(toks) && rest != [] && Ends(toks, HopToks(h, rest))
    ensures Ends(toks, rest) && Pos(toks, HopToks(h, rest)) < |toks|
    ensures HopAt(toks, Pos(toks, HopToks(h, rest))) == Got(Some(h), Pos(toks, rest))
  {
    var close := CloseToks(h, rest);
    var tail := if h.star then [Punct(Star)] + close else close;
    EndsCons(toks, Punct(if h.dir == Inverse then BackArrow else Dash), [Ident(EdgeName(h.typ))] + tail);
    EndsCons(toks, Ident(EdgeName(h.typ)), tail);
    if h.star {
      EndsCons(toks, Punct(Star), close);
    }
    EndsCons(toks, Punct(if h.dir == Forward then Arrow else Dash), rest);
    EdgeNameRead(h.typ);
  }

  // What may stand after a chain.
  predicate EndsChain(rest: seq<Tok>) {
    EndsAtom(rest) && rest[0] != Punct(Dash) && rest[0] != Punct(BackArrow)
  }

  lemma {:induction false} ChainFirst(atoms: seq<Atom>, hops: seq<Hop>, rest: seq<Tok>)
    requires EndsChain(rest)
    ensures EndsAtom(ChainToks(atoms, hops, rest))
  {}

  lemma {:induction false} ChainStep(
      toks: seq<Tok>, i: nat, j: nat, k: nat, h: Hop, a: Atom, atoms: seq<Atom>, hops: seq<Hop>)
    requires Ended(toks) && i < j < k < |toks|
    requires HopAt(toks, i) == Got(Some(h), j) && AtomAt(toks, j) == Got(a, k)
    ensures ChainFrom(toks, i, atoms, hops) == ChainFrom(toks, k, atoms + [a], hops + [h])
  {}

  lemma {:induction false} LinkRead(
      toks: seq<Tok>, h: Hop, a: Atom, rest: seq<Tok>, doneAtoms: seq<Atom>, doneHops: seq<Hop>)
    requires Ended(toks) && !Empty(a) && PlainPreds(a.preds) && EndsAtom(rest)
    requires Ends(toks, HopToks(h, AtomToks(a, rest)))
    ensures Ends(toks, rest) && Pos(toks, HopToks(h, AtomToks(a, rest))) < Pos(toks, rest) < |toks|
    ensures ChainFrom(toks, Pos(toks, HopToks(h, AtomToks(a, rest))), doneAtoms, doneHops) ==
            ChainFrom(toks, Pos(toks, rest), doneAtoms + [a], doneHops + [h])
  {
    AtomFirst(a, rest);
    HopRead(toks, h, AtomToks(a, rest));
    AtomRead(toks, a, rest);
    EndsFirst(toks, rest);
    ChainStep(toks, Pos(toks, HopToks(h, AtomToks(a, rest))), Pos(toks, AtomToks(a, rest)), Pos(toks, rest),
              h, a, doneAtoms, doneHops);
  }

  lemma {:induction false} ChainRead(
      toks: seq<Tok>, atoms: seq<Atom>, hops: seq<Hop>, rest: seq<Tok>, doneAtoms: seq<Atom>, doneHops: seq<Hop>)
    requires Ended(toks) && |atoms| == |hops| && PlainAtoms(atoms) && EndsChain(rest)
    requires Ends(toks, ChainToks(atoms, hops, rest))
    ensures Ends(toks, rest) && Pos(toks, ChainToks(atoms, hops, rest)) < |toks|
    ensures ChainFrom(toks, Pos(toks, ChainToks(atoms, hops, rest)), doneAtoms, doneHops) ==
            Got(Pattern(doneAtoms + atoms, doneHops + hops, None, []), Pos(toks, rest))
    decreases |atoms|
  {
    if atoms == [] {
      EndsFirst(toks, rest);
      assert doneAtoms + atoms == doneAtoms && doneHops + hops == doneHops;
    } else {
      assert PlainAtom(atoms[0], false);
      ChainFirst(atoms[1..], hops[1..], rest);
      LinkRead(toks, hops[0], atoms[0], ChainToks(atoms[1..], hops[1..], rest), doneAtoms, doneHops);
      ChainRead(toks, atoms[1..], hops[1..], rest, doneAtoms + [atoms[0]], doneHops + [hops[0]]);
      Onward(doneAtoms, atoms);
      Onward(doneHops, hops);
    }
  }

  // ── suffixes ──

  lemma {:induction false} RangeRead(toks: seq<Tok>, from: string, to: string, rest: seq<Tok>)
    requires Ended(toks) && rest != [] && Ends(toks, RangeToks(from, to, rest))
    ensures Ends(toks, rest) && Pos(toks, RangeToks(from, to, rest)) < |toks|
    ensures RangeAt(toks, Pos(toks, RangeToks(from, to, rest))) == Got(Temporal(false, from, to), Pos(toks, rest))
  {
    var close := [Punct(CloseList)] + rest;
    EndsCons(toks, Str(from), [Punct(Comma)] + ([Str(to)] + close));
    EndsCons(toks, Punct(Comma), [Str(to)] + close);
    EndsCons(toks, Str(to), close);
    EndsCons(toks, Punct(CloseList), rest);
  }

  lemma {:induction false} AtRead(toks: seq<Tok>, at: Option<Temporal>, rest: seq<Tok>)
    requires Ended(toks) && PlainAt(at) && rest != [] && Ends(toks, AtToks(at, rest))
    requires at == None ==> rest[0] != Punct(AtSign)
    ensures Ends(toks, rest) && Pos(toks, AtToks(at, rest)) < |toks|
    ensures AtSuffix(toks, Pos(toks, AtToks(at, rest))) == Got(at, Pos(toks, rest))
  {
    if at == None {
      EndsFirst(toks, rest);
    } else if at.value.now {
      EndsCons(toks, Punct(AtSign), [Ident("now")] + rest);
      EndsCons(toks, Ident("now"), rest);
      assert at.value == Temporal(true, "", "");
    } else {
      var range := RangeToks(at.value.from, at.value.to, rest);
      EndsCons(toks, Punct(AtSign), [Punct(OpenList)] + range);
      EndsCons(toks, Punct(OpenList), range);
      RangeRead(toks, at.value.from, at.value.to, rest);
    }
  }

  lemma {:induction false} KeysRead(toks: seq<Tok>, keys: seq<SortKey>, rest: seq<Tok>, done: seq<SortKey>)
    requires Ended(toks) && keys != [] && rest != [] && rest[0] != Punct(Comma) && Ends(toks, KeyToks(keys, rest))
    ensures Ends(toks, rest) && Pos(toks, KeyToks(keys, rest)) < |toks|
    ensures SortKeysFrom(toks, Pos(toks, KeyToks(keys, rest)), done) == Got(done + keys, Pos(toks, rest))
    decreases |keys|
  {
    var order := Ident(if keys[0].desc then "desc" else "asc");
    var key := SortKey(keys[0].key, keys[0].desc);
    if |keys| == 1 {
      EndsCons(toks, Ident(keys[0].key), [order] + rest);
      EndsCons(toks, order, rest);
      EndsFirst(toks, rest);
      Onward(done, keys);
    } else {
      var more := KeyToks(keys[1..], rest);
      EndsCons(toks, Ident(keys[0].key), [order] + ([Punct(Comma)] + more));
      EndsCons(toks, order, [Punct(Comma)] + more);
      EndsCons(toks, Punct(Comma), more);
      KeysRead(toks, keys[1..], rest, done + [key]);
      Onward(done, keys);
    }
  }

  lemma {:induction false} SortRead(toks: seq<Tok>, sort: seq<SortKey>, rest: seq<Tok>)
    requires Ended(toks) && rest != [] && rest[0] != Punct(Comma) && !rest[0].Ident? && Ends(toks, SortToks(sort, rest))
    ensures Ends(toks, rest) && Pos(toks, SortToks(sort, rest)) < |toks|
    ensures SortSuffix(toks, Pos(toks, SortToks(sort, rest))) == Got(sort, Pos(toks, rest))
  {
    if sort == [] {
      EndsFirst(toks, rest);
    } else {
      EndsCons(toks, Ident("sort"), KeyToks(sort, rest));
      KeysRead(toks, sort, rest, []);
      assert [] + sort == sort;
    }
  }

  // What may stand after a term: a joining sign, a closing parenthesis or the end.
  predicate EndsTerm(rest: seq<Tok>) {
    rest != [] && rest[0] in {End, Punct(CloseParen), Punct(Bar), Punct(Amp)}
  }

  lemma {:induction false} SuffixesRead(toks: seq<Tok>, at: Option<Temporal>, sort: seq<SortKey>, rest: seq<Tok>)
    requires Ended(toks) && PlainAt(at) && EndsTerm(rest) && Ends(toks, AtToks(at, SortToks(sort, rest)))
    ensures EndsChain(AtToks(at, SortToks(sort, rest)))
    ensures Ends(toks, rest) && Ends(toks, SortToks(sort, rest))
    ensures AtSuffix(toks, Pos(toks, AtToks(at, SortToks(sort, rest)))) == Got(at, Pos(toks, SortToks(sort, rest)))
    ensures SortSuffix(toks, Pos(toks, SortToks(sort, rest))) == Got(sort, Pos(toks, rest))
  {
    AtRead(toks, at, SortToks(sort, rest));
    SortRead(toks, sort, rest);
  }

  lemma {:induction false} SuffixesFirst(at: Option<Temporal>, sort: seq<SortKey>, rest: seq<Tok>)
    requires EndsTerm(rest)
    ensures EndsChain(AtToks(at, SortToks(sort, rest)))
  {}

  lemma {:induction false} PatternStep(toks: seq<Tok>, i: nat, j: nat, k: nat, l: nat, m: nat, p: Pattern)
    requires Ended(toks) && i < j <= k <= l <= m < |toks| && p.atoms != []
    requires AtomAt(toks, i) == Got(p.atoms[0], j)
    requires ChainFrom(toks, j, [p.atoms[0]], []) == Got(Pattern(p.atoms, p.hops, None, []), k)
    requires AtSuffix(toks, k) == Got(p.at, l) && SortSuffix(toks, l) == Got(p.sort, m)
    ensures PatternAt(toks, i) == Got(Match(p), m)
  {}

  lemma {:induction false} PatternRead(toks: seq<Tok>, p: Pattern, rest: seq<Tok>)
    requires Ended(toks) && PlainPattern(p) && EndsTerm(rest) && Ends(toks, PatternToks(p, rest))
    ensures Ends(toks, rest) && Pos(toks, PatternToks(p, rest)) < |toks|
    ensures PatternAt(toks, Pos(toks, PatternToks(p, rest))) == Got(Match(p), Pos(toks, rest))
  {
    var sort := SortToks(p.sort, rest);
    var at := AtToks(p.at, sort);
    var chain := ChainToks(p.atoms[1..], p.hops, at);
    SuffixesFirst(p.at, p.sort, rest);
    ChainFirst(p.atoms[1..], p.hops, at);
    AtomRead(toks, p.atoms[0], chain);
    ChainRead(toks, p.atoms[1..], p.hops, at, [p.atoms[0]], []);
    SuffixesRead(toks, p.at, p.sort, rest);
    FirstAndRest(p.atoms);
    assert [] + p.hops == p.hops;
    PatternStep(toks, Pos(toks, PatternToks(p, rest)), Pos(toks, chain), Pos(toks, at), Pos(toks, sort),
                Pos(toks, rest), p);
  }

  // A pattern in term position is not taken for a group.
  lemma {:induction false} PatternIsPrimary(toks: seq<Tok>, p: Pattern, rest: seq<Tok>)
    requires Ended(toks) && PlainPattern(p) && EndsTerm(rest) && Ends(toks, PatternToks(p, rest))
    ensures Pos(toks, PatternToks(p, rest)) < |toks|
    ensures toks[Pos(toks, PatternToks(p, rest))] != Punct(AtSign)
    ensures toks[Pos(toks, PatternToks(p, rest))] != Punct(Bang)
    ensures toks[Pos(toks, PatternToks(p, rest))] == Punct(OpenParen) ==>
              KindListFrom(toks, Pos(toks, PatternToks(p, rest)) + 1)
  {
    var a := p.atoms[0];
    var chain := ChainToks(p.atoms[1..], p.hops, AtToks(p.at, SortToks(p.sort, rest)));
    SuffixesFirst(p.at, p.sort, rest);
    ChainFirst(p.atoms[1..], p.hops, AtToks(p.at, SortToks(p.sort, rest)));
    AtomFirst(a, chain);
    EndsFirst(toks, AtomToks(a, chain));
    if a.kinds != [] {
      var more := IdPart(a.id, PredPart(a.preds, TextPart(a.text, chain)));
      PredPartFirst(a.preds, TextPart(a.text, chain));
      EndsCons(toks, Punct(OpenParen), KindsToks(a.kinds, more));
      KindsRead(toks, a.kinds, more, []);
      assert AllKinds(a.kinds);
    }
  }

  // ── set expressions ──

  predicate EndsUnion(rest: seq<Tok>) { rest != [] && rest[0] in {End, Punct(CloseParen)} }

  predicate EndsInter(rest: seq<Tok>) { rest != [] && rest[0] in {End, Punct(CloseParen), Punct(Bar)} }

  lemma {:induction false} QueryFirst(q: Query, level: nat, rest: seq<Tok>)
    requires Surface(q)
    ensures QueryToks(q, level, rest) != [] && !QueryToks(q, level, rest)[0].Ident?
    decreases q
  {
    if Level(q) >= level {
      match q
      case Union(terms) => QueryFirst(terms[0], 1, TailToks(q, 1, rest));
      case Inter(terms) => QueryFirst(terms[0], 2, TailToks(q, 1, rest));
      case Match(p) =>
        AtomFirst(p.atoms[0], ChainToks(p.atoms[1..], p.hops, AtToks(p.at, SortToks(p.sort, rest))));
      case _ =>
    }
  }

  lemma {:induction false} GroupStart(toks: seq<Tok>, i: nat)
    requires Ended(toks) && i + 1 < |toks| && toks[i] == Punct(OpenParen) && !toks[i + 1].Ident?
    ensures UnaryAt(toks, i) == GroupRest(toks, i + 1)
  {
    assert !KindListFrom(toks, i + 1);
  }

  // An expression behind an opening parenthesis is read as a group.
  lemma {:induction false} GroupOpens(toks: seq<Tok>, body: seq<Tok>)
    requires Ended(toks) && Ends(toks, [Punct(OpenParen)] + body) && body != [] && !body[0].Ident?
    ensures Ends(toks, body) && Pos(toks, body) < |toks|
    ensures UnaryAt(toks, Pos(toks, [Punct(OpenParen)] + body)) == GroupRest(toks, Pos(toks, body))
  {
    EndsCons(toks, Punct(OpenParen), body);
    EndsFirst(toks, body);
    GroupStart(toks, Pos(toks, [Punct(OpenParen)] + body));
  }

  ghost function GroupRest(toks: seq<Tok>, i: nat): Parsed<Query>
    requires Ended(toks) && i < |toks|
  {
    match UnionAt(toks, i)
    case Fail(why) => Fail(why)
    case Got(x, j) => GroupClose(toks, j, x)
  }

  lemma {:induction false} RefRead(toks: seq<Tok>, name: string, rest: seq<Tok>)
    requires Ended(toks) && name != "now" && Ends(toks, [Punct(AtSign)] + ([Ident(name)] + rest))
    ensures Ends(toks, rest)
    ensures UnaryAt(toks, Pos(toks, [Punct(AtSign)] + ([Ident(name)] + rest))) == Got(Ref(name), Pos(toks, rest))
  {
    EndsCons(toks, Punct(AtSign), [Ident(name)] + rest);
    EndsCons(toks, Ident(name), rest);
  }

  lemma {:induction false} MatchRead(toks: seq<Tok>, p: Pattern, rest: seq<Tok>)
    requires Ended(toks) && PlainPattern(p) && EndsTerm(rest) && Ends(toks, PatternToks(p, rest))
    ensures Ends(toks, rest) && Pos(toks, PatternToks(p, rest)) < |toks|
    ensures UnaryAt(toks, Pos(toks, PatternToks(p, rest))) == Got(Match(p), Pos(toks, rest))
  {
    PatternIsPrimary(toks, p, rest);
    PatternRead(toks, p, rest);
  }

  lemma {:induction false} TermRead(toks: seq<Tok>, q: Query, rest: seq<Tok>)
    requires Ended(toks) && Surface(q) && Level(q) == 2 && EndsTerm(rest) && Ends(toks, BodyToks(q, rest))
    ensures Ends(toks, rest) && Pos(toks, BodyToks(q, rest)) < |toks|
    ensures UnaryAt(toks, Pos(toks, BodyToks(q, rest))) == Got(q, Pos(toks, rest))
    decreases q, 1
  {
    match q
    case Not(x) => NotRead(toks, Pos(toks, BodyToks(q, rest)), x, rest);
    case Ref(name) => RefRead(toks, name, rest);
    case Match(p) => MatchRead(toks, p, rest);
    case Scoped(x, at, sort) => ScopedRead(toks, x, at, sort, rest);
  }

  lemma {:induction false} NotRead(toks: seq<Tok>, i: nat, x: Query, rest: seq<Tok>)
    requires Ended(toks) && Surface(x) && EndsTerm(rest) && Ends(toks, [Punct(Bang)] + QueryToks(x, 2, rest))
    requires i == Pos(toks, [Punct(Bang)] + QueryToks(x, 2, rest))
    ensures Ends(toks, rest) && i < |toks|
    ensures UnaryAt(toks, i) == Got(Not(x), Pos(toks, rest))
    decreases x, 7
  {
    EndsCons(toks, Punct(Bang), QueryToks(x, 2, rest));
    var j := BehindBang(toks, i + 1, x, rest);
    NotStep(toks, i, x, j);
  }

  lemma {:induction false} BehindBang(toks: seq<Tok>, i: nat, x: Query, rest: seq<Tok>) returns (j: nat)
    requires Ended(toks) && Surface(x) && EndsTerm(rest) && Ends(toks, QueryToks(x, 2, rest))
    requires i == Pos(toks, QueryToks(x, 2, rest))
    ensures Ends(toks, rest) && i < |toks| && j == Pos(toks, rest)
    ensures UnaryAt(toks, i) == Got(x, j)
    decreases x, 6
  {
    UnaryRead(toks, x, rest);
    j := Pos(toks, rest);
  }

  lemma NotStep(toks: seq<Tok>, i: nat, x: Query, j: nat)
    requires Ended(toks) && i + 1 < |toks| && IsP(toks, i, Bang) && UnaryAt(toks, i + 1) == Got(x, j)
    ensures UnaryAt(toks, i) == Got(Not(x), j)
  {}

  // The closing parenthesis of a group and the suffixes behind it.
  lemma {:induction false} CloseRead(toks: seq<Tok>, x: Query, at: Option<Temporal>, sort: seq<SortKey>, rest: seq<Tok>)
    requires Ended(toks) && PlainAt(at) && EndsTerm(rest)
    requires Ends(toks, [Punct(CloseParen)] + AtToks(at, SortToks(sort, rest)))
    ensures Ends(toks, rest)
    ensures GroupClose(toks, Pos(toks, [Punct(CloseParen)] + AtToks(at, SortToks(sort, rest))), x) ==
            Got(if at == None && sort == [] then x else Scoped(x, at, sort), Pos(toks, rest))
  {
    EndsCons(toks, Punct(CloseParen), AtToks(at, SortToks(sort, rest)));
    SuffixesRead(toks, at, sort, rest);
    CloseStep(toks, Pos(toks, [Punct(CloseParen)] + AtToks(at, SortToks(sort, rest))), x, at,
              Pos(toks, SortToks(sort, rest)), sort, Pos(toks, rest));
  }

  lemma CloseStep(toks: seq<Tok>, i: nat, x: Query, at: Option<Temporal>, j: nat, sort: seq<SortKey>, k: nat)
    requires Ended(toks) && i + 1 < |toks| && IsP(toks, i, CloseParen)
    requires AtSuffix(toks, i + 1) == Got(at, j) && j < |toks| && SortSuffix(toks, j) == Got(sort, k)
    ensures GroupClose(toks, i, x) == Got(if at == None && sort == [] then x else Scoped(x, at, sort), k)
  {}

  lemma {:induction false} ScopedRead(
      toks: seq<Tok>, x: Query, at: Option<Temporal>, sort: seq<SortKey>, rest: seq<Tok>)
    requires Ended(toks) && Surface(x) && PlainAt(at) && EndsTerm(rest)
    requires Ends(toks, [Punct(OpenParen)] + QueryToks(x, 0, [Punct(CloseParen)] + AtToks(at, SortToks(sort, rest))))
    ensures Ends(toks, rest)
    ensures
      UnaryAt(toks, Pos(toks, [Punct(OpenParen)]
                              + QueryToks(x, 0, [Punct(CloseParen)] + AtToks(at, SortToks(sort, rest))))) ==
      Got(if at == None && sort == [] then x else Scoped(x, at, sort), Pos(toks, rest))
    decreases x, 8
  {
    var close := [Punct(CloseParen)] + AtToks(at, SortToks(sort, rest));
    QueryFirst(x, 0, close);
    GroupOpens(toks, QueryToks(x, 0, close));
    UnionRead(toks, x, close);
    CloseRead(toks, x, at, sort, rest);
  }

  lemma {:induction false} GroupRead(toks: seq<Tok>, q: Query, rest: seq<Tok>)
    requires Ended(toks) && Surface(q) && Level(q) < 2 && EndsTerm(rest)
    requires Ends(toks, [Punct(OpenParen)] + BodyToks(q, [Punct(CloseParen)] + rest))
    ensures Ends(toks, rest)
    ensures UnaryAt(toks, Pos(toks, [Punct(OpenParen)] + BodyToks(q, [Punct(CloseParen)] + rest))) ==
            Got(q, Pos(toks, rest))
    decreases q, 3
  {
    var close := [Punct(CloseParen)] + rest;
    QueryFirst(q, 0, close);
    GroupOpens(toks, BodyToks(q, close));
    BodyRead(toks, q, close);
    CloseRead(toks, q, None, [], rest);
  }

  lemma {:induction false} UnaryRead(toks: seq<Tok>, q: Query, rest: seq<Tok>)
    requires Ended(toks) && Surface(q) && EndsTerm(rest) && Ends(toks, QueryToks(q, 2, rest))
    ensures Ends(toks, rest) && Pos(toks, QueryToks(q, 2, rest)) < |toks|
    ensures UnaryAt(toks, Pos(toks, QueryToks(q, 2, rest))) == Got(q, Pos(toks, rest))
    decreases q, 4
  {
    if Level(q) == 2 {
      TermRead(toks, q, rest);
    } else {
      GroupRead(toks, q, rest);
    }
  }

  lemma {:induction false} InterRead(toks: seq<Tok>, q: Query, rest: seq<Tok>)
    requires Ended(toks) && Surface(q) && EndsInter(rest) && Ends(toks, QueryToks(q, 1, rest))
    ensures Ends(toks, rest) && Pos(toks, QueryToks(q, 1, rest)) < |toks|
    ensures InterAt(toks, Pos(toks, QueryToks(q, 1, rest))) == Got(q, Pos(toks, rest))
    decreases q, 5
  {
    if q.Inter? {
      InterBodyRead(toks, q, rest);
    } else {
      UnaryRead(toks, q, rest);
      EndsFirst(toks, rest);
    }
  }

  lemma {:induction false} UnionRead(toks: seq<Tok>, q: Query, rest: seq<Tok>)
    requires Ended(toks) && Surface(q) && EndsUnion(rest) && Ends(toks, QueryToks(q, 0, rest))
    ensures Ends(toks, rest) && Pos(toks, QueryToks(q, 0, rest)) < |toks|
    ensures UnionAt(toks, Pos(toks, QueryToks(q, 0, rest))) == Got(q, Pos(toks, rest))
    decreases q, 6
  {
    if Level(q) < 2 {
      BodyRead(toks, q, rest);
    } else {
      InterRead(toks, q, rest);
      EndsFirst(toks, rest);
    }
  }

  lemma {:induction false} BodyRead(toks: seq<Tok>, q: Query, rest: seq<Tok>)
    requires Ended(toks) && Surface(q) && Level(q) < 2 && EndsUnion(rest) && Ends(toks, BodyToks(q, rest))
    ensures Ends(toks, rest) && Pos(toks, BodyToks(q, rest)) < |toks|
    ensures UnionAt(toks, Pos(toks, BodyToks(q, rest))) == Got(q, Pos(toks, rest))
    decreases q, 2
  {
    if q.Union? {
      UnionBodyRead(toks, q, rest);
    } else {
      InterBodyRead(toks, q, rest);
      EndsFirst(toks, rest);
    }
  }

  lemma {:induction false} InterTailFirst(q: Query, k: nat, rest: seq<Tok>)
    requires q.Inter? && k <= |q.terms| && EndsInter(rest)
    ensures EndsTerm(TailToks(q, k, rest))
  {}

  lemma {:induction false} InterJoined(toks: seq<Tok>, i: nat, j: nat, terms: seq<Query>, t: Query)
    requires Ended(toks) && i + 1 < |toks| && j < |toks| && toks[i] == Punct(Amp) && UnaryAt(toks, i + 1) == Got(t, j)
    ensures InterFrom(toks, i, terms) == InterFrom(toks, j, terms + [t])
  {}

  lemma {:induction false} InterNext(toks: seq<Tok>, i: nat, terms: seq<Query>, t: Query, more: seq<Tok>)
    requires Ended(toks) && Surface(t) && EndsTerm(more) && Ends(toks, QueryToks(t, 2, more))
    requires i + 1 == Pos(toks, QueryToks(t, 2, more)) && toks[i] == Punct(Amp)
    ensures Ends(toks, more) && i < Pos(toks, more) < |toks|
    ensures InterFrom(toks, i, terms) == InterFrom(toks, Pos(toks, more), terms + [t])
    decreases t, 7
  {
    UnaryRead(toks, t, more);
    EndsFirst(toks, more);
    InterJoined(toks, i, Pos(toks, more), terms, t);
  }

  lemma {:induction false} InterTermsRead(toks: seq<Tok>, q: Query, k: nat, rest: seq<Tok>)
    requires Ended(toks) && Surface(q) && q.Inter? && 0 < k <= |q.terms| && EndsInter(rest)
    requires Ends(toks, TailToks(q, k, rest))
    ensures Ends(toks, rest) && Pos(toks, TailToks(q, k, rest)) < |toks|
    ensures InterFrom(toks, Pos(toks, TailToks(q, k, rest)), q.terms[..k]) == Got(q.terms, Pos(toks, rest))
    decreases q, 0, |q.terms| - k
  {
    if k == |q.terms| {
      EndsFirst(toks, rest);
      assert q.terms[..k] == q.terms;
    } else {
      InterTailFirst(q, k + 1, rest);
      EndsCons(toks, Punct(Amp), QueryToks(q.terms[k], 2, TailToks(q, k + 1, rest)));
      InterNext(toks, Pos(toks, TailToks(q, k, rest)), q.terms[..k], q.terms[k], TailToks(q, k + 1, rest));
      InterTermsRead(toks, q, k + 1, rest);
      Sorting.TakeNext(q.terms, k);
    }
  }

  lemma {:induction false} InterBodyRead(toks: seq<Tok>, q: Query, rest: seq<Tok>)
    requires Ended(toks) && Surface(q) && q.Inter? && EndsInter(rest) && Ends(toks, BodyToks(q, rest))
    ensures Ends(toks, rest) && Pos(toks, BodyToks(q, rest)) < |toks|
    ensures InterAt(toks, Pos(toks, BodyToks(q, rest))) == Got(q, Pos(toks, rest))
    decreases q, 1
  {
    InterTailFirst(q, 1, rest);
    UnaryRead(toks, q.terms[0], TailToks(q, 1, rest));
    InterTermsRead(toks, q, 1, rest);
    assert q.terms[..1] == [q.terms[0]];
  }

  lemma {:induction false} UnionTailFirst(q: Query, k: nat, rest: seq<Tok>)
    requires q.Union? && k <= |q.terms| && EndsUnion(rest)
    ensures EndsInter(TailToks(q, k, rest))
  {}

  lemma {:induction false} UnionJoined(toks: seq<Tok>, i: nat, j: nat, terms: seq<Query>, t: Query)
    requires Ended(toks) && i + 1 < |toks| && j < |toks| && toks[i] == Punct(Bar) && InterAt(toks, i + 1) == Got(t, j)
    ensures UnionFrom(toks, i, terms) == UnionFrom(toks, j, terms + [t])
  {}

  lemma {:induction false} UnionNext(toks: seq<Tok>, i: nat, terms: seq<Query>, t: Query, more: seq<Tok>)
    requires Ended(toks) && Surface(t) && EndsInter(more) && Ends(toks, QueryToks(t, 1, more))
    requires i + 1 == Pos(toks, QueryToks(t, 1, more)) && toks[i] == Punct(Bar)
    ensures Ends(toks, more) && i < Pos(toks, more) < |toks|
    ensures UnionFrom(toks, i, terms) == UnionFrom(toks, Pos(toks, more), terms + [t])
    decreases t, 7
  {
    InterRead(toks, t, more);
    EndsFirst(toks, more);
    UnionJoined(toks, i, Pos(toks, more), terms, t);
  }

  lemma {:induction false} UnionTermsRead(toks: seq<Tok>, q: Query, k: nat, rest: seq<Tok>)
    requires Ended(toks) && Surface(q) && q.Union? && 0 < k <= |q.terms| && EndsUnion(rest)
    requires Ends(toks, TailToks(q, k, rest))
    ensures Ends(toks, rest) && Pos(toks, TailToks(q, k, rest)) < |toks|
    ensures UnionFrom(toks, Pos(toks, TailToks(q, k, rest)), q.terms[..k]) == Got(q.terms, Pos(toks, rest))
    decreases q, 0, |q.terms| - k
  {
    if k == |q.terms| {
      EndsFirst(toks, rest);
      assert q.terms[..k] == q.terms;
    } else {
      UnionTailFirst(q, k + 1, rest);
      EndsCons(toks, Punct(Bar), QueryToks(q.terms[k], 1, TailToks(q, k + 1, rest)));
      UnionNext(toks, Pos(toks, TailToks(q, k, rest)), q.terms[..k], q.terms[k], TailToks(q, k + 1, rest));
      UnionTermsRead(toks, q, k + 1, rest);
      Sorting.TakeNext(q.terms, k);
    }
  }

  lemma {:induction false} UnionBodyRead(toks: seq<Tok>, q: Query, rest: seq<Tok>)
    requires Ended(toks) && Surface(q) && q.Union? && EndsUnion(rest) && Ends(toks, BodyToks(q, rest))
    ensures Ends(toks, rest) && Pos(toks, BodyToks(q, rest)) < |toks|
    ensures UnionAt(toks, Pos(toks, BodyToks(q, rest))) == Got(q, Pos(toks, rest))
    decreases q, 1
  {
    UnionTailFirst(q, 1, rest);
    InterRead(toks, q.terms[0], TailToks(q, 1, rest));
    UnionTermsRead(toks, q, 1, rest);
    assert q.terms[..1] == [q.terms[0]];
  }
}
