// The parser as it runs: one cursor over the tokens, which every method moves.
// Each method returns what the grammar reads at the cursor and leaves the cursor
// where the grammar says.
module Parser {
  import opened Options
  import opened Graphs
  import opened Queries
  import opened Lexer
  import opened Grammar

  class Cursor {
    const toks: seq<Tok>
    var i: nat

    constructor (toks: seq<Tok>)
      ensures this.toks == toks && i == 0
    {
      this.toks := toks;
      i := 0;
    }

    ghost predicate Ready()
      reads this
    {
      Ended(toks) && i < |toks|
    }

    // The result and the cursor are what the grammar read.
    ghost predicate Did<T>(r: Result<T, Failure>, read: Parsed<T>)
      reads this
    {
      match read
      case Got(v, j) => r == Ok(v) && i == j
      case Fail(why) => r == Err(why)
    }

    method Accept(sign: Sign) returns (b: bool)
      requires Ready()
      modifies this`i
      ensures b == IsP(toks, old(i), sign)
      ensures i == old(i) + (if b then 1 else 0) && Ready()
    {
      b := IsP(toks, i, sign);
      if b {
        i := i + 1;
      }
    }

    // ── predicates ──

    method Values(sep: Sign) returns (r: Result<seq<string>, Failure>)
      requires Ready()
      modifies this`i
      ensures Did(r, ValuesFrom(toks, old(i), sep, []))
    {
      var vals: seq<string> := [];
      while true
        invariant Ready()
        invariant ValuesFrom(toks, i, sep, vals) == ValuesFrom(toks, old(i), sep, [])
        decreases |toks| - i
      {
        vals := vals + [TokText(toks[i])];
        i := i + 1;
        if i == |toks| {
          return Err(PastEnd);
        }
        var more := Accept(sep);
        if !more {
          return Ok(vals);
        }
      }
    }

    method InList(key: string) returns (r: Result<Pred, Failure>)
      requires Ready()
      modifies this`i
      ensures Did(r, InListAt(toks, old(i), key))
    {
      var open := Accept(OpenParen);
      if !open {
        return Err(Expected(OpenParen));
      }
      var vals := Values(Comma);
      if vals.Err? {
        return Err(vals.error);
      }
      var close := Accept(CloseParen);
      if !close {
        return Err(Expected(CloseParen));
      }
      r := Ok(Pred(key, In, vals.value));
    }

    method Predicate() returns (r: Result<Pred, Failure>)
      requires Ready()
      modifies this`i
      ensures Did(r, PredAt(toks, old(i)))
    {
      if !toks[i].Ident? {
        return Err(ExpectedField);
      }
      var key := toks[i].s;
      i := i + 1;
      if IsWord(toks, i, "in") {
        i := i + 1;
        r := InList(key);
        return;
      }
      var op := OpOf(toks[i]);
      if op.None? {
        return Ok(Pred(key, Has, []));
      }
      i := i + 1;
      var vals := Values(Bar);
      if vals.Err? {
        return Err(vals.error);
      }
      r := Ok(Pred(key, if |vals.value| > 1 && op.value == Eq then In else op.value, vals.value));
    }

    // ── atoms ──

    method Kinds() returns (r: Result<seq<string>, Failure>)
      requires Ready()
      modifies this`i
      ensures Did(r, AtomKinds(toks, old(i)))
    {
      var open := Accept(OpenParen);
      if !open {
        if toks[i].Ident? && IsKind(toks[i].s) {
          i := i + 1;
          return Ok([toks[i - 1].s]);
        }
        return Ok([]);
      }
      var kinds: seq<string> := [];
      while true
        invariant Ready()
        invariant KindsFrom(toks, i, kinds) == AtomKinds(toks, old(i))
        decreases |toks| - i
      {
        if !toks[i].Ident? {
          return Err(ExpectedKind);
        }
        kinds := kinds + [toks[i].s];
        i := i + 1;
        var more := Accept(Bar);
        if !more {
          break;
        }
      }
      var close := Accept(CloseParen);
      if !close {
        return Err(Expected(CloseParen));
      }
      r := Ok(kinds);
    }

    method IdRef() returns (r: Result<Id, Failure>)
      requires Ready()
      modifies this`i
      ensures Did(r, AtomId(toks, old(i)))
    {
      var hash := Accept(Hash);
      if !hash {
        return Ok("");
      }
      if !toks[i].Ident? && !toks[i].Value? && !toks[i].Str? {
        return Err(ExpectedId);
      }
      i := i + 1;
      r := Ok(toks[i - 1].s);
    }

    method Predicates() returns (r: Result<seq<Pred>, Failure>)
      requires Ready()
      modifies this`i
      ensures Did(r, AtomPreds(toks, old(i)))
    {
      var open := Accept(OpenList);
      if !open {
        return Ok([]);
      }
      var preds: seq<Pred> := [];
      while true
        invariant Ready()
        invariant PredsFrom(toks, i, preds) == AtomPreds(toks, old(i))
        decreases |toks| - i
      {
        var p := Predicate();
        if p.Err? {
          return Err(p.error);
        }
        preds := preds + [p.value];
        var more := Accept(Comma);
        if !more {
          break;
        }
      }
      var close := Accept(CloseList);
      if !close {
        return Err(Expected(CloseList));
      }
      r := Ok(preds);
    }

    method FullText() returns (r: Result<string, Failure>)
      requires Ready()
      modifies this`i
      ensures Did(r, AtomText(toks, old(i)))
    {
      var tilde := Accept(Tilde);
      if !tilde {
        return Ok("");
      }
      if !toks[i].Str? {
        return Err(ExpectedText);
      }
      i := i + 1;
      r := Ok(toks[i - 1].s);
    }

    method ReadAtom() returns (r: Result<Atom, Failure>)
      requires Ready()
      modifies this`i
      ensures Did(r, AtomAt(toks, old(i)))
    {
      var kinds := Kinds();
      if kinds.Err? {
        return Err(kinds.error);
      }
      var id := IdRef();
      if id.Err? {
        return Err(id.error);
      }
      var preds := Predicates();
      if preds.Err? {
        return Err(preds.error);
      }
      var text := FullText();
      if text.Err? {
        return Err(text.error);
      }
      var a := Atom(kinds.value, id.value, preds.value, text.value);
      if Empty(a) {
        return Err(EmptyAtom);
      }
      r := Ok(a);
    }

    // ── hops and suffixes ──

    method ReadHop() returns (r: Result<Option<Hop>, Failure>)
      requires Ready()
      modifies this`i
      ensures Did(r, HopAt(toks, old(i)))
    {
      var inverse := Accept(BackArrow);
      if !inverse {
        var dash := Accept(Dash);
        if !dash {
          return Ok(None);
        }
      }
      if !toks[i].Ident? {
        return Err(ExpectedEdgeType);
      }
      var typ := EdgeNamed(toks[i].s);
      i := i + 1;
      if typ.None? {
        return Err(UnknownEdgeType);
      }
      var star := Accept(Star);
      var arrow := Accept(Arrow);
      if arrow {
        if inverse {
          return Err(NotADirection);
        }
        return Ok(Some(Hop(typ.value, Forward, star)));
      }
      var dash := Accept(Dash);
      if !dash {
        return Err(UnterminatedHop);
      }
      r := Ok(Some(Hop(typ.value, if inverse then Inverse else Undirected, star)));
    }

    method Range() returns (r: Result<Temporal, Failure>)
      requires Ready()
      modifies this`i
      ensures Did(r, RangeAt(toks, old(i)))
    {
      var from := TokText(toks[i]);
      i := i + 1;
      if i == |toks| {
        return Err(PastEnd);
      }
      var comma := Accept(Comma);
      if !comma {
        return Err(Expected(Comma));
      }
      var to := TokText(toks[i]);
      i := i + 1;
      if i == |toks| {
        return Err(PastEnd);
      }
      var close := Accept(CloseList);
      if !close {
        return Err(Expected(CloseList));
      }
      r := Ok(Temporal(false, from, to));
    }

    method ReadTemporal() returns (r: Result<Temporal, Failure>)
      requires Ready()
      modifies this`i
      ensures Did(r, TemporalAt(toks, old(i)))
    {
      if IsWord(toks, i, "now") {
        i := i + 1;
        return Ok(Temporal(true, "", ""));
      }
      var open := Accept(OpenList);
      if open {
        r := Range();
        return;
      }
      if !toks[i].Value? {
        return Err(ExpectedDate);
      }
      i := i + 1;
      r := Ok(Temporal(false, toks[i - 1].s, toks[i - 1].s));
    }

    method SortKeys() returns (r: Result<seq<SortKey>, Failure>)
      requires Ready()
      modifies this`i
      ensures Did(r, SortKeysFrom(toks, old(i), []))
    {
      var keys: seq<SortKey> := [];
      while true
        invariant Ready()
        invariant SortKeysFrom(toks, i, keys) == SortKeysFrom(toks, old(i), [])
        decreases |toks| - i
      {
        if !toks[i].Ident? {
          return Err(ExpectedSortField);
        }
        var key := SortKey(toks[i].s, false);
        i := i + 1;
        if IsWord(toks, i, "desc") {
          key := key.(desc := true);
          i := i + 1;
        } else if IsWord(toks, i, "asc") {
          i := i + 1;
        }
        keys := keys + [key];
        var more := Accept(Comma);
        if !more {
          return Ok(keys);
        }
      }
    }

    // The suffixes a pattern or a group may carry.
    method Suffixes() returns (r: Result<(Option<Temporal>, seq<SortKey>), Failure>)
      requires Ready()
      modifies this`i
      ensures Did(r, SuffixesAt(toks, old(i)))
    {
      var at: Option<Temporal>, sort: seq<SortKey> := None, [];
      var sign := Accept(AtSign);
      if sign {
        var t := ReadTemporal();
        if t.Err? {
          return Err(t.error);
        }
        at := Some(t.value);
      }
      if IsWord(toks, i, "sort") {
        i := i + 1;
        var keys := SortKeys();
        if keys.Err? {
          return Err(keys.error);
        }
        sort := keys.value;
      }
      r := Ok((at, sort));
    }

    method Chain(first: Atom) returns (r: Result<Pattern, Failure>)
      requires Ready()
      modifies this`i
      ensures Did(r, ChainFrom(toks, old(i), [first], []))
    {
      var atoms, hops: seq<Hop> := [first], [];
      while true
        invariant Ready()
        invariant ChainFrom(toks, i, atoms, hops) == ChainFrom(toks, old(i), [first], [])
        decreases |toks| - i
      {
        var h := ReadHop();
        if h.Err? {
          return Err(h.error);
        }
        if h.value.None? {
          return Ok(Pattern(atoms, hops, None, []));
        }
        var next := ReadAtom();
        if next.Err? {
          return Err(next.error);
        }
        hops := hops + [h.value.value];
        atoms := atoms + [next.value];
      }
    }

    method ReadPattern() returns (r: Result<Query, Failure>)
      requires Ready()
      modifies this`i
      ensures Did(r, PatternAt(toks, old(i)))
    {
      var a := ReadAtom();
      if a.Err? {
        return Err(a.error);
      }
      var chain := Chain(a.value);
      if chain.Err? {
        return Err(chain.error);
      }
      var suffixes := Suffixes();
      if suffixes.Err? {
        return Err(suffixes.error);
      }
      r := Ok(Match(chain.value.(at := suffixes.value.0, sort := suffixes.value.1)));
    }

    // ── set expressions ──

    // Look ahead, without moving the cursor, for kind names joined by bars.
    method LooksLikeKindList() returns (b: bool)
      requires Ready() && i + 1 < |toks|
      ensures b == KindListFrom(toks, i + 1)
    {
      var j := i + 1;
      while true
        invariant i < j < |toks|
        invariant KindListFrom(toks, j) == KindListFrom(toks, i + 1)
        decreases |toks| - j
      {
        if !toks[j].Ident? || !IsKind(toks[j].s) {
          return false;
        }
        j := j + 1;
        if toks[j] != Punct(Bar) {
          return toks[j] == Punct(CloseParen);
        }
        j := j + 1;
      }
    }

    method ReadGroup() returns (r: Result<Query, Failure>)
      requires Ready() && IsP(toks, i, OpenParen)
      modifies this`i
      ensures Did(r, match UnionAt(toks, old(i) + 1) {
                       case Fail(why) => Fail(why)
                       case Got(x, j) => GroupClose(toks, j, x)
                     })
      decreases |toks| - i, 0
    {
      i := i + 1;
      var q := ReadUnion();
      if q.Err? {
        return Err(q.error);
      }
      var close := Accept(CloseParen);
      if !close {
        return Err(Expected(CloseParen));
      }
      var suffixes := Suffixes();
      if suffixes.Err? {
        return Err(suffixes.error);
      }
      var (at, sort) := suffixes.value;
      r := Ok(if at == None && sort == [] then q.value else Scoped(q.value, at, sort));
    }

    method ReadPrimary() returns (r: Result<Query, Failure>)
      requires Ready()
      modifies this`i
      ensures Did(r, PrimaryAt(toks, old(i)))
      decreases |toks| - i, 1
    {
      if IsP(toks, i, AtSign) && toks[i + 1].Ident? && toks[i + 1].s != "now" {
        i := i + 2;
        return Ok(Ref(toks[i - 1].s));
      }
      if IsP(toks, i, OpenParen) {
        var kinds := LooksLikeKindList();
        if !kinds {
          r := ReadGroup();
          return;
        }
      }
      r := ReadPattern();
    }

    method ReadUnary() returns (r: Result<Query, Failure>)
      requires Ready()
      modifies this`i
      ensures Did(r, UnaryAt(toks, old(i)))
      decreases |toks| - i, 2
    {
      var bang := Accept(Bang);
      if bang {
        var x := ReadUnary();
        if x.Err? {
          return x;
        }
        return Ok(Not(x.value));
      }
      r := ReadPrimary();
    }

    method ReadInter() returns (r: Result<Query, Failure>)
      requires Ready()
      modifies this`i
      ensures Did(r, InterAt(toks, old(i)))
      decreases |toks| - i, 3
    {
      var first := ReadUnary();
      if first.Err? {
        return first;
      }
      var terms := [first.value];
      ghost var start := i;
      var more := Accept(Amp);
      while more
        invariant Ready() && old(i) < i
        invariant more ==> InterFrom(toks, i - 1, terms) == InterFrom(toks, start, [first.value])
        invariant more ==> IsP(toks, i - 1, Amp)
        invariant !more ==> InterFrom(toks, start, [first.value]) == Got(terms, i)
        decreases |toks| - i, more
      {
        var t := ReadUnary();
        if t.Err? {
          return t;
        }
        terms := terms + [t.value];
        more := Accept(Amp);
      }
      r := Ok(if |terms| == 1 then first.value else Inter(terms));
    }

    method ReadUnion() returns (r: Result<Query, Failure>)
      requires Ready()
      modifies this`i
      ensures Did(r, UnionAt(toks, old(i)))
      decreases |toks| - i, 4
    {
      var first := ReadInter();
      if first.Err? {
        return first;
      }
      var terms := [first.value];
      ghost var start := i;
      var more := Accept(Bar);
      while more
        invariant Ready() && old(i) < i
        invariant more ==> UnionFrom(toks, i - 1, terms) == UnionFrom(toks, start, [first.value])
        invariant more ==> IsP(toks, i - 1, Bar)
        invariant !more ==> UnionFrom(toks, start, [first.value]) == Got(terms, i)
        decreases |toks| - i, more
      {
        var t := ReadInter();
        if t.Err? {
          return t;
        }
        terms := terms + [t.value];
        more := Accept(Bar);
      }
      r := Ok(if |terms| == 1 then first.value else Union(terms));
    }
  }

  method Read(src: string) returns (r: Result<Query, QueryError>)
    ensures r == ParseQuery(src)
  {
    var toks := LexAll(src);
    if toks.Err? {
      return Err(NotLexed(toks.error));
    }
    var p := new Cursor(toks.value);
    var q := p.ReadUnion();
    if q.Err? {
      return Err(NotParsed(q.error));
    }
    if p.toks[p.i] != End {
      return Err(NotParsed(Unexpected));
    }
    r := Ok(q.value);
  }
}
