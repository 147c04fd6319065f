// What the recursive-descent parser reads at each position of a token sequence.
// A cursor that steps over the end mark has no token left to look at: that is
// the failure PastEnd.
module Grammar {
  import opened Options
  import opened Graphs
  import opened Queries
  import opened Lexer
  import opened Matching

  datatype Failure =
    | PastEnd | Unexpected | Expected(sign: Sign)
    | ExpectedEdgeType | UnknownEdgeType | NotADirection | UnterminatedHop
    | ExpectedKind | ExpectedId | ExpectedText | EmptyAtom
    | ExpectedField | ExpectedDate | ExpectedSortField

  datatype Parsed<+T> = Got(v: T, i: nat) | Fail(why: Failure)

  predicate IsP(toks: seq<Tok>, i: nat, sign: Sign)
    requires i < |toks|
  {
    toks[i] == Punct(sign)
  }

  predicate IsWord(toks: seq<Tok>, i: nat, word: string)
    requires i < |toks|
  {
    toks[i] == Ident(word)
  }

  function TokText(t: Tok): string {
    match t
    case Punct(sign) => SignText(sign)
    case End => ""
    case _ => t.s
  }

  // ── names ──

  predicate IsKind(s: string) {
    || s == KindName(Claim) || s == KindName(Question) || s == KindName(Group) || s == KindName(Entity)
    || s == KindName(Event) || s == KindName(Action) || s == KindName(Source)
  }

  function EdgeName(t: EdgeType): string {
    match t
    case Causes => "causes" case Implies => "implies" case Requires => "requires"
    case Prohibits => "prohibits" case Supports => "supports" case Contradicts => "contradicts"
    case Answers => "answers" case Supersedes => "supersedes" case MemberOf => "member_of"
    case About => "about" case Attests => "attests" case DerivedFrom => "derived_from"
  }

  function EdgeNamed(s: string): Option<EdgeType> {
    if s == "causes" then Some(Causes) else if s == "implies" then Some(Implies)
    else if s == "requires" then Some(Requires) else if s == "prohibits" then Some(Prohibits)
    else if s == "supports" then Some(Supports) else if s == "contradicts" then Some(Contradicts)
    else if s == "answers" then Some(Answers) else if s == "supersedes" then Some(Supersedes)
    else if s == "member_of" then Some(MemberOf) else if s == "about" then Some(About)
    else if s == "attests" then Some(Attests) else if s == "derived_from" then Some(DerivedFrom)
    else None
  }

  // ── predicates ──

  // One value after another, whatever tokens they are, as long as `sep` follows.
  function ValuesFrom(toks: seq<Tok>, i: nat, sep: Sign, vals: seq<string>): (r: Parsed<seq<string>>)
    requires Ended(toks) && i < |toks|
    ensures r.Got? ==> i < r.i < |toks|
    decreases |toks| - i
  {
    var more := vals + [TokText(toks[i])];
    if i + 1 == |toks| then Fail(PastEnd)
    else if IsP(toks, i + 1, sep) then ValuesFrom(toks, i + 2, sep, more)
    else Got(more, i + 1)
  }

  function OpOf(t: Tok): Option<Op> {
    match t
    case Punct(NotEqual) => Some(Ne) case Punct(NotAbove) => Some(Le) case Punct(NotBelow) => Some(Ge)
    case Punct(Equals) => Some(Eq) case Punct(Less) => Some(Lt) case Punct(Greater) => Some(Gt)
    case _ => None
  }

  function InListAt(toks: seq<Tok>, i: nat, key: string): (r: Parsed<Pred>)
    requires Ended(toks) && i < |toks|
    ensures r.Got? ==> i < r.i < |toks|
  {
    if !IsP(toks, i, OpenParen) then Fail(Expected(OpenParen))
    else
      match ValuesFrom(toks, i + 1, Comma, [])
      case Fail(why) => Fail(why)
      case Got(vals, j) =>
        if IsP(toks, j, CloseParen) then Got(Pred(key, In, vals), j + 1) else Fail(Expected(CloseParen))
  }

  function CompareAt(toks: seq<Tok>, i: nat, key: string, op: Op): (r: Parsed<Pred>)
    requires Ended(toks) && i < |toks|
    ensures r.Got? ==> i < r.i < |toks|
  {
    match ValuesFrom(toks, i, Bar, [])
    case Fail(why) => Fail(why)
    case Got(vals, j) => Got(Pred(key, if |vals| > 1 && op == Eq then In else op, vals), j)
  }

  function PredAt(toks: seq<Tok>, i: nat): (r: Parsed<Pred>)
    requires Ended(toks) && i < |toks|
    ensures r.Got? ==> i < r.i < |toks|
  {
    if !toks[i].Ident? then Fail(ExpectedField)
    else if IsWord(toks, i + 1, "in") then InListAt(toks, i + 2, toks[i].s)
    else
      match OpOf(toks[i + 1])
      case Some(op) => CompareAt(toks, i + 2, toks[i].s, op)
      case None => Got(Pred(toks[i].s, Has, []), i + 1)
  }

  // ── atoms ──

  function KindsFrom(toks: seq<Tok>, i: nat, kinds: seq<string>): (r: Parsed<seq<string>>)
    requires Ended(toks) && i < |toks|
    ensures r.Got? ==> i < r.i < |toks|
    decreases |toks| - i
  {
    if !toks[i].Ident? then Fail(ExpectedKind)
    else if IsP(toks, i + 1, Bar) then KindsFrom(toks, i + 2, kinds + [toks[i].s])
    else if IsP(toks, i + 1, CloseParen) then Got(kinds + [toks[i].s], i + 2)
    else Fail(Expected(CloseParen))
  }

  function AtomKinds(toks: seq<Tok>, i: nat): (r: Parsed<seq<string>>)
    requires Ended(toks) && i < |toks|
    ensures r.Got? ==> i <= r.i < |toks|
    ensures r.Got? && r.v != [] ==> i < r.i
  {
    if IsP(toks, i, OpenParen) then KindsFrom(toks, i + 1, [])
    else if toks[i].Ident? && IsKind(toks[i].s) then Got([toks[i].s], i + 1)
    else Got([], i)
  }

  function AtomId(toks: seq<Tok>, i: nat): (r: Parsed<string>)
    requires Ended(toks) && i < |toks|
    ensures r.Got? ==> i <= r.i < |toks|
    ensures r.Got? && r.v != "" ==> i < r.i
  {
    if !IsP(toks, i, Hash) then Got("", i)
    else if toks[i + 1].Ident? || toks[i + 1].Value? || toks[i + 1].Str? then Got(toks[i + 1].s, i + 2)
    else Fail(ExpectedId)
  }

  function PredsFrom(toks: seq<Tok>, i: nat, preds: seq<Pred>): (r: Parsed<seq<Pred>>)
    requires Ended(toks) && i < |toks|
    ensures r.Got? ==> i < r.i < |toks|
    decreases |toks| - i
  {
    match PredAt(toks, i)
    case Fail(why) => Fail(why)
    case Got(p, j) =>
      if IsP(toks, j, Comma) then PredsFrom(toks, j + 1, preds + [p])
      else if IsP(toks, j, CloseList) then Got(preds + [p], j + 1)
      else Fail(Expected(CloseList))
  }

  function AtomPreds(toks: seq<Tok>, i: nat): (r: Parsed<seq<Pred>>)
    requires Ended(toks) && i < |toks|
    ensures r.Got? ==> i <= r.i < |toks|
    ensures r.Got? && r.v != [] ==> i < r.i
  {
    if IsP(toks, i, OpenList) then PredsFrom(toks, i + 1, []) else Got([], i)
  }

  function AtomText(toks: seq<Tok>, i: nat): (r: Parsed<string>)
    requires Ended(toks) && i < |toks|
    ensures r.Got? ==> i <= r.i < |toks|
    ensures r.Got? && r.v != "" ==> i < r.i
  {
    if !IsP(toks, i, Tilde) then Got("", i)
    else if toks[i + 1].Str? then Got(toks[i + 1].s, i + 2)
    else Fail(ExpectedText)
  }

  predicate Empty(a: Atom) { a.kinds == [] && a.id == "" && a.preds == [] && a.text == "" }

  function AtomAt(toks: seq<Tok>, i: nat): (r: Parsed<Atom>)
    requires Ended(toks) && i < |toks|
    ensures r.Got? ==> i < r.i < |toks|
  {
    match AtomKinds(toks, i)
    case Fail(why) => Fail(why)
    case Got(kinds, j) =>
      match AtomId(toks, j)
      case Fail(why) => Fail(why)
      case Got(id, k) =>
        match AtomPreds(toks, k)
        case Fail(why) => Fail(why)
        case Got(preds, l) =>
          match AtomText(toks, l)
          case Fail(why) => Fail(why)
          case Got(text, m) =>
            if Empty(Atom(kinds, id, preds, text)) then Fail(EmptyAtom) else Got(Atom(kinds, id, preds, text), m)
  }

  // ── hops ──

  function HopAt(toks: seq<Tok>, i: nat): (r: Parsed<Option<Hop>>)
    requires Ended(toks) && i < |toks|
    ensures r.Got? ==> i <= r.i < |toks|
    ensures r.Got? && r.v.Some? ==> i < r.i
  {
    if !IsP(toks, i, BackArrow) && !IsP(toks, i, Dash) then Got(None, i)
    else if !toks[i + 1].Ident? then Fail(ExpectedEdgeType)
    else
      match EdgeNamed(toks[i + 1].s)
      case None => Fail(UnknownEdgeType)
      case Some(typ) =>
        var star := IsP(toks, i + 2, Star);
        HopClose(toks, if star then i + 3 else i + 2, typ, IsP(toks, i, BackArrow), star)
  }

  function HopClose(toks: seq<Tok>, i: nat, typ: EdgeType, inverse: bool, star: bool): (r: Parsed<Option<Hop>>)
    requires Ended(toks) && i < |toks|
    ensures r.Got? ==> i < r.i < |toks|
  {
    if IsP(toks, i, Arrow) then
      if inverse then Fail(NotADirection) else Got(Some(Hop(typ, Forward, star)), i + 1)
    else if IsP(toks, i, Dash) then Got(Some(Hop(typ, if inverse then Inverse else Undirected, star)), i + 1)
    else Fail(UnterminatedHop)
  }

  function ChainFrom(toks: seq<Tok>, i: nat, atoms: seq<Atom>, hops: seq<Hop>): (r: Parsed<Pattern>)
    requires Ended(toks) && i < |toks|
    ensures r.Got? ==> i <= r.i < |toks|
    decreases |toks| - i
  {
    match HopAt(toks, i)
    case Fail(why) => Fail(why)
    case Got(None, j) => Got(Pattern(atoms, hops, None, []), j)
    case Got(Some(h), j) =>
      match AtomAt(toks, j)
      case Fail(why) => Fail(why)
      case Got(a, k) => ChainFrom(toks, k, atoms + [a], hops + [h])
  }

  // ── suffixes ──

  function RangeAt(toks: seq<Tok>, i: nat): (r: Parsed<Temporal>)
    requires Ended(toks) && i < |toks|
    ensures r.Got? ==> i < r.i < |toks|
  {
    if i + 1 == |toks| then Fail(PastEnd)
    else if !IsP(toks, i + 1, Comma) then Fail(Expected(Comma))
    else if i + 3 == |toks| then Fail(PastEnd)
    else if !IsP(toks, i + 3, CloseList) then Fail(Expected(CloseList))
    else Got(Temporal(false, TokText(toks[i]), TokText(toks[i + 2])), i + 4)
  }

  function TemporalAt(toks: seq<Tok>, i: nat): (r: Parsed<Temporal>)
    requires Ended(toks) && i < |toks|
    ensures r.Got? ==> i < r.i < |toks|
  {
    if IsWord(toks, i, "now") then Got(Temporal(true, "", ""), i + 1)
    else if IsP(toks, i, OpenList) then RangeAt(toks, i + 1)
    else if !toks[i].Value? then Fail(ExpectedDate)
    else Got(Temporal(false, toks[i].s, toks[i].s), i + 1)
  }

  function AtSuffix(toks: seq<Tok>, i: nat): (r: Parsed<Option<Temporal>>)
    requires Ended(toks) && i < |toks|
    ensures r.Got? ==> i <= r.i < |toks|
  {
    if !IsP(toks, i, AtSign) then Got(None, i)
    else
      match TemporalAt(toks, i + 1)
      case Fail(why) => Fail(why)
      case Got(t, j) => Got(Some(t), j)
  }

  function SortKeysFrom(toks: seq<Tok>, i: nat, keys: seq<SortKey>): (r: Parsed<seq<SortKey>>)
    requires Ended(toks) && i < |toks|
    ensures r.Got? ==> i < r.i < |toks|
    decreases |toks| - i
  {
    if !toks[i].Ident? then Fail(ExpectedSortField)
    else
      var desc := IsWord(toks, i + 1, "desc");
      var j := if desc || IsWord(toks, i + 1, "asc") then i + 2 else i + 1;
      var more := keys + [SortKey(toks[i].s, desc)];
      if IsP(toks, j, Comma) then SortKeysFrom(toks, j + 1, more) else Got(more, j)
  }

  function SortSuffix(toks: seq<Tok>, i: nat): (r: Parsed<seq<SortKey>>)
    requires Ended(toks) && i < |toks|
    ensures r.Got? ==> i <= r.i < |toks|
  {
    if IsWord(toks, i, "sort") then SortKeysFrom(toks, i + 1, []) else Got([], i)
  }

  // The suffixes a pattern or a group may carry.
  function SuffixesAt(toks: seq<Tok>, i: nat): (r: Parsed<(Option<Temporal>, seq<SortKey>)>)
    requires Ended(toks) && i < |toks|
    ensures r.Got? ==> i <= r.i < |toks|
  {
    match AtSuffix(toks, i)
    case Fail(why) => Fail(why)
    case Got(at, j) =>
      match SortSuffix(toks, j)
      case Fail(why) => Fail(why)
      case Got(sort, k) => Got((at, sort), k)
  }

  function PatternAt(toks: seq<Tok>, i: nat): (r: Parsed<Query>)
    requires Ended(toks) && i < |toks|
    ensures r.Got? ==> i < r.i < |toks|
  {
    match AtomAt(toks, i)
    case Fail(why) => Fail(why)
    case Got(a, j) =>
      match ChainFrom(toks, j, [a], [])
      case Fail(why) => Fail(why)
      case Got(p, k) =>
        match SuffixesAt(toks, k)
        case Fail(why) => Fail(why)
        case Got(suffixes, l) => Got(Match(p.(at := suffixes.0, sort := suffixes.1)), l)
  }

  // ── set expressions ──

  // Whether only kind names and bars stand between i and the next `)`.
  predicate KindListFrom(toks: seq<Tok>, i: nat)
    requires Ended(toks) && i < |toks|
    decreases |toks| - i
  {
    && toks[i].Ident? && IsKind(toks[i].s)
    && (IsP(toks, i + 1, CloseParen) || (IsP(toks, i + 1, Bar) && KindListFrom(toks, i + 2)))
  }

  function GroupClose(toks: seq<Tok>, i: nat, x: Query): (r: Parsed<Query>)
    requires Ended(toks) && i < |toks|
    ensures r.Got? ==> i < r.i < |toks|
  {
    if !IsP(toks, i, CloseParen) then Fail(Expected(CloseParen))
    else
      match SuffixesAt(toks, i + 1)
      case Fail(why) => Fail(why)
      case Got(suffixes, j) =>
        Got(if suffixes == (None, []) then x else Scoped(x, suffixes.0, suffixes.1), j)
  }

  function PrimaryAt(toks: seq<Tok>, i: nat): (r: Parsed<Query>)
    requires Ended(toks) && i < |toks|
    ensures r.Got? ==> i < r.i < |toks|
    decreases |toks| - i, 1
  {
    if IsP(toks, i, AtSign) && toks[i + 1].Ident? && toks[i + 1].s != "now" then Got(Ref(toks[i + 1].s), i + 2)
    else if IsP(toks, i, OpenParen) && !KindListFrom(toks, i + 1) then
      match UnionAt(toks, i + 1)
      case Fail(why) => Fail(why)
      case Got(x, j) => GroupClose(toks, j, x)
    else PatternAt(toks, i)
  }

  function UnaryAt(toks: seq<Tok>, i: nat): (r: Parsed<Query>)
    requires Ended(toks) && i < |toks|
    ensures r.Got? ==> i < r.i < |toks|
    decreases |toks| - i, 2
  {
    if IsP(toks, i, Bang) then
      match UnaryAt(toks, i + 1)
      case Fail(why) => Fail(why)
      case Got(x, j) => Got(Not(x), j)
    else PrimaryAt(toks, i)
  }

  // The terms of an intersection read so far, and those still joined on by `&`.
  function InterFrom(toks: seq<Tok>, i: nat, terms: seq<Query>): (r: Parsed<seq<Query>>)
    requires Ended(toks) && i < |toks|
    ensures r.Got? ==> i <= r.i < |toks| && |r.v| >= |terms|
    decreases |toks| - i, 3
  {
    if !IsP(toks, i, Amp) then Got(terms, i)
    else
      match UnaryAt(toks, i + 1)
      case Fail(why) => Fail(why)
      case Got(t, j) => InterFrom(toks, j, terms + [t])
  }

  function InterAt(toks: seq<Tok>, i: nat): (r: Parsed<Query>)
    requires Ended(toks) && i < |toks|
    ensures r.Got? ==> i < r.i < |toks|
    decreases |toks| - i, 3
  {
    match UnaryAt(toks, i)
    case Fail(why) => Fail(why)
    case Got(x, j) =>
      match InterFrom(toks, j, [x])
      case Fail(why) => Fail(why)
      case Got(terms, k) => Got(if |terms| == 1 then x else Inter(terms), k)
  }

  function UnionFrom(toks: seq<Tok>, i: nat, terms: seq<Query>): (r: Parsed<seq<Query>>)
    requires Ended(toks) && i < |toks|
    ensures r.Got? ==> i <= r.i < |toks| && |r.v| >= |terms|
    decreases |toks| - i, 4
  {
    if !IsP(toks, i, Bar) then Got(terms, i)
    else
      match InterAt(toks, i + 1)
      case Fail(why) => Fail(why)
      case Got(t, j) => UnionFrom(toks, j, terms + [t])
  }

  function UnionAt(toks: seq<Tok>, i: nat): (r: Parsed<Query>)
    requires Ended(toks) && i < |toks|
    ensures r.Got? ==> i < r.i < |toks|
    decreases |toks| - i, 5
  {
    match InterAt(toks, i)
    case Fail(why) => Fail(why)
    case Got(x, j) =>
      match UnionFrom(toks, j, [x])
      case Fail(why) => Fail(why)
      case Got(terms, k) => Got(if |terms| == 1 then x else Union(terms), k)
  }

  // ── whole queries ──

  datatype QueryError = NotLexed(error: LexError) | NotParsed(why: Failure)

  function Parse(toks: seq<Tok>): Result<Query, QueryError>
    requires Ended(toks)
  {
    match UnionAt(toks, 0)
    case Fail(why) => Err(NotParsed(why))
    case Got(q, i) => if toks[i] == End then Ok(q) else Err(NotParsed(Unexpected))
  }

  function ParseQuery(src: string): Result<Query, QueryError> {
    match Lex(src)
    case Err(error) => Err(NotLexed(error))
    case Ok(toks) => Parse(toks)
  }
}
