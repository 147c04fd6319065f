// Evaluating a query: a mutable set of the names being expanded, temporal context
// passed down, results gathered term by term. It computes the denotation of the
// expanded query in the Boolean algebra of node sets.
module Eval {
  import opened Strings
  import opened Options
  import opened Graphs
  import opened Queries
  import opened Sorting
  import opened Satisfaction
  import opened SatisfactionWalk
  import opened Matching
  import opened Hops
  import opened SortIds
  import opened Aliases
  import opened Expansion

  // ── dates ──

  function DateFloor(d: string): string {
    if |d| == 4 then d + "-01-01" else if |d| == 7 then d + "-01" else d
  }

  function DateCeil(d: string): string {
    if |d| == 4 then d + "-12-31" else if |d| == 7 then d + "-31" else d
  }

  predicate DateOverlapsWindow(d: string, from: string, to: string) {
    !StrLess(DateCeil(d), DateFloor(from)) && !StrLess(DateCeil(to), DateFloor(d))
  }

  // The date a context collapses to: its start, or the clock.
  function AsOf(t: Option<Temporal>, now: string): string {
    if t.None? then "" else if t.value.now then now else t.value.from
  }

  predicate Windowed(t: Option<Temporal>) {
    t.Some? && !t.value.now && t.value.to != "" && t.value.to != t.value.from
  }

  // ── references ──

  function ResolveAtoms(g: Graph, atoms: seq<Atom>, at: string): (r: Option<seq<Atom>>)
    ensures r.Some? ==> |r.value| == |atoms| && forall i | 0 <= i < |atoms| :: r.value[i].preds == atoms[i].preds
  {
    if atoms == [] then Some([])
    else
      var a := atoms[0];
      var id := if a.id == "" then Some("") else ResolveRef(g, a.id, at);
      var rest := ResolveAtoms(g, atoms[1..], at);
      if id.Some? && rest.Some? then Some([a.(id := id.value)] + rest.value) else None
  }

  function ResolvePattern(g: Graph, now: string, p: Pattern): (r: Option<Pattern>)
    requires WellFormedPattern(p)
    ensures r.Some? ==>
              && WellFormedPattern(r.value)
              && r.value.hops == p.hops && r.value.at == p.at && r.value.sort == p.sort
  {
    var atoms := ResolveAtoms(g, p.atoms, AsOf(p.at, now));
    if atoms.None? then None
    else
      assert forall i | 0 <= i < |p.atoms| :: p.atoms[i] in p.atoms;
      Some(p.(atoms := atoms.value))
  }

  // Every reference in a flat query denotes one thing at its pattern's date.
  predicate Unambiguous(g: Graph, now: string, q: Query)
    requires Flat(q) && WellFormed(q)
  {
    match q
    case Union(terms) => forall t | t in terms :: Unambiguous(g, now, t)
    case Inter(terms) => forall t | t in terms :: Unambiguous(g, now, t)
    case Not(x) => Unambiguous(g, now, x)
    case Match(p) => ResolvePattern(g, now, p).Some?
  }

  // ── denotation ──

  // Evaluation ends at every date the query looks at: the one each pattern carries
  // and the one each scope hands down.
  ghost predicate Guarded(g: Graph, now: string, q: Query) {
    match q
    case Union(terms) => forall t | t in terms :: Guarded(g, now, t)
    case Inter(terms) => forall t | t in terms :: Guarded(g, now, t)
    case Not(x) => Guarded(g, now, x)
    case Ref(_) => true
    case Match(p) => Stratified(g, AsOf(p.at, now))
    case Scoped(x, at, _) => Stratified(g, AsOf(at, now)) && Guarded(g, now, x)
  }

  // The query can be evaluated, and mentions no name outside `reach`.
  ghost predicate Ready(g: Graph, now: string, reach: set<string>, q: Query) {
    WellFormed(q) && Guarded(g, now, q) && Names(q) <= reach
  }

  // So can every query of the library whose name is in `reach`, and it mentions no
  // name outside either.
  ghost predicate ReadyLibrary(g: Graph, now: string, reach: set<string>, named: map<string, Query>) {
    && (forall n | n in named :: WellFormed(named[n]))
    && (forall n | n in named && n in reach :: Ready(g, now, reach, named[n]))
  }

  // Evaluation ends at every date of the query and of the queries it leads to.
  ghost predicate Evaluable(g: Graph, now: string, named: map<string, Query>, q: Query) {
    exists reach :: Ready(g, now, reach, q) && ReadyLibrary(g, now, reach, named)
  }

  lemma {:induction false} TermNames(terms: seq<Query>, t: Query)
    requires t in terms
    ensures Names(t) <= AllNames(terms)
  {
    if t != terms[0] {
      TermNames(terms[1..], t);
    }
  }

  lemma {:induction false} NamesWithin(terms: seq<Query>, reach: set<string>)
    requires forall t | t in terms :: Names(t) <= reach
    ensures AllNames(terms) <= reach
  {
    if terms != [] {
      NamesWithin(terms[1..], reach);
    }
  }

  lemma TermsReady(g: Graph, now: string, reach: set<string>, q: Query, terms: seq<Query>)
    requires Ready(g, now, reach, q) && (q == Inter(terms) || q == Union(terms))
    ensures forall t | t in terms :: Ready(g, now, reach, t)
  {
    forall t | t in terms
      ensures Ready(g, now, reach, t)
    {
      TermNames(terms, t);
    }
  }

  // A query that names no date asks nothing of the graph.
  predicate Undated(q: Query) {
    match q
    case Union(terms) => forall t | t in terms :: Undated(t)
    case Inter(terms) => forall t | t in terms :: Undated(t)
    case Not(x) => Undated(x)
    case Ref(_) => true
    case Match(p) => p.at == None
    case Scoped(x, at, _) => at == None && Undated(x)
  }

  lemma {:induction false} UndatedIsGuarded(g: Graph, now: string, q: Query)
    requires Undated(q)
    ensures Guarded(g, now, q)
  {
    UngatedMembershipStratified(g, "");
    match q
    case Union(terms) => forall t | t in terms ensures Guarded(g, now, t) { UndatedIsGuarded(g, now, t); }
    case Inter(terms) => forall t | t in terms ensures Guarded(g, now, t) { UndatedIsGuarded(g, now, t); }
    case Not(x) => UndatedIsGuarded(g, now, x);
    case Scoped(x, _, _) => UndatedIsGuarded(g, now, x);
    case _ =>
  }

  // The expansion is flat, and looks at no date the query and its library do not.
  ghost predicate GoodFor(g: Graph, now: string, x: Result<Query, Failure>) {
    GoodExpansion(x) && GuardedResult(g, now, x)
  }

  ghost predicate GuardedResult(g: Graph, now: string, x: Result<Query, Failure>) {
    x.Ok? ==> Guarded(g, now, x.value)
  }

  lemma {:induction false} ExpansionIsGood(
      g: Graph, now: string, reach: set<string>, named: map<string, Query>, seen: set<string>, q: Query,
      inherited: Option<Temporal>)
    requires Ready(g, now, reach, q) && ReadyLibrary(g, now, reach, named) && Stratified(g, AsOf(inherited, now))
    ensures GoodFor(g, now, Expand(named, seen, q, inherited))
  {
    ExpansionIsFlat(named, seen, q, inherited);
    ExpansionIsGuarded(g, now, reach, named, seen, q, inherited);
  }

  lemma {:induction false} ExpansionIsGuarded(
      g: Graph, now: string, reach: set<string>, named: map<string, Query>, seen: set<string>, q: Query,
      inherited: Option<Temporal>)
    requires Ready(g, now, reach, q) && ReadyLibrary(g, now, reach, named) && Stratified(g, AsOf(inherited, now))
    ensures GuardedResult(g, now, Expand(named, seen, q, inherited))
    decreases |named.Keys - seen|, q, 1
  {
    match q
    case Match(p) =>
    case Scoped(x, at, _) => ExpansionIsGuarded(g, now, reach, named, seen, x, Narrow(at, inherited));
    case Not(x) => ExpansionIsGuarded(g, now, reach, named, seen, x, inherited);
    case Ref(name) => NameExpandsGuarded(g, now, reach, named, seen, name, inherited);
    case _ => TermsExpandGuarded(g, now, reach, named, seen, q, q.terms, inherited);
  }

  lemma {:induction false} NameExpandsGuarded(
      g: Graph, now: string, reach: set<string>, named: map<string, Query>, seen: set<string>, name: string,
      inherited: Option<Temporal>)
    requires name in reach && ReadyLibrary(g, now, reach, named) && Stratified(g, AsOf(inherited, now))
    ensures GuardedResult(g, now, Expand(named, seen, Ref(name), inherited))
    decreases |named.Keys - seen|, Ref(name), 0
  {
    if name !in seen && name in named {
      SubsetSmaller(named.Keys - (seen + {name}), named.Keys - seen);
      assert Ready(g, now, reach, named[name]);
      ExpansionIsGuarded(g, now, reach, named, seen + {name}, named[name], inherited);
    }
  }

  lemma {:induction false} TermsExpandGuarded(
      g: Graph, now: string, reach: set<string>, named: map<string, Query>, seen: set<string>, q: Query,
      terms: seq<Query>, inherited: Option<Temporal>)
    requires (q == Inter(terms) || q == Union(terms)) && Ready(g, now, reach, q)
    requires ReadyLibrary(g, now, reach, named) && Stratified(g, AsOf(inherited, now))
    ensures GuardedResult(g, now, Expand(named, seen, q, inherited))
    decreases |named.Keys - seen|, terms, 1
  {
    TermsReady(g, now, reach, q, terms);
    ExpansionsAreGuarded(g, now, reach, named, seen, terms, inherited);
  }

  lemma {:induction false} ExpansionsAreGuarded(
      g: Graph, now: string, reach: set<string>, named: map<string, Query>, seen: set<string>, qs: seq<Query>,
      inherited: Option<Temporal>)
    requires forall q | q in qs :: Ready(g, now, reach, q)
    requires ReadyLibrary(g, now, reach, named) && Stratified(g, AsOf(inherited, now))
    ensures var r := ExpandAll(named, seen, qs, inherited); r.Ok? ==> forall e | e in r.value :: Guarded(g, now, e)
    decreases |named.Keys - seen|, qs, 0
  {
    ExpandAllPointwise(named, seen, qs, inherited);
    forall i | 0 <= i < |qs|
      ensures GuardedResult(g, now, Expand(named, seen, qs[i], inherited))
    {
      ExpansionIsGuarded(g, now, reach, named, seen, qs[i], inherited);
    }
  }

  ghost predicate PatternHolds(g: Graph, now: string, p: Pattern, id: Id)
    requires Stratified(g, AsOf(p.at, now)) && WellFormedPattern(p)
  {
    var at := AsOf(p.at, now);
    && id in g.nodes
    && MatchAtom(g, p.atoms[0], g.nodes[id], at, now)
    && (Windowed(p.at) ==> ResolveAt(g, id).Some?
                           && DateOverlapsWindow(ResolveAt(g, id).value, p.at.value.from, p.at.value.to))
    && exists ns :: IsBinding(g, p, at, now, |p.hops|, ns) && ns[0] == id
  }

  ghost predicate Denotes(g: Graph, now: string, q: Query, id: Id)
    requires Guarded(g, now, q) && Flat(q) && WellFormed(q) && Unambiguous(g, now, q)
  {
    && id in g.nodes
    && match q
       case Union(terms) => exists t | t in terms :: Denotes(g, now, t, id)
       case Inter(terms) => terms != [] && forall t | t in terms :: Denotes(g, now, t, id)
       case Not(x) => !Denotes(g, now, x, id)
       case Match(p) => PatternHolds(g, now, ResolvePattern(g, now, p).value, id)
  }

  // ── evaluation ──

  type Answer = Result<seq<Id>, Failure>

  // The result is a list without repeats of exactly the nodes the expansion
  // denotes; it fails exactly when the expansion fails or holds an ambiguous
  // reference.
  ghost predicate Agrees(g: Graph, now: string, x: Result<Query, Failure>, r: Answer)
    requires GoodFor(g, now, x)
  {
    if x.Ok? && Unambiguous(g, now, x.value) then
      && r.Ok? && Distinct(r.value)
      && forall id :: id in r.value <==> Denotes(g, now, x.value, id)
    else r.Err?
  }

  // Inlining every name and pushing every context down changes no answer: the
  // expansion, evaluated with no library, fails when the query does and returns
  // the same nodes when it does not.
  lemma ExpansionPreservesMeaning(
      g: Graph, now: string, named: map<string, Query>, q: Query, e: Query, r: Answer, s: Answer)
    requires Evaluable(g, now, named, q)
    requires Expand(named, {}, q, None) == Ok(e)
    requires GoodFor(g, now, Expand(named, {}, q, None)) && Agrees(g, now, Expand(named, {}, q, None), r)
    requires GoodFor(g, now, Expand(map[], {}, e, None)) && Agrees(g, now, Expand(map[], {}, e, None), s)
    ensures r.Err? <==> s.Err?
    ensures r.Ok? ==> multiset(r.value) == multiset(s.value)
  {
    FlatExpandsToItself(e);
    if r.Ok? {
      DistinctSameMultiset(r.value, s.value);
    }
  }

  // What a query is evaluated against: the graph, the clock, the names it can lead
  // to, the library, the names being expanded and the context handed down.
  datatype Scene = Scene(
    g: Graph, now: string, reach: set<string>, named: map<string, Query>, seen: set<string>,
    inherited: Option<Temporal>)

  ghost predicate ReadyScene(c: Scene) {
    ReadyLibrary(c.g, c.now, c.reach, c.named) && Stratified(c.g, AsOf(c.inherited, c.now))
  }

  ghost predicate AllReady(c: Scene, terms: seq<Query>) {
    ReadyScene(c) && forall t | t in terms :: Ready(c.g, c.now, c.reach, t)
  }

  function ExpandIn(c: Scene, q: Query): Result<Query, Failure> { Expand(c.named, c.seen, q, c.inherited) }

  // Every term expands without failing to a query without ambiguity.
  ghost predicate TermsExpand(c: Scene, terms: seq<Query>)
    requires AllReady(c, terms)
  {
    forall t | t in terms :: TermExpands(c, t)
  }

  ghost predicate TermExpands(c: Scene, t: Query)
    requires ReadyScene(c) && Ready(c.g, c.now, c.reach, t)
  {
    ExpansionIsGood(c.g, c.now, c.reach, c.named, c.seen, t, c.inherited);
    ExpandIn(c, t).Ok? && Unambiguous(c.g, c.now, ExpandIn(c, t).value)
  }

  // The node is in the term's denotation.
  ghost predicate TermDenotes(c: Scene, t: Query, id: Id)
    requires ReadyScene(c) && Ready(c.g, c.now, c.reach, t) && TermExpands(c, t)
  {
    ExpansionIsGood(c.g, c.now, c.reach, c.named, c.seen, t, c.inherited);
    Denotes(c.g, c.now, ExpandIn(c, t).value, id)
  }

  // The i-th expansion denotes what the i-th term does.
  ghost predicate SameDenotation(c: Scene, t: Query, e: Query)
    requires ReadyScene(c) && Ready(c.g, c.now, c.reach, t) && TermExpands(c, t)
  {
    && Flat(e) && WellFormed(e) && Guarded(c.g, c.now, e) && Unambiguous(c.g, c.now, e)
    && forall id :: Denotes(c.g, c.now, e, id) <==> TermDenotes(c, t, id)
  }

  lemma TermsTogether(c: Scene, terms: seq<Query>)
    requires AllReady(c, terms) && TermsExpand(c, terms)
    ensures var r := ExpandAll(c.named, c.seen, terms, c.inherited);
            && r.Ok? && |r.value| == |terms|
            && forall i | 0 <= i < |terms| :: SameDenotation(c, terms[i], r.value[i])
  {
    ExpandAllPointwise(c.named, c.seen, terms, c.inherited);
    forall i | 0 <= i < |terms|
      ensures TermExpands(c, terms[i])
    {
      assert terms[i] in terms;
    }
    var r := ExpandAll(c.named, c.seen, terms, c.inherited);
    forall i | 0 <= i < |terms|
      ensures SameDenotation(c, terms[i], r.value[i])
    {
      ExpansionIsGood(c.g, c.now, c.reach, c.named, c.seen, terms[i], c.inherited);
    }
  }

  // The nodes every term denotes; of no terms, nothing yet.
  ghost predicate InEvery(c: Scene, terms: seq<Query>, acc: Option<set<Id>>)
    requires AllReady(c, terms) && TermsExpand(c, terms)
  {
    && (acc.None? <==> terms == [])
    && (acc.Some? ==> forall id :: id in acc.value <==> forall t | t in terms :: TermDenotes(c, t, id))
  }

  ghost predicate InSome(c: Scene, terms: seq<Query>, acc: set<Id>)
    requires AllReady(c, terms) && TermsExpand(c, terms)
  {
    forall id :: id in acc <==> exists t | t in terms :: TermDenotes(c, t, id)
  }

  lemma OneMoreTerm(c: Scene, terms: seq<Query>, t: Query, s: set<Id>, every: Option<set<Id>>, some: set<Id>)
    requires AllReady(c, terms) && Ready(c.g, c.now, c.reach, t)
    requires TermsExpand(c, terms) && TermExpands(c, t) && forall id :: id in s <==> TermDenotes(c, t, id)
    ensures TermsExpand(c, terms + [t])
    ensures InEvery(c, terms, every) ==>
              InEvery(c, terms + [t], if every.None? then Some(s) else Some(every.value * s))
    ensures InSome(c, terms, some) ==> InSome(c, terms + [t], some + s)
  {
    assert forall u :: u in terms + [t] <==> u in terms || u == t;
  }

  lemma InterAgrees(c: Scene, terms: seq<Query>, ids: seq<Id>)
    requires AllReady(c, terms)
    requires TermsExpand(c, terms) && Distinct(ids)
    requires forall id :: id in ids <==> terms != [] && forall t | t in terms :: TermDenotes(c, t, id)
    ensures GoodFor(c.g, c.now, ExpandIn(c, Inter(terms)))
    ensures Agrees(c.g, c.now, ExpandIn(c, Inter(terms)), Ok(ids))
  {
    TermsTogether(c, terms);
    NamesWithin(terms, c.reach);
    ExpansionIsGood(c.g, c.now, c.reach, c.named, c.seen, Inter(terms), c.inherited);
    var es := ExpandAll(c.named, c.seen, terms, c.inherited).value;
    forall id
      ensures id in ids <==> Denotes(c.g, c.now, Inter(es), id)
    {
      if id in ids { assert TermDenotes(c, terms[0], id); }
      forall t | t in terms && Denotes(c.g, c.now, Inter(es), id)
        ensures TermDenotes(c, t, id)
      {
        var i :| 0 <= i < |terms| && terms[i] == t;
        assert es[i] in es;
      }
    }
  }

  lemma UnionAgrees(c: Scene, terms: seq<Query>, ids: seq<Id>)
    requires AllReady(c, terms)
    requires TermsExpand(c, terms) && Distinct(ids)
    requires forall id :: id in ids <==> exists t | t in terms :: TermDenotes(c, t, id)
    ensures GoodFor(c.g, c.now, ExpandIn(c, Union(terms)))
    ensures Agrees(c.g, c.now, ExpandIn(c, Union(terms)), Ok(ids))
  {
    TermsTogether(c, terms);
    NamesWithin(terms, c.reach);
    ExpansionIsGood(c.g, c.now, c.reach, c.named, c.seen, Union(terms), c.inherited);
    var es := ExpandAll(c.named, c.seen, terms, c.inherited).value;
    forall id
      ensures id in ids <==> Denotes(c.g, c.now, Union(es), id)
    {
      if id in ids {
        var t :| t in terms && TermDenotes(c, t, id);
        var i :| 0 <= i < |terms| && terms[i] == t;
        assert es[i] in es && Denotes(c.g, c.now, es[i], id);
      } else {
        forall e | e in es
          ensures !Denotes(c.g, c.now, e, id)
        {
          var i :| 0 <= i < |es| && es[i] == e;
          assert terms[i] in terms;
        }
      }
    }
  }

  // Sorted by its keys, whenever `compare` orders the columns they name.
  ghost predicate SortedBy(g: Graph, keys: seq<SortKey>, at: string, ids: seq<Id>) {
    ColumnsComparable(g, SpecKeys(keys), at, ids) ==> Ordered(ByKeys(g, keys, at), ids)
  }

  ghost predicate Ascending(ids: seq<Id>) { forall i, j | 0 <= i < j < |ids| :: StrLess(ids[i], ids[j]) }

  // The order a result comes in: the outermost sort decides, a pattern without
  // one and a set operation go by id, and a complement has no order.
  ghost predicate InOrder(
      g: Graph, env: Env, seen: set<string>, q: Query, inherited: Option<Temporal>, ids: seq<Id>)
    decreases |env.named.Keys - seen|, q
  {
    match q
    case Match(p) => SortedBy(g, p.sort, AsOf(Narrow(p.at, inherited), env.now), ids)
    case Scoped(x, own, sort) =>
      if sort != [] then SortedBy(g, sort, AsOf(Narrow(own, inherited), env.now), ids)
      else InOrder(g, env, seen, x, Narrow(own, inherited), ids)
    case Ref(name) =>
      && name in env.named && name !in seen
      && (SubsetSmaller(env.named.Keys - (seen + {name}), env.named.Keys - seen);
          InOrder(g, env, seen + {name}, env.named[name], inherited, ids))
    case Not(_) => true
    case _ => Ascending(ids)
  }

  method SortResult(g: Graph, ids: seq<Id>, keys: seq<SortKey>, at: string) returns (sorted: seq<Id>)
    requires Distinct(ids) && forall id | id in ids :: id in g.nodes
    ensures sorted == SortIDs(g, ids, keys, at)
    ensures Distinct(sorted) && (forall id :: id in sorted <==> id in ids) && SortedBy(g, keys, at, sorted)
  {
    SortKeepsElements(g, ids, keys, at);
    sorted := SortIDs(g, ids, keys, at);
    if ColumnsComparable(g, SpecKeys(keys), at, sorted) {
      SameColumns(g, ids, sorted, keys, at);
      SortedResultIsDeterminate(g, keys, at, ids, ids);
    }
  }

  lemma SameColumns(g: Graph, ids: seq<Id>, others: seq<Id>, keys: seq<SortKey>, at: string)
    requires forall id :: id in ids <==> id in others
    requires ColumnsComparable(g, SpecKeys(keys), at, others)
    ensures ColumnsComparable(g, SpecKeys(keys), at, ids)
  {
    forall k | k in SpecKeys(keys)
      ensures ColumnComparable(g, k, at, ids)
    {
      assert ColumnComparable(g, k, at, others);
      assert (set id | id in ids && id in g.nodes && Field(g, g.nodes[id], k.key, at).Some? ::
                Field(g, g.nodes[id], k.key, at).value)
          == (set id | id in others && id in g.nodes && Field(g, g.nodes[id], k.key, at).Some? ::
                Field(g, g.nodes[id], k.key, at).value);
    }
  }

  lemma SortKeepsElements(g: Graph, ids: seq<Id>, keys: seq<SortKey>, at: string)
    requires Distinct(ids)
    ensures Distinct(SortIDs(g, ids, keys, at))
    ensures forall id :: id in SortIDs(g, ids, keys, at) <==> id in ids
  {
    var sorted := SortIDs(g, ids, keys, at);
    SameElements(ids, sorted);
    forall i, j | 0 <= i < j < |sorted|
      ensures sorted[i] != sorted[j]
    {
      DistinctByMultiset(ids, sorted, i, j);
    }
  }

  class Evaluator {
    const g: Graph
    const env: Env
    const incident: map<Id, seq<Edge>>
    ghost const reach: set<string>
    var seen: set<string>

    ghost predicate Valid() {
      ReadyLibrary(g, env.now, reach, env.named) && Indexes(g, g.edges, incident)
    }

    // A query and the context handed down to it can be evaluated.
    ghost predicate Takes(q: Query, inherited: Option<Temporal>) {
      Valid() && Ready(g, env.now, reach, q) && Stratified(g, AsOf(inherited, env.now))
    }

    ghost function Here(inherited: Option<Temporal>): Scene
      reads this
    {
      Scene(g, env.now, reach, env.named, seen, inherited)
    }

    constructor (g: Graph, env: Env, incident: map<Id, seq<Edge>>, ghost reach: set<string>)
      ensures this.g == g && this.env == env && this.incident == incident && this.reach == reach && seen == {}
    {
      this.g, this.env, this.incident, this.reach, seen := g, env, incident, reach, {};
    }

    // The node map is enumerated in no particular order; the sort comes last.
    method EvalPattern(pattern: Pattern) returns (r: Answer)
      requires Valid() && Ready(g, env.now, reach, Match(pattern))
      ensures Agrees(g, env.now, Ok(Match(pattern)), r)
      ensures r.Ok? ==> SortedBy(g, pattern.sort, AsOf(pattern.at, env.now), r.value)
    {
      var at := AsOf(pattern.at, env.now);
      var resolved := ResolvePattern(g, env.now, pattern);
      if resolved.None? {
        return Err(AmbiguousRef);
      }
      var p := resolved.value;
      var w := new Walk(g, at, incident);
      var ids, todo := [], g.nodes.Keys;
      while todo != {}
        invariant todo <= g.nodes.Keys && Distinct(ids)
        invariant forall id :: id in ids <==> id !in todo && PatternHolds(g, env.now, p, id)
      {
        var id :| id in todo;
        todo := todo - {id};
        var hit := MatchAtom(g, p.atoms[0], g.nodes[id], at, env.now);
        if hit && Windowed(p.at) {
          var d := ResolveAt(g, id);
          hit := d.Some? && DateOverlapsWindow(d.value, p.at.value.from, p.at.value.to);
        }
        if hit {
          hit := WalkPattern(w, id, p, env.now);
        }
        if hit {
          DistinctAppend(ids, id);
          ids := ids + [id];
        }
      }
      var sorted := SortResult(g, ids, p.sort, at);
      r := Ok(sorted);
    }

    ghost function Expanded(q: Query, inherited: Option<Temporal>): (x: Result<Query, Failure>)
      requires Takes(q, inherited)
      reads this
      ensures GoodFor(g, env.now, x)
    {
      ExpansionIsGood(g, env.now, reach, env.named, seen, q, inherited);
      Expand(env.named, seen, q, inherited)
    }

    method Eval(q: Query, inherited: Option<Temporal>) returns (r: Answer)
      requires Takes(q, inherited)
      modifies this`seen
      ensures seen == old(seen)
      ensures Agrees(g, env.now, Expanded(q, inherited), r)
      ensures r.Ok? ==> InOrder(g, env, seen, q, inherited, r.value)
      decreases |env.named.Keys - seen|, q, 1
    {
      match q
      case Match(p) =>
        r := EvalPattern(p.(at := Narrow(p.at, inherited)));
      case Scoped(x, own, sort) =>
        var at := Narrow(own, inherited);
        r := Eval(x, at);
        if r.Ok? && sort != [] {
          var sorted := SortResult(g, r.value, sort, AsOf(at, env.now));
          r := Ok(sorted);
        }
      case Ref(name) => r := EvalRef(name, inherited);
      case Not(x) =>
        r := Eval(x, inherited);
        if r.Ok? {
          var rest := AllBut(r.value);
          r := Ok(rest);
        }
      case Inter(terms) => r := EvalInter(q, terms, inherited);
      case Union(terms) => r := EvalUnion(q, terms, inherited);
    }

    method EvalRef(name: string, inherited: Option<Temporal>) returns (r: Answer)
      requires Takes(Ref(name), inherited)
      modifies this`seen
      ensures seen == old(seen)
      ensures Agrees(g, env.now, Expanded(Ref(name), inherited), r)
      ensures r.Ok? ==> InOrder(g, env, seen, Ref(name), inherited, r.value)
      decreases |env.named.Keys - seen|, Ref(name), 0
    {
      if name in seen {
        return Err(RecursiveQuery(name));
      }
      if name !in env.named {
        return Err(UnknownQuery(name));
      }
      SubsetSmaller(env.named.Keys - (seen + {name}), env.named.Keys - seen);
      ghost var before := seen;
      seen := seen + {name};
      r := Eval(env.named[name], inherited);
      seen := seen - {name};
      assert seen == before;
    }

    // The node map is enumerated in no particular order.
    method AllBut(ids: seq<Id>) returns (out: seq<Id>)
      ensures Distinct(out) && forall id :: id in out <==> id in g.nodes && id !in ids
    {
      var todo := g.nodes.Keys;
      out := [];
      while todo != {}
        invariant todo <= g.nodes.Keys && Distinct(out)
        invariant forall id :: id in out <==> id in g.nodes && id !in todo && id !in ids
      {
        var id :| id in todo;
        todo := todo - {id};
        if id !in ids {
          DistinctAppend(out, id);
          out := out + [id];
        }
      }
    }

    method EvalTerm(ghost q: Query, ghost terms: seq<Query>, t: Query, inherited: Option<Temporal>)
      returns (r: Result<set<Id>, Failure>)
      requires Takes(q, inherited) && (q == Inter(terms) || q == Union(terms)) && t in terms && Takes(t, inherited)
      modifies this`seen
      ensures seen == old(seen)
      ensures r.Ok? ==>
                && TermExpands(Here(inherited), t)
                && forall id :: id in r.value <==> TermDenotes(Here(inherited), t, id)
      ensures r.Err? ==> Agrees(g, env.now, Expanded(q, inherited), Err(r.error))
      decreases |env.named.Keys - seen|, terms, 0
    {
      var sub := Eval(t, inherited);
      if sub.Ok? {
        return Ok(set id | id in sub.value);
      }
      r := Err(sub.error);
      ExpandAllPointwise(env.named, seen, terms, inherited);
      ghost var x := Expanded(q, inherited);
      ghost var i :| 0 <= i < |terms| && terms[i] == t;
      if x.Ok? {
        assert Expand(env.named, seen, t, inherited).value in x.value.terms;
      }
    }

    method EvalInter(ghost q: Query, terms: seq<Query>, inherited: Option<Temporal>) returns (r: Answer)
      requires Takes(q, inherited) && q == Inter(terms)
      modifies this`seen
      ensures seen == old(seen)
      ensures Agrees(g, env.now, Expanded(q, inherited), r)
      ensures r.Ok? ==> Ascending(r.value)
      decreases |env.named.Keys - seen|, terms, 1
    {
      var acc: Option<set<Id>> := None;
      TermsReady(g, env.now, reach, q, terms);
      for i := 0 to |terms|
        invariant seen == old(seen)
        invariant AllReady(Here(inherited), terms[..i]) && AllReady(Here(inherited), terms)
        invariant TermsExpand(Here(inherited), terms[..i]) && InEvery(Here(inherited), terms[..i], acc)
      {
        var s := EvalTerm(q, terms, terms[i], inherited);
        if s.Err? {
          return Err(s.error);
        }
        OneMoreTerm(Here(inherited), terms[..i], terms[i], s.value, acc, {});
        TakeNext(terms, i);
        acc := if acc.None? then Some(s.value) else Some(acc.value * s.value);
      }
      assert terms[..|terms|] == terms;
      var ids := Keys(if acc.None? then {} else acc.value);
      KeysDistinct(ids, if acc.None? then {} else acc.value);
      InterAgrees(Here(inherited), terms, ids);
      r := Ok(ids);
    }

    method EvalUnion(ghost q: Query, terms: seq<Query>, inherited: Option<Temporal>) returns (r: Answer)
      requires Takes(q, inherited) && q == Union(terms)
      modifies this`seen
      ensures seen == old(seen)
      ensures Agrees(g, env.now, Expanded(q, inherited), r)
      ensures r.Ok? ==> Ascending(r.value)
      decreases |env.named.Keys - seen|, terms, 1
    {
      var acc: set<Id> := {};
      TermsReady(g, env.now, reach, q, terms);
      for i := 0 to |terms|
        invariant seen == old(seen)
        invariant AllReady(Here(inherited), terms[..i]) && AllReady(Here(inherited), terms)
        invariant TermsExpand(Here(inherited), terms[..i]) && InSome(Here(inherited), terms[..i], acc)
      {
        var s := EvalTerm(q, terms, terms[i], inherited);
        if s.Err? {
          return Err(s.error);
        }
        OneMoreTerm(Here(inherited), terms[..i], terms[i], s.value, None, acc);
        TakeNext(terms, i);
        acc := acc + s.value;
      }
      assert terms[..|terms|] == terms;
      var ids := Keys(acc);
      KeysDistinct(ids, acc);
      UnionAgrees(Here(inherited), terms, ids);
      r := Ok(ids);
    }
  }

  // Graph.Eval.
  method Evaluate(g: Graph, env: Env, incident: map<Id, seq<Edge>>, q: Query) returns (r: Answer)
    requires Evaluable(g, env.now, env.named, q) && Indexes(g, g.edges, incident)
    ensures GoodFor(g, env.now, Expand(env.named, {}, q, None))
    ensures Agrees(g, env.now, Expand(env.named, {}, q, None), r)
    ensures Expand(env.named, {}, q, None).Err? <==> Broken(env.named, {}, Names(q))
    ensures r.Err? <==> var e := Expand(env.named, {}, q, None); e.Err? || !Unambiguous(g, env.now, e.value)
    ensures r.Ok? ==> InOrder(g, env, {}, q, None, r.value)
  {
    ghost var reach :| Ready(g, env.now, reach, q) && ReadyLibrary(g, env.now, reach, env.named);
    var e := new Evaluator(g, env, incident, reach);
    UngatedMembershipStratified(g, "");
    ExpansionIsGood(g, env.now, reach, env.named, {}, q, None);
    ExpansionFailsIff(env.named, {}, q, None);
    r := e.Eval(q, None);
  }
}
