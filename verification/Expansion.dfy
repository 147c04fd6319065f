// Queries without named references or enclosing scopes: every name inlined, every
// temporal context pushed to the patterns that carry none of their own.
module Expansion {
  import opened Options
  import opened Queries
  import opened Satisfaction
  import opened Sorting

  datatype Failure = UnknownQuery(name: string) | RecursiveQuery(name: string) | AmbiguousRef

  function Narrow(own: Option<Temporal>, inherited: Option<Temporal>): Option<Temporal> {
    if own.Some? then own else inherited
  }

  function Expand(named: map<string, Query>, seen: set<string>, q: Query, inherited: Option<Temporal>):
      Result<Query, Failure>
    decreases |named.Keys - seen|, q
  {
    match q
    case Match(p) => Ok(Match(p.(at := Narrow(p.at, inherited))))
    case Scoped(x, at, _) => Expand(named, seen, x, Narrow(at, inherited))
    case Not(x) =>
      (match Expand(named, seen, x, inherited)
       case Ok(e) => Ok(Not(e))
       case Err(f) => Err(f))
    case Inter(terms) =>
      (match ExpandAll(named, seen, terms, inherited)
       case Ok(es) => Ok(Inter(es))
       case Err(f) => Err(f))
    case Union(terms) =>
      (match ExpandAll(named, seen, terms, inherited)
       case Ok(es) => Ok(Union(es))
       case Err(f) => Err(f))
    case Ref(name) =>
      if name in seen then Err(RecursiveQuery(name))
      else if name !in named then Err(UnknownQuery(name))
      else
        SubsetSmaller(named.Keys - (seen + {name}), named.Keys - seen);
        Expand(named, seen + {name}, named[name], inherited)
  }

  function ExpandAll(named: map<string, Query>, seen: set<string>, qs: seq<Query>, inherited: Option<Temporal>):
      (r: Result<seq<Query>, Failure>)
    ensures r.Ok? ==> |r.value| == |qs|
    decreases |named.Keys - seen|, qs
  {
    if qs == [] then Ok([])
    else
      match Expand(named, seen, qs[0], inherited)
      case Err(f) => Err(f)
      case Ok(e) =>
        match ExpandAll(named, seen, qs[1..], inherited)
        case Err(f) => Err(f)
        case Ok(es) => Ok([e] + es)
  }

  lemma {:induction false} ExpandAllPointwise(
      named: map<string, Query>, seen: set<string>, qs: seq<Query>, inherited: Option<Temporal>)
    ensures ExpandAll(named, seen, qs, inherited).Ok? <==>
            forall i | 0 <= i < |qs| :: Expand(named, seen, qs[i], inherited).Ok?
    ensures ExpandAll(named, seen, qs, inherited).Ok? ==>
              forall i | 0 <= i < |qs| ::
                Expand(named, seen, qs[i], inherited) == Ok(ExpandAll(named, seen, qs, inherited).value[i])
  {
    if qs != [] {
      ExpandAllPointwise(named, seen, qs[1..], inherited);
      forall i | 1 <= i < |qs|
        ensures qs[i] == qs[1..][i - 1]
      {}
      if !ExpandAll(named, seen, qs, inherited).Ok? && Expand(named, seen, qs[0], inherited).Ok? {
        var i :| 0 <= i < |qs[1..]| && !Expand(named, seen, qs[1..][i], inherited).Ok?;
        assert !Expand(named, seen, qs[i + 1], inherited).Ok?;
      }
    }
  }

  // Neither a name nor a scope anywhere.
  predicate Flat(q: Query) {
    match q
    case Union(terms) => forall t | t in terms :: Flat(t)
    case Inter(terms) => forall t | t in terms :: Flat(t)
    case Not(x) => Flat(x)
    case Match(_) => true
    case Ref(_) => false
    case Scoped(_, _, _) => false
  }

  ghost predicate GoodExpansion(r: Result<Query, Failure>) {
    r.Ok? ==> Flat(r.value) && WellFormed(r.value)
  }

  lemma {:induction false} ExpansionIsFlat(
      named: map<string, Query>, seen: set<string>, q: Query, inherited: Option<Temporal>)
    requires WellFormed(q) && forall n | n in named :: WellFormed(named[n])
    ensures GoodExpansion(Expand(named, seen, q, inherited))
    decreases |named.Keys - seen|, q, 1
  {
    match q
    case Match(p) =>
    case Scoped(x, at, _) => ExpansionIsFlat(named, seen, x, Narrow(at, inherited));
    case Not(x) => ExpansionIsFlat(named, seen, x, inherited);
    case Ref(name) => NameExpandsFlat(named, seen, name, inherited);
    case _ => TermsExpandFlat(named, seen, q, q.terms, inherited);
  }

  lemma {:induction false} NameExpandsFlat(
      named: map<string, Query>, seen: set<string>, name: string, inherited: Option<Temporal>)
    requires forall n | n in named :: WellFormed(named[n])
    ensures GoodExpansion(Expand(named, seen, Ref(name), inherited))
    decreases |named.Keys - seen|, Ref(name), 0
  {
    if name !in seen && name in named {
      SubsetSmaller(named.Keys - (seen + {name}), named.Keys - seen);
      ExpansionIsFlat(named, seen + {name}, named[name], inherited);
    }
  }

  lemma {:induction false} TermsExpandFlat(
      named: map<string, Query>, seen: set<string>, q: Query, terms: seq<Query>, inherited: Option<Temporal>)
    requires (q == Inter(terms) || q == Union(terms)) && WellFormed(q) && forall n | n in named :: WellFormed(named[n])
    ensures GoodExpansion(Expand(named, seen, q, inherited))
    decreases |named.Keys - seen|, terms, 1
  {
    ExpansionsAreFlat(named, seen, terms, inherited);
    TermsAreFlat(ExpandAll(named, seen, terms, inherited));
  }

  lemma {:induction false} TermsAreFlat(r: Result<seq<Query>, Failure>)
    requires r.Ok? ==> forall e | e in r.value :: Flat(e) && WellFormed(e)
    ensures r.Ok? ==> Flat(Inter(r.value)) && WellFormed(Inter(r.value))
    ensures r.Ok? ==> Flat(Union(r.value)) && WellFormed(Union(r.value))
  {}

  lemma {:induction false} ExpansionsAreFlat(
      named: map<string, Query>, seen: set<string>, qs: seq<Query>, inherited: Option<Temporal>)
    requires (forall t | t in qs :: WellFormed(t)) && forall n | n in named :: WellFormed(named[n])
    ensures var r := ExpandAll(named, seen, qs, inherited);
            r.Ok? ==> forall e | e in r.value :: Flat(e) && WellFormed(e)
    decreases |named.Keys - seen|, qs, 0
  {
    ExpandAllPointwise(named, seen, qs, inherited);
    forall i | 0 <= i < |qs|
      ensures GoodExpansion(Expand(named, seen, qs[i], inherited))
    {
      ExpansionIsFlat(named, seen, qs[i], inherited);
    }
  }

  // ── when expansion fails ──

  // The names a query mentions itself.
  function Names(q: Query): set<string> {
    match q
    case Ref(name) => {name}
    case Match(_) => {}
    case Not(x) => Names(x)
    case Scoped(x, _, _) => Names(x)
    case Union(terms) => AllNames(terms)
    case Inter(terms) => AllNames(terms)
  }

  function AllNames(qs: seq<Query>): set<string> {
    if qs == [] then {} else Names(qs[0]) + AllNames(qs[1..])
  }

  // A chain of mentions starting at one of `names`, whose last name is undefined
  // or one it is still inside.
  ghost predicate BadChain(named: map<string, Query>, seen: set<string>, names: set<string>, chain: seq<string>)
    decreases |chain|
  {
    && chain != [] && chain[0] in names
    && if |chain| == 1 then chain[0] !in named || chain[0] in seen
       else chain[0] in named && BadChain(named, seen + {chain[0]}, Names(named[chain[0]]), chain[1..])
  }

  ghost predicate Broken(named: map<string, Query>, seen: set<string>, names: set<string>) {
    exists chain :: BadChain(named, seen, names, chain)
  }

  lemma BrokenName(named: map<string, Query>, seen: set<string>, name: string)
    ensures Broken(named, seen, {name}) <==>
            name in seen || name !in named || Broken(named, seen + {name}, Names(named[name]))
  {
    if name in seen || name !in named {
      assert BadChain(named, seen, {name}, [name]);
    } else {
      if chain :| BadChain(named, seen + {name}, Names(named[name]), chain) {
        var longer := [name] + chain;
        assert longer[1..] == chain;
        assert BadChain(named, seen, {name}, longer);
      }
      if chain :| BadChain(named, seen, {name}, chain) {
        assert chain[0] == name && |chain| > 1;
        assert BadChain(named, seen + {name}, Names(named[name]), chain[1..]);
      }
    }
  }

  lemma BrokenUnion(named: map<string, Query>, seen: set<string>, some: set<string>, rest: set<string>)
    ensures Broken(named, seen, some + rest) <==> Broken(named, seen, some) || Broken(named, seen, rest)
  {
    forall chain
      ensures BadChain(named, seen, some + rest, chain) <==>
              BadChain(named, seen, some, chain) || BadChain(named, seen, rest, chain)
    {}
  }

  // Expansion fails exactly when some chain of mentions ends undefined or comes
  // back to a name it is still inside.
  lemma {:induction false} ExpansionFailsIff(
      named: map<string, Query>, seen: set<string>, q: Query, inherited: Option<Temporal>)
    ensures Expand(named, seen, q, inherited).Err? <==> Broken(named, seen, Names(q))
    decreases |named.Keys - seen|, q
  {
    match q
    case Match(p) =>
      assert !Broken(named, seen, {});
    case Scoped(x, at, _) => ExpansionFailsIff(named, seen, x, Narrow(at, inherited));
    case Not(x) => ExpansionFailsIff(named, seen, x, inherited);
    case Ref(name) =>
      BrokenName(named, seen, name);
      if name !in seen && name in named {
        SubsetSmaller(named.Keys - (seen + {name}), named.Keys - seen);
        ExpansionFailsIff(named, seen + {name}, named[name], inherited);
      }
    case Inter(terms) => ExpansionsFailIff(named, seen, terms, inherited);
    case Union(terms) => ExpansionsFailIff(named, seen, terms, inherited);
  }

  lemma {:induction false} ExpansionsFailIff(
      named: map<string, Query>, seen: set<string>, qs: seq<Query>, inherited: Option<Temporal>)
    ensures ExpandAll(named, seen, qs, inherited).Err? <==> Broken(named, seen, AllNames(qs))
    decreases |named.Keys - seen|, qs
  {
    if qs == [] {
      assert !Broken(named, seen, {});
    } else {
      ExpansionFailsIff(named, seen, qs[0], inherited);
      ExpansionsFailIff(named, seen, qs[1..], inherited);
      BrokenUnion(named, seen, Names(qs[0]), AllNames(qs[1..]));
    }
  }

  // Expanding what is already flat changes nothing, with no library at all.
  lemma {:induction false} FlatExpandsToItself(q: Query)
    requires Flat(q)
    ensures Expand(map[], {}, q, None) == Ok(q)
    decreases q
  {
    match q
    case Match(p) =>
    case Not(x) => FlatExpandsToItself(x);
    case Inter(terms) => FlatsExpandToThemselves(terms);
    case Union(terms) => FlatsExpandToThemselves(terms);
  }

  lemma {:induction false} FlatsExpandToThemselves(qs: seq<Query>)
    requires forall t | t in qs :: Flat(t)
    ensures ExpandAll(map[], {}, qs, None) == Ok(qs)
    decreases qs
  {
    if qs != [] {
      HeadTail(qs);
      FlatExpandsToItself(qs[0]);
      FlatsExpandToThemselves(qs[1..]);
    }
  }
}
