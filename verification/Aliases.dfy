// Names that denote different nodes in different periods, and the reference
// resolution that reads them.
module Aliases {
  import opened Options
  import opened Comparison
  import opened Graphs
  import opened Sorting

  // Half-open [from, until); an undated query sees every binding.
  predicate Holds(num: Reading, a: Alias, at: string) {
    at == "" || ((a.from != "" ==> Compare(num, at, a.from) >= 0) && (a.until != "" ==> Compare(num, at, a.until) < 0))
  }

  predicate Overlaps(num: Reading, a: Alias, b: Alias) {
    && !(a.until != "" && b.from != "" && Compare(num, a.until, b.from) <= 0)
    && !(b.until != "" && a.from != "" && Compare(num, b.until, a.from) <= 0)
  }

  predicate Dated(a: Alias) {
    (a.from == "" || DateLiteral(a.from)) && (a.until == "" || DateLiteral(a.until))
  }

  ghost predicate InForceSometime(num: Reading, a: Alias) { exists at :: DateLiteral(at) && Holds(num, a, at) }

  lemma DatesOrdered(num: Reading, x: string, y: string, z: string)
    requires ReadsDates(num) && DateLiteral(x) && DateLiteral(y) && DateLiteral(z)
    ensures Compare(num, x, y) <= 0 && Compare(num, y, z) <= 0 ==> Compare(num, x, z) <= 0
    ensures Compare(num, x, y) < 0 && Compare(num, y, z) <= 0 ==> Compare(num, x, z) < 0
    ensures Compare(num, x, y) <= 0 && Compare(num, y, z) < 0 ==> Compare(num, x, z) < 0
    ensures Compare(num, x, y) == -Compare(num, y, x)
  {
    CompareOnDatesIsLexical(num, x, y);
    if Compare(num, x, y) <= 0 && Compare(num, y, z) <= 0 {
      CompareOnDatesTransitive(num, x, y, z);
    }
  }

  // Windows that do not overlap are never in force on one date.
  lemma DisjointWindowsNeverBothHold(num: Reading, a: Alias, b: Alias, at: string)
    requires ReadsDates(num) && Dated(a) && Dated(b) && DateLiteral(at) && !Overlaps(num, a, b)
    ensures !(Holds(num, a, at) && Holds(num, b, at))
  {
    if a.until != "" && b.from != "" && Compare(num, a.until, b.from) <= 0 {
      DatesOrdered(num, at, a.until, b.from);
      DatesOrdered(num, at, b.from, at);
    } else {
      DatesOrdered(num, at, b.until, a.from);
      DatesOrdered(num, at, a.from, at);
    }
  }

  lemma EarlierWindowMeetsLater(num: Reading, a: Alias, b: Alias, da: string, db: string) returns (at: string)
    requires ReadsDates(num) && Dated(a) && Dated(b) && DateLiteral(da) && DateLiteral(db)
    requires Overlaps(num, a, b) && Holds(num, a, da) && Holds(num, b, db) && Compare(num, da, db) <= 0
    ensures DateLiteral(at) && Holds(num, a, at) && Holds(num, b, at)
  {
    if b.from == "" || Compare(num, b.from, da) <= 0 {
      at := da;
      if b.from != "" { DatesOrdered(num, b.from, da, da); }
      if b.until != "" { DatesOrdered(num, da, db, b.until); }
    } else {
      at := b.from;
      DatesOrdered(num, b.from, da, b.from);
      if a.from != "" {
        DatesOrdered(num, a.from, da, b.from);
        DatesOrdered(num, da, a.from, da);
        DatesOrdered(num, b.from, a.from, b.from);
      }
      if a.until != "" { DatesOrdered(num, a.until, b.from, a.until); }
      if b.until != "" {
        DatesOrdered(num, db, b.from, db);
        DatesOrdered(num, b.from, db, b.until);
      }
      CompareOnDatesIsLexical(num, b.from, b.from);
    }
  }

  // For windows that are in force at all, `overlaps` is exactly sharing a date.
  lemma OverlapsIsSharingADate(num: Reading, a: Alias, b: Alias)
    requires ReadsDates(num) && Dated(a) && Dated(b) && InForceSometime(num, a) && InForceSometime(num, b)
    ensures Overlaps(num, a, b) <==> exists at :: DateLiteral(at) && Holds(num, a, at) && Holds(num, b, at)
  {
    if Overlaps(num, a, b) {
      var da :| DateLiteral(da) && Holds(num, a, da);
      var db :| DateLiteral(db) && Holds(num, b, db);
      DatesOrdered(num, da, db, da);
      if Compare(num, da, db) <= 0 {
        var at := EarlierWindowMeetsLater(num, a, b, da, db);
      } else {
        var at := EarlierWindowMeetsLater(num, b, a, db, da);
      }
    } else {
      forall at | DateLiteral(at)
        ensures !(Holds(num, a, at) && Holds(num, b, at))
      {
        DisjointWindowsNeverBothHold(num, a, b, at);
      }
    }
  }

  // ── the check ──

  predicate Disjoint(num: Reading, bs: seq<Binding>) {
    forall i, j | 0 <= i < j < |bs| :: !Overlaps(num, bs[i].alias, bs[j].alias)
  }

  // The pairwise pass of checkAliases over one name's bindings: every overlapping
  // pair is reported, once, and nothing else is.
  method OverlappingPairs(num: Reading, bs: seq<Binding>) returns (pairs: seq<(nat, nat)>)
    ensures forall p :: p in pairs <==> p.0 < p.1 < |bs| && Overlaps(num, bs[p.0].alias, bs[p.1].alias)
    ensures Distinct(pairs)
    ensures pairs == [] <==> Disjoint(num, bs)
  {
    pairs := [];
    for i := 0 to |bs|
      invariant forall p :: p in pairs <==> p.0 < p.1 < |bs| && p.0 < i && Overlaps(num, bs[p.0].alias, bs[p.1].alias)
      invariant Distinct(pairs)
    {
      for j := i + 1 to |bs|
        invariant forall p :: p in pairs <==>
                    && p.0 < p.1 < |bs| && (p.0 < i || (p.0 == i && p.1 < j))
                    && Overlaps(num, bs[p.0].alias, bs[p.1].alias)
        invariant Distinct(pairs)
      {
        if Overlaps(num, bs[i].alias, bs[j].alias) {
          DistinctAppend(pairs, (i, j));
          pairs := pairs + [(i, j)];
        }
      }
    }
    assert pairs != [] ==> pairs[0] in pairs;
    if !Disjoint(num, bs) {
      var i: nat, j: nat :| i < j < |bs| && Overlaps(num, bs[i].alias, bs[j].alias);
      assert (i, j) in pairs;
    }
  }

  // ── references ──

  function Hits(num: Reading, bs: seq<Binding>, at: string): (hits: seq<Binding>)
    ensures forall b :: b in hits <==> b in bs && Holds(num, b.alias, at)
  {
    if bs == [] then []
    else (if Holds(num, bs[0].alias, at) then [bs[0]] else []) + Hits(num, bs[1..], at)
  }

  function Bindings(g: Graph, name: string): seq<Binding> {
    if name in g.aliases then g.aliases[name] else []
  }

  // A literal id, then a retired id, then the alias in force; None is ambiguous.
  function ResolveRef(g: Graph, reference: string, at: string): Option<Id> {
    if reference in g.nodes then Some(reference)
    else if reference in g.retired then Some(g.retired[reference])
    else
      var hits := Hits(g.num, Bindings(g, reference), at);
      if |hits| == 1 then Some(hits[0].node)
      else if |hits| == 0 then Some(reference)
      else None
  }

  ghost predicate BothHold(num: Reading, bs: seq<Binding>, at: string, i: nat, j: nat) {
    i < j < |bs| && Holds(num, bs[i].alias, at) && Holds(num, bs[j].alias, at)
  }

  lemma AHit(num: Reading, bs: seq<Binding>, at: string) returns (j: nat)
    requires Hits(num, bs, at) != []
    ensures j < |bs| && Holds(num, bs[j].alias, at)
  {
    var b := Hits(num, bs, at)[0];
    assert b in Hits(num, bs, at);
    j :| j < |bs| && bs[j] == b;
  }

  lemma {:induction false} TwoHits(num: Reading, bs: seq<Binding>, at: string) returns (i: nat, j: nat)
    requires |Hits(num, bs, at)| >= 2
    ensures BothHold(num, bs, at, i, j)
  {
    if Holds(num, bs[0].alias, at) {
      i := 0;
      j := AHit(num, bs[1..], at);
    } else {
      i, j := TwoHits(num, bs[1..], at);
      i := i + 1;
    }
    j := j + 1;
  }

  // When the check reports no overlap for a name, no dated reference to it is
  // ambiguous.
  lemma CheckedNamesResolve(g: Graph, name: string, at: string)
    requires ReadsDates(g.num) && Disjoint(g.num, Bindings(g, name))
    requires forall b | b in Bindings(g, name) :: Dated(b.alias)
    requires DateLiteral(at)
    ensures ResolveRef(g, name, at).Some?
  {
    var bs := Bindings(g, name);
    if |Hits(g.num, bs, at)| >= 2 {
      var i, j := TwoHits(g.num, bs, at);
      DisjointWindowsNeverBothHold(g.num, bs[i].alias, bs[j].alias, at);
    }
  }

  // An undated reference is ambiguous exactly when the name has several bindings
  // and is neither a live nor a retired id.
  lemma UndatedAmbiguity(g: Graph, name: string)
    ensures ResolveRef(g, name, "").None? <==>
            name !in g.nodes && name !in g.retired && |Bindings(g, name)| >= 2
  {
    AllHit(g.num, Bindings(g, name));
  }

  lemma {:induction false} AllHit(num: Reading, bs: seq<Binding>)
    ensures Hits(num, bs, "") == bs
  {
    if bs != [] {
      AllHit(num, bs[1..]);
    }
  }
}
