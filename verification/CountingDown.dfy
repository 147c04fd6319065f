// Why the least fixed point needs rules that never count down, and that nothing
// more is needed: the exact condition on a rule.
module CountingDown {
  import opened Strings
  import opened Comparison
  import opened Graphs
  import opened Sorting
  import opened Satisfaction

  // Every group counts by the rule or by `any`.
  predicate UsesOnly(g: Graph, rule: Rule) {
    forall id | id in g.nodes && g.nodes[id].kind.Group? :: RuleOf(g.nodes[id].groupExpr) in {rule, AnyOf}
  }

  ghost predicate AnswersLeast(g: Graph, at: string)
    requires Stratified(g, at)
  {
    forall id :: Sat(g, at, id, {}) <==> id in LeastFixedPoint(g, at, {})
  }

  ghost predicate Consistent(g: Graph, at: string)
    requires Stratified(g, at)
  {
    exists V :: FixedPoint(g, at, {}, V)
  }

  // ── a graph at the tipping point ──

  function Member(src: Id, dst: Id): Edge { Edge(src, dst, MemberOf, "", "", "", false, "") }

  function MembersOf(claims: seq<Id>, x: Id): seq<Edge> {
    seq(|claims|, i requires 0 <= i < |claims| => Member(claims[i], x))
  }

  // Group x has settled claims for members and the group y, whose only member is
  // x. When y counts by `any` it holds exactly when x does, and at the tipping
  // point of its rule x holds exactly when y does not.
  ghost predicate Shaped(g: Graph, x: Id, y: Id, claims: seq<Id>) {
    && x != y && x !in claims && y !in claims
    && g.nodes.Keys == (set id | id in claims) + {x, y}
    && g.edges == MembersOf(claims, x) + [Member(y, x)] + [Member(x, y)]
    && (forall id | id in g.nodes ::
          g.nodes[id].gate == "" && g.nodes[id].kind == if id in claims then Claim else Group)
    && (forall id | id in claims :: Settled(g.nodes[id].status))
  }

  lemma ShapedIsStratified(g: Graph, x: Id, y: Id, claims: seq<Id>)
    requires Shaped(g, x, y, claims)
    ensures Stratified(g, "")
  {
    UngatedMembershipStratified(g, "");
  }

  // ── its members ──

  lemma SourcesSnoc(g: Graph, es: seq<Edge>, e: Edge, id: Id, live: set<Edge>)
    requires Grounded(g, e) && e.src != e.dst && (e in live <==> e.dst == id)
    ensures SourcesIn(IncidentIn(g, es + [e], id), live) ==
            SourcesIn(IncidentIn(g, es, id), live) + if e.dst == id then [e.src] else []
  {
    IncidentSnoc(g, es, e, id);
    var xs := IncidentIn(g, es, id);
    if Joins(e, id) {
      assert Listed(g, e, id) == [e];
      SourcesOf(xs, e, live);
    } else {
      assert xs + [] == xs;
    }
  }

  lemma SourcesOf(xs: seq<Edge>, e: Edge, live: set<Edge>)
    ensures SourcesIn(xs + [e], live) == SourcesIn(xs, live) + if e in live then [e.src] else []
  {
    assert (xs + [e])[..|xs|] == xs;
  }

  lemma {:induction false} ClaimsAreMembers(g: Graph, claims: seq<Id>, x: Id, live: set<Edge>)
    requires x in g.nodes && x !in claims && forall id | id in claims :: id in g.nodes && Member(id, x) in live
    ensures SourcesIn(IncidentIn(g, MembersOf(claims, x), x), live) == claims
  {
    if claims != [] {
      var init, last := claims[..|claims| - 1], claims[|claims| - 1];
      assert claims == init + [last];
      assert MembersOf(claims, x) == MembersOf(init, x) + [Member(last, x)];
      assert last in claims;
      ClaimsAreMembers(g, init, x, live);
      SourcesSnoc(g, MembersOf(init, x), Member(last, x), x, live);
    }
  }

  lemma UntimedMembershipsLive(g: Graph, id: Id, e: Edge)
    requires Stratified(g, "") && e in g.edges && Grounded(g, e) && e.typ.MemberOf?
    ensures e in LiveMemberships(g, "", id) <==> e.dst == id
  {
    IncidentExact(g, id, e);
  }

  lemma TippingMembers(g: Graph, x: Id, y: Id, claims: seq<Id>)
    requires Shaped(g, x, y, claims) && Stratified(g, "")
    ensures multiset(Members(g, "", x)) == multiset(claims + [y])
  {
    var live, es, yx, xy := LiveMemberships(g, "", x), MembersOf(claims, x), Member(y, x), Member(x, y);
    forall id | id in claims
      ensures Member(id, x) in live
    {
      var i :| 0 <= i < |claims| && claims[i] == id;
      assert es[i] == Member(id, x) && g.edges[i] == es[i];
      UntimedMembershipsLive(g, x, Member(id, x));
    }
    assert g.edges[|es|] == yx && g.edges[|es| + 1] == xy;
    UntimedMembershipsLive(g, x, yx);
    UntimedMembershipsLive(g, x, xy);
    ClaimsAreMembers(g, claims, x, live);
    SourcesSnoc(g, es, yx, x, live);
    SourcesSnoc(g, es + [yx], xy, x, live);
  }

  lemma OneEdgeInto(g: Graph, x: Id, y: Id, claims: seq<Id>, e: Edge)
    requires Shaped(g, x, y, claims) && e in g.edges && e.dst == y
    ensures e == Member(x, y)
  {}

  lemma AnyMembers(g: Graph, x: Id, y: Id, claims: seq<Id>)
    requires Shaped(g, x, y, claims) && Stratified(g, "")
    ensures forall m :: m in Members(g, "", y) <==> m == x
  {
    var live, xy := LiveMemberships(g, "", y), Member(x, y);
    assert g.edges[|claims| + 1] == xy;
    UntimedMembershipsLive(g, y, xy);
    IncidentExact(g, y, xy);
    forall e | e in live && e in Incident(g, y)
      ensures e == xy
    {
      IncidentExact(g, y, e);
      OneEdgeInto(g, x, y, claims, e);
    }
    SameElements(SourcesIn(Incident(g, y), live), Members(g, "", y));
  }

  // ── counting ──

  lemma {:induction false} CountOneMore(a: seq<Id>, x: Id, b: seq<Id>, V: set<Id>)
    ensures CountIn(a + [x] + b, V) == CountIn(a + b, V) + if x in V then 1 else 0
  {
    if b == [] {
      assert a + [x] + b == a + [x] && a + b == a && (a + [x])[..|a|] == a;
    } else {
      var init, last := b[..|b| - 1], b[|b| - 1];
      CountOneMore(a, x, init, V);
      assert (a + [x] + b)[..|a| + |b|] == a + [x] + init && (a + b)[..|a| + |b| - 1] == a + init;
    }
  }

  lemma {:induction false} CountPermuted(a: seq<Id>, b: seq<Id>, V: set<Id>)
    requires multiset(a) == multiset(b)
    ensures CountIn(a, V) == CountIn(b, V)
  {
    assert |multiset(a)| == |a| && |multiset(b)| == |b|;
    if a != [] {
      var init, x := a[..|a| - 1], a[|a| - 1];
      assert a == init + [x];
      assert x in multiset(b);
      var i :| 0 <= i < |b| && b[i] == x;
      assert b == b[..i] + [x] + b[i + 1..];
      assert multiset(b) == multiset(b[..i] + b[i + 1..]) + multiset{x};
      assert multiset(a) == multiset(init) + multiset{x};
      assert multiset(init) == multiset(b) - multiset{x};
      CountOneMore(b[..i], x, b[i + 1..], V);
      CountPermuted(init, b[..i] + b[i + 1..], V);
    }
  }

  lemma {:induction false} CountAll(ids: seq<Id>, V: set<Id>)
    requires forall id | id in ids :: id in V
    ensures CountIn(ids, V) == |ids|
  {
    if ids != [] {
      assert ids[|ids| - 1] in ids;
      CountAll(ids[..|ids| - 1], V);
    }
  }

  lemma {:induction false} CountNone(ids: seq<Id>, V: set<Id>)
    requires forall id | id in ids :: id !in V
    ensures CountIn(ids, V) == 0
  {
    if ids != [] {
      assert ids[|ids| - 1] in ids;
      CountNone(ids[..|ids| - 1], V);
    }
  }

  // ── its equations ──

  lemma TippingEquation(g: Graph, x: Id, y: Id, claims: seq<Id>, V: set<Id>)
    requires Shaped(g, x, y, claims) && Stratified(g, "") && forall id | id in claims :: id in V
    ensures Holds(g, "", x, V) <==>
            Aggregate(RuleOf(g.nodes[x].groupExpr), |claims| + 1, if y in V then |claims| + 1 else |claims|)
  {
    var ms := Members(g, "", x);
    TippingMembers(g, x, y, claims);
    CountWithOneMore(ms, claims, y, V);
  }

  lemma CountWithOneMore(ms: seq<Id>, claims: seq<Id>, y: Id, V: set<Id>)
    requires multiset(ms) == multiset(claims + [y]) && forall id | id in claims :: id in V
    ensures |ms| == |claims| + 1 && CountIn(ms, V) == |claims| + if y in V then 1 else 0
  {
    assert |multiset(ms)| == |ms| && |multiset(claims + [y])| == |claims| + 1;
    CountPermuted(ms, claims + [y], V);
    CountAll(claims, V);
    assert (claims + [y])[..|claims|] == claims;
  }

  lemma AnyEquation(g: Graph, x: Id, y: Id, claims: seq<Id>, V: set<Id>)
    requires Shaped(g, x, y, claims) && Stratified(g, "") && RuleOf(g.nodes[y].groupExpr) == AnyOf
    ensures Holds(g, "", y, V) <==> x in V
  {
    AnyMembers(g, x, y, claims);
    var ms := Members(g, "", y);
    assert x in ms;
    if x in V {
      CountAll(ms, V);
    } else {
      CountNone(ms, V);
    }
  }

  // The equations of such a graph: the claims hold, y is what x is, and x counts
  // s claims and whether y holds.
  ghost predicate Equations(g: Graph, x: Id, y: Id, claims: set<Id>, rule: Rule, s: nat, V: set<Id>)
    requires Stratified(g, "")
  {
    && (forall id | id in claims :: Holds(g, "", id, V))
    && (Holds(g, "", y, V) <==> x in V)
    && (claims <= V ==> (Holds(g, "", x, V) <==> Aggregate(rule, s + 1, if y in V then s + 1 else s)))
  }

  ghost predicate Tips(g: Graph, x: Id, y: Id, claims: set<Id>, rule: Rule, s: nat)
    requires Stratified(g, "")
  {
    && g.nodes.Keys == claims + {x, y} && x != y && x !in claims && y !in claims
    && Aggregate(rule, s + 1, s) && !Aggregate(rule, s + 1, s + 1)
    && forall V :: Equations(g, x, y, claims, rule, s, V)
  }

  lemma ShapedTips(g: Graph, x: Id, y: Id, claims: seq<Id>, rule: Rule)
    requires Shaped(g, x, y, claims) && Stratified(g, "")
    requires RuleOf(g.nodes[x].groupExpr) == rule && RuleOf(g.nodes[y].groupExpr) == AnyOf
    requires Aggregate(rule, |claims| + 1, |claims|) && !Aggregate(rule, |claims| + 1, |claims| + 1)
    ensures Tips(g, x, y, (set id | id in claims), rule, |claims|)
  {
    var cs := set id | id in claims;
    forall V
      ensures Equations(g, x, y, cs, rule, |claims|, V)
    {
      AnyEquation(g, x, y, claims, V);
      if cs <= V {
        TippingEquation(g, x, y, claims, V);
      }
    }
  }

  // ── at the tipping point ──

  // Evaluation answers true, the least fixed point does not hold the group, and
  // nothing solves the equations.

  lemma EvaluatesTrue(g: Graph, x: Id, y: Id, claims: set<Id>, rule: Rule, s: nat)
    requires Stratified(g, "") && Tips(g, x, y, claims, rule, s)
    ensures Sat(g, "", x, {})
  {
    var path := {} + {x};
    forall id | id in claims
      ensures id in TrueUnder(g, "", path)
    {
      SatUnfold(g, "", id, path);
      assert Equations(g, x, y, claims, rule, s, TrueUnder(g, "", path + {id}));
    }
    SatUnfold(g, "", y, path);
    assert Equations(g, x, y, claims, rule, s, TrueUnder(g, "", path + {y}));
    SatUnfold(g, "", x, {});
    assert Equations(g, x, y, claims, rule, s, TrueUnder(g, "", path));
  }

  lemma ClosedWithout(g: Graph, x: Id, y: Id, claims: set<Id>, rule: Rule, s: nat)
    requires Stratified(g, "") && Tips(g, x, y, claims, rule, s)
    ensures Closed(g, "", {}, claims + {y})
  {
    assert Equations(g, x, y, claims, rule, s, claims + {y});
  }

  lemma NotLeast(g: Graph, x: Id, y: Id, claims: set<Id>, rule: Rule, s: nat)
    requires Stratified(g, "") && Tips(g, x, y, claims, rule, s)
    ensures x !in LeastFixedPoint(g, "", {})
  {
    ClosedWithout(g, x, y, claims, rule, s);
    assert x !in claims + {y};
  }

  lemma NoSolution(g: Graph, x: Id, y: Id, claims: set<Id>, rule: Rule, s: nat, V: set<Id>)
    requires Stratified(g, "") && Tips(g, x, y, claims, rule, s)
    ensures !FixedPoint(g, "", {}, V)
  {
    assert Equations(g, x, y, claims, rule, s, V);
    if FixedPoint(g, "", {}, V) {
      forall id | id in claims
        ensures id in V
      {
        SolvesAt(g, id, V);
      }
      SolvesAt(g, x, V);
      SolvesAt(g, y, V);
    }
  }

  lemma SolvesAt(g: Graph, id: Id, V: set<Id>)
    requires Stratified(g, "") && FixedPoint(g, "", {}, V)
    ensures id in V <==> Holds(g, "", id, V)
  {}

  lemma TippedFails(g: Graph, x: Id, y: Id, claims: set<Id>, rule: Rule, s: nat)
    requires Stratified(g, "") && Tips(g, x, y, claims, rule, s)
    ensures !AnswersLeast(g, "") && !Consistent(g, "")
  {
    EvaluatesTrue(g, x, y, claims, rule, s);
    NotLeast(g, x, y, claims, rule, s);
    forall V
      ensures !FixedPoint(g, "", {}, V)
    {
      NoSolution(g, x, y, claims, rule, s, V);
    }
  }

  // ── there is one for every rule that counts down ──

  function Name(i: nat): (id: Id)
    ensures |id| == i + 2
  {
    seq(i + 2, _ => 'p')
  }

  function Names(s: nat): seq<Id> { seq(s, i requires 0 <= i < s => Name(i)) }

  function TippingGraph(x: Id, y: Id, claims: seq<Id>, expr: string): Graph {
    Graph(map id | id in claims + [x, y] ::
            Node(id, if id in claims then Claim else Group, "", if id in claims then Asserted else Unset,
                 "", "", "", "", if id == y then "any" else expr, "", []),
          MembersOf(claims, x) + [Member(y, x)] + [Member(x, y)], map[], map[], map[], PlainNumeral)
  }

  lemma AnyReads()
    ensures RuleOf("any") == AnyOf
  {
    assert TrimLeft("any") == "any" && TrimRight("any") == "any";
  }

  lemma TippingGraphShaped(x: Id, y: Id, claims: seq<Id>, expr: string)
    requires x != y && x !in claims && y !in claims
    ensures Shaped(TippingGraph(x, y, claims, expr), x, y, claims)
    ensures UsesOnly(TippingGraph(x, y, claims, expr), RuleOf(expr))
  {
    AnyReads();
  }

  lemma TippingGraphFails(expr: string) returns (g: Graph)
    requires !Monotone(RuleOf(expr))
    ensures Stratified(g, "") && UsesOnly(g, RuleOf(expr)) && !AnswersLeast(g, "") && !Consistent(g, "")
  {
    var s := Tipping(RuleOf(expr));
    var x, y, claims := "g", "h", Names(s);
    g := TippingGraph(x, y, claims, expr);
    assert forall id | id in claims :: |id| >= 2;
    AnyReads();
    TippingTips(RuleOf(expr));
    TippingGraphShaped(x, y, claims, expr);
    ShapedIsStratified(g, x, y, claims);
    ShapedTips(g, x, y, claims, RuleOf(expr));
    TippedFails(g, x, y, (set id | id in claims), RuleOf(expr), s);
  }

  // ── the exact condition ──

  // Evaluation answers membership in the least fixed point on every graph that
  // counts by a rule, exactly when the rule never counts down; and exactly then
  // the equations of all those graphs have a solution at all.
  lemma LeastFixedPointIff(expr: string)
    ensures (forall g, at | Stratified(g, at) && UsesOnly(g, RuleOf(expr)) :: AnswersLeast(g, at))
            <==> NonDecreasing(RuleOf(expr))
    ensures (forall g, at | Stratified(g, at) && UsesOnly(g, RuleOf(expr)) :: Consistent(g, at))
            <==> NonDecreasing(RuleOf(expr))
  {
    MonotoneIffNonDecreasing(RuleOf(expr));
    if Monotone(RuleOf(expr)) {
      forall g, at | Stratified(g, at) && UsesOnly(g, RuleOf(expr))
        ensures AnswersLeast(g, at) && Consistent(g, at)
      {
        MonotoneAnswersLeast(g, at);
      }
    } else {
      var g := TippingGraphFails(expr);
    }
  }

  lemma MonotoneAnswersLeast(g: Graph, at: string)
    requires Stratified(g, at) && MonotoneGroups(g)
    ensures AnswersLeast(g, at) && Consistent(g, at)
  {
    forall id
      ensures Sat(g, at, id, {}) <==> id in LeastFixedPoint(g, at, {})
    {
      SatIsLeastFixedPoint(g, at, id, {});
    }
    LeastFixedPointIsFixed(g, at, {});
  }

  // ── the smallest case ──

  // One group, its only member itself.
  function LoneGroup(id: Id, expr: string, gate: Id): Graph {
    var n := Node(id, Group, "", Unset, "", "", "", "", expr, "", []);
    Graph(map[id := n], [Edge(id, id, MemberOf, "", "", gate, false, "")], map[], map[], map[], PlainNumeral)
  }

  lemma LoneGroupIsOwnOnlyMember(id: Id, expr: string)
    requires Stratified(LoneGroup(id, expr, ""), "")
    ensures forall m :: m in Members(LoneGroup(id, expr, ""), "", id) <==> m == id
  {
    var g := LoneGroup(id, expr, "");
    var e, es, live := g.edges[0], Incident(g, id), LiveMemberships(g, "", id);
    IncidentExact(g, id, e);
    UntimedMembershipsLive(g, id, e);
    forall d | d in live && d in es
      ensures d == e
    {
      IncidentExact(g, id, d);
    }
    SameElements(SourcesIn(es, live), Members(g, "", id));
  }

  // A `none` group that is its own member has no consistent answer; the path cut
  // still answers, and answers true.
  lemma DownwardCountOnACycle(g: Graph, id: Id)
    requires Stratified(g, "") && id in g.nodes && g.nodes[id].kind.Group? && g.nodes[id].gate == ""
    requires RuleOf(g.nodes[id].groupExpr) == NoneOf && forall m :: m in Members(g, "", id) <==> m == id
    ensures Sat(g, "", id, {}) && !Consistent(g, "")
  {
    SatUnfold(g, "", id, {});
    NoneFlips(g, id, TrueUnder(g, "", {} + {id}));
    forall V
      ensures !FixedPoint(g, "", {}, V)
    {
      NoneFlips(g, id, V);
      assert id in V <==> !Holds(g, "", id, V);
    }
  }

  lemma NoneFlips(g: Graph, id: Id, V: set<Id>)
    requires Stratified(g, "") && id in g.nodes && g.nodes[id].kind.Group? && g.nodes[id].gate == ""
    requires RuleOf(g.nodes[id].groupExpr) == NoneOf && forall m :: m in Members(g, "", id) <==> m == id
    ensures Holds(g, "", id, V) <==> id !in V
  {
    var ms := Members(g, "", id);
    assert id in ms;
    if id in V { CountAll(ms, V); } else { CountNone(ms, V); }
  }

  lemma LoneNoneGroup(id: Id)
    ensures var g := LoneGroup(id, "none", "");
            Stratified(g, "") && Sat(g, "", id, {}) && !Consistent(g, "")
  {
    var g := LoneGroup(id, "none", "");
    UngatedMembershipStratified(g, "");
    LoneGroupIsOwnOnlyMember(id, "none");
    assert TrimLeft("none") == "none" && TrimRight("none") == "none";
    DownwardCountOnACycle(g, id);
  }
}
