// Whether a node holds: recursion through `while` chains and group membership,
// cut on the current path. Where no cycle passes through a group that counts
// downwards, the cut gives the one stratified solution of the node equations: the
// least fixed point when no group counts downwards at all, and the only fixed
// point when the equations are acyclic.
module Satisfaction {
  import opened Graphs
  import opened Sorting

  // Untimed evaluation looks at no window and no edge gate.
  predicate InWindow(g: Graph, at: string, e: Edge) {
    at == "" || ValidWindow(g.num, e.validFrom, e.validUntil, at)
  }

  // An edge's own `while` is evaluated with a fresh path, so nothing cuts a cycle
  // through it. Evaluation terminates when the nodes can be ranked so that a
  // membership edge within its window is gated only from below. This is enough,
  // and not needed: a gate that is never reached may break it.
  ghost predicate IsRank(g: Graph, at: string, rank: map<Id, nat>) {
    && rank.Keys == g.nodes.Keys
    && (forall id | id in g.nodes && g.nodes[id].gate != "" && g.nodes[id].gate in g.nodes ::
          rank[g.nodes[id].gate] <= rank[id])
    && (forall e | e in g.edges && Grounded(g, e) && e.typ.MemberOf? && InWindow(g, at, e) ::
          && rank[e.src] <= rank[e.dst]
          && (at != "" && e.gate != "" && e.gate in g.nodes ==> rank[e.gate] < rank[e.dst]))
  }

  ghost predicate Stratified(g: Graph, at: string) {
    exists rank :: IsRank(g, at, rank)
  }

  lemma UngatedMembershipStratified(g: Graph, at: string)
    requires at == "" || forall e | e in g.edges && e.typ.MemberOf? :: e.gate == ""
    ensures Stratified(g, at)
  {
    assert IsRank(g, at, map id | id in g.nodes :: 0);
  }

  ghost function Rank(g: Graph, at: string): (rank: map<Id, nat>)
    requires Stratified(g, at)
    ensures IsRank(g, at, rank)
  {
    var rank :| IsRank(g, at, rank);
    rank
  }

  ghost function Level(g: Graph, at: string, id: Id): nat
    requires Stratified(g, at)
  {
    if id in g.nodes then Rank(g, at)[id] + 1 else 0
  }

  // The level of the gate an edge is asked about, if it is asked at all.
  ghost function GateLevel(g: Graph, at: string, e: Edge): nat
    requires Stratified(g, at)
  {
    if at != "" && InWindow(g, at, e) && e.gate != "" then Level(g, at, e.gate) else 0
  }

  function SourcesIn(es: seq<Edge>, live: set<Edge>): (ids: seq<Id>)
    ensures forall id :: id in ids <==> exists e :: e in es && e in live && e.src == id
  {
    if es == [] then []
    else
      var e := es[|es| - 1];
      assert es == es[..|es| - 1] + [e];
      SourcesIn(es[..|es| - 1], live) + if e in live then [e.src] else []
  }

  function CountIn(ids: seq<Id>, V: set<Id>): (n: nat)
    ensures n <= |ids|
  {
    if ids == [] then 0
    else CountIn(ids[..|ids| - 1], V) + if ids[|ids| - 1] in V then 1 else 0
  }

  predicate EdgeLive(g: Graph, at: string, e: Edge)
    requires Stratified(g, at)
    decreases GateLevel(g, at, e), |g.nodes| + 1, 2
  {
    at == "" || (InWindow(g, at, e) && (e.gate == "" || Sat(g, at, e.gate, {})))
  }

  function LiveMemberships(g: Graph, at: string, id: Id): (live: set<Edge>)
    requires Stratified(g, at)
    ensures forall e | e in live :: e.typ.MemberOf? && e.dst == id && InWindow(g, at, e)
    decreases Level(g, at, id), 0, 0
  {
    set e | e in Incident(g, id) && e.typ.MemberOf? && e.dst == id &&
            (IncidentExact(g, id, e); EdgeLive(g, at, e))
  }

  function Members(g: Graph, at: string, id: Id): (ids: seq<Id>)
    requires Stratified(g, at)
    ensures forall m | m in ids :: m in g.nodes && Level(g, at, m) <= Level(g, at, id)
    decreases Level(g, at, id), 0, 1
  {
    var ids := SourcesIn(Incident(g, id), LiveMemberships(g, at, id));
    SameElements(ids, SortStrings(ids));
    assert forall e | e in Incident(g, id) :: e in g.edges && Grounded(g, e) by {
      forall e | e in Incident(g, id) ensures e in g.edges && Grounded(g, e) { IncidentExact(g, id, e); }
    }
    SortStrings(ids)
  }

  predicate Sat(g: Graph, at: string, id: Id, seen: set<Id>)
    requires Stratified(g, at)
    decreases Level(g, at, id), |g.nodes.Keys - seen|, 1
  {
    if id !in g.nodes || id in seen then false
    else
      var n, onPath := g.nodes[id], seen + {id};
      assert g.nodes.Keys - onPath < g.nodes.Keys - seen;
      SubsetSmaller(g.nodes.Keys - onPath, g.nodes.Keys - seen);
      if at != "" && !ValidAt(g, n, at) then false
      else if n.gate != "" && !Sat(g, at, n.gate, onPath) then false
      else if n.kind.Group? then
        var ms := Members(g, at, id);
        Aggregate(RuleOf(n.groupExpr), |ms|, CountIn(ms, (set m | m in ms && Sat(g, at, m, onPath))))
      else Settled(n.status)
  }

  lemma {:induction false} SubsetSmaller<T>(a: set<T>, b: set<T>)
    requires a < b
    ensures |a| < |b|
  {
    assert b == a + (b - a);
    assert |b| == |a| + |b - a|;
  }

  // ── the equations ──

  // The right-hand side of a node's equation, reading every other node from V.
  ghost predicate Holds(g: Graph, at: string, id: Id, V: set<Id>)
    requires Stratified(g, at)
  {
    && id in g.nodes
    && var n := g.nodes[id];
    && (at != "" ==> ValidAt(g, n, at))
    && (n.gate != "" ==> n.gate in V)
    && (if n.kind.Group? then
          Aggregate(RuleOf(n.groupExpr), |Members(g, at, id)|, CountIn(Members(g, at, id), V))
        else Settled(n.status))
  }

  ghost predicate Closed(g: Graph, at: string, blocked: set<Id>, V: set<Id>)
    requires Stratified(g, at)
  {
    forall id | id !in blocked && Holds(g, at, id, V) :: id in V
  }

  // The least solution, with the nodes in `blocked` forced false.
  ghost function LeastFixedPoint(g: Graph, at: string, blocked: set<Id>): set<Id>
    requires Stratified(g, at)
  {
    set id | id in g.nodes && forall V | Closed(g, at, blocked, V) :: id in V
  }

  ghost predicate FixedPoint(g: Graph, at: string, blocked: set<Id>, V: set<Id>)
    requires Stratified(g, at)
  {
    forall id :: id in V <==> id !in blocked && Holds(g, at, id, V)
  }

  predicate MonotoneGroups(g: Graph) {
    forall id | id in g.nodes && g.nodes[id].kind.Group? :: Monotone(RuleOf(g.nodes[id].groupExpr))
  }

  ghost function TrueUnder(g: Graph, at: string, seen: set<Id>): set<Id>
    requires Stratified(g, at)
  {
    set id | id in g.nodes && Sat(g, at, id, seen)
  }

  lemma {:induction false} CountAgree(ids: seq<Id>, V: set<Id>, W: set<Id>)
    requires forall id | id in ids :: id in V <==> id in W
    ensures CountIn(ids, V) == CountIn(ids, W)
  {
    if ids != [] {
      CountAgree(ids[..|ids| - 1], V, W);
    }
  }

  lemma {:induction false} CountMonotone(ids: seq<Id>, V: set<Id>, W: set<Id>)
    requires forall id | id in ids && id in V :: id in W
    ensures CountIn(ids, V) <= CountIn(ids, W)
  {
    if ids != [] {
      CountMonotone(ids[..|ids| - 1], V, W);
    }
  }

  lemma SatUnfold(g: Graph, at: string, id: Id, seen: set<Id>)
    requires Stratified(g, at)
    ensures Sat(g, at, id, seen) <==> id !in seen && Holds(g, at, id, TrueUnder(g, at, seen + {id}))
  {
    if id in g.nodes && id !in seen {
      var ms := Members(g, at, id);
      CountAgree(ms, (set m | m in ms && Sat(g, at, m, seen + {id})), TrueUnder(g, at, seen + {id}));
    }
  }

  lemma HoldsAgree(g: Graph, at: string, id: Id, V: set<Id>, W: set<Id>)
    requires Stratified(g, at) && id in g.nodes
    requires g.nodes[id].gate != "" ==> (g.nodes[id].gate in V <==> g.nodes[id].gate in W)
    requires g.nodes[id].kind.Group? ==> forall m | m in Members(g, at, id) :: m in V <==> m in W
    ensures Holds(g, at, id, V) <==> Holds(g, at, id, W)
  {
    if g.nodes[id].kind.Group? {
      CountAgree(Members(g, at, id), V, W);
    }
  }

  // ── layers ──

  // What a node depends on is no higher than the node, and the members of a group
  // that counts downwards are lower.
  ghost predicate LayeredAt(g: Graph, at: string, level: map<Id, nat>, id: Id)
    requires Stratified(g, at) && level.Keys == g.nodes.Keys && id in g.nodes
  {
    && (g.nodes[id].gate != "" && g.nodes[id].gate in g.nodes ==> level[g.nodes[id].gate] <= level[id])
    && (g.nodes[id].kind.Group? ==>
          forall m | m in Members(g, at, id) ::
            level[m] <= level[id] && (!Monotone(RuleOf(g.nodes[id].groupExpr)) ==> level[m] < level[id]))
  }

  // No cycle passes through a group that counts downwards.
  ghost predicate Layered(g: Graph, at: string, level: map<Id, nat>)
    requires Stratified(g, at)
  {
    level.Keys == g.nodes.Keys && forall id | id in g.nodes :: LayeredAt(g, at, level, id)
  }

  ghost predicate NotBelow(g: Graph, level: map<Id, nat>, S: set<Id>, l: nat)
    requires level.Keys == g.nodes.Keys
  {
    forall s | s in S && s in g.nodes :: level[s] >= l
  }

  ghost predicate AgreeBelow(g: Graph, level: map<Id, nat>, l: nat, V: set<Id>, W: set<Id>)
    requires level.Keys == g.nodes.Keys
  {
    forall x | x in g.nodes && level[x] < l :: x in V <==> x in W
  }

  // V lies within W as far up as level l.
  ghost predicate WithinUpTo(g: Graph, level: map<Id, nat>, l: nat, V: set<Id>, W: set<Id>)
    requires level.Keys == g.nodes.Keys
  {
    forall x | x in V && (x in g.nodes ==> level[x] <= l) :: x in W
  }

  ghost predicate ClosedAt(g: Graph, at: string, level: map<Id, nat>, l: nat, blocked: set<Id>, V: set<Id>)
    requires Stratified(g, at) && level.Keys == g.nodes.Keys
  {
    forall id | id in g.nodes && level[id] == l && id !in blocked && Holds(g, at, id, V) :: id in V
  }

  lemma HoldsMonotone(g: Graph, at: string, level: map<Id, nat>, id: Id, V: set<Id>, W: set<Id>)
    requires Stratified(g, at) && Layered(g, at, level) && Holds(g, at, id, V)
    requires AgreeBelow(g, level, level[id], V, W) && WithinUpTo(g, level, level[id], V, W)
    ensures Holds(g, at, id, W)
  {
    assert LayeredAt(g, at, level, id);
    if g.nodes[id].kind.Group? {
      var ms := Members(g, at, id);
      CountMonotone(ms, V, W);
      if !Monotone(RuleOf(g.nodes[id].groupExpr)) {
        CountAgree(ms, V, W);
      } else {
        CountWithin(ms, W);
        MonotoneIffNonDecreasing(RuleOf(g.nodes[id].groupExpr));
      }
    }
  }

  lemma CountWithin(ids: seq<Id>, V: set<Id>)
    ensures CountIn(ids, V) <= |ids|
  {}

  // Nodes higher than every node the answer can depend on do not matter.
  lemma {:induction false} PathIrrelevant(
      g: Graph, at: string, level: map<Id, nat>, id: Id, S: set<Id>, T: set<Id>)
    requires Stratified(g, at) && Layered(g, at, level)
    requires id in g.nodes && AgreeBelow(g, level, level[id] + 1, S, T)
    ensures Sat(g, at, id, S) <==> Sat(g, at, id, T)
    decreases |g.nodes.Keys - S|
  {
    SatUnfold(g, at, id, S);
    SatUnfold(g, at, id, T);
    if id !in S {
      SubsetSmaller(g.nodes.Keys - (S + {id}), g.nodes.Keys - S);
      forall x | x in g.nodes && level[x] <= level[id]
        ensures x in TrueUnder(g, at, S + {id}) <==> x in TrueUnder(g, at, T + {id})
      {
        PathIrrelevant(g, at, level, x, S + {id}, T + {id});
      }
      assert LayeredAt(g, at, level, id);
      HoldsAgree(g, at, id, TrueUnder(g, at, S + {id}), TrueUnder(g, at, T + {id}));
    }
  }

  lemma LowerNodesAgree(g: Graph, at: string, level: map<Id, nat>, l: nat, S: set<Id>, T: set<Id>)
    requires Stratified(g, at) && Layered(g, at, level)
    requires NotBelow(g, level, S, l) && NotBelow(g, level, T, l)
    ensures AgreeBelow(g, level, l, TrueUnder(g, at, S), TrueUnder(g, at, T))
  {
    forall x | x in g.nodes && level[x] < l
      ensures x in TrueUnder(g, at, S) <==> x in TrueUnder(g, at, T)
    {
      PathIrrelevant(g, at, level, x, S, T);
    }
  }

  // What holds under path T holds under S, if every node it can depend on does.
  lemma SatCarriesOver(g: Graph, at: string, level: map<Id, nat>, id: Id, T: set<Id>, S: set<Id>)
    requires Stratified(g, at) && Layered(g, at, level) && Sat(g, at, id, T) && id !in S
    requires NotBelow(g, level, S + T, level[id])
    requires WithinUpTo(g, level, level[id], TrueUnder(g, at, T + {id}), TrueUnder(g, at, S + {id}))
    ensures Sat(g, at, id, S)
  {
    SatUnfold(g, at, id, T);
    SatUnfold(g, at, id, S);
    LowerNodesAgree(g, at, level, level[id], T + {id}, S + {id});
    HoldsMonotone(g, at, level, id, TrueUnder(g, at, T + {id}), TrueUnder(g, at, S + {id}));
  }

  // A longer path can only make fewer nodes hold.
  lemma {:induction false} SatAntitone(g: Graph, at: string, level: map<Id, nat>, id: Id, S: set<Id>, T: set<Id>)
    requires Stratified(g, at) && Layered(g, at, level)
    requires S <= T && Sat(g, at, id, T) && NotBelow(g, level, T, level[id])
    ensures Sat(g, at, id, S)
    decreases |g.nodes.Keys - S|
  {
    SatUnfold(g, at, id, T);
    SubsetSmaller(g.nodes.Keys - (S + {id}), g.nodes.Keys - S);
    forall x | x in TrueUnder(g, at, T + {id}) && level[x] <= level[id]
      ensures x in TrueUnder(g, at, S + {id})
    {
      SatAntitone(g, at, level, x, S + {id}, T + {id});
    }
    SatCarriesOver(g, at, level, id, T, S);
  }

  // Putting a node that does not hold on the path changes nothing.
  lemma {:induction false} FalseNodeIrrelevant(
      g: Graph, at: string, level: map<Id, nat>, id: Id, S: set<Id>, x: Id)
    requires Stratified(g, at) && Layered(g, at, level) && x in g.nodes
    requires Sat(g, at, id, S) && !Sat(g, at, x, S) && NotBelow(g, level, S + {x}, level[id])
    ensures Sat(g, at, id, S + {x})
    decreases |g.nodes.Keys - S|
  {
    SatUnfold(g, at, id, S);
    assert level[x] >= level[id];
    if level[x] > level[id] {
      PathIrrelevant(g, at, level, id, S, S + {x});
    } else {
      SubsetSmaller(g.nodes.Keys - (S + {id}), g.nodes.Keys - S);
      if Sat(g, at, x, S + {id}) {
        SatAntitone(g, at, level, x, S, S + {id});
      }
      assert S + {id} + {x} == S + {x} + {id};
      forall z | z in TrueUnder(g, at, S + {id}) && level[z] <= level[id]
        ensures z in TrueUnder(g, at, S + {x} + {id})
      {
        FalseNodeIrrelevant(g, at, level, z, S + {id}, x);
      }
      SatCarriesOver(g, at, level, id, S, S + {x});
    }
  }

  lemma {:induction false} SatInEveryClosedSet(
      g: Graph, at: string, level: map<Id, nat>, id: Id, S: set<Id>, V: set<Id>)
    requires Stratified(g, at) && Layered(g, at, level)
    requires Sat(g, at, id, S) && NotBelow(g, level, S, level[id])
    requires ClosedAt(g, at, level, level[id], S, V)
    requires AgreeBelow(g, level, level[id], TrueUnder(g, at, S), V)
    ensures id in V
    decreases |g.nodes.Keys - S|
  {
    SatUnfold(g, at, id, S);
    var T := TrueUnder(g, at, S + {id});
    SubsetSmaller(g.nodes.Keys - (S + {id}), g.nodes.Keys - S);
    LowerNodesAgree(g, at, level, level[id], S, S + {id});
    forall x | x in T && level[x] == level[id]
      ensures x in V
    {
      SatInEveryClosedSet(g, at, level, x, S + {id}, V);
    }
    HoldsMonotone(g, at, level, id, T, V);
  }

  // With a path no lower than the node, the answers solve the node's equation.
  lemma SatSolvesEquation(g: Graph, at: string, level: map<Id, nat>, id: Id, S: set<Id>)
    requires Stratified(g, at) && Layered(g, at, level)
    requires id in g.nodes && NotBelow(g, level, S, level[id])
    ensures Sat(g, at, id, S) <==> id !in S && Holds(g, at, id, TrueUnder(g, at, S))
  {
    SatUnfold(g, at, id, S);
    LowerNodesAgree(g, at, level, level[id], S, S + {id});
    if Sat(g, at, id, S) {
      forall y | Sat(g, at, y, S + {id}) && level[y] <= level[id]
        ensures Sat(g, at, y, S)
      {
        SatAntitone(g, at, level, y, S, S + {id});
      }
      HoldsMonotone(g, at, level, id, TrueUnder(g, at, S + {id}), TrueUnder(g, at, S));
    } else if id !in S && Holds(g, at, id, TrueUnder(g, at, S)) {
      forall y | Sat(g, at, y, S) && level[y] <= level[id]
        ensures Sat(g, at, y, S + {id})
      {
        FalseNodeIrrelevant(g, at, level, y, S, id);
      }
      HoldsMonotone(g, at, level, id, TrueUnder(g, at, S), TrueUnder(g, at, S + {id}));
    }
  }

  // ── the stratified solution ──

  // Among the sets that agree with V below level l and are closed at l, V holds
  // the fewest nodes of level l.
  ghost predicate LeastAt(g: Graph, at: string, level: map<Id, nat>, l: nat, V: set<Id>, W: set<Id>)
    requires Stratified(g, at) && level.Keys == g.nodes.Keys
  {
    AgreeBelow(g, level, l, V, W) && ClosedAt(g, at, level, l, {}, W) ==>
      forall id | id in V && id in g.nodes && level[id] == l :: id in W
  }

  // A solution of all the equations, least at each level given the levels below.
  ghost predicate StratifiedSolution(g: Graph, at: string, level: map<Id, nat>, V: set<Id>)
    requires Stratified(g, at) && level.Keys == g.nodes.Keys
  {
    FixedPoint(g, at, {}, V) && forall l: nat, W :: LeastAt(g, at, level, l, V, W)
  }

  lemma SatIsStratified(g: Graph, at: string, level: map<Id, nat>)
    requires Stratified(g, at) && Layered(g, at, level)
    ensures StratifiedSolution(g, at, level, TrueUnder(g, at, {}))
  {
    var T := TrueUnder(g, at, {});
    forall id
      ensures id in T <==> Holds(g, at, id, T)
    {
      if id in g.nodes {
        SatSolvesEquation(g, at, level, id, {});
      }
    }
    forall l: nat, W
      ensures LeastAt(g, at, level, l, T, W)
    {
      if AgreeBelow(g, level, l, T, W) && ClosedAt(g, at, level, l, {}, W) {
        forall id | id in T && level[id] == l
          ensures id in W
        {
          SatInEveryClosedSet(g, at, level, id, {}, W);
        }
      }
    }
  }

  lemma {:induction false} SolutionsAgree(g: Graph, at: string, level: map<Id, nat>, l: nat, V: set<Id>)
    requires Stratified(g, at) && Layered(g, at, level) && StratifiedSolution(g, at, level, V)
    ensures AgreeBelow(g, level, l, V, TrueUnder(g, at, {}))
  {
    if l > 0 {
      var T := TrueUnder(g, at, {});
      SolutionsAgree(g, at, level, l - 1, V);
      SatIsStratified(g, at, level);
      assert LeastAt(g, at, level, l - 1, V, T) && LeastAt(g, at, level, l - 1, T, V);
    }
  }

  // When no cycle passes through a group that counts downwards, evaluation
  // computes the stratified solution, and there is no other.
  lemma StratifiedSolutionUnique(g: Graph, at: string, level: map<Id, nat>, V: set<Id>)
    requires Stratified(g, at) && Layered(g, at, level)
    ensures StratifiedSolution(g, at, level, V) <==> V == TrueUnder(g, at, {})
  {
    SatIsStratified(g, at, level);
    if StratifiedSolution(g, at, level, V) {
      forall id
        ensures id in V <==> id in TrueUnder(g, at, {})
      {
        if id in g.nodes {
          SolutionsAgree(g, at, level, level[id] + 1, V);
        }
      }
    }
  }

  // ── no downward counting: one layer ──

  ghost function OneLayer(g: Graph, at: string): (level: map<Id, nat>)
    requires Stratified(g, at) && MonotoneGroups(g)
    ensures Layered(g, at, level)
    ensures forall S: set<Id>, l | l == 0 :: NotBelow(g, level, S, l)
  {
    map id | id in g.nodes :: 0
  }

  // Path-cut recursion computes the least fixed point, on any graph whose groups
  // do not count downwards.
  lemma SatIsLeastFixedPoint(g: Graph, at: string, id: Id, seen: set<Id>)
    requires Stratified(g, at) && MonotoneGroups(g)
    ensures Sat(g, at, id, seen) <==> id in LeastFixedPoint(g, at, seen)
  {
    var level := OneLayer(g, at);
    if Sat(g, at, id, seen) {
      forall V | Closed(g, at, seen, V)
        ensures id in V
      {
        SatInEveryClosedSet(g, at, level, id, seen, V);
      }
    }
    forall x | x !in seen && Holds(g, at, x, TrueUnder(g, at, seen))
      ensures x in TrueUnder(g, at, seen)
    {
      SatSolvesEquation(g, at, level, x, seen);
    }
    assert Closed(g, at, seen, TrueUnder(g, at, seen));
  }

  lemma LeastFixedPointIsFixed(g: Graph, at: string, blocked: set<Id>)
    requires Stratified(g, at) && MonotoneGroups(g)
    ensures FixedPoint(g, at, blocked, LeastFixedPoint(g, at, blocked))
    ensures forall V | FixedPoint(g, at, blocked, V) :: LeastFixedPoint(g, at, blocked) <= V
  {
    var L := LeastFixedPoint(g, at, blocked);
    forall id
      ensures id in L <==> Sat(g, at, id, blocked)
    {
      SatIsLeastFixedPoint(g, at, id, blocked);
    }
    assert L == TrueUnder(g, at, blocked);
    forall id
      ensures id in L <==> id !in blocked && Holds(g, at, id, L)
    {
      if id in g.nodes {
        SatSolvesEquation(g, at, OneLayer(g, at), id, blocked);
      }
    }
  }

  // ── acyclic dependencies: a layer for each depth ──

  ghost predicate DependsDownwards(g: Graph, at: string, depth: map<Id, nat>)
    requires Stratified(g, at)
  {
    && depth.Keys == g.nodes.Keys
    && forall id | id in g.nodes ::
         && (g.nodes[id].gate != "" && g.nodes[id].gate in g.nodes ==> depth[g.nodes[id].gate] < depth[id])
         && (g.nodes[id].kind.Group? ==> forall m | m in Members(g, at, id) :: depth[m] < depth[id])
  }

  lemma AcyclicIsLayered(g: Graph, at: string, depth: map<Id, nat>)
    requires Stratified(g, at) && DependsDownwards(g, at, depth)
    ensures Layered(g, at, depth)
  {}

  lemma HoldsFromBelow(g: Graph, at: string, depth: map<Id, nat>, id: Id, V: set<Id>, W: set<Id>)
    requires Stratified(g, at) && DependsDownwards(g, at, depth)
    requires Holds(g, at, id, V) && V <= g.nodes.Keys && AgreeBelow(g, depth, depth[id], V, W)
    ensures Holds(g, at, id, W)
  {
    HoldsAgree(g, at, id, V, W);
  }

  lemma FixedPointIsLeast(g: Graph, at: string, depth: map<Id, nat>, l: nat, V: set<Id>, W: set<Id>)
    requires Stratified(g, at) && DependsDownwards(g, at, depth) && FixedPoint(g, at, {}, V)
    ensures LeastAt(g, at, depth, l, V, W)
  {
    if AgreeBelow(g, depth, l, V, W) && ClosedAt(g, at, depth, l, {}, W) {
      forall id | id in V && id in g.nodes && depth[id] == l
        ensures id in W
      {
        HoldsFromBelow(g, at, depth, id, V, W);
      }
    }
  }

  // With acyclic dependencies there is exactly one fixed point, whatever the
  // groups count, and evaluation computes it.
  lemma AcyclicFixedPointUnique(g: Graph, at: string, depth: map<Id, nat>, V: set<Id>)
    requires Stratified(g, at) && DependsDownwards(g, at, depth)
    ensures FixedPoint(g, at, {}, V) <==> V == TrueUnder(g, at, {})
  {
    AcyclicIsLayered(g, at, depth);
    StratifiedSolutionUnique(g, at, depth, V);
    if FixedPoint(g, at, {}, V) {
      forall l: nat, W
        ensures LeastAt(g, at, depth, l, V, W)
      {
        FixedPointIsLeast(g, at, depth, l, V, W);
      }
    }
  }

  // Whatever is on the path above a node, evaluation answers membership in any
  // given fixed point.
  lemma SatAgreesWithFixedPoint(
      g: Graph, at: string, depth: map<Id, nat>, id: Id, seen: set<Id>, V: set<Id>)
    requires Stratified(g, at) && DependsDownwards(g, at, depth)
    requires FixedPoint(g, at, {}, V)
    requires id in g.nodes && forall s | s in seen && s in g.nodes :: depth[s] > depth[id]
    ensures Sat(g, at, id, seen) <==> id in V
  {
    AcyclicIsLayered(g, at, depth);
    AcyclicFixedPointUnique(g, at, depth, V);
    PathIrrelevant(g, at, depth, id, seen, {});
  }
}
