// Where nothing is decided, evaluation ends exactly when the nodes can be ranked:
// over all statuses and group rules, a graph whose nodes carry no gate of their
// own and are in force is safe to evaluate iff it is `Stratified`.
module Rings {
  import opened Options
  import opened Graphs
  import opened Sorting
  import opened Satisfaction
  import opened Divergence
  import opened Strings

  // ── a ring of groups whose evaluations start one another ──

  // Statuses and rules under which every node that is evaluated to the end holds.
  predicate Willing(g: Graph) {
    forall id | id in g.nodes ::
      Settled(g.nodes[id].status) && RuleOf(g.nodes[id].groupExpr) == Count(AtLeast, 0)
  }

  predicate Bare(g: Graph, at: string, id: Id) {
    id in g.nodes && g.nodes[id].gate == "" && (at == "" || ValidAt(g, g.nodes[id], at))
  }

  predicate Membership(g: Graph, at: string, e: Edge, id: Id) {
    e in g.edges && Grounded(g, e) && e.typ.MemberOf? && e.dst == id && InWindow(g, at, e)
  }

  // What an edge needs for its source to be asked, or for nothing to be answered.
  predicate SurelyAsked(g: Graph, at: string, e: Edge) {
    e.gate == "" || (Willing(g) && Bare(g, at, e.gate))
  }

  // The membership is gated by a node of the ring, or has for its source a member
  // of the ring nearer to such a membership.
  ghost predicate LeadsOn(g: Graph, at: string, ring: map<Id, nat>, id: Id, e: Edge)
    requires id in ring
  {
    && Membership(g, at, e, id)
    && ((e.gate != "" && e.gate in ring) || (e.src in ring && ring[e.src] < ring[id] && SurelyAsked(g, at, e)))
  }

  ghost predicate OnRing(g: Graph, at: string, ring: map<Id, nat>, id: Id)
    requires id in ring
  {
    Bare(g, at, id) && g.nodes[id].kind.Group? && exists e :: LeadsOn(g, at, ring, id, e)
  }

  ghost predicate IsRing(g: Graph, at: string, ring: map<Id, nat>) {
    forall id {:trigger OnRing(g, at, ring, id)} | id in ring :: OnRing(g, at, ring, id)
  }

  // Nothing on the path stands nearer than the node.
  ghost predicate PathBefore(ring: map<Id, nat>, seen: set<Id>, id: Id)
    requires id in ring
  {
    forall s | s in seen && s in ring :: ring[s] > ring[id]
  }

  lemma {:induction false} MembersHold(fuel: nat, g: Graph, at: string, id: Id, es: seq<Edge>, e: Edge)
    requires e in es && e.typ.MemberOf? && e.dst == id && RunEdge(fuel, g, at, e) == Some(true)
    ensures var r := RunMembers(fuel, g, at, id, es); r.Some? ==> e.src in r.value
  {
    if es[|es| - 1] != e {
      MembersHold(fuel, g, at, id, es[..|es| - 1], e);
    }
  }

  lemma {:induction false} CountNever(fuel: nat, g: Graph, at: string, ids: seq<Id>, seen: set<Id>, id: Id)
    requires id in ids && RunSat(fuel, g, at, id, seen) == None
    ensures RunCount(fuel, g, at, ids, seen) == None
  {
    if ids[|ids| - 1] != id {
      CountNever(fuel, g, at, ids[..|ids| - 1], seen, id);
    }
  }

  // A bare node of a willing graph holds, if it is decided at all.
  lemma WillingHolds(fuel: nat, g: Graph, at: string, id: Id)
    requires Willing(g) && Bare(g, at, id)
    ensures RunSat(fuel, g, at, id, {}) in {None, Some(true)}
  {
    if fuel > 0 {
      WillingJudged(g.nodes[id], RunTally(fuel - 1, g, at, id, {} + {id}));
    }
  }

  lemma WillingJudged(n: Node, tally: Option<(nat, nat)>)
    requires Settled(n.status) && RuleOf(n.groupExpr) == Count(AtLeast, 0)
    ensures Judge(n, Some(true), tally) in {None, Some(true)}
  {}

  // A group is not decided when a membership of it, or a member it asks, is not.
  lemma TallyNever(fuel: nat, g: Graph, at: string, id: Id, seen: set<Id>, e: Edge)
    requires Membership(g, at, e, id)
    requires RunEdge(fuel, g, at, e) == None
             || (RunEdge(fuel, g, at, e) == Some(true) && RunSat(fuel, g, at, e.src, seen) == None)
    ensures RunTally(fuel, g, at, id, seen) == None
  {
    IncidentExact(g, id, e);
    var es := Incident(g, id);
    if RunEdge(fuel, g, at, e) == None {
      MembersNever(fuel, g, at, id, es, e);
    } else {
      MembersHold(fuel, g, at, id, es, e);
      var r := RunMembers(fuel, g, at, id, es);
      if r.Some? {
        SameElements(r.value, SortStrings(r.value));
        CountNever(fuel, g, at, SortStrings(r.value), seen, e.src);
      }
    }
  }

  lemma GroupNever(fuel: nat, g: Graph, at: string, id: Id, seen: set<Id>)
    requires Bare(g, at, id) && g.nodes[id].kind.Group? && id !in seen
    requires RunTally(fuel, g, at, id, seen + {id}) == None
    ensures RunSat(fuel + 1, g, at, id, seen) == None
  {}

  predicate Stops(fuel: nat, g: Graph, at: string, id: Id, seen: set<Id>, e: Edge) {
    || (e.gate != "" && RunSat(fuel, g, at, e.gate, {}) == None)
    || (SurelyAsked(g, at, e) && RunSat(fuel, g, at, e.src, seen + {id}) == None)
  }

  // An edge whose gate is not decided stops the group; so does one whose source is
  // not decided, if it is asked.
  lemma EdgeStops(fuel: nat, g: Graph, at: string, id: Id, seen: set<Id>, e: Edge)
    requires at != "" && Bare(g, at, id) && g.nodes[id].kind.Group? && id !in seen && Membership(g, at, e, id)
    requires Stops(fuel, g, at, id, seen, e)
    ensures RunSat(fuel + 1, g, at, id, seen) == None
  {
    if e.gate != "" && SurelyAsked(g, at, e) { WillingHolds(fuel, g, at, e.gate); }
    TallyNever(fuel, g, at, id, seen + {id}, e);
    GroupNever(fuel, g, at, id, seen);
  }

  // No budget decides a node of a ring.
  lemma {:induction false} RingNeverEnds(fuel: nat, g: Graph, at: string, ring: map<Id, nat>, id: Id, seen: set<Id>)
    requires at != "" && IsRing(g, at, ring) && id in ring && PathBefore(ring, seen, id)
    ensures RunSat(fuel, g, at, id, seen) == None
    decreases fuel, 0
  {
    if fuel > 0 {
      assert OnRing(g, at, ring, id);
      var e :| LeadsOn(g, at, ring, id, e);
      NextNeverEnds(fuel - 1, g, at, ring, id, seen, e);
      EdgeStops(fuel - 1, g, at, id, seen, e);
    }
  }

  lemma {:induction false} NextNeverEnds(
      fuel: nat, g: Graph, at: string, ring: map<Id, nat>, id: Id, seen: set<Id>, e: Edge)
    requires at != "" && IsRing(g, at, ring) && id in ring && PathBefore(ring, seen, id)
    requires LeadsOn(g, at, ring, id, e)
    ensures Stops(fuel, g, at, id, seen, e)
    decreases fuel, 1
  {
    if e.gate != "" && e.gate in ring {
      RingNeverEnds(fuel, g, at, ring, e.gate, {});
    } else {
      RingNeverEnds(fuel, g, at, ring, e.src, seen + {id});
    }
  }

  // ── what a node can lead to ──

  // One membership leads from its group to its member, and to its gate.
  ghost predicate Weak(g: Graph, at: string, x: Id, y: Id) {
    exists e :: Membership(g, at, e, x) && e.src == y
  }

  ghost predicate Strict(g: Graph, at: string, x: Id, y: Id) {
    exists e :: Membership(g, at, e, x) && e.gate != "" && e.gate == y
  }

  ghost predicate Step(g: Graph, at: string, x: Id, y: Id) { Weak(g, at, x, y) || Strict(g, at, x, y) }

  // x leads to y in at most n steps.
  ghost predicate Leads(g: Graph, at: string, x: Id, y: Id, n: nat)
    decreases n
  {
    x == y || (n > 0 && exists z :: Step(g, at, x, z) && Leads(g, at, z, y, n - 1))
  }

  ghost predicate LeadsTo(g: Graph, at: string, x: Id, y: Id) { exists n: nat :: Leads(g, at, x, y, n) }

  ghost function Below(g: Graph, at: string, x: Id): set<Id> { set y | y in g.nodes && LeadsTo(g, at, x, y) }

  lemma StepLeads(g: Graph, at: string, x: Id, z: Id, y: Id)
    requires Step(g, at, x, z) && LeadsTo(g, at, z, y)
    ensures LeadsTo(g, at, x, y)
  {
    var n: nat :| Leads(g, at, z, y, n);
    assert Leads(g, at, x, y, n + 1);
  }

  lemma BelowShrinks(g: Graph, at: string, x: Id, z: Id)
    requires Step(g, at, x, z)
    ensures Below(g, at, z) <= Below(g, at, x)
  {
    forall y | y in Below(g, at, z)
      ensures y in Below(g, at, x)
    {
      StepLeads(g, at, x, z, y);
    }
  }

  lemma {:induction false} SubsetNoLarger<T>(a: set<T>, b: set<T>)
    requires a <= b
    ensures |a| <= |b|
  {
    assert b == a + (b - a);
  }

  // No membership leads through its gate back to its group.
  ghost predicate NoWayBack(g: Graph, at: string) {
    forall x, y | x in g.nodes && Strict(g, at, x, y) :: !LeadsTo(g, at, y, x)
  }

  // The graph's nodes carry no gate and are in force, memberships are of groups,
  // and their gates name nodes.
  predicate Plain(g: Graph, at: string) {
    && (forall id | id in g.nodes :: Bare(g, at, id))
    && (forall e | e in g.edges && Grounded(g, e) && e.typ.MemberOf? ::
          g.nodes[e.dst].kind.Group? && (e.gate != "" ==> e.gate in g.nodes))
  }

  // Then the numbers of nodes below rank the nodes.
  lemma NoWayBackRanks(g: Graph, at: string)
    requires Plain(g, at) && NoWayBack(g, at)
    ensures Stratified(g, at)
  {
    var rank := map id | id in g.nodes :: |Below(g, at, id)|;
    forall e | e in g.edges && Grounded(g, e) && e.typ.MemberOf? && InWindow(g, at, e)
      ensures rank[e.src] <= rank[e.dst]
      ensures e.gate != "" && e.gate in g.nodes ==> rank[e.gate] < rank[e.dst]
    {
      EdgeRanked(g, at, e);
    }
    assert IsRank(g, at, rank);
  }

  lemma EdgeRanked(g: Graph, at: string, e: Edge)
    requires NoWayBack(g, at) && Membership(g, at, e, e.dst)
    ensures |Below(g, at, e.src)| <= |Below(g, at, e.dst)|
    ensures e.gate != "" && e.gate in g.nodes ==> |Below(g, at, e.gate)| < |Below(g, at, e.dst)|
  {
    assert Weak(g, at, e.dst, e.src);
    BelowShrinks(g, at, e.dst, e.src);
    SubsetNoLarger(Below(g, at, e.src), Below(g, at, e.dst));
    if e.gate != "" && e.gate in g.nodes {
      assert Strict(g, at, e.dst, e.gate);
      BelowShrinks(g, at, e.dst, e.gate);
      assert Leads(g, at, e.dst, e.dst, 0);
      assert e.dst in Below(g, at, e.dst) && e.dst !in Below(g, at, e.gate);
      SubsetSmaller(Below(g, at, e.gate), Below(g, at, e.dst));
    }
  }

  // ── a way back is a ring ──

  ghost function Distance(g: Graph, at: string, y: Id, x: Id): (n: nat)
    requires LeadsTo(g, at, y, x)
    ensures Leads(g, at, y, x, n) && forall m: nat | m < n :: !Leads(g, at, y, x, m)
  {
    var n: nat :| Leads(g, at, y, x, n);
    Least(g, at, y, x, n)
  }

  ghost function Least(g: Graph, at: string, y: Id, x: Id, n: nat): (m: nat)
    requires Leads(g, at, y, x, n)
    ensures Leads(g, at, y, x, m) && forall k: nat | k < m :: !Leads(g, at, y, x, k)
    decreases n
  {
    if k: nat :| k < n && Leads(g, at, y, x, k) then Least(g, at, y, x, k) else n
  }

  // The nodes that lead to x, by how far they are from it.
  ghost function RingTo(g: Graph, at: string, x: Id): map<Id, nat> {
    map y | y in g.nodes && LeadsTo(g, at, y, x) :: Distance(g, at, y, x)
  }

  lemma WayBackIsRing(g: Graph, at: string, x: Id, w: Id)
    requires Plain(g, at) && Willing(g) && x in g.nodes && Strict(g, at, x, w) && LeadsTo(g, at, w, x)
    ensures IsRing(g, at, RingTo(g, at, x))
  {
    var ring := RingTo(g, at, x);
    forall y | y in ring
      ensures OnRing(g, at, ring, y)
    {
      if y == x {
        var e :| Membership(g, at, e, x) && e.gate != "" && e.gate == w;
        assert LeadsOn(g, at, ring, x, e);
      } else {
        NearerOnRing(g, at, x, y);
      }
    }
  }

  lemma NearerOnRing(g: Graph, at: string, x: Id, y: Id)
    requires Plain(g, at) && Willing(g) && y in RingTo(g, at, x) && y != x
    ensures OnRing(g, at, RingTo(g, at, x), y)
  {
    var ring, n := RingTo(g, at, x), Distance(g, at, y, x);
    var z :| Step(g, at, y, z) && Leads(g, at, z, x, n - 1);
    if Strict(g, at, y, z) {
      var e :| Membership(g, at, e, y) && e.gate != "" && e.gate == z;
      assert LeadsOn(g, at, ring, y, e);
    } else {
      var e :| Membership(g, at, e, y) && e.src == z;
      assert z in ring && ring[z] < ring[y];
      assert LeadsOn(g, at, ring, y, e);
    }
  }

  // ── the exact condition ──

  // The same graph but for statuses and group rules.
  ghost predicate SameShape(g: Graph, h: Graph) {
    && g.nodes.Keys == h.nodes.Keys && g.edges == h.edges && g.num == h.num
    && forall id | id in g.nodes ::
         && g.nodes[id].kind == h.nodes[id].kind && g.nodes[id].gate == h.nodes[id].gate
         && g.nodes[id].validFrom == h.nodes[id].validFrom && g.nodes[id].validUntil == h.nodes[id].validUntil
  }

  ghost predicate AlwaysEnds(g: Graph, at: string) { forall id :: Ends(g, at, id, {}) }

  function MadeWilling(g: Graph): Graph {
    g.(nodes := map id | id in g.nodes :: g.nodes[id].(status := Asserted, groupExpr := ">=0"))
  }

  lemma AnyNumberReads()
    ensures RuleOf(">=0") == Count(AtLeast, 0)
  {
    assert TrimLeft(">=0") == ">=0" && TrimRight(">=0") == ">=0";
    assert ">=0"[2..] == "0" && "0"[..0] == "";
    assert SkipPatternSpace("0") == "0";
    assert Decimal("0") == 0;
  }

  lemma MadeWillingIs(g: Graph, at: string)
    ensures SameShape(g, MadeWilling(g)) && Willing(MadeWilling(g))
    ensures Plain(g, at) ==> Plain(MadeWilling(g), at)
  {
    AnyNumberReads();
  }

  lemma SameShapeStratified(g: Graph, h: Graph, at: string)
    requires SameShape(g, h)
    ensures Stratified(g, at) ==> Stratified(h, at)
  {
    if rank :| IsRank(g, at, rank) {
      assert IsRank(h, at, rank);
    }
  }

  lemma UnrankedNeverEnds(g: Graph, at: string)
    requires Plain(g, at) && Willing(g) && !Stratified(g, at)
    ensures !AlwaysEnds(g, at)
  {
    if at == "" { UngatedMembershipStratified(g, at); }
    if NoWayBack(g, at) { NoWayBackRanks(g, at); }
    var x, w :| x in g.nodes && Strict(g, at, x, w) && LeadsTo(g, at, w, x);
    WayBackIsRing(g, at, x, w);
    assert Leads(g, at, x, x, 0);
    forall fuel: nat
      ensures RunSat(fuel, g, at, x, {}) == None
    {
      RingNeverEnds(fuel, g, at, RingTo(g, at, x), x, {});
    }
    assert !Ends(g, at, x, {});
  }

  // Evaluation ends at every node, under every choice of statuses and group rules,
  // exactly when the graph is stratified.
  lemma AlwaysEndsIffStratified(g: Graph, at: string)
    requires Plain(g, at)
    ensures (forall h | SameShape(g, h) :: AlwaysEnds(h, at)) <==> Stratified(g, at)
  {
    if Stratified(g, at) {
      forall h, id | SameShape(g, h)
        ensures Ends(h, at, id, {})
      {
        SameShapeStratified(g, h, at);
        StratifiedAnswers(0, h, at, id, {});
      }
    } else {
      var h := MadeWilling(g);
      MadeWillingIs(g, at);
      SameShapeStratified(h, g, at);
      UnrankedNeverEnds(h, at);
    }
  }
}
