// Hops and their transitive closure, and the frontier walk along a pattern.
module Hops {
  import opened Graphs
  import opened Queries
  import opened Sorting
  import opened Satisfaction
  import opened SatisfactionWalk
  import opened Matching

  // The far ends of one edge taken from x, in the hop's direction.
  function FarEnds(h: Hop, e: Edge, x: Id): seq<Id> {
    match h.dir
    case Forward => if e.src == x then [e.dst] else []
    case Inverse => if e.dst == x then [e.src] else []
    case Undirected => if e.src == x then [e.dst] else if e.dst == x then [e.src] else []
  }

  // A live edge of the hop's type joins x to y in the hop's direction.
  ghost predicate Leads(g: Graph, at: string, h: Hop, e: Edge, x: Id, y: Id)
    requires Stratified(g, at)
  {
    && e.typ == h.typ && EdgeLive(g, at, e)
    && ((!h.dir.Inverse? && e.src == x && e.dst == y) || (!h.dir.Forward? && e.dst == x && e.src == y))
  }

  ghost predicate StepTo(g: Graph, at: string, h: Hop, x: Id, y: Id)
    requires Stratified(g, at)
  {
    exists e | e in g.edges :: Grounded(g, e) && Leads(g, at, h, e, x, y)
  }

  ghost predicate IsChain(g: Graph, at: string, h: Hop, p: seq<Id>)
    requires Stratified(g, at)
  {
    forall i | 0 <= i < |p| - 1 :: StepTo(g, at, h, p[i], p[i + 1])
  }

  // The hop relation: one step, or one step or more when starred.
  ghost predicate HopTo(g: Graph, at: string, h: Hop, x: Id, y: Id)
    requires Stratified(g, at)
  {
    if h.star then exists p :: |p| >= 2 && p[0] == x && p[|p| - 1] == y && IsChain(g, at, h, p)
    else StepTo(g, at, h, x, y)
  }

  lemma {:induction false} ChainStaysInside(g: Graph, at: string, h: Hop, p: seq<Id>, inside: set<Id>)
    requires Stratified(g, at)
    requires |p| >= 2 && IsChain(g, at, h, p)
    requires forall y | StepTo(g, at, h, p[0], y) :: y in inside
    requires forall x, y | x in inside && StepTo(g, at, h, x, y) :: y in inside
    ensures p[|p| - 1] in inside
    decreases |p|
  {
    if |p| > 2 {
      ChainStaysInside(g, at, h, p[1..], inside);
    }
  }

  lemma ChainExtend(g: Graph, at: string, h: Hop, x: Id, y: Id, z: Id)
    requires Stratified(g, at) && h.star
    requires HopTo(g, at, h, x, y) && StepTo(g, at, h, y, z)
    ensures HopTo(g, at, h, x, z)
  {
    var p :| |p| >= 2 && p[0] == x && p[|p| - 1] == y && IsChain(g, at, h, p);
    var q := p + [z];
    assert q[0] == x && q[|q| - 1] == z && IsChain(g, at, h, q);
  }

  lemma ChainStart(g: Graph, at: string, h: Hop, x: Id, y: Id)
    requires Stratified(g, at) && h.star && StepTo(g, at, h, x, y)
    ensures HopTo(g, at, h, x, y)
  {
    assert IsChain(g, at, h, [x, y]) && [x, y][1] == y;
  }

  ghost predicate ExactSteps(g: Graph, at: string, h: Hop, x: Id, ids: seq<Id>)
    requires Stratified(g, at)
  {
    (forall y :: y in ids <==> StepTo(g, at, h, x, y)) && forall y | y in ids :: y in g.nodes
  }

  // The ids found are one step away, and hold what the first i edges lead to.
  ghost predicate Covers(g: Graph, at: string, h: Hop, x: Id, es: seq<Edge>, i: nat, ids: seq<Id>)
    requires Stratified(g, at) && i <= |es|
  {
    && (forall y | y in ids :: StepTo(g, at, h, x, y) && y in g.nodes)
    && (forall j, y | 0 <= j < i && Leads(g, at, h, es[j], x, y) :: y in ids)
  }

  // Where one edge leads from x: nowhere unless it is of the type and live.
  ghost function Ends(g: Graph, at: string, h: Hop, e: Edge, x: Id): (ids: seq<Id>)
    requires Stratified(g, at)
    ensures forall y :: y in ids <==> Leads(g, at, h, e, x, y)
  {
    if e.typ == h.typ && EdgeLive(g, at, e) then FarEnds(h, e, x) else []
  }

  lemma CoversNext(g: Graph, at: string, h: Hop, x: Id, es: seq<Edge>, i: nat, ids: seq<Id>)
    requires Stratified(g, at) && i < |es| && es[i] in g.edges && Grounded(g, es[i]) && Covers(g, at, h, x, es, i, ids)
    ensures Covers(g, at, h, x, es, i + 1, ids + Ends(g, at, h, es[i], x))
  {
    var e := es[i];
    forall y | y in Ends(g, at, h, e, x)
      ensures StepTo(g, at, h, x, y) && y in g.nodes
    {
      assert Leads(g, at, h, e, x, y);
    }
  }

  method StepsFrom(w: Walk, h: Hop, x: Id) returns (ids: seq<Id>)
    requires w.Valid()
    ensures ExactSteps(w.g, w.at, h, x, ids)
  {
    var es := At(w.incident, x);
    ids := [];
    for i := 0 to |es|
      invariant Covers(w.g, w.at, h, x, es, i, ids)
    {
      IncidentExact(w.g, x, es[i]);
      CoversNext(w.g, w.at, h, x, es, i, ids);
      var alive := w.EdgeIsLive(es[i]);
      assert ids + [] == ids;
      if es[i].typ == h.typ && alive {
        ids := ids + FarEnds(h, es[i], x);
      }
    }
    StepsComplete(w.g, w.at, h, x, es, ids);
  }

  lemma StepsComplete(g: Graph, at: string, h: Hop, x: Id, es: seq<Edge>, ids: seq<Id>)
    requires Stratified(g, at) && es == Incident(g, x) && Covers(g, at, h, x, es, |es|, ids)
    ensures ExactSteps(g, at, h, x, ids)
  {
    forall y | StepTo(g, at, h, x, y)
      ensures y in ids
    {
      var e :| e in g.edges && Grounded(g, e) && Leads(g, at, h, e, x, y);
      IncidentExact(g, x, e);
      var j :| 0 <= j < |es| && es[j] == e;
    }
  }

  // The closure worklist's invariant: everything met is reachable, and whatever
  // one step leads to has been met.
  ghost predicate Frontier(g: Graph, at: string, h: Hop, start: Id, seen: set<Id>, queue: seq<Id>)
    requires Stratified(g, at)
  {
    && seen <= g.nodes.Keys
    && (forall y | y in queue || y in seen :: y in g.nodes && HopTo(g, at, h, start, y))
    && (forall y | StepTo(g, at, h, start, y) :: y in seen || y in queue)
    && (forall x, y | x in seen && StepTo(g, at, h, x, y) :: y in seen || y in queue)
  }

  lemma FrontierStart(g: Graph, at: string, h: Hop, start: Id, queue: seq<Id>)
    requires Stratified(g, at) && h.star
    requires ExactSteps(g, at, h, start, queue)
    ensures Frontier(g, at, h, start, {}, queue)
  {
    forall y | y in queue
      ensures HopTo(g, at, h, start, y)
    {
      ChainStart(g, at, h, start, y);
    }
  }

  lemma FrontierTake(g: Graph, at: string, h: Hop, start: Id, seen: set<Id>, id: Id, queue: seq<Id>, more: seq<Id>)
    requires Stratified(g, at) && h.star
    requires Frontier(g, at, h, start, seen, [id] + queue)
    requires ExactSteps(g, at, h, id, more)
    ensures Frontier(g, at, h, start, seen + {id}, queue + more)
  {
    assert id in [id] + queue;
    forall y | y in queue + more
      ensures y in g.nodes && HopTo(g, at, h, start, y)
    {
      if y in more {
        ChainExtend(g, at, h, start, id, y);
      } else {
        assert y in [id] + queue;
      }
    }
  }

  lemma FrontierDone(g: Graph, at: string, h: Hop, start: Id, seen: set<Id>, y: Id)
    requires Stratified(g, at) && h.star && Frontier(g, at, h, start, seen, [])
    ensures y in seen <==> HopTo(g, at, h, start, y)
  {
    if HopTo(g, at, h, start, y) {
      var p :| |p| >= 2 && p[0] == start && p[|p| - 1] == y && IsChain(g, at, h, p);
      ChainStaysInside(g, at, h, p, seen);
    }
  }

  // One hop, or its closure by a worklist whose queue may hold an id many times
  // before the id is first taken.
  method HopTargets(w: Walk, h: Hop, start: Id) returns (out: seq<Id>)
    requires w.Valid()
    ensures forall y :: y in out <==> HopTo(w.g, w.at, h, start, y)
    ensures forall y | y in out :: y in w.g.nodes
    ensures h.star ==> Distinct(out)
  {
    var queue := StepsFrom(w, h, start);
    if !h.star {
      return queue;
    }
    FrontierStart(w.g, w.at, h, start, queue);
    var seen: set<Id> := {};
    out := [];
    while queue != []
      invariant forall y :: y in out <==> y in seen
      invariant Distinct(out)
      invariant Frontier(w.g, w.at, h, start, seen, queue)
      decreases |w.g.nodes.Keys - seen|, |queue|
    {
      var id, rest := queue[0], queue[1..];
      HeadTail(queue);
      if id in seen {
        queue := rest;
        continue;
      }
      SubsetSmaller(w.g.nodes.Keys - (seen + {id}), w.g.nodes.Keys - seen);
      var more := StepsFrom(w, h, id);
      FrontierTake(w.g, w.at, h, start, seen, id, rest, more);
      DistinctAppend(out, id);
      seen, out, queue := seen + {id}, out + [id], rest + more;
    }
    forall y
      ensures y in seen <==> HopTo(w.g, w.at, h, start, y)
    {
      FrontierDone(w.g, w.at, h, start, seen, y);
    }
  }

  // ── patterns ──

  ghost predicate BindsHop(g: Graph, p: Pattern, at: string, now: string, i: nat, x: Id, y: Id)
    requires Stratified(g, at) && WellFormedPattern(p) && i < |p.hops|
  {
    && HopTo(g, at, p.hops[i], x, y)
    && y in g.nodes
    && MatchAtom(g, p.atoms[i + 1], g.nodes[y], at, now)
  }

  // ns are the nodes bound along the first k hops: consecutive ones are joined by
  // the hop, and every node after the first matches its atom.
  ghost predicate IsBinding(g: Graph, p: Pattern, at: string, now: string, k: nat, ns: seq<Id>)
    requires Stratified(g, at) && WellFormedPattern(p) && k <= |p.hops|
  {
    && |ns| == k + 1
    && forall i | 0 <= i < k :: BindsHop(g, p, at, now, i, ns[i], ns[i + 1])
  }

  ghost predicate Reaches(g: Graph, p: Pattern, at: string, now: string, k: nat, start: Id, end: Id)
    requires Stratified(g, at) && WellFormedPattern(p) && k <= |p.hops|
  {
    exists ns :: IsBinding(g, p, at, now, k, ns) && ns[0] == start && ns[k] == end
  }

  lemma BindingExtend(g: Graph, p: Pattern, at: string, now: string, k: nat, ns: seq<Id>, end: Id)
    requires Stratified(g, at) && WellFormedPattern(p) && k < |p.hops|
    requires IsBinding(g, p, at, now, k, ns) && BindsHop(g, p, at, now, k, ns[k], end)
    ensures IsBinding(g, p, at, now, k + 1, ns + [end])
  {
    var longer := ns + [end];
    forall i | 0 <= i < k + 1
      ensures BindsHop(g, p, at, now, i, longer[i], longer[i + 1])
    {
      if i < k { assert BindsHop(g, p, at, now, i, ns[i], ns[i + 1]); }
    }
  }

  lemma BindingPrefix(g: Graph, p: Pattern, at: string, now: string, k: nat, j: nat, ns: seq<Id>)
    requires Stratified(g, at) && WellFormedPattern(p) && j <= k <= |p.hops|
    requires IsBinding(g, p, at, now, k, ns)
    ensures IsBinding(g, p, at, now, j, ns[..j + 1])
  {
    var prefix := ns[..j + 1];
    forall i | 0 <= i < j
      ensures BindsHop(g, p, at, now, i, prefix[i], prefix[i + 1])
    {
      assert BindsHop(g, p, at, now, i, ns[i], ns[i + 1]);
    }
  }

  lemma ReachesNext(g: Graph, p: Pattern, at: string, now: string, k: nat, start: Id, end: Id)
    requires Stratified(g, at) && WellFormedPattern(p) && k < |p.hops|
    ensures Reaches(g, p, at, now, k + 1, start, end) <==>
            exists mid :: Reaches(g, p, at, now, k, start, mid) && BindsHop(g, p, at, now, k, mid, end)
  {
    if Reaches(g, p, at, now, k + 1, start, end) {
      var ns :| IsBinding(g, p, at, now, k + 1, ns) && ns[0] == start && ns[k + 1] == end;
      BindingPrefix(g, p, at, now, k + 1, k, ns);
      assert ns[..k + 1][0] == start && ns[..k + 1][k] == ns[k];
      assert Reaches(g, p, at, now, k, start, ns[k]);
      assert BindsHop(g, p, at, now, k, ns[k], ns[k + 1]);
    }
    if mid :| Reaches(g, p, at, now, k, start, mid) && BindsHop(g, p, at, now, k, mid, end) {
      var ns :| IsBinding(g, p, at, now, k, ns) && ns[0] == start && ns[k] == mid;
      BindingExtend(g, p, at, now, k, ns, end);
      assert (ns + [end])[0] == start && (ns + [end])[k + 1] == end;
    }
  }

  lemma NoWayOn(g: Graph, p: Pattern, at: string, now: string, k: nat, start: Id)
    requires Stratified(g, at) && WellFormedPattern(p) && k <= |p.hops|
    requires forall y :: !Reaches(g, p, at, now, k, start, y)
    ensures forall ns :: !(IsBinding(g, p, at, now, |p.hops|, ns) && ns[0] == start)
  {
    forall ns | IsBinding(g, p, at, now, |p.hops|, ns)
      ensures ns[0] != start
    {
      BindingPrefix(g, p, at, now, |p.hops|, k, ns);
      assert !Reaches(g, p, at, now, k, start, ns[..k + 1][k]);
    }
  }

  // One step of the walk: the nodes the next hop reaches from the frontier.
  method NextFrontier(w: Walk, p: Pattern, i: nat, now: string, cur: seq<Id>) returns (next: set<Id>)
    requires w.Valid() && WellFormedPattern(p) && i < |p.hops|
    ensures forall y :: y in next <==> exists mid | mid in cur :: BindsHop(w.g, p, w.at, now, i, mid, y)
  {
    var g, at := w.g, w.at;
    next := {};
    for j := 0 to |cur|
      invariant forall y :: y in next <==> exists mid | mid in cur[..j] :: BindsHop(g, p, at, now, i, mid, y)
    {
      var targets := HopTargets(w, p.hops[i], cur[j]);
      next := next + set y | y in targets && MatchAtom(g, p.atoms[i + 1], g.nodes[y], at, now);
      assert cur[..j + 1] == cur[..j] + [cur[j]];
      assert forall y :: BindsHop(g, p, at, now, i, cur[j], y) <==>
               y in targets && MatchAtom(g, p.atoms[i + 1], g.nodes[y], at, now);
    }
    assert cur[..|cur|] == cur;
  }

  // The walk succeeds exactly when some binding runs through every hop.
  method WalkPattern(w: Walk, start: Id, p: Pattern, now: string) returns (ok: bool)
    requires w.Valid() && WellFormedPattern(p)
    ensures ok <==> exists ns :: IsBinding(w.g, p, w.at, now, |p.hops|, ns) && ns[0] == start
  {
    var g, at := w.g, w.at;
    var cur := [start];
    assert IsBinding(g, p, at, now, 0, [start]);
    for i := 0 to |p.hops|
      invariant cur != []
      invariant forall y :: y in cur <==> Reaches(g, p, at, now, i, start, y)
    {
      var next := NextFrontier(w, p, i, now, cur);
      ghost var k := i + 1;
      forall y
        ensures y in next <==> Reaches(g, p, at, now, k, start, y)
      {
        ReachesNext(g, p, at, now, i, start, y);
      }
      if next == {} {
        forall y
          ensures !Reaches(g, p, at, now, k, start, y)
        {
          assert y !in next;
        }
        NoWayOn(g, p, at, now, k, start);
        return false;
      }
      cur := Keys(next);
      assert exists y :: y in next;
    }
    var y := cur[0];
    assert Reaches(g, p, at, now, |p.hops|, start, y);
    return true;
  }
}
