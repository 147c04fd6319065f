// The open questions a node rests on: a depth-first search that marks nodes
// across the whole search and does not look past an open question.
module Taint {
  import opened Strings
  import opened Graphs
  import opened Sorting
  import opened Satisfaction
  import opened SatisfactionWalk

  predicate OpenQuestion(g: Graph, id: Id) {
    id in g.nodes && g.nodes[id].kind.Question? && g.nodes[id].status.Open?
  }

  ghost predicate RequiresLive(g: Graph, at: string, x: Id, y: Id)
    requires Stratified(g, at)
  {
    exists e | e in g.edges :: Grounded(g, e) && e.typ.Requires? && e.src == x && e.dst == y && EdgeLive(g, at, e)
  }

  // x rests directly on y. What an open question waits on is not passed on.
  ghost predicate RestsOn(g: Graph, at: string, x: Id, y: Id)
    requires Stratified(g, at)
  {
    && x in g.nodes && !OpenQuestion(g, x)
    && (|| RequiresLive(g, at, x, y)
        || (g.nodes[x].kind.Group? && y in Members(g, at, x))
        || (g.nodes[x].gate != "" && y == g.nodes[x].gate))
  }

  ghost predicate IsPath(g: Graph, at: string, p: seq<Id>)
    requires Stratified(g, at)
  {
    p != [] && forall i | 0 <= i < |p| - 1 :: RestsOn(g, at, p[i], p[i + 1])
  }

  ghost predicate Reachable(g: Graph, at: string, x: Id, y: Id)
    requires Stratified(g, at)
  {
    exists p :: IsPath(g, at, p) && p[0] == x && p[|p| - 1] == y
  }

  lemma ReachableSelf(g: Graph, at: string, x: Id)
    requires Stratified(g, at)
    ensures Reachable(g, at, x, x)
  {
    assert IsPath(g, at, [x]);
  }

  lemma ReachableVia(g: Graph, at: string, x: Id, y: Id, z: Id)
    requires Stratified(g, at) && RestsOn(g, at, x, y) && Reachable(g, at, y, z)
    ensures Reachable(g, at, x, z)
  {
    var p :| IsPath(g, at, p) && p[0] == y && p[|p| - 1] == z;
    var q := [x] + p;
    forall i | 0 <= i < |q| - 1
      ensures RestsOn(g, at, q[i], q[i + 1])
    {
      if i > 0 { assert RestsOn(g, at, p[i - 1], p[i]); }
    }
    assert IsPath(g, at, q) && q[|q| - 1] == z;
  }

  lemma {:induction false} PathStaysInside(g: Graph, at: string, p: seq<Id>, inside: set<Id>)
    requires Stratified(g, at) && IsPath(g, at, p) && p[0] in inside
    requires forall x, y | x in inside && RestsOn(g, at, x, y) :: y in inside
    ensures p[|p| - 1] in inside
    decreases |p|
  {
    if |p| > 1 {
      assert RestsOn(g, at, p[0], p[1]);
      PathStaysInside(g, at, p[1..], inside);
    }
  }

  // The open questions reachable without passing one on the way.
  ghost predicate Conditional(g: Graph, at: string, id: Id, q: Id)
    requires Stratified(g, at)
  {
    OpenQuestion(g, q) && Reachable(g, at, id, q)
  }

  // Every node met, other than the ones still being explored, has had every node
  // it rests on met too.
  ghost predicate ClosedOutside(g: Graph, at: string, seen: set<Id>, active: set<Id>)
    requires Stratified(g, at)
  {
    forall x, y | x in seen && x !in active && RestsOn(g, at, x, y) :: y in seen
  }

  ghost predicate HolesOf(g: Graph, seen: set<Id>, holes: set<Id>) {
    forall q :: q in holes <==> q in seen && OpenQuestion(g, q)
  }

  // Everything met since `before` is reachable from id.
  ghost predicate AllReachable(g: Graph, at: string, id: Id, before: set<Id>, seen: set<Id>)
    requires Stratified(g, at)
  {
    before + {id} <= seen && forall y | y in seen && y !in before :: Reachable(g, at, id, y)
  }

  lemma StopClosed(g: Graph, at: string, seen: set<Id>, active: set<Id>, id: Id)
    requires Stratified(g, at) && ClosedOutside(g, at, seen, active)
    requires id !in g.nodes || OpenQuestion(g, id)
    ensures ClosedOutside(g, at, seen + {id}, active)
  {}

  lemma FinishClosed(g: Graph, at: string, seen: set<Id>, active: set<Id>, id: Id)
    requires Stratified(g, at) && ClosedOutside(g, at, seen, active + {id})
    requires forall y | RestsOn(g, at, id, y) :: y in seen
    ensures ClosedOutside(g, at, seen, active)
  {
    forall x, y | x in seen && x !in active && RestsOn(g, at, x, y)
      ensures y in seen
    {
      assert x != id ==> x !in active + {id};
    }
  }

  class Search {
    const w: Walk
    var seen: set<Id>
    var holes: set<Id>

    constructor (w: Walk)
      ensures this.w == w && seen == {} && holes == {}
    {
      this.w, seen, holes := w, {}, {};
    }

    ghost predicate Explored(active: set<Id>)
      reads this
      requires w.Valid()
    {
      ClosedOutside(w.g, w.at, seen, active) && HolesOf(w.g, seen, holes)
    }

    ghost predicate MetFrom(id: Id, before: set<Id>)
      reads this
      requires w.Valid()
    {
      AllReachable(w.g, w.at, id, before, seen)
    }

    method Visit(id: Id, ghost active: set<Id>)
      requires w.Valid() && Explored(active)
      modifies this
      ensures Explored(active) && old(seen) + {id} <= seen
      ensures id !in old(seen) ==> MetFrom(id, old(seen))
      ensures id in old(seen) ==> seen == old(seen)
      decreases |w.g.nodes.Keys - seen|, 3
    {
      if id in seen {
        return;
      }
      var g, at := w.g, w.at;
      ghost var before, open := seen, active + {id};
      seen := seen + {id};
      ReachableSelf(g, at, id);
      if id !in g.nodes {
        StopClosed(g, at, before, active, id);
        return;
      }
      if OpenQuestion(g, id) {
        StopClosed(g, at, before, active, id);
        holes := holes + {id};
        return;
      }
      VisitRequired(id, open, before);
      if g.nodes[id].kind.Group? {
        VisitMembers(id, open, before);
      }
      if g.nodes[id].gate != "" {
        Follow(id, g.nodes[id].gate, open, before);
      }
      FinishClosed(g, at, seen, active, id);
    }

    method VisitRequired(id: Id, ghost active: set<Id>, ghost before: set<Id>)
      requires w.Valid() && Explored(active) && MetFrom(id, before)
      requires id in w.g.nodes && id !in before && !OpenQuestion(w.g, id)
      modifies this
      ensures Explored(active) && MetFrom(id, before) && old(seen) <= seen
      ensures forall y | RequiresLive(w.g, w.at, id, y) :: y in seen
      decreases |w.g.nodes.Keys - before|, 2
    {
      var es := At(w.incident, id);
      for i := 0 to |es|
        invariant Explored(active) && MetFrom(id, before) && old(seen) <= seen
        invariant forall j | 0 <= j < i && es[j].typ.Requires? && es[j].src == id && EdgeLive(w.g, w.at, es[j]) ::
                    es[j].dst in seen
      {
        var e := es[i];
        IncidentExact(w.g, id, e);
        var alive := w.EdgeIsLive(e);
        if e.src == id && alive && e.typ.Requires? {
          Follow(id, e.dst, active, before);
        }
      }
      forall y | RequiresLive(w.g, w.at, id, y)
        ensures y in seen
      {
        var e :| e in w.g.edges && Grounded(w.g, e) && e.typ.Requires? && e.src == id && e.dst == y
                 && EdgeLive(w.g, w.at, e);
        IncidentExact(w.g, id, e);
      }
    }

    method VisitMembers(id: Id, ghost active: set<Id>, ghost before: set<Id>)
      requires w.Valid() && Explored(active) && MetFrom(id, before)
      requires id in w.g.nodes && id !in before && !OpenQuestion(w.g, id) && w.g.nodes[id].kind.Group?
      modifies this
      ensures Explored(active) && MetFrom(id, before) && old(seen) <= seen
      ensures forall m | m in Members(w.g, w.at, id) :: m in seen
      decreases |w.g.nodes.Keys - before|, 2
    {
      var ms := w.MembersAt(id);
      for i := 0 to |ms|
        invariant Explored(active) && MetFrom(id, before) && old(seen) <= seen
        invariant AllSeen(ms[..i], seen)
      {
        MemberRests(w.g, w.at, id, ms[i]);
        ghost var met := seen;
        Follow(id, ms[i], active, before);
        AllSeenNext(ms, i, met, seen);
      }
      assert ms[..|ms|] == ms;
    }

    static ghost predicate AllSeen(ms: seq<Id>, seen: set<Id>) { forall m | m in ms :: m in seen }

    static lemma AllSeenNext(ms: seq<Id>, i: nat, met: set<Id>, seen: set<Id>)
      requires i < |ms| && AllSeen(ms[..i], met) && met + {ms[i]} <= seen
      ensures AllSeen(ms[..i + 1], seen)
    {
      TakeNext(ms, i);
    }

    static lemma MemberRests(g: Graph, at: string, id: Id, m: Id)
      requires Stratified(g, at) && id in g.nodes && !OpenQuestion(g, id)
      requires g.nodes[id].kind.Group? && m in Members(g, at, id)
      ensures RestsOn(g, at, id, m)
    {}

    // Visit what `id` rests on, while `id` itself is still being explored.
    method Follow(id: Id, y: Id, ghost active: set<Id>, ghost before: set<Id>)
      requires w.Valid() && Explored(active) && MetFrom(id, before)
      requires id in w.g.nodes && id !in before && RestsOn(w.g, w.at, id, y)
      modifies this
      ensures Explored(active) && MetFrom(id, before) && old(seen) + {y} <= seen
      decreases |w.g.nodes.Keys - before|, 1
    {
      ghost var met := seen;
      SubsetSmaller(w.g.nodes.Keys - seen, w.g.nodes.Keys - before);
      Visit(y, active);
      forall z | z in seen && z !in met
        ensures Reachable(w.g, w.at, id, z)
      {
        ReachableVia(w.g, w.at, id, y, z);
      }
    }
  }

  // Graph.Taint: exactly the open questions the node is conditional on, sorted.
  method TaintOf(g: Graph, incident: map<Id, seq<Edge>>, id: Id, at: string) returns (out: seq<Id>)
    requires Stratified(g, at) && Indexes(g, g.edges, incident)
    ensures forall q :: q in out <==> Conditional(g, at, id, q)
    ensures forall i, j | 0 <= i < j < |out| :: StrLess(out[i], out[j])
  {
    var w := new Walk(g, at, incident);
    var search := new Search(w);
    search.Visit(id, {});
    out := Keys(search.holes);
    forall q
      ensures q in search.seen <==> Reachable(g, at, id, q)
    {
      if Reachable(g, at, id, q) {
        var p :| IsPath(g, at, p) && p[0] == id && p[|p| - 1] == q;
        PathStaysInside(g, at, p, search.seen);
      }
    }
  }

  // Graph.TaintedSet: the open questions a whole result set rests on.
  method TaintedSet(g: Graph, incident: map<Id, seq<Edge>>, ids: seq<Id>, at: string) returns (out: seq<Id>)
    requires Stratified(g, at) && Indexes(g, g.edges, incident)
    ensures forall q :: q in out <==> exists id :: id in ids && Conditional(g, at, id, q)
    ensures forall i, j | 0 <= i < j < |out| :: StrLess(out[i], out[j])
  {
    var holes: set<Id> := {};
    for i := 0 to |ids|
      invariant forall q :: q in holes <==> exists j :: 0 <= j < i && Conditional(g, at, ids[j], q)
    {
      var more := TaintOf(g, incident, ids[i], at);
      holes := holes + set q | q in more;
    }
    out := Keys(holes);
  }
}
