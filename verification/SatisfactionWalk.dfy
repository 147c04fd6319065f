// The evaluator as it runs: one mutable `seen` set that each visit adds to and
// takes back, a fresh one for every edge gate, and the group statistics rendered
// from the same walk.
module SatisfactionWalk {
  import opened Graphs
  import opened Sorting
  import opened Satisfaction

  datatype GroupStat = GroupStat(total: nat, satisfied: nat, blocking: seq<Id>, ok: bool)

  function NotIn(ids: seq<Id>, V: set<Id>): seq<Id> {
    if ids == [] then []
    else NotIn(ids[..|ids| - 1], V) + if ids[|ids| - 1] in V then [] else [ids[|ids| - 1]]
  }

  // What a group's statistics say when exactly the nodes of V hold.
  ghost function StatFrom(g: Graph, at: string, id: Id, V: set<Id>): GroupStat
    requires Stratified(g, at)
  {
    if id !in g.nodes then GroupStat(0, 0, [], false)
    else
      var ms := Members(g, at, id);
      GroupStat(|ms|, CountIn(ms, V), SortStrings(NotIn(ms, V)),
                Aggregate(RuleOf(g.nodes[id].groupExpr), |ms|, CountIn(ms, V)))
  }

  lemma {:induction false} EveryMemberCounted(ids: seq<Id>, V: set<Id>)
    ensures CountIn(ids, V) + |NotIn(ids, V)| == |ids|
    ensures forall id :: id in NotIn(ids, V) <==> id in ids && id !in V
  {
    if ids != [] {
      EveryMemberCounted(ids[..|ids| - 1], V);
      assert ids == ids[..|ids| - 1] + [ids[|ids| - 1]];
    }
  }

  lemma TallyNext(ids: seq<Id>, i: nat, V: set<Id>)
    requires i < |ids|
    ensures CountIn(ids[..i + 1], V) == CountIn(ids[..i], V) + if ids[i] in V then 1 else 0
    ensures NotIn(ids[..i + 1], V) == NotIn(ids[..i], V) + if ids[i] in V then [] else [ids[i]]
  {
    assert ids[..i + 1][..i] == ids[..i];
  }

  class Walk {
    const g: Graph
    const at: string
    const incident: map<Id, seq<Edge>>
    var seen: set<Id>

    ghost predicate Valid()
    {
      Stratified(g, at) && Indexes(g, g.edges, incident)
    }

    constructor (g: Graph, at: string, incident: map<Id, seq<Edge>>)
      ensures this.g == g && this.at == at && this.incident == incident && seen == {}
    {
      this.g, this.at, this.incident, seen := g, at, incident, {};
    }

    method Satisfied(id: Id) returns (ok: bool)
      requires Valid()
      modifies this`seen
      ensures seen == old(seen)
      ensures ok == Sat(g, at, id, seen)
      decreases Level(g, at, id), |g.nodes.Keys - seen|, 1
    {
      if id !in g.nodes || id in seen {
        return false;
      }
      var n := g.nodes[id];
      SubsetSmaller(g.nodes.Keys - (seen + {id}), g.nodes.Keys - seen);
      SatUnfold(g, at, id, seen);
      ghost var before := seen;
      seen := seen + {id};
      if at != "" && !ValidAt(g, n, at) {
        ok := false;
      } else {
        var gateOk := n.gate == "";
        if n.gate != "" {
          gateOk := Satisfied(n.gate);
        }
        if !gateOk {
          ok := false;
        } else if n.kind.Group? {
          var st := StatHere(id);
          ok := st.ok;
        } else {
          ok := Settled(n.status);
        }
      }
      seen := seen - {id};
      assert seen == before;
    }

    method StatHere(id: Id) returns (st: GroupStat)
      requires Valid()
      modifies this`seen
      ensures seen == old(seen)
      ensures st == StatFrom(g, at, id, TrueUnder(g, at, seen))
      decreases Level(g, at, id), |g.nodes.Keys - seen|, 2
    {
      if id !in g.nodes {
        return GroupStat(0, 0, [], false);
      }
      var ms := MembersAt(id);
      ghost var V := TrueUnder(g, at, seen);
      var satisfied, blocking := 0, [];
      for i := 0 to |ms|
        invariant seen == old(seen)
        invariant satisfied == CountIn(ms[..i], V) && blocking == NotIn(ms[..i], V)
      {
        TallyNext(ms, i, V);
        var holds := Satisfied(ms[i]);
        if holds {
          satisfied := satisfied + 1;
        } else {
          blocking := blocking + [ms[i]];
        }
      }
      assert ms[..|ms|] == ms;
      blocking := SortStrings(blocking);
      st := GroupStat(|ms|, satisfied, blocking, Aggregate(RuleOf(g.nodes[id].groupExpr), |ms|, satisfied));
    }

    method MembersAt(id: Id) returns (ids: seq<Id>)
      requires Valid()
      ensures ids == Members(g, at, id)
      decreases Level(g, at, id), 0, 1
    {
      var es := At(incident, id);
      ghost var live := LiveMemberships(g, at, id);
      ids := [];
      for i := 0 to |es|
        invariant ids == SourcesIn(es[..i], live)
      {
        var e := es[i];
        assert es[..i + 1][..i] == es[..i];
        IncidentExact(g, id, e);
        if e.typ.MemberOf? && e.dst == id {
          var alive := EdgeIsLive(e);
          if alive {
            ids := ids + [e.src];
          }
        }
      }
      assert es[..|es|] == es;
      ids := SortStrings(ids);
    }

    method EdgeIsLive(e: Edge) returns (alive: bool)
      requires Valid()
      ensures alive == EdgeLive(g, at, e)
      decreases GateLevel(g, at, e), |g.nodes| + 1, 2
    {
      if at == "" {
        return true;
      }
      if !InWindow(g, at, e) {
        return false;
      }
      alive := true;
      if e.gate != "" {
        var w := new Walk(g, at, incident);
        alive := w.Satisfied(e.gate);
      }
    }
  }

  // Graph.Satisfied: membership in the stratified solution, which with groups that
  // only count upwards is the least fixed point.
  method Satisfied(g: Graph, incident: map<Id, seq<Edge>>, id: Id, at: string) returns (ok: bool)
    requires Stratified(g, at) && Indexes(g, g.edges, incident)
    ensures ok == Sat(g, at, id, {})
    ensures MonotoneGroups(g) ==> (ok <==> id in LeastFixedPoint(g, at, {}))
    ensures forall level, V | Layered(g, at, level) && StratifiedSolution(g, at, level, V) :: ok <==> id in V
  {
    var w := new Walk(g, at, incident);
    ok := w.Satisfied(id);
    AnswersAreTheSolution(g, at);
  }

  // The true nodes are the least fixed point, or the stratified solution, whenever
  // there is one.
  lemma AnswersAreTheSolution(g: Graph, at: string)
    requires Stratified(g, at)
    ensures MonotoneGroups(g) ==> TrueUnder(g, at, {}) == LeastFixedPoint(g, at, {})
    ensures forall level, V | Layered(g, at, level) && StratifiedSolution(g, at, level, V) :: V == TrueUnder(g, at, {})
  {
    if MonotoneGroups(g) {
      forall x
        ensures x in TrueUnder(g, at, {}) <==> x in LeastFixedPoint(g, at, {})
      {
        SatIsLeastFixedPoint(g, at, x, {});
      }
    }
    forall level, V | Layered(g, at, level) && StratifiedSolution(g, at, level, V)
      ensures V == TrueUnder(g, at, {})
    {
      StratifiedSolutionUnique(g, at, level, V);
    }
  }

  // Graph.GroupStat: the counts over that solution, every member counted once as
  // satisfied or named once as blocking.
  method GroupStatOf(g: Graph, incident: map<Id, seq<Edge>>, id: Id, at: string) returns (st: GroupStat)
    requires Stratified(g, at) && Indexes(g, g.edges, incident)
    ensures st == StatFrom(g, at, id, TrueUnder(g, at, {}))
    ensures MonotoneGroups(g) ==> st == StatFrom(g, at, id, LeastFixedPoint(g, at, {}))
    ensures forall level, V | Layered(g, at, level) && StratifiedSolution(g, at, level, V) ::
              st == StatFrom(g, at, id, V)
    ensures st.satisfied + |st.blocking| == st.total
  {
    var w := new Walk(g, at, incident);
    st := w.StatHere(id);
    ghost var V := TrueUnder(g, at, {});
    AnswersAreTheSolution(g, at);
    if id in g.nodes {
      EveryMemberCounted(Members(g, at, id), V);
      SameElements(NotIn(Members(g, at, id), V), st.blocking);
    }
  }
}
