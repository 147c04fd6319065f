// The evaluator without the guard that makes it terminate. It runs on a budget of
// nested visits and answers None when the budget is spent; so evaluation ends
// exactly when some budget is enough.
module Divergence {
  import opened Options
  import opened Graphs
  import opened Sorting
  import opened Satisfaction
  import opened CountingDown

  // The node is in force and no path cuts it.
  predicate Enters(g: Graph, at: string, id: Id, seen: set<Id>) {
    id in g.nodes && id !in seen && (at == "" || ValidAt(g, g.nodes[id], at))
  }

  function RunSat(fuel: nat, g: Graph, at: string, id: Id, seen: set<Id>): Option<bool>
    decreases fuel, 1, 0
  {
    if fuel == 0 then None
    else if !Enters(g, at, id, seen) then Some(false)
    else
      Judge(g.nodes[id], RunGate(fuel - 1, g, at, g.nodes[id], seen + {id}),
            RunTally(fuel - 1, g, at, id, seen + {id}))
  }

  // The gate comes first, and only a group asks for its tally.
  function Judge(n: Node, gate: Option<bool>, tally: Option<(nat, nat)>): Option<bool> {
    if gate != Some(true) then gate
    else if !n.kind.Group? then Some(Settled(n.status))
    else if tally == None then None
    else Some(Aggregate(RuleOf(n.groupExpr), tally.value.0, tally.value.1))
  }

  function RunGate(fuel: nat, g: Graph, at: string, n: Node, onPath: set<Id>): Option<bool>
    decreases fuel, 2, 0
  {
    if n.gate != "" then RunSat(fuel, g, at, n.gate, onPath) else Some(true)
  }

  // The members a group has, and how many of them hold.
  function RunTally(fuel: nat, g: Graph, at: string, id: Id, seen: set<Id>): Option<(nat, nat)>
    decreases fuel, 5, 0
  {
    match RunMembers(fuel, g, at, id, Incident(g, id))
    case None => None
    case Some(ids) =>
      var ms := SortStrings(ids);
      match RunCount(fuel, g, at, ms, seen)
      case None => None
      case Some(k) => Some((|ms|, k))
  }

  function RunMembers(fuel: nat, g: Graph, at: string, id: Id, es: seq<Edge>): Option<seq<Id>>
    decreases fuel, 3, |es|
  {
    if es == [] then Some([])
    else
      var e := es[|es| - 1];
      match RunMembers(fuel, g, at, id, es[..|es| - 1])
      case None => None
      case Some(ids) =>
        if !e.typ.MemberOf? || e.dst != id then Some(ids)
        else
          match RunEdge(fuel, g, at, e)
          case None => None
          case Some(live) => Some(ids + if live then [e.src] else [])
  }

  function RunCount(fuel: nat, g: Graph, at: string, ids: seq<Id>, seen: set<Id>): Option<nat>
    decreases fuel, 3, |ids|
  {
    if ids == [] then Some(0)
    else
      match RunCount(fuel, g, at, ids[..|ids| - 1], seen)
      case None => None
      case Some(k) =>
        match RunSat(fuel, g, at, ids[|ids| - 1], seen)
        case None => None
        case Some(ok) => Some(k + if ok then 1 else 0)
  }

  // An edge's gate starts a fresh path.
  function RunEdge(fuel: nat, g: Graph, at: string, e: Edge): Option<bool>
    decreases fuel, 2, 0
  {
    if at == "" then Some(true)
    else if !InWindow(g, at, e) then Some(false)
    else if e.gate == "" then Some(true)
    else RunSat(fuel, g, at, e.gate, {})
  }

  // ── a larger budget changes no answer ──

  lemma SatIsJudged(fuel: nat, g: Graph, at: string, id: Id, seen: set<Id>)
    requires fuel > 0 && Enters(g, at, id, seen)
    ensures RunSat(fuel, g, at, id, seen) ==
            Judge(g.nodes[id], RunGate(fuel - 1, g, at, g.nodes[id], seen + {id}),
                  RunTally(fuel - 1, g, at, id, seen + {id}))
  {}

  lemma {:induction false} SatKeeps(fuel: nat, more: nat, g: Graph, at: string, id: Id, seen: set<Id>)
    requires fuel <= more && RunSat(fuel, g, at, id, seen).Some?
    ensures RunSat(more, g, at, id, seen) == RunSat(fuel, g, at, id, seen)
    decreases fuel, 1, 0
  {
    if Enters(g, at, id, seen) {
      EnteredKeeps(fuel, more, g, at, id, seen);
    }
  }

  lemma {:induction false} EnteredKeeps(fuel: nat, more: nat, g: Graph, at: string, id: Id, seen: set<Id>)
    requires 0 < fuel <= more && Enters(g, at, id, seen) && RunSat(fuel, g, at, id, seen).Some?
    ensures RunSat(more, g, at, id, seen) == RunSat(fuel, g, at, id, seen)
    decreases fuel, 0, 0
  {
    SatIsJudged(fuel, g, at, id, seen);
    GateKeeps(fuel - 1, more - 1, g, at, id, seen);
    SameJudgement(fuel, more, g, at, id, seen);
  }

  lemma SameJudgement(fuel: nat, more: nat, g: Graph, at: string, id: Id, seen: set<Id>)
    requires fuel > 0 && more > 0 && Enters(g, at, id, seen)
    requires RunGate(more - 1, g, at, g.nodes[id], seen + {id}) == RunGate(fuel - 1, g, at, g.nodes[id], seen + {id})
    requires RunGate(fuel - 1, g, at, g.nodes[id], seen + {id}) == Some(true) && g.nodes[id].kind.Group? ==>
               RunTally(more - 1, g, at, id, seen + {id}) == RunTally(fuel - 1, g, at, id, seen + {id})
    ensures RunSat(more, g, at, id, seen) == RunSat(fuel, g, at, id, seen)
  {
    SatIsJudged(fuel, g, at, id, seen);
    SatIsJudged(more, g, at, id, seen);
    JudgeAgrees(g.nodes[id], RunGate(more - 1, g, at, g.nodes[id], seen + {id}),
                RunTally(fuel - 1, g, at, id, seen + {id}), RunTally(more - 1, g, at, id, seen + {id}));
  }

  lemma {:induction false} GateKeeps(fuel: nat, more: nat, g: Graph, at: string, id: Id, seen: set<Id>)
    requires fuel <= more && Enters(g, at, id, seen)
    requires Judge(g.nodes[id], RunGate(fuel, g, at, g.nodes[id], seen + {id}),
                   RunTally(fuel, g, at, id, seen + {id})).Some?
    ensures RunGate(more, g, at, g.nodes[id], seen + {id}) == RunGate(fuel, g, at, g.nodes[id], seen + {id})
    ensures RunGate(fuel, g, at, g.nodes[id], seen + {id}) == Some(true) && g.nodes[id].kind.Group? ==>
              RunTally(more, g, at, id, seen + {id}) == RunTally(fuel, g, at, id, seen + {id})
    decreases fuel, 6, 0
  {
    var n, onPath := g.nodes[id], seen + {id};
    var gate := RunGate(fuel, g, at, n, onPath);
    JudgeNeeds(n, gate, RunTally(fuel, g, at, id, onPath));
    if n.gate != "" {
      SatKeeps(fuel, more, g, at, n.gate, onPath);
    }
    if gate == Some(true) && n.kind.Group? {
      TallyKeeps(fuel, more, g, at, id, onPath);
    }
  }

  lemma JudgeNeeds(n: Node, gate: Option<bool>, tally: Option<(nat, nat)>)
    requires Judge(n, gate, tally).Some?
    ensures gate.Some? && (gate == Some(true) && n.kind.Group? ==> tally.Some?)
  {}

  lemma JudgeAgrees(n: Node, gate: Option<bool>, tally: Option<(nat, nat)>, other: Option<(nat, nat)>)
    requires gate == Some(true) && n.kind.Group? ==> tally == other
    ensures Judge(n, gate, tally) == Judge(n, gate, other)
  {}

  lemma {:induction false} TallyKeeps(fuel: nat, more: nat, g: Graph, at: string, id: Id, seen: set<Id>)
    requires fuel <= more && RunTally(fuel, g, at, id, seen).Some?
    ensures RunTally(more, g, at, id, seen) == RunTally(fuel, g, at, id, seen)
    decreases fuel, 5, 0
  {
    MembersKeep(fuel, more, g, at, id, Incident(g, id));
    CountKeeps(fuel, more, g, at, SortStrings(RunMembers(fuel, g, at, id, Incident(g, id)).value), seen);
  }

  lemma {:induction false} MembersKeep(fuel: nat, more: nat, g: Graph, at: string, id: Id, es: seq<Edge>)
    requires fuel <= more && RunMembers(fuel, g, at, id, es).Some?
    ensures RunMembers(more, g, at, id, es) == RunMembers(fuel, g, at, id, es)
    decreases fuel, 3, |es|
  {
    if es != [] {
      var e := es[|es| - 1];
      MembersKeep(fuel, more, g, at, id, es[..|es| - 1]);
      if e.typ.MemberOf? && e.dst == id && at != "" && InWindow(g, at, e) && e.gate != "" {
        SatKeeps(fuel, more, g, at, e.gate, {});
      }
    }
  }

  lemma {:induction false} CountKeeps(fuel: nat, more: nat, g: Graph, at: string, ids: seq<Id>, seen: set<Id>)
    requires fuel <= more && RunCount(fuel, g, at, ids, seen).Some?
    ensures RunCount(more, g, at, ids, seen) == RunCount(fuel, g, at, ids, seen)
    decreases fuel, 3, |ids|
  {
    if ids != [] {
      CountKeeps(fuel, more, g, at, ids[..|ids| - 1], seen);
      SatKeeps(fuel, more, g, at, ids[|ids| - 1], seen);
    }
  }

  // ── under the guard some budget is enough ──

  ghost predicate Ends(g: Graph, at: string, id: Id, seen: set<Id>) {
    exists fuel: nat :: RunSat(fuel, g, at, id, seen).Some?
  }

  ghost predicate Answered(fuel: nat, g: Graph, at: string, id: Id, seen: set<Id>)
    requires Stratified(g, at)
  {
    RunSat(fuel, g, at, id, seen) == Some(Sat(g, at, id, seen))
  }

  // Evaluation ends, with the specified answer, wherever memberships are gated
  // only from below.
  lemma {:induction false} StratifiedEnds(g: Graph, at: string, id: Id, seen: set<Id>) returns (fuel: nat)
    requires Stratified(g, at)
    ensures Answered(fuel, g, at, id, seen)
    decreases Level(g, at, id), |g.nodes.Keys - seen|, 1, 0
  {
    if Enters(g, at, id, seen) {
      fuel := VisitEnds(g, at, id, seen);
    } else {
      CutShort(g, at, id, seen);
      fuel := 1;
    }
  }

  // A budget that is enough gives the specified answer, and there is one.
  lemma StratifiedAnswers(fuel: nat, g: Graph, at: string, id: Id, seen: set<Id>)
    requires Stratified(g, at)
    ensures Ends(g, at, id, seen)
    ensures RunSat(fuel, g, at, id, seen) != None ==> Answered(fuel, g, at, id, seen)
  {
    var enough := StratifiedEnds(g, at, id, seen);
    if RunSat(fuel, g, at, id, seen) != None {
      SatKeeps(fuel, fuel + enough, g, at, id, seen);
      SatKeeps(enough, fuel + enough, g, at, id, seen);
    }
  }

  lemma {:induction false} VisitEnds(g: Graph, at: string, id: Id, seen: set<Id>) returns (fuel: nat)
    requires Stratified(g, at) && Enters(g, at, id, seen)
    ensures Answered(fuel, g, at, id, seen)
    decreases Level(g, at, id), |g.nodes.Keys - seen|, 0, 0
  {
    SubsetSmaller(g.nodes.Keys - (seen + {id}), g.nodes.Keys - seen);
    var tallyFuel := TallyEnds(g, at, id, seen + {id});
    fuel := GateEnds(tallyFuel, g, at, id, seen);
  }

  lemma {:induction false} GateEnds(tallyFuel: nat, g: Graph, at: string, id: Id, seen: set<Id>) returns (fuel: nat)
    requires Stratified(g, at) && Enters(g, at, id, seen)
    requires RunTally(tallyFuel, g, at, id, seen + {id}) == Some(Tally(g, at, id, seen + {id}))
    ensures Answered(fuel, g, at, id, seen)
    decreases Level(g, at, id), |g.nodes.Keys - (seen + {id})|, 2, 0
  {
    var gateFuel := 0;
    if g.nodes[id].gate != "" {
      gateFuel := StratifiedEnds(g, at, g.nodes[id].gate, seen + {id});
    }
    PartsEnd(gateFuel, tallyFuel, g, at, id, seen);
    JudgedRight(gateFuel + tallyFuel, g, at, id, seen);
    fuel := 1 + (gateFuel + tallyFuel);
  }

  lemma CutShort(g: Graph, at: string, id: Id, seen: set<Id>)
    requires Stratified(g, at) && !Enters(g, at, id, seen)
    ensures Answered(1, g, at, id, seen)
  {}

  ghost function GateAnswer(g: Graph, at: string, id: Id, onPath: set<Id>): bool
    requires Stratified(g, at) && id in g.nodes
  {
    g.nodes[id].gate == "" || Sat(g, at, g.nodes[id].gate, onPath)
  }

  // The gate and the tally of a node come out right on the budget.
  ghost predicate PartsRight(fuel: nat, g: Graph, at: string, id: Id, seen: set<Id>)
    requires Stratified(g, at) && Enters(g, at, id, seen)
  {
    && RunGate(fuel, g, at, g.nodes[id], seen + {id}) == Some(GateAnswer(g, at, id, seen + {id}))
    && RunTally(fuel, g, at, id, seen + {id}) == Some(Tally(g, at, id, seen + {id}))
  }

  lemma PartsEnd(gateFuel: nat, tallyFuel: nat, g: Graph, at: string, id: Id, seen: set<Id>)
    requires Stratified(g, at) && Enters(g, at, id, seen)
    requires RunGate(gateFuel, g, at, g.nodes[id], seen + {id}) == Some(GateAnswer(g, at, id, seen + {id}))
    requires RunTally(tallyFuel, g, at, id, seen + {id}) == Some(Tally(g, at, id, seen + {id}))
    ensures PartsRight(gateFuel + tallyFuel, g, at, id, seen)
  {
    GateStays(gateFuel, gateFuel + tallyFuel, g, at, g.nodes[id], seen + {id});
    TallyKeeps(tallyFuel, gateFuel + tallyFuel, g, at, id, seen + {id});
  }

  lemma GateStays(fuel: nat, more: nat, g: Graph, at: string, n: Node, onPath: set<Id>)
    requires fuel <= more && RunGate(fuel, g, at, n, onPath).Some?
    ensures RunGate(more, g, at, n, onPath) == RunGate(fuel, g, at, n, onPath)
  {
    if n.gate != "" {
      SatKeeps(fuel, more, g, at, n.gate, onPath);
    }
  }

  lemma JudgedRight(fuel: nat, g: Graph, at: string, id: Id, seen: set<Id>)
    requires Stratified(g, at) && Enters(g, at, id, seen) && PartsRight(fuel, g, at, id, seen)
    ensures Answered(1 + fuel, g, at, id, seen)
  {
    SatUnfold(g, at, id, seen);
    HoldsByParts(g, at, id, seen + {id});
  }

  lemma HoldsByParts(g: Graph, at: string, id: Id, onPath: set<Id>)
    requires Stratified(g, at) && id in g.nodes && (at == "" || ValidAt(g, g.nodes[id], at))
    ensures Judge(g.nodes[id], Some(GateAnswer(g, at, id, onPath)), Some(Tally(g, at, id, onPath))) ==
            Some(Holds(g, at, id, TrueUnder(g, at, onPath)))
  {}

  ghost function Tally(g: Graph, at: string, id: Id, seen: set<Id>): (nat, nat)
    requires Stratified(g, at)
  {
    (|Members(g, at, id)|, CountIn(Members(g, at, id), TrueUnder(g, at, seen)))
  }

  lemma {:induction false} TallyEnds(g: Graph, at: string, id: Id, onPath: set<Id>) returns (fuel: nat)
    requires Stratified(g, at)
    ensures RunTally(fuel, g, at, id, onPath) == Some(Tally(g, at, id, onPath))
    decreases Level(g, at, id), |g.nodes.Keys - onPath|, 4, 0
  {
    var es, ms := Incident(g, id), Members(g, at, id);
    var membersFuel := MembersEnd(g, at, id, es);
    var countFuel := CountEnds(g, at, id, ms, onPath);
    fuel := membersFuel + countFuel;
    MembersKeep(membersFuel, fuel, g, at, id, es);
    CountKeeps(countFuel, fuel, g, at, ms, onPath);
    TallyFrom(fuel, g, at, id, onPath);
  }

  lemma TallyFrom(fuel: nat, g: Graph, at: string, id: Id, onPath: set<Id>)
    requires Stratified(g, at)
    requires RunMembers(fuel, g, at, id, Incident(g, id)) ==
             Some(SourcesIn(Incident(g, id), LiveMemberships(g, at, id)))
    requires RunCount(fuel, g, at, Members(g, at, id), onPath) ==
             Some(CountIn(Members(g, at, id), TrueUnder(g, at, onPath)))
    ensures RunTally(fuel, g, at, id, onPath) == Some(Tally(g, at, id, onPath))
  {}

  lemma {:induction false} MembersEnd(g: Graph, at: string, id: Id, es: seq<Edge>) returns (fuel: nat)
    requires Stratified(g, at) && forall e | e in es :: e in Incident(g, id)
    ensures RunMembers(fuel, g, at, id, es) == Some(SourcesIn(es, LiveMemberships(g, at, id)))
    decreases Level(g, at, id), 0, 3, |es|
  {
    fuel := 0;
    if es != [] {
      var e, ids := es[|es| - 1], SourcesIn(es[..|es| - 1], LiveMemberships(g, at, id));
      assert ids + [] == ids;
      var initFuel := MembersEnd(g, at, id, es[..|es| - 1]);
      IncidentExact(g, id, e);
      fuel := initFuel;
      if e.typ.MemberOf? && e.dst == id && at != "" && InWindow(g, at, e) && e.gate != "" {
        var gateFuel := StratifiedEnds(g, at, e.gate, {});
        fuel := initFuel + gateFuel;
        SatKeeps(gateFuel, fuel, g, at, e.gate, {});
      }
      MembersKeep(initFuel, fuel, g, at, id, es[..|es| - 1]);
    }
  }

  lemma {:induction false} CountEnds(g: Graph, at: string, id: Id, ids: seq<Id>, seen: set<Id>) returns (fuel: nat)
    requires Stratified(g, at) && forall m | m in ids :: m in g.nodes && Level(g, at, m) <= Level(g, at, id)
    ensures RunCount(fuel, g, at, ids, seen) == Some(CountIn(ids, TrueUnder(g, at, seen)))
    decreases Level(g, at, id), |g.nodes.Keys - seen|, 3, |ids|
  {
    fuel := 0;
    if ids != [] {
      var init, last := ids[..|ids| - 1], ids[|ids| - 1];
      var initFuel := CountEnds(g, at, id, init, seen);
      var lastFuel := StratifiedEnds(g, at, last, seen);
      fuel := initFuel + lastFuel;
      CountKeeps(initFuel, fuel, g, at, init, seen);
      SatKeeps(lastFuel, fuel, g, at, last, seen);
    }
  }

  // ── where none is ──

  // An ungated group in force with a membership in force that is gated by a node
  // of L.
  ghost predicate GatedByOneOf(g: Graph, at: string, L: set<Id>, id: Id) {
    && id in g.nodes && g.nodes[id].kind.Group? && g.nodes[id].gate == "" && ValidAt(g, g.nodes[id], at)
    && exists e :: GatedMembership(g, at, L, id, e)
  }

  ghost predicate GatedMembership(g: Graph, at: string, L: set<Id>, id: Id, e: Edge) {
    && e in g.edges && Grounded(g, e) && e.typ.MemberOf? && e.dst == id && InWindow(g, at, e)
    && e.gate != "" && e.gate in L
  }

  lemma {:induction false} MembersNever(fuel: nat, g: Graph, at: string, id: Id, es: seq<Edge>, e: Edge)
    requires e in es && e.typ.MemberOf? && e.dst == id && RunEdge(fuel, g, at, e) == None
    ensures RunMembers(fuel, g, at, id, es) == None
  {
    if es[|es| - 1] != e {
      MembersNever(fuel, g, at, id, es[..|es| - 1], e);
    }
  }

  // Under a date, when each of some ungated groups has a membership gated by one
  // of them, deciding any of them never ends.
  lemma {:induction false} GateCycleNeverEnds(fuel: nat, g: Graph, at: string, L: set<Id>, id: Id)
    requires at != "" && id in L && forall l | l in L :: GatedByOneOf(g, at, L, l)
    ensures RunSat(fuel, g, at, id, {}) == None
    decreases fuel
  {
    if fuel > 0 {
      var e :| GatedMembership(g, at, L, id, e);
      GateCycleNeverEnds(fuel - 1, g, at, L, e.gate);
      GateNever(fuel - 1, g, at, L, id, e);
    }
  }

  lemma GateNever(fuel: nat, g: Graph, at: string, L: set<Id>, id: Id, e: Edge)
    requires at != "" && GatedByOneOf(g, at, L, id) && GatedMembership(g, at, L, id, e)
    requires RunSat(fuel, g, at, e.gate, {}) == None
    ensures RunSat(fuel + 1, g, at, id, {}) == None
  {
    IncidentExact(g, id, e);
    MembersNever(fuel, g, at, id, Incident(g, id), e);
    assert RunTally(fuel, g, at, id, {} + {id}) == None;
  }

  // A membership gated by its own group cannot be ranked: at any date, deciding
  // the group starts a fresh evaluation of the group, and never ends.
  lemma GateOnOwnMembershipNeverEnds(id: Id, expr: string, at: string)
    requires at != "" && id != ""
    ensures !Ends(LoneGroup(id, expr, id), at, id, {})
    ensures !Stratified(LoneGroup(id, expr, id), at)
  {
    var g := LoneGroup(id, expr, id);
    assert GatedMembership(g, at, {id}, id, g.edges[0]);
    forall fuel: nat
      ensures RunSat(fuel, g, at, id, {}) == None
    {
      GateCycleNeverEnds(fuel, g, at, {id}, id);
    }
    if Stratified(g, at) {
      var fuel := StratifiedEnds(g, at, id, {});
      assert false;
    }
  }

  // The guard is enough and not needed: where the group's own gate fails first,
  // the same membership does no harm.
  lemma StratifiedNotNeeded(id: Id, expr: string, at: string)
    requires at != "" && id != ""
    ensures var lone := LoneGroup(id, expr, id);
            var g := lone.(nodes := map[id := lone.nodes[id].(gate := id + id)]);
            !Stratified(g, at) && Ends(g, at, id, {})
  {
    var lone := LoneGroup(id, expr, id);
    var g := lone.(nodes := map[id := lone.nodes[id].(gate := id + id)]);
    assert id + id !in g.nodes by { assert |id + id| > |id|; }
    assert RunSat(1, g, at, id + id, {} + {id}) == Some(false);
    assert RunSat(2, g, at, id, {}) == Some(false);
    forall rank
      ensures !IsRank(g, at, rank)
    {
      assert g.edges[0] in g.edges && Grounded(g, g.edges[0]);
    }
  }
}
