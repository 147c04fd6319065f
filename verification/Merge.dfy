// Folding every `same_as` node into the node it names: chains followed to their
// end, every reference rewritten, the edge array compacted in place.
module Merge {
  import opened Graphs
  import opened Satisfaction

  // ── chains ──

  datatype ChainEnd = Survivor(id: Id) | Missing(id: Id) | Cyclic

  // Follow same_as from `cur`, having already met `seen`.
  function Follow(nodes: map<Id, Node>, seen: set<Id>, cur: Id): ChainEnd
    decreases |nodes.Keys - seen|
  {
    if cur in seen then Cyclic
    else if cur !in nodes then Missing(cur)
    else if nodes[cur].sameAs == "" then Survivor(cur)
    else
      SubsetSmaller(nodes.Keys - (seen + {cur}), nodes.Keys - seen);
      Follow(nodes, seen + {cur}, nodes[cur].sameAs)
  }

  // p runs from its first id along same_as to its last.
  ghost predicate IsChain(nodes: map<Id, Node>, p: seq<Id>) {
    && p != []
    && (forall i | 0 <= i < |p| :: p[i] in nodes)
    && forall i | 0 <= i < |p| - 1 :: nodes[p[i]].sameAs != "" && nodes[p[i]].sameAs == p[i + 1]
  }

  // The chain from x ends at a node that names no other.
  ghost predicate EndsAt(nodes: map<Id, Node>, p: seq<Id>, x: Id, end: Id) {
    IsChain(nodes, p) && p[0] == x && p[|p| - 1] == end && nodes[end].sameAs == ""
  }

  lemma {:induction false} FollowedChain(nodes: map<Id, Node>, seen: set<Id>, cur: Id) returns (p: seq<Id>)
    requires Follow(nodes, seen, cur).Survivor?
    ensures EndsAt(nodes, p, cur, Follow(nodes, seen, cur).id)
    decreases |nodes.Keys - seen|
  {
    if nodes[cur].sameAs == "" {
      p := [cur];
    } else {
      SubsetSmaller(nodes.Keys - (seen + {cur}), nodes.Keys - seen);
      var rest := FollowedChain(nodes, seen + {cur}, nodes[cur].sameAs);
      p := [cur] + rest;
      assert forall i | 1 <= i < |p| :: p[i] == rest[i - 1];
    }
  }

  // There is one way to the end, so its length is fixed.
  lemma {:induction false} ChainLengthFixed(nodes: map<Id, Node>, p: seq<Id>, q: seq<Id>, x: Id, s: Id, t: Id)
    requires EndsAt(nodes, p, x, s) && EndsAt(nodes, q, x, t)
    ensures |p| == |q| && s == t
    decreases |p|
  {
    FirstLink(nodes, p, x, s);
    FirstLink(nodes, q, x, t);
    if |p| > 1 {
      ChainTail(nodes, p, x, s);
      ChainTail(nodes, q, x, t);
      ChainLengthFixed(nodes, p[1..], q[1..], p[1], s, t);
    }
  }

  lemma FirstLink(nodes: map<Id, Node>, p: seq<Id>, x: Id, s: Id)
    requires EndsAt(nodes, p, x, s)
    ensures x in nodes
    ensures |p| > 1 <==> nodes[x].sameAs != ""
    ensures |p| > 1 ==> nodes[x].sameAs == p[1]
  {
    if |p| > 1 {
      assert nodes[p[0]].sameAs == p[1];
    }
  }

  lemma ChainTail(nodes: map<Id, Node>, p: seq<Id>, x: Id, s: Id)
    requires EndsAt(nodes, p, x, s) && |p| > 1
    ensures EndsAt(nodes, p[1..], p[1], s)
  {}

  lemma {:induction false} FollowReachesEnd(nodes: map<Id, Node>, seen: set<Id>, p: seq<Id>, x: Id, s: Id)
    requires EndsAt(nodes, p, x, s)
    requires forall y, q | y in seen && EndsAt(nodes, q, y, s) :: |q| > |p|
    ensures Follow(nodes, seen, x) == Survivor(s)
    decreases |p|
  {
    if |p| > 1 {
      assert nodes[p[0]].sameAs == p[1];
      ChainTail(nodes, p, x, s);
      forall y, q | y in seen + {x} && EndsAt(nodes, q, y, s)
        ensures |q| > |p[1..]|
      {
        if y == x { ChainLengthFixed(nodes, p, q, x, s, s); }
      }
      SubsetSmaller(nodes.Keys - (seen + {x}), nodes.Keys - seen);
      FollowReachesEnd(nodes, seen + {x}, p[1..], p[1], s);
    } else {
      assert p == [x] && x == s;
    }
  }

  // Following from a node finds a survivor exactly when its same_as chain ends,
  // and then it is the chain's end; on a cycle or a dangling name it stops.
  lemma FollowFindsTheEnd(nodes: map<Id, Node>, id: Id, s: Id)
    requires id in nodes && nodes[id].sameAs != ""
    ensures Follow(nodes, {id}, nodes[id].sameAs) == Survivor(s) <==> exists p :: EndsAt(nodes, p, id, s)
  {
    if Follow(nodes, {id}, nodes[id].sameAs) == Survivor(s) {
      var p := FollowedChain(nodes, {id}, nodes[id].sameAs);
      var q := [id] + p;
      assert forall i | 1 <= i < |q| :: q[i] == p[i - 1];
      assert EndsAt(nodes, q, id, s);
    }
    if p :| EndsAt(nodes, p, id, s) {
      assert |p| > 1;
      assert nodes[p[0]].sameAs == p[1];
      ChainTail(nodes, p, id, s);
      forall y, q | y in {id} && EndsAt(nodes, q, y, s)
        ensures |q| > |p[1..]|
      {
        ChainLengthFixed(nodes, p, q, id, s, s);
      }
      FollowReachesEnd(nodes, {id}, p[1..], p[1], s);
    }
  }

  // ── what merging means ──

  datatype Verdict = Stays | Folds(to: Id) | Cycle | Dangling(missing: Id) | KindClash(survivor: Id)

  // What becomes of one node: it folds into the end of its chain, unless the
  // chain has none or the end is of another kind.
  function Judge(nodes: map<Id, Node>, id: Id): Verdict
    requires id in nodes
  {
    if nodes[id].sameAs == "" then Stays
    else
      match Follow(nodes, {id}, nodes[id].sameAs)
      case Cyclic => Cycle
      case Missing(m) => Dangling(m)
      case Survivor(s) => if s in nodes && nodes[s].kind == nodes[id].kind then Folds(s) else KindClash(s)
  }

  // Each retired id with the node that absorbs it.
  function Final(nodes: map<Id, Node>): map<Id, Id> {
    map id | id in nodes && Judge(nodes, id).Folds? :: Judge(nodes, id).to
  }

  // Each node whose same_as cannot be honoured, with why.
  function Problems(nodes: map<Id, Node>): map<Id, Verdict> {
    map id | id in nodes && !Judge(nodes, id).Folds? && !Judge(nodes, id).Stays? :: Judge(nodes, id)
  }

  function Resolve(final: map<Id, Id>, id: Id): Id { if id in final then final[id] else id }

  function ResolveEdge(final: map<Id, Id>, e: Edge): Edge {
    e.(src := Resolve(final, e.src), dst := Resolve(final, e.dst), gate := Resolve(final, e.gate))
  }

  function ResolveNode(final: map<Id, Id>, n: Node): Node {
    n.(gate := Resolve(final, n.gate), owner := Resolve(final, n.owner))
  }

  // What two edges must share to be one relation said twice.
  datatype EdgeKey = EdgeKey(src: Id, dst: Id, typ: EdgeType, validFrom: string, validUntil: string, gate: Id)

  function KeyOf(e: Edge): EdgeKey { EdgeKey(e.src, e.dst, e.typ, e.validFrom, e.validUntil, e.gate) }

  // The edges that survive: no self-edge, and of each key the first declared.
  function Compact(es: seq<Edge>): seq<Edge> {
    if es == [] then []
    else
      var init, e := Compact(es[..|es| - 1]), es[|es| - 1];
      if e.src == e.dst || HasKey(init, KeyOf(e)) then init else init + [e]
  }

  predicate HasKey(es: seq<Edge>, k: EdgeKey) { exists i | 0 <= i < |es| :: KeyOf(es[i]) == k }

  function ResolveAll(final: map<Id, Id>, es: seq<Edge>): (r: seq<Edge>)
    ensures |r| == |es|
  {
    seq(|es|, i requires 0 <= i < |es| => ResolveEdge(final, es[i]))
  }

  // Each kept edge is an input edge, no two share a key, none joins a node to
  // itself, and every input relation that is not a self-edge is still there.
  lemma {:induction false} CompactExact(es: seq<Edge>)
    ensures forall e | e in Compact(es) :: e in es && e.src != e.dst
    ensures forall i, j | 0 <= i < j < |Compact(es)| :: KeyOf(Compact(es)[i]) != KeyOf(Compact(es)[j])
    ensures forall e | e in es && e.src != e.dst :: HasKey(Compact(es), KeyOf(e))
    ensures |Compact(es)| <= |es|
  {
    if es != [] {
      var init, e := es[..|es| - 1], es[|es| - 1];
      CompactExact(init);
      assert es == init + [e];
      forall d | d in es && d.src != d.dst
        ensures HasKey(Compact(es), KeyOf(d))
      {
        CompactHasKey(Compact(init), e, KeyOf(d), d in init);
      }
    }
  }

  // The same list said position by position: an edge is kept where it is the
  // first of its key, in the order of declaration.
  predicate FirstOfKey(es: seq<Edge>, i: nat)
    requires i < |es|
  {
    es[i].src != es[i].dst && forall j | 0 <= j < i :: KeyOf(es[j]) != KeyOf(es[i])
  }

  function Firsts(es: seq<Edge>, n: nat): seq<Edge>
    requires n <= |es|
  {
    if n == 0 then [] else Firsts(es, n - 1) + if FirstOfKey(es, n - 1) then [es[n - 1]] else []
  }

  lemma {:induction false} FirstsOfPrefix(es: seq<Edge>, m: nat, n: nat)
    requires n <= m <= |es|
    ensures Firsts(es[..m], n) == Firsts(es, n)
  {
    if n > 0 {
      FirstsOfPrefix(es, m, n - 1);
      assert FirstOfKey(es[..m], n - 1) == FirstOfKey(es, n - 1);
    }
  }

  lemma {:induction false} CompactKeepsFirsts(es: seq<Edge>)
    ensures Compact(es) == Firsts(es, |es|)
  {
    if es != [] {
      var n := |es| - 1;
      CompactKeepsFirsts(es[..n]);
      FirstsOfPrefix(es, n, n);
      CompactExact(es[..n]);
      if es[n].src != es[n].dst {
        KeyKeptIffMet(es[..n], es[n]);
        assert FirstOfKey(es, n) <==> forall j | 0 <= j < n :: KeyOf(es[..n][j]) != KeyOf(es[n]);
      }
    }
  }

  lemma KeyKeptIffMet(es: seq<Edge>, e: Edge)
    requires e.src != e.dst
    ensures HasKey(Compact(es), KeyOf(e)) <==> exists j :: 0 <= j < |es| && KeyOf(es[j]) == KeyOf(e)
  {
    CompactExact(es);
    if j :| 0 <= j < |es| && KeyOf(es[j]) == KeyOf(e) {
      assert es[j] in es && es[j].src != es[j].dst;
    }
    if i :| 0 <= i < |Compact(es)| && KeyOf(Compact(es)[i]) == KeyOf(e) {
      assert Compact(es)[i] in es;
    }
  }

  lemma CompactHasKey(kept: seq<Edge>, e: Edge, k: EdgeKey, before: bool)
    requires if before then HasKey(kept, k) else k == KeyOf(e)
    ensures HasKey(kept + [e], k) && (HasKey(kept, KeyOf(e)) ==> HasKey(kept, k))
  {
    if before {
      var i :| 0 <= i < |kept| && KeyOf(kept[i]) == k;
      assert KeyOf((kept + [e])[i]) == k;
    } else {
      assert (kept + [e])[|kept|] == e;
    }
  }

  // A retired id maps in one step to a surviving node of its own kind that names
  // no other node.
  lemma RetiredMapsToSurvivor(nodes: map<Id, Node>, id: Id)
    requires id in Final(nodes)
    ensures var to := Final(nodes)[id];
            && to in nodes && to !in Final(nodes)
            && nodes[to].sameAs == "" && nodes[to].kind == nodes[id].kind
            && exists p :: EndsAt(nodes, p, id, to)
  {
    FollowFindsTheEnd(nodes, id, Final(nodes)[id]);
  }

  lemma ResolvedIsNotRetired(nodes: map<Id, Node>, id: Id)
    ensures Resolve(Final(nodes), id) !in Final(nodes)
  {
    if id in Final(nodes) { RetiredMapsToSurvivor(nodes, id); }
  }

  // ── aliases ──

  function AliasesOf(nodes: map<Id, Node>): map<Id, seq<Alias>> { map id | id in nodes :: nodes[id].aliases }

  // Every alias recorded on any node, with multiplicity.
  ghost function Bag<T(!new)>(lists: map<Id, seq<T>>): multiset<T>
    decreases |lists|
  {
    if lists == map[] then multiset{}
    else
      var id :| id in lists;
      assert lists.Keys == (lists - {id}).Keys + {id};
      multiset(lists[id]) + Bag(lists - {id})
  }

  lemma {:induction false} BagSplit<T(!new)>(lists: map<Id, seq<T>>, id: Id)
    requires id in lists
    ensures Bag(lists) == multiset(lists[id]) + Bag(lists - {id})
    decreases |lists|
  {
    var x :| x in lists && Bag(lists) == multiset(lists[x]) + Bag(lists - {x});
    if x != id {
      OneLess(lists, x);
      OneLess(lists, id);
      BagSplit(lists - {x}, id);
      BagSplit(lists - {id}, x);
      assert lists - {x} - {id} == lists - {id} - {x};
    }
  }

  lemma OneLess<T(!new)>(lists: map<Id, seq<T>>, id: Id)
    requires id in lists
    ensures |lists - {id}| < |lists|
  {
    assert lists.Keys == (lists - {id}).Keys + {id};
    assert |lists.Keys| == |(lists - {id}).Keys| + 1;
  }

  lemma AbsorbedMap<T(!new)>(lists: map<Id, seq<T>>, id: Id, to: Id)
    requires id in lists && to in lists && id != to
    ensures var absorbed := lists[to := lists[to] + lists[id]] - {id};
            to in absorbed && absorbed[to] == lists[to] + lists[id] && absorbed - {to} == lists - {id} - {to}
  {}

  // Moving one list onto another and dropping its owner loses nothing.
  lemma AbsorbKeepsBag<T(!new)>(lists: map<Id, seq<T>>, id: Id, to: Id)
    requires id in lists && to in lists && id != to
    ensures Bag(lists[to := lists[to] + lists[id]] - {id}) == Bag(lists)
  {
    var absorbed := lists[to := lists[to] + lists[id]] - {id};
    AbsorbedMap(lists, id, to);
    BagSplit(lists, id);
    BagSplit(lists - {id}, to);
    BagSplit(absorbed, to);
    assert multiset(lists[to] + lists[id]) == multiset(lists[to]) + multiset(lists[id]);
  }

  ghost function AliasBag(nodes: map<Id, Node>): multiset<Alias> { Bag(AliasesOf(nodes)) }

  function AbsorbOne(nodes: map<Id, Node>, id: Id, to: Id): map<Id, Node>
    requires to in nodes && id in nodes
  {
    nodes[to := nodes[to].(aliases := nodes[to].aliases + nodes[id].aliases)] - {id}
  }

  lemma AbsorbOneAliases(nodes: map<Id, Node>, id: Id, to: Id)
    requires id in nodes && to in nodes && id != to
    ensures var lists := AliasesOf(nodes);
            AliasesOf(AbsorbOne(nodes, id, to)) == lists[to := lists[to] + lists[id]] - {id}
  {}

  lemma AbsorbKeepsAliases(nodes: map<Id, Node>, id: Id, to: Id)
    requires id in nodes && to in nodes && id != to
    ensures AliasBag(AbsorbOne(nodes, id, to)) == AliasBag(nodes)
  {
    AbsorbOneAliases(nodes, id, to);
    AbsorbKeepsBag(AliasesOf(nodes), id, to);
  }

  // ── the merge as it runs ──

  // A survivor after the merge: its own fields resolved, its own aliases first.
  ghost predicate Merged(before: map<Id, Node>, final: map<Id, Id>, id: Id, n: Node)
    requires id in before
  {
    && n == ResolveNode(final, before[id]).(aliases := n.aliases)
    && before[id].aliases <= n.aliases
  }

  // A node that has only gained aliases.
  ghost predicate Gained(before: Node, after: Node) {
    after == before.(aliases := after.aliases) && before.aliases <= after.aliases
  }

  ghost predicate AllGained(was: map<Id, Node>, nodes: map<Id, Node>) {
    forall id | id in nodes :: id in was && Gained(was[id], nodes[id])
  }

  // Every alias of the absorbed is with its survivor.
  ghost predicate Transferred(was: map<Id, Node>, nodes: map<Id, Node>, final: map<Id, Id>, done: set<Id>)
    requires done <= final.Keys && done <= was.Keys
  {
    forall id | id in done :: final[id] in nodes && AliasesAmong(was[id].aliases, nodes[final[id]].aliases)
  }

  ghost predicate Untouched(was: map<Id, Node>, nodes: map<Id, Node>, ids: set<Id>) {
    forall id | id in ids :: id in was && id in nodes && nodes[id] == was[id]
  }

  // The graph half way through absorbing.
  ghost predicate Absorbing(was: map<Id, Node>, nodes: map<Id, Node>, final: map<Id, Id>, done: set<Id>)
    requires done <= final.Keys && done <= was.Keys
  {
    && nodes.Keys == was.Keys - done
    && AllGained(was, nodes)
    && Untouched(was, nodes, final.Keys - done)
    && Transferred(was, nodes, final, done)
    && AliasBag(nodes) == AliasBag(was)
  }

  lemma AbsorbOneGains(was: map<Id, Node>, nodes: map<Id, Node>, id: Id, to: Id)
    requires AllGained(was, nodes) && id in nodes && to in nodes && id != to
    ensures AllGained(was, AbsorbOne(nodes, id, to))
    ensures AllGained(nodes, AbsorbOne(nodes, id, to))
  {}

  lemma TransferredNext(
      was: map<Id, Node>, nodes: map<Id, Node>, after: map<Id, Node>, final: map<Id, Id>, done: set<Id>, id: Id)
    requires done + {id} <= final.Keys && done + {id} <= was.Keys
    requires Transferred(was, nodes, final, done) && AllGained(nodes, after)
    requires forall x | x in done + {id} :: final[x] in after
    requires AliasesAmong(was[id].aliases, after[final[id]].aliases)
    ensures Transferred(was, after, final, done + {id})
  {
    forall x | x in done + {id}
      ensures AliasesAmong(was[x].aliases, after[final[x]].aliases)
    {
      if x != id {
        assert Gained(nodes[final[x]], after[final[x]]);
      }
    }
  }

  lemma AbsorbStep(was: map<Id, Node>, nodes: map<Id, Node>, final: map<Id, Id>, done: set<Id>, id: Id)
    requires forall x | x in final :: x in was && final[x] in was && final[x] !in final
    requires done <= final.Keys && done <= was.Keys && id in final && id !in done && Absorbing(was, nodes, final, done)
    ensures final[id] in nodes && id in nodes && Absorbing(was, AbsorbOne(nodes, id, final[id]), final, done + {id})
  {
    var to := final[id];
    var after := AbsorbOne(nodes, id, to);
    AbsorbKeepsAliases(nodes, id, to);
    AbsorbOneGains(was, nodes, id, to);
    UntouchedNext(was, nodes, final, done, id);
    TransferredNext(was, nodes, after, final, done, id);
  }

  // Absorbing one node leaves the ones still to be absorbed as they were, and its
  // own aliases with its survivor.
  lemma UntouchedNext(was: map<Id, Node>, nodes: map<Id, Node>, final: map<Id, Id>, done: set<Id>, id: Id)
    requires id in final && id in nodes && id !in done && final[id] in nodes && final[id] !in final
    requires Untouched(was, nodes, final.Keys - done)
    ensures Untouched(was, AbsorbOne(nodes, id, final[id]), final.Keys - (done + {id}))
    ensures id in was && final[id] in AbsorbOne(nodes, id, final[id])
    ensures AbsorbOne(nodes, id, final[id])[final[id]].aliases == nodes[final[id]].aliases + was[id].aliases
  {}

  class Assembly {
    var nodes: map<Id, Node>
    var edges: array<Edge>
    var count: nat
    var retired: map<Id, Id>

    ghost predicate Valid()
      reads this
    {
      count <= edges.Length
    }

    ghost function Edges(): seq<Edge>
      reads this, edges
      requires Valid()
    {
      edges[..count]
    }

    constructor (nodes: map<Id, Node>, edges: array<Edge>)
      ensures Valid() && this.nodes == nodes && this.edges == edges && count == edges.Length && retired == map[]
    {
      this.nodes, this.edges, count, retired := nodes, edges, edges.Length, map[];
    }

    // Chains resolved to their ends, refusing cycles, dangling names and mixed kinds.
    method FindFinal() returns (final: map<Id, Id>, problems: map<Id, Verdict>)
      ensures final == Final(nodes) && problems == Problems(nodes)
    {
      final, problems := map[], map[];
      var todo := nodes.Keys;
      while todo != {}
        invariant todo <= nodes.Keys && final.Keys <= nodes.Keys - todo && problems.Keys <= nodes.Keys - todo
        invariant forall id | id in nodes.Keys - todo :: Settled(final, problems, id, Judge(nodes, id))
      {
        var id :| id in todo;
        todo := todo - {id};
        if nodes[id].sameAs != "" {
          var end := FollowChain(id);
          match end {
            case Cyclic => problems := problems[id := Cycle];
            case Missing(m) => problems := problems[id := Dangling(m)];
            case Survivor(s) =>
              FollowFindsTheEnd(nodes, id, s);
              if nodes[s].kind != nodes[id].kind {
                problems := problems[id := KindClash(s)];
              } else {
                final := final[id := s];
              }
          }
        }
      }
      AllSettled(nodes, final, problems);
    }

    static lemma AllSettled(nodes: map<Id, Node>, final: map<Id, Id>, problems: map<Id, Verdict>)
      requires final.Keys <= nodes.Keys && problems.Keys <= nodes.Keys
      requires forall id | id in nodes :: Settled(final, problems, id, Judge(nodes, id))
      ensures final == Final(nodes) && problems == Problems(nodes)
    {}

    // The outcome of one node is in the right table, or in neither.
    static predicate Settled(final: map<Id, Id>, problems: map<Id, Verdict>, id: Id, v: Verdict) {
      match v
      case Stays => id !in final && id !in problems
      case Folds(to) => id in final && final[id] == to && id !in problems
      case _ => id !in final && id in problems && problems[id] == v
    }

    method FollowChain(id: Id) returns (end: ChainEnd)
      requires id in nodes && nodes[id].sameAs != ""
      ensures end == Follow(nodes, {id}, nodes[id].sameAs)
    {
      var seen, cur := {id}, nodes[id].sameAs;
      while true
        invariant Follow(nodes, seen, cur) == Follow(nodes, {id}, nodes[id].sameAs)
        decreases |nodes.Keys - seen|
      {
        if cur in seen {
          return Cyclic;
        }
        if cur !in nodes {
          return Missing(cur);
        }
        if nodes[cur].sameAs == "" {
          return Survivor(cur);
        }
        SubsetSmaller(nodes.Keys - (seen + {cur}), nodes.Keys - seen);
        seen, cur := seen + {cur}, nodes[cur].sameAs;
      }
    }

    method RewriteEdges(final: map<Id, Id>)
      requires Valid()
      modifies edges
      ensures Edges() == ResolveAll(final, old(Edges()))
    {
      ghost var was := Edges();
      for i := 0 to count
        invariant forall j | 0 <= j < count :: edges[j] == if j < i then ResolveEdge(final, was[j]) else was[j]
      {
        edges[i] := ResolveEdge(final, edges[i]);
      }
    }

    method RewriteNodes(final: map<Id, Id>)
      modifies this`nodes
      ensures nodes == map id | id in old(nodes) :: ResolveNode(final, old(nodes)[id])
    {
      ghost var was := nodes;
      var todo := nodes.Keys;
      while todo != {}
        invariant todo <= was.Keys
        invariant nodes == map id | id in was :: if id in todo then was[id] else ResolveNode(final, was[id])
      {
        var id :| id in todo;
        todo := todo - {id};
        nodes := nodes[id := ResolveNode(final, nodes[id])];
      }
    }

    // The survivor takes over the aliases of what it absorbs; the absorbed goes.
    method AbsorbNode(id: Id, to: Id)
      requires id in nodes && to in nodes
      modifies this`nodes, this`retired
      ensures nodes == AbsorbOne(old(nodes), id, to) && retired == old(retired)[id := to]
    {
      nodes := nodes[to := nodes[to].(aliases := nodes[to].aliases + nodes[id].aliases)];
      retired := retired[id := to];
      nodes := nodes - {id};
    }

    method Absorb(final: map<Id, Id>)
      requires forall id | id in final :: id in nodes && final[id] in nodes && final[id] !in final
      modifies this`nodes, this`retired
      ensures final.Keys <= old(nodes).Keys && Absorbing(old(nodes), nodes, final, final.Keys)
      ensures retired == old(retired) + final
    {
      ghost var was, base := nodes, retired;
      var todo := final.Keys;
      AbsorbingStart(was, base, final);
      while todo != {}
        invariant todo <= final.Keys && final.Keys <= was.Keys && Absorbing(was, nodes, final, final.Keys - todo)
        invariant retired == base + (final - todo)
      {
        var id :| id in todo;
        AbsorbStep(was, nodes, final, final.Keys - todo, id);
        RetireNext(base, final, todo, id);
        AbsorbNode(id, final[id]);
        todo := todo - {id};
      }
      assert final - {} == final && final.Keys - {} == final.Keys;
    }

    static lemma AbsorbingStart(was: map<Id, Node>, base: map<Id, Id>, final: map<Id, Id>)
      requires final.Keys <= was.Keys
      ensures Absorbing(was, was, final, final.Keys - final.Keys)
      ensures base == base + (final - final.Keys)
    {
      assert final.Keys - final.Keys == {} && final - final.Keys == map[];
    }

    static lemma RetireNext(base: map<Id, Id>, final: map<Id, Id>, todo: set<Id>, id: Id)
      requires id in todo && todo <= final.Keys
      ensures final.Keys - todo + {id} == final.Keys - (todo - {id})
      ensures base + (final - (todo - {id})) == (base + (final - todo))[id := final[id]]
    {}

    // Self-edges and repeated keys squeezed out, the survivors sliding down over
    // the array they are read from.
    method CompactEdges()
      requires Valid()
      modifies this`count, edges
      ensures Valid() && Edges() == Compact(old(Edges()))
    {
      ghost var was := Edges();
      var a, n := edges, count;
      var seen: set<EdgeKey>, kept: nat := {}, 0;
      assert was[..0] == [];
      for i := 0 to n
        invariant kept <= i && count == n && Compacting(was, a[..n], i, kept, seen)
      {
        var e := a[i];
        ghost var now := a[..n];
        CompactNext(was, now, i, kept, seen);
        if !Repeats(e, seen) {
          a[kept] := e;
          assert a[..n] == now[kept := e];
          seen, kept := seen + {KeyOf(e)}, kept + 1;
        }
      }
      assert was[..n] == was && a[..kept] == a[..n][..kept];
      count := kept;
    }

    static ghost function KeySet(es: seq<Edge>): set<EdgeKey> { set i | 0 <= i < |es| :: KeyOf(es[i]) }

    // The edges after i steps of the pass: the first `kept` are what is kept of the
    // first i, with their keys, and those from i on are untouched.
    static ghost predicate Compacting(was: seq<Edge>, now: seq<Edge>, i: nat, kept: nat, seen: set<EdgeKey>) {
      && kept <= i <= |was| == |now|
      && now[..kept] == Compact(was[..i]) && seen == KeySet(now[..kept]) && now[i..] == was[i..]
    }

    static predicate Repeats(e: Edge, seen: set<EdgeKey>) { e.src == e.dst || KeyOf(e) in seen }

    static lemma CompactNext(was: seq<Edge>, now: seq<Edge>, i: nat, kept: nat, seen: set<EdgeKey>)
      requires i < |was| && Compacting(was, now, i, kept, seen)
      ensures if Repeats(now[i], seen) then Compacting(was, now, i + 1, kept, seen)
              else Compacting(was, now[kept := now[i]], i + 1, kept + 1, seen + {KeyOf(now[i])})
    {
      var e, done := now[i], now[..kept];
      assert e == now[i..][0] == was[i..][0] == was[i];
      assert was[..i + 1][..i] == was[..i];
      KeysAfter(done, e);
      assert HasKey(done, KeyOf(e)) <==> KeyOf(e) in seen;
      if Repeats(e, seen) {
        assert now[i + 1..] == now[i..][1..] == was[i + 1..];
      } else {
        var after := now[kept := e];
        assert after[..kept + 1] == done + [e];
        assert after[i + 1..] == now[i..][1..] == was[i + 1..];
      }
    }

    static lemma KeysAfter(es: seq<Edge>, e: Edge)
      ensures KeySet(es + [e]) == KeySet(es) + {KeyOf(e)}
    {
      var more := es + [e];
      assert forall i | 0 <= i < |es| :: more[i] == es[i];
      assert more[|es|] == e;
    }

    // Rewrite, absorb and compact once it is known what folds into what.
    method FoldInto(final: map<Id, Id>)
      requires Valid() && final == Final(nodes)
      modifies this, edges
      ensures Valid() && edges == old(edges)
      ensures retired == old(retired) + final && MergedNodes(old(nodes), nodes)
      ensures Edges() == Compact(ResolveAll(final, old(Edges())))
    {
      ghost var was := nodes;
      forall id | id in final
        ensures id in nodes && final[id] in nodes && final[id] !in final
      {
        RetiredMapsToSurvivor(nodes, id);
      }
      RewriteEdges(final);
      RewriteNodes(final);
      ghost var rewritten := nodes;
      Absorb(final);
      AbsorbedIsMerged(was, rewritten, nodes, final);
      CompactEdges();
    }

    method Merge() returns (problems: map<Id, Verdict>)
      requires Valid()
      modifies this, edges
      ensures Valid() && edges == old(edges) && problems == Problems(old(nodes))
      ensures retired == old(retired) + Final(old(nodes)) && MergedNodes(old(nodes), nodes)
      ensures Edges() == if Final(old(nodes)) == map[] then old(Edges())
                         else Compact(ResolveAll(Final(old(nodes)), old(Edges())))
    {
      var final: map<Id, Id>;
      final, problems := FindFinal();
      if final == map[] {
        NothingToMerge(nodes);
        return;
      }
      FoldInto(final);
    }
  }

  // The nodes after a merge: the retired are gone, the rest keep their fields with
  // references resolved, and no alias is lost or moved away from its survivor.
  ghost predicate MergedNodes(before: map<Id, Node>, after: map<Id, Node>) {
    && after.Keys == before.Keys - Final(before).Keys
    && (forall id | id in after :: Merged(before, Final(before), id, after[id]))
    && AliasBag(after) == AliasBag(before)
    && forall id | id in Final(before) ::
         Final(before)[id] in after && AliasesAmong(before[id].aliases, after[Final(before)[id]].aliases)
  }

  lemma NothingToMerge(nodes: map<Id, Node>)
    requires Final(nodes) == map[]
    ensures MergedNodes(nodes, nodes)
  {}

  ghost predicate Rewritten(was: map<Id, Node>, nodes: map<Id, Node>, final: map<Id, Id>) {
    nodes.Keys == was.Keys && forall id | id in was :: nodes[id] == ResolveNode(final, was[id])
  }

  lemma RewritingKeepsBag(was: map<Id, Node>, nodes: map<Id, Node>, final: map<Id, Id>)
    requires Rewritten(was, nodes, final)
    ensures AliasBag(nodes) == AliasBag(was)
  {
    assert AliasesOf(nodes) == AliasesOf(was);
  }

  lemma AbsorbedIsMerged(was: map<Id, Node>, rewritten: map<Id, Node>, nodes: map<Id, Node>, final: map<Id, Id>)
    requires final == Final(was) && Rewritten(was, rewritten, final)
    requires final.Keys <= rewritten.Keys && Absorbing(rewritten, nodes, final, final.Keys)
    ensures MergedNodes(was, nodes)
  {
    RewritingKeepsBag(was, rewritten, final);
    GainedIsMerged(was, rewritten, nodes, final);
    AbsorbedAliasesKept(was, rewritten, nodes, final);
  }

  lemma GainedIsMerged(was: map<Id, Node>, rewritten: map<Id, Node>, nodes: map<Id, Node>, final: map<Id, Id>)
    requires Rewritten(was, rewritten, final) && AllGained(rewritten, nodes)
    ensures forall id | id in nodes :: id in was && Merged(was, final, id, nodes[id])
  {
    forall id | id in nodes
      ensures id in was && Merged(was, final, id, nodes[id])
    {
      assert Gained(rewritten[id], nodes[id]);
    }
  }

  lemma AbsorbedAliasesKept(was: map<Id, Node>, rewritten: map<Id, Node>, nodes: map<Id, Node>, final: map<Id, Id>)
    requires Rewritten(was, rewritten, final)
    requires final.Keys <= rewritten.Keys && Transferred(rewritten, nodes, final, final.Keys)
    ensures forall id | id in final :: final[id] in nodes && AliasesAmong(was[id].aliases, nodes[final[id]].aliases)
  {
    forall id | id in final
      ensures final[id] in nodes && AliasesAmong(was[id].aliases, nodes[final[id]].aliases)
    {
      assert rewritten[id].aliases == was[id].aliases;
    }
  }

  ghost predicate AliasesAmong(xs: seq<Alias>, ys: seq<Alias>) { forall a | a in xs :: a in ys }

  // No reference in the merged graph names a retired id: not an edge end, not an
  // edge gate, not a node gate, not an owner.
  lemma NothingNamesARetiredId(before: map<Id, Node>, edges: seq<Edge>, id: Id, n: Node, e: Edge)
    requires id in before && Merged(before, Final(before), id, n)
    requires Final(before) != map[] && e in Compact(ResolveAll(Final(before), edges))
    ensures n.gate !in Final(before) && n.owner !in Final(before)
    ensures e.src !in Final(before) && e.dst !in Final(before) && e.gate !in Final(before)
    ensures e.src != e.dst
  {
    var final := Final(before);
    ResolvedIsNotRetired(before, before[id].gate);
    ResolvedIsNotRetired(before, before[id].owner);
    CompactExact(ResolveAll(final, edges));
    var i :| 0 <= i < |edges| && ResolveAll(final, edges)[i] == e;
    ResolvedIsNotRetired(before, edges[i].src);
    ResolvedIsNotRetired(before, edges[i].dst);
    ResolvedIsNotRetired(before, edges[i].gate);
  }

  // Merging what is already merged retires nothing more.
  lemma MergeIsIdempotent(before: map<Id, Node>, after: map<Id, Node>)
    requires MergedNodes(before, after)
    ensures Final(after) == map[]
  {
    forall id | id in after
      ensures !Judge(after, id).Folds?
    {
      NothingFolds(before, after, id);
    }
  }

  lemma NothingFolds(before: map<Id, Node>, after: map<Id, Node>, id: Id)
    requires MergedNodes(before, after) && id in after
    ensures !Judge(after, id).Folds?
  {
    assert Merged(before, Final(before), id, after[id]);
    if after[id].sameAs != "" && Follow(after, {id}, after[id].sameAs).Survivor? {
      var s := Follow(after, {id}, after[id].sameAs).id;
      FollowFindsTheEnd(after, id, s);
      var p :| EndsAt(after, p, id, s);
      SameChainBefore(before, after, p, id, s);
      FollowFindsTheEnd(before, id, s);
      assert Merged(before, Final(before), s, after[s]);
    }
  }

  lemma SameChainBefore(before: map<Id, Node>, after: map<Id, Node>, p: seq<Id>, x: Id, s: Id)
    requires MergedNodes(before, after) && EndsAt(after, p, x, s)
    ensures EndsAt(before, p, x, s)
  {
    forall i | 0 <= i < |p|
      ensures p[i] in before && before[p[i]].sameAs == after[p[i]].sameAs
    {
      assert Merged(before, Final(before), p[i], after[p[i]]);
    }
  }
}
