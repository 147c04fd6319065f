// Grouping possible duplicates into things to rule on: union-find over the pairs,
// with path compression.
module Dupes {
  import opened Strings
  import opened Graphs
  import opened Sorting

  datatype Pair = Pair(a: Id, b: Id)

  // ── chains of pairs ──

  ghost predicate Linked(pairs: seq<Pair>, x: Id, y: Id) {
    Pair(x, y) in pairs || Pair(y, x) in pairs
  }

  ghost predicate IsPath(pairs: seq<Pair>, p: seq<Id>) {
    p != [] && forall i: nat | i + 1 < |p| :: LinkAt(pairs, p, i)
  }

  ghost predicate LinkAt(pairs: seq<Pair>, p: seq<Id>, i: nat)
    requires i + 1 < |p|
  {
    Linked(pairs, p[i], p[i + 1])
  }

  // A chain of pairs leads from x to y.
  ghost predicate Connected(pairs: seq<Pair>, x: Id, y: Id) {
    exists p :: IsPath(pairs, p) && p[0] == x && p[|p| - 1] == y
  }

  lemma ConnectedSelf(pairs: seq<Pair>, x: Id)
    ensures Connected(pairs, x, x)
  {
    assert IsPath(pairs, [x]);
  }

  lemma ConnectedPair(pairs: seq<Pair>, x: Id, y: Id)
    requires Linked(pairs, x, y)
    ensures Connected(pairs, x, y)
  {
    var p := [x, y];
    assert LinkAt(pairs, p, 0);
    assert IsPath(pairs, p);
  }

  lemma ConnectedTrans(pairs: seq<Pair>, x: Id, y: Id, z: Id)
    requires Connected(pairs, x, y) && Connected(pairs, y, z)
    ensures Connected(pairs, x, z)
  {
    var p :| IsPath(pairs, p) && p[0] == x && p[|p| - 1] == y;
    var q :| IsPath(pairs, q) && q[0] == y && q[|q| - 1] == z;
    var r := p + q[1..];
    forall i: nat | i + 1 < |r|
      ensures LinkAt(pairs, r, i)
    {
      if i + 1 < |p| { assert LinkAt(pairs, p, i); }
      else { assert LinkAt(pairs, q, i + 1 - |p|); }
    }
    assert IsPath(pairs, r);
  }

  lemma ConnectedSym(pairs: seq<Pair>, x: Id, y: Id)
    requires Connected(pairs, x, y)
    ensures Connected(pairs, y, x)
  {
    var p :| IsPath(pairs, p) && p[0] == x && p[|p| - 1] == y;
    var r := seq(|p|, i requires 0 <= i < |p| => p[|p| - 1 - i]);
    forall i: nat | i + 1 < |r|
      ensures LinkAt(pairs, r, i)
    {
      assert LinkAt(pairs, p, |p| - 2 - i);
    }
    assert IsPath(pairs, r);
  }

  lemma ConnectedMore(pairs: seq<Pair>, more: Pair, x: Id, y: Id)
    requires Connected(pairs, x, y)
    ensures Connected(pairs + [more], x, y)
  {
    var p :| IsPath(pairs, p) && p[0] == x && p[|p| - 1] == y;
    forall i: nat | i + 1 < |p|
      ensures LinkAt(pairs + [more], p, i)
    {
      assert LinkAt(pairs, p, i);
    }
    assert IsPath(pairs + [more], p);
  }

  // The representative an id leads to; an id never met stands for itself.
  function Root(rep: map<Id, Id>, x: Id): Id { if x in rep then rep[x] else x }

  ghost predicate AgreesOn(pairs: seq<Pair>, rep: map<Id, Id>) {
    forall q | q in pairs :: Root(rep, q.a) == Root(rep, q.b)
  }

  // Representatives that agree across every pair agree along every chain.
  lemma {:induction false} RootsAgreeAlongPath(pairs: seq<Pair>, rep: map<Id, Id>, p: seq<Id>)
    requires IsPath(pairs, p) && AgreesOn(pairs, rep)
    ensures Root(rep, p[0]) == Root(rep, p[|p| - 1])
    decreases |p|
  {
    if |p| > 1 {
      assert LinkAt(pairs, p, 0);
      forall i: nat | i + 1 < |p[1..]|
        ensures LinkAt(pairs, p[1..], i)
      {
        assert LinkAt(pairs, p, i + 1);
      }
      RootsAgreeAlongPath(pairs, rep, p[1..]);
    }
  }

  ghost predicate Mentioned(pairs: seq<Pair>, x: Id) {
    exists q | q in pairs :: q.a == x || q.b == x
  }

  // ── the forest ──

  // rep names the root every id leads to; height falls at every step that is not
  // a root.
  ghost predicate Rooted(parent: map<Id, Id>, rep: map<Id, Id>, height: map<Id, nat>, x: Id)
    requires x in parent && rep.Keys == parent.Keys && height.Keys == parent.Keys
  {
    && x != ""
    && parent[x] in parent && rep[x] in parent
    && rep[parent[x]] == rep[x] && parent[rep[x]] == rep[x] && rep[rep[x]] == rep[x]
    && (parent[x] == x <==> rep[x] == x)
    && (parent[x] != x ==> height[parent[x]] < height[x] && height[rep[x]] < height[x])
  }

  ghost predicate Forest(parent: map<Id, Id>, rep: map<Id, Id>, height: map<Id, nat>) {
    && rep.Keys == parent.Keys && height.Keys == parent.Keys
    && forall x {:trigger Rooted(parent, rep, height, x)} | x in parent :: Rooted(parent, rep, height, x)
  }

  lemma PlantKeepsForest(parent: map<Id, Id>, rep: map<Id, Id>, height: map<Id, nat>, x: Id)
    requires Forest(parent, rep, height) && x !in parent && x != ""
    ensures Forest(parent[x := x], rep[x := x], height[x := 0])
  {
    var after, reps, heights := parent[x := x], rep[x := x], height[x := 0];
    forall y | y in after
      ensures Rooted(after, reps, heights, y)
    {
      if y in parent { assert Rooted(parent, rep, height, y); }
    }
  }

  lemma CompressKeepsForest(parent: map<Id, Id>, rep: map<Id, Id>, height: map<Id, nat>, x: Id)
    requires Forest(parent, rep, height) && x in parent
    ensures Forest(parent[x := rep[x]], rep, height)
  {
    assert Rooted(parent, rep, height, x);
    var after := parent[x := rep[x]];
    forall y | y in after
      ensures Rooted(after, rep, height, y)
    {
      assert Rooted(parent, rep, height, y);
      assert rep[y] == x ==> rep[x] == x;
    }
  }

  // The classes after two roots are joined: everything under a now leads to b.
  ghost function Joined(rep: map<Id, Id>, a: Id, b: Id): map<Id, Id> {
    map x | x in rep :: if rep[x] == a then b else rep[x]
  }

  ghost function Raised(rep: map<Id, Id>, height: map<Id, nat>, a: Id, b: Id): map<Id, nat>
    requires height.Keys == rep.Keys && b in height
  {
    map x | x in rep :: if rep[x] == a then height[x] + height[b] + 1 else height[x]
  }

  lemma JoinKeepsForest(parent: map<Id, Id>, rep: map<Id, Id>, height: map<Id, nat>, a: Id, b: Id)
    requires Forest(parent, rep, height) && a in parent && b in parent && a != b
    requires rep[a] == a && rep[b] == b
    ensures Forest(parent[a := b], Joined(rep, a, b), Raised(rep, height, a, b))
  {
    var after, reps, heights := parent[a := b], Joined(rep, a, b), Raised(rep, height, a, b);
    assert Rooted(parent, rep, height, a) && Rooted(parent, rep, height, b);
    forall y | y in after
      ensures Rooted(after, reps, heights, y)
    {
      assert Rooted(parent, rep, height, y);
    }
  }

  class UnionFind {
    var parent: map<Id, Id>
    ghost var rep: map<Id, Id>
    ghost var height: map<Id, nat>

    ghost predicate Valid()
      reads this
    {
      Forest(parent, rep, height)
    }

    constructor ()
      ensures Valid() && rep == map[]
    {
      parent, rep, height := map[], map[], map[];
    }

    // Find with path compression. An id never met becomes its own root; no class
    // changes otherwise.
    method Find(x: Id) returns (r: Id)
      requires Valid() && x != ""
      modifies this
      ensures Valid() && rep == WithSelf(old(rep), x) && r == rep[x] && r in rep && rep[r] == r
      ensures x in old(rep) ==> height == old(height)
      decreases if x in height then height[x] + 1 else 0
    {
      if x !in parent {
        PlantKeepsForest(parent, rep, height, x);
        parent, rep, height := parent[x := x], rep[x := x], height[x := 0];
        return x;
      }
      assert Rooted(parent, rep, height, x);
      if parent[x] == x {
        return x;
      }
      assert Rooted(parent, rep, height, parent[x]);
      r := Find(parent[x]);
      assert Rooted(parent, rep, height, x);
      CompressKeepsForest(parent, rep, height, x);
      parent := parent[x := r];
    }

    method Union(p: Pair)
      requires Valid() && p.a != "" && p.b != ""
      modifies this
      ensures Valid() && rep == AfterUnion(old(rep), p)
    {
      var a := Find(p.a);
      var b := Find(p.b);
      UnionIs(old(rep), p);
      if a != b {
        JoinKeepsForest(parent, rep, height, a, b);
        height := Raised(rep, height, a, b);
        parent := parent[a := b];
        rep := Joined(rep, a, b);
      } else {
        JoinNothing(rep, a);
      }
    }
  }

  // The representatives of the two are what they were, or the ids themselves.
  lemma UnionIs(was: map<Id, Id>, p: Pair)
    ensures var met := WithSelf(WithSelf(was, p.a), p.b);
            && p.a in WithSelf(was, p.a) && p.b in met
            && AfterUnion(was, p) == Joined(met, WithSelf(was, p.a)[p.a], met[p.b])
  {}

  lemma JoinNothing(rep: map<Id, Id>, a: Id)
    ensures Joined(rep, a, a) == rep
  {}

  ghost function WithSelf(rep: map<Id, Id>, x: Id): map<Id, Id> { if x in rep then rep else rep[x := x] }

  ghost function AfterUnion(rep: map<Id, Id>, p: Pair): map<Id, Id> {
    var met := WithSelf(WithSelf(rep, p.a), p.b);
    Joined(met, Root(rep, p.a), Root(rep, p.b))
  }

  ghost predicate Covers(pairs: seq<Pair>, rep: map<Id, Id>) { forall x :: x in rep <==> Mentioned(pairs, x) }

  ghost predicate LeadsBack(pairs: seq<Pair>, rep: map<Id, Id>) {
    forall x {:trigger Root(rep, x)} :: Connected(pairs, x, Root(rep, x))
  }

  ghost predicate Represents(pairs: seq<Pair>, rep: map<Id, Id>) {
    Covers(pairs, rep) && LeadsBack(pairs, rep) && AgreesOn(pairs, rep)
  }

  // Two ids have one representative exactly when a chain of pairs connects them.
  lemma RepresentsConnection(pairs: seq<Pair>, rep: map<Id, Id>, x: Id, y: Id)
    requires LeadsBack(pairs, rep) && AgreesOn(pairs, rep)
    ensures Root(rep, x) == Root(rep, y) <==> Connected(pairs, x, y)
  {
    if Root(rep, x) == Root(rep, y) {
      ConnectedSym(pairs, y, Root(rep, y));
      ConnectedTrans(pairs, x, Root(rep, x), y);
    }
    if Connected(pairs, x, y) {
      var p :| IsPath(pairs, p) && p[0] == x && p[|p| - 1] == y;
      RootsAgreeAlongPath(pairs, rep, p);
    }
  }

  lemma StartRepresents()
    ensures Represents([], map[])
  {
    forall x
      ensures Connected([], x, Root(map[], x))
    {
      ConnectedSelf([], x);
    }
  }

  lemma RootAfterUnion(rep: map<Id, Id>, p: Pair, x: Id)
    requires p.a in rep ==> rep[p.a] in rep
    ensures Root(AfterUnion(rep, p), x) == if Root(rep, x) == Root(rep, p.a) then Root(rep, p.b) else Root(rep, x)
    ensures x in AfterUnion(rep, p) <==> x in rep || x == p.a || x == p.b
  {}

  lemma MentionedMore(pairs: seq<Pair>, p: Pair, x: Id)
    ensures Mentioned(pairs + [p], x) <==> Mentioned(pairs, x) || x == p.a || x == p.b
  {
    assert p in pairs + [p];
    if q :| q in pairs && (q.a == x || q.b == x) { assert q in pairs + [p]; }
  }

  lemma UnionLeadsBack(pairs: seq<Pair>, rep: map<Id, Id>, p: Pair, x: Id)
    requires LeadsBack(pairs, rep) && (p.a in rep ==> rep[p.a] in rep)
    ensures Connected(pairs + [p], x, Root(AfterUnion(rep, p), x))
  {
    var more := pairs + [p];
    var a, b := Root(rep, p.a), Root(rep, p.b);
    RootAfterUnion(rep, p, x);
    ConnectedMore(pairs, p, x, Root(rep, x));
    if Root(rep, x) == a {
      ConnectedMore(pairs, p, p.a, a);
      ConnectedMore(pairs, p, p.b, b);
      assert p in more && Linked(more, p.a, p.b);
      ConnectedPair(more, p.a, p.b);
      ConnectedSym(more, p.a, a);
      ConnectedTrans(more, x, a, p.a);
      ConnectedTrans(more, x, p.a, p.b);
      ConnectedTrans(more, x, p.b, b);
    }
  }

  lemma UnionAgrees(pairs: seq<Pair>, rep: map<Id, Id>, p: Pair)
    requires AgreesOn(pairs, rep) && (p.a in rep ==> rep[p.a] in rep)
    ensures AgreesOn(pairs + [p], AfterUnion(rep, p))
  {
    forall q | q in pairs + [p]
      ensures Root(AfterUnion(rep, p), q.a) == Root(AfterUnion(rep, p), q.b)
    {
      RootAfterUnion(rep, p, q.a);
      RootAfterUnion(rep, p, q.b);
    }
  }

  lemma UnionRepresents(pairs: seq<Pair>, rep: map<Id, Id>, p: Pair)
    requires Represents(pairs, rep)
    ensures Represents(pairs + [p], AfterUnion(rep, p))
  {
    if p.a in rep {
      assert Connected(pairs, p.a, Root(rep, p.a));
      ConnectedMentioned(pairs, p.a, rep[p.a]);
    }
    forall x
      ensures x in AfterUnion(rep, p) <==> Mentioned(pairs + [p], x)
    {
      MentionedMore(pairs, p, x);
      RootAfterUnion(rep, p, x);
    }
    forall x
      ensures Connected(pairs + [p], x, Root(AfterUnion(rep, p), x))
    {
      UnionLeadsBack(pairs, rep, p, x);
    }
    UnionAgrees(pairs, rep, p);
  }

  // ── clusters ──

  datatype Cluster = Cluster(ids: seq<Id>, cites: nat, keep: Id)

  // Ids gathered under their roots, each once.
  ghost predicate Gathered(rep: map<Id, Id>, done: set<Id>, groups: map<Id, seq<Id>>) {
    && (forall r | r in groups :: groups[r] != [] && Distinct(groups[r]))
    && (forall r, x | r in groups && x in groups[r] :: x in done && x in rep && rep[x] == r)
    && (forall x | x in done :: x in rep && rep[x] in groups && x in groups[rep[x]])
  }

  function Group(groups: map<Id, seq<Id>>, r: Id): seq<Id> { if r in groups then groups[r] else [] }

  method Gather(ghost rep: map<Id, Id>, ghost done: set<Id>, groups: map<Id, seq<Id>>, x: Id, r: Id)
    returns (more: map<Id, seq<Id>>)
    requires Gathered(rep, done, groups) && x in rep && rep[x] == r
    ensures Gathered(rep, done + {x}, more)
  {
    more := groups;
    if x !in Group(groups, r) {
      DistinctAppend(Group(groups, r), x);
      more := groups[r := Group(groups, r) + [x]];
    }
  }

  function CitesOf(cites: map<Id, nat>, id: Id): nat { if id in cites then cites[id] else 0 }

  function TotalCites(cites: map<Id, nat>, ids: seq<Id>): nat {
    if ids == [] then 0 else TotalCites(cites, ids[..|ids| - 1]) + CitesOf(cites, ids[|ids| - 1])
  }

  // The suggestion: nobody in the cluster is cited more, and of those cited as
  // much it is the smallest id.
  ghost predicate BestKept(cites: map<Id, nat>, ids: seq<Id>, keep: Id) {
    keep in ids && forall id | id in ids :: NoBetter(cites, id, keep)
  }

  predicate NoBetter(cites: map<Id, nat>, id: Id, keep: Id) {
    && CitesOf(cites, id) <= CitesOf(cites, keep)
    && (CitesOf(cites, id) == CitesOf(cites, keep) ==> !StrLess(id, keep))
  }

  lemma BestKeptNext(cites: map<Id, nat>, ids: seq<Id>, keep: Id, id: Id)
    requires BestKept(cites, ids, keep) && forall x | x in ids :: StrLess(x, id)
    ensures BestKept(cites, ids + [id], if CitesOf(cites, id) > CitesOf(cites, keep) then id else keep)
  {
    StrLessAsymmetric(keep, id);
    StrLessIrreflexive(id);
  }

  lemma BestKeptFirst(cites: map<Id, nat>, id: Id)
    ensures BestKept(cites, [id], id)
  {
    StrLessIrreflexive(id);
  }

  // Members in ascending order, their citations added up, the best one kept.
  ghost predicate WellSummarised(cites: map<Id, nat>, c: Cluster) {
    && c.cites == TotalCites(cites, c.ids) && BestKept(cites, c.ids, c.keep)
    && forall i, j | 0 <= i < j < |c.ids| :: StrLess(c.ids[i], c.ids[j])
  }

  method Summarise(cites: map<Id, nat>, members: seq<Id>) returns (c: Cluster)
    requires members != [] && Distinct(members)
    ensures forall x :: x in c.ids <==> x in members
    ensures WellSummarised(cites, c)
  {
    var ids := SortStrings(members);
    DistinctSorted(members);
    SameElements(members, ids);
    var total, keep := SumAndKeep(cites, ids);
    c := Cluster(ids, total, keep);
  }

  lemma TotalNext(cites: map<Id, nat>, ids: seq<Id>, id: Id)
    ensures TotalCites(cites, ids + [id]) == TotalCites(cites, ids) + CitesOf(cites, id)
  {
    assert (ids + [id])[..|ids|] == ids;
  }

  lemma EarlierAreSmaller(ids: seq<Id>, i: nat)
    requires i < |ids| && forall k, j | 0 <= k < j < |ids| :: StrLess(ids[k], ids[j])
    ensures forall x | x in ids[..i] :: StrLess(x, ids[i])
  {}

  method SumAndKeep(cites: map<Id, nat>, ids: seq<Id>) returns (total: nat, keep: Id)
    requires ids != [] && forall i, j | 0 <= i < j < |ids| :: StrLess(ids[i], ids[j])
    ensures total == TotalCites(cites, ids) && BestKept(cites, ids, keep)
  {
    total, keep := 0, "";
    for i := 0 to |ids|
      invariant total == TotalCites(cites, ids[..i])
      invariant i > 0 ==> BestKept(cites, ids[..i], keep)
    {
      TakeNext(ids, i);
      TotalNext(cites, ids[..i], ids[i]);
      total := total + CitesOf(cites, ids[i]);
      if i == 0 {
        BestKeptFirst(cites, ids[0]);
        keep := ids[0];
      } else {
        EarlierAreSmaller(ids, i);
        BestKeptNext(cites, ids[..i], keep, ids[i]);
        if CitesOf(cites, ids[i]) > CitesOf(cites, keep) {
          keep := ids[i];
        }
      }
    }
    assert ids[..|ids|] == ids;
  }

  // Two ids are in one cluster exactly when a chain of pairs connects them;
  // clusters share no id, and every id a pair mentions is in one.
  ghost predicate Partitions(pairs: seq<Pair>, clusters: seq<Cluster>) {
    && (forall c, x | c in clusters && x in c.ids :: Mentioned(pairs, x))
    && (forall x | Mentioned(pairs, x) :: exists c | c in clusters :: x in c.ids)
    && (forall c, x, y | c in clusters && x in c.ids :: y in c.ids <==> Connected(pairs, x, y))
    && (forall i, j, x | 0 <= i < j < |clusters| && x in clusters[i].ids :: x !in clusters[j].ids)
  }

  method DuplicateClusters(pairs: seq<Pair>, cites: map<Id, nat>) returns (clusters: seq<Cluster>)
    requires forall q | q in pairs :: q.a != "" && q.b != ""
    ensures Partitions(pairs, clusters)
    ensures forall c | c in clusters :: WellSummarised(cites, c)
  {
    var uf := new UnionFind();
    StartRepresents();
    assert pairs[..0] == [];
    for i := 0 to |pairs|
      invariant fresh(uf) && uf.Valid() && Represents(pairs[..i], uf.rep)
    {
      UnionRepresents(pairs[..i], uf.rep, pairs[i]);
      uf.Union(pairs[i]);
      TakeNext(pairs, i);
    }
    assert pairs[..|pairs|] == pairs;
    var groups := GatherAll(pairs, uf);
    clusters := ClustersOf(pairs, uf.rep, groups, cites);
  }

  // Clusters listed root by root.
  ghost predicate Listed(groups: map<Id, seq<Id>>, roots: seq<Id>, clusters: seq<Cluster>) {
    && |roots| == |clusters| && Distinct(roots)
    && forall i | 0 <= i < |roots| :: roots[i] in groups && forall x :: x in clusters[i].ids <==> x in groups[roots[i]]
  }

  lemma ListedMember(
      pairs: seq<Pair>, rep: map<Id, Id>, groups: map<Id, seq<Id>>, roots: seq<Id>, clusters: seq<Cluster>,
      i: nat, x: Id)
    requires Represents(pairs, rep) && Gathered(rep, rep.Keys, groups) && Listed(groups, roots, clusters)
    requires i < |clusters|
    ensures x in clusters[i].ids <==> Mentioned(pairs, x) && Root(rep, x) == roots[i]
  {}

  lemma ListedIsPartition(
      pairs: seq<Pair>, rep: map<Id, Id>, groups: map<Id, seq<Id>>, roots: seq<Id>, clusters: seq<Cluster>)
    requires Represents(pairs, rep) && Gathered(rep, rep.Keys, groups) && Listed(groups, roots, clusters)
    requires forall r :: r in roots <==> r in groups
    ensures Partitions(pairs, clusters)
  {
    forall i, x | 0 <= i < |clusters|
      ensures x in clusters[i].ids <==> Mentioned(pairs, x) && Root(rep, x) == roots[i]
    {
      ListedMember(pairs, rep, groups, roots, clusters, i, x);
    }
    forall x | Mentioned(pairs, x)
      ensures exists c | c in clusters :: x in c.ids
    {
      assert rep[x] in roots;
      var i :| 0 <= i < |roots| && roots[i] == rep[x];
      assert x in clusters[i].ids && clusters[i] in clusters;
    }
    forall i, x, y | 0 <= i < |clusters| && x in clusters[i].ids
      ensures y in clusters[i].ids <==> Connected(pairs, x, y)
    {
      RepresentsConnection(pairs, rep, x, y);
      if Connected(pairs, x, y) {
        ConnectedMentioned(pairs, x, y);
      }
    }
    forall i, j, x | 0 <= i < j < |clusters| && x in clusters[i].ids
      ensures x !in clusters[j].ids
    {
      ListedMember(pairs, rep, groups, roots, clusters, i, x);
      ListedMember(pairs, rep, groups, roots, clusters, j, x);
      assert roots[i] != roots[j];
    }
  }

  lemma ConnectedMentioned(pairs: seq<Pair>, x: Id, y: Id)
    requires Connected(pairs, x, y) && Mentioned(pairs, x)
    ensures Mentioned(pairs, y)
  {
    var p :| IsPath(pairs, p) && p[0] == x && p[|p| - 1] == y;
    if |p| > 1 { assert LinkAt(pairs, p, |p| - 2); }
  }

  method ClustersOf(ghost pairs: seq<Pair>, ghost rep: map<Id, Id>, groups: map<Id, seq<Id>>, cites: map<Id, nat>)
    returns (clusters: seq<Cluster>)
    requires Represents(pairs, rep) && Gathered(rep, rep.Keys, groups)
    ensures Partitions(pairs, clusters)
    ensures forall c | c in clusters :: WellSummarised(cites, c)
  {
    clusters := [];
    ghost var roots: seq<Id> := [];
    var todo := groups.Keys;
    while todo != {}
      invariant todo <= groups.Keys && Listed(groups, roots, clusters)
      invariant forall r :: r in roots <==> r in groups && r !in todo
      invariant forall c | c in clusters :: WellSummarised(cites, c)
    {
      var r :| r in todo;
      todo := todo - {r};
      var c := Summarise(cites, groups[r]);
      DistinctAppend(roots, r);
      clusters, roots := clusters + [c], roots + [r];
    }
    ListedIsPartition(pairs, rep, groups, roots, clusters);
  }

  method GatherOne(uf: UnionFind, ghost done: set<Id>, groups: map<Id, seq<Id>>, x: Id)
    returns (more: map<Id, seq<Id>>)
    requires uf.Valid() && x in uf.rep && x != "" && Gathered(uf.rep, done, groups)
    modifies uf
    ensures uf.Valid() && uf.rep == old(uf.rep) && Gathered(uf.rep, done + {x}, more)
  {
    var r := uf.Find(x);
    more := Gather(uf.rep, done, groups, x, r);
  }

  ghost predicate AllMentioned(pairs: seq<Pair>, done: set<Id>) { forall x :: x in done <==> Mentioned(pairs, x) }

  lemma MentionedNext(pairs: seq<Pair>, i: nat, done: set<Id>)
    requires i < |pairs| && AllMentioned(pairs[..i], done)
    ensures AllMentioned(pairs[..i + 1], done + {pairs[i].a} + {pairs[i].b})
  {
    forall x
      ensures x in done + {pairs[i].a} + {pairs[i].b} <==> Mentioned(pairs[..i + 1], x)
    {
      assert pairs[..i + 1] == pairs[..i] + [pairs[i]];
      MentionedMore(pairs[..i], pairs[i], x);
    }
  }

  method GatherAll(pairs: seq<Pair>, uf: UnionFind) returns (groups: map<Id, seq<Id>>)
    requires uf.Valid() && Represents(pairs, uf.rep) && forall q | q in pairs :: q.a != "" && q.b != ""
    modifies uf
    ensures uf.rep == old(uf.rep) && Gathered(uf.rep, uf.rep.Keys, groups)
  {
    groups := map[];
    ghost var done: set<Id> := {};
    for i := 0 to |pairs|
      invariant uf.Valid() && uf.rep == old(uf.rep) && Gathered(uf.rep, done, groups)
      invariant AllMentioned(pairs[..i], done)
    {
      MentionedNext(pairs, i, done);
      groups := GatherPair(pairs, uf, done, groups, i);
      done := done + {pairs[i].a} + {pairs[i].b};
    }
    AllGathered(pairs, uf.rep, done);
  }

  lemma AllGathered(pairs: seq<Pair>, rep: map<Id, Id>, done: set<Id>)
    requires Covers(pairs, rep) && AllMentioned(pairs[..|pairs|], done)
    ensures done == rep.Keys
  {
    assert pairs[..|pairs|] == pairs;
  }

  method GatherPair(pairs: seq<Pair>, uf: UnionFind, ghost done: set<Id>, groups: map<Id, seq<Id>>, i: nat)
    returns (more: map<Id, seq<Id>>)
    requires i < |pairs| && pairs[i].a != "" && pairs[i].b != ""
    requires uf.Valid() && Covers(pairs, uf.rep) && Gathered(uf.rep, done, groups)
    modifies uf
    ensures uf.Valid() && uf.rep == old(uf.rep) && Gathered(uf.rep, done + {pairs[i].a} + {pairs[i].b}, more)
  {
    InRep(pairs, uf.rep, pairs[i]);
    more := GatherOne(uf, done, groups, pairs[i].a);
    more := GatherOne(uf, done + {pairs[i].a}, more, pairs[i].b);
  }

  lemma InRep(pairs: seq<Pair>, rep: map<Id, Id>, q: Pair)
    requires Covers(pairs, rep) && q in pairs
    ensures q.a in rep && q.b in rep
  {
    assert Mentioned(pairs, q.a) && Mentioned(pairs, q.b);
  }
}
