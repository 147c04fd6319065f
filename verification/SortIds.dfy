// Ordering a result: sort keys in turn, missing values last, the id as the last
// tie-break.
module SortIds {
  import opened Comparison
  import opened Graphs
  import opened Queries
  import opened Sorting
  import opened Matching

  function CompareField(g: Graph, k: SortKey, at: string, a: Id, b: Id): int
    requires a in g.nodes && b in g.nodes
  {
    match (Field(g, g.nodes[a], k.key, at), Field(g, g.nodes[b], k.key, at))
    case (Some(av), Some(bv)) => if k.desc then -Compare(g.num, av, bv) else Compare(g.num, av, bv)
    case (Some(_), None) => -1
    case (None, Some(_)) => 1
    case (None, None) => 0
  }

  function CompareIds(g: Graph, keys: seq<SortKey>, at: string, a: Id, b: Id): int
    requires a in g.nodes && b in g.nodes
  {
    if keys == [] then StrCompare(a, b)
    else
      var c := CompareField(g, keys[0], at, a, b);
      if c != 0 then c else CompareIds(g, keys[1..], at, a, b)
  }

  function SpecKeys(keys: seq<SortKey>): seq<SortKey> {
    if keys == [] then [SortKey("id", false)] else keys
  }

  predicate Before(g: Graph, keys: seq<SortKey>, at: string, a: Id, b: Id) {
    a in g.nodes && b in g.nodes && CompareIds(g, SpecKeys(keys), at, a, b) < 0
  }

  function ByKeys(g: Graph, keys: seq<SortKey>, at: string): (Id, Id) -> bool {
    (a, b) => Before(g, keys, at, a, b)
  }

  function SortIDs(g: Graph, ids: seq<Id>, keys: seq<SortKey>, at: string): (sorted: seq<Id>)
    ensures multiset(sorted) == multiset(ids)
  {
    Sort(ByKeys(g, keys, at), ids)
  }

  // ── when the order is a total order ──

  ghost predicate ColumnComparable(g: Graph, k: SortKey, at: string, ids: seq<Id>) {
    Orderly(g.num, set id | id in ids && id in g.nodes && Field(g, g.nodes[id], k.key, at).Some? ::
                     Field(g, g.nodes[id], k.key, at).value)
  }

  ghost predicate ColumnsComparable(g: Graph, keys: seq<SortKey>, at: string, ids: seq<Id>) {
    forall k | k in keys :: ColumnComparable(g, k, at, ids)
  }

  lemma CompareFieldCoherent(g: Graph, k: SortKey, at: string, ids: seq<Id>, a: Id, b: Id, c: Id)
    requires ColumnComparable(g, k, at, ids)
    requires a in ids && b in ids && c in ids && a in g.nodes && b in g.nodes && c in g.nodes
    ensures Coherent(CompareField(g, k, at, a, b), CompareField(g, k, at, b, a),
                     CompareField(g, k, at, b, c), CompareField(g, k, at, a, c))
  {
    var values := set id | id in ids && id in g.nodes && Field(g, g.nodes[id], k.key, at).Some? ::
                    Field(g, g.nodes[id], k.key, at).value;
    var av, bv, cv := Field(g, g.nodes[a], k.key, at), Field(g, g.nodes[b], k.key, at), Field(g, g.nodes[c], k.key, at);
    if av.Some? && bv.Some? {
      OrderlyCoherent(g.num, values, av.value, bv.value, if cv.Some? then cv.value else av.value);
      if cv.Some? {
        OrderlyCoherent(g.num, values, cv.value, bv.value, av.value);
      }
    }
  }

  lemma {:induction false} CompareIdsCoherent(
      g: Graph, keys: seq<SortKey>, at: string, ids: seq<Id>, a: Id, b: Id, c: Id)
    requires ColumnsComparable(g, keys, at, ids)
    requires a in ids && b in ids && c in ids && a in g.nodes && b in g.nodes && c in g.nodes
    ensures Coherent(CompareIds(g, keys, at, a, b), CompareIds(g, keys, at, b, a),
                     CompareIds(g, keys, at, b, c), CompareIds(g, keys, at, a, c))
    ensures CompareIds(g, keys, at, a, b) == 0 <==> a == b
  {
    if keys == [] {
      StrCompareCoherent(a, b, c);
    } else {
      CompareFieldCoherent(g, keys[0], at, ids, a, b, c);
      CompareFieldCoherent(g, keys[0], at, ids, a, a, a);
      CompareIdsCoherent(g, keys[1..], at, ids, a, b, c);
    }
  }

  lemma SortOrderIsTotal(g: Graph, keys: seq<SortKey>, at: string, ids: seq<Id>)
    requires forall id | id in ids :: id in g.nodes
    requires ColumnsComparable(g, SpecKeys(keys), at, ids)
    ensures WeakOrderOn(ByKeys(g, keys, at), ids) && AntisymmetricOn(ByKeys(g, keys, at), ids)
    ensures forall id | id in ids :: !ByKeys(g, keys, at)(id, id)
  {
    var less := ByKeys(g, keys, at);
    forall a, b | a in ids && b in ids
      ensures less(a, b) ==> !less(b, a)
      ensures !less(a, b) && !less(b, a) ==> a == b
    {
      CompareIdsCoherent(g, SpecKeys(keys), at, ids, a, b, a);
    }
    forall a, b, c | a in ids && b in ids && c in ids && !less(b, a) && !less(c, b)
      ensures !less(c, a)
    {
      CompareIdsCoherent(g, SpecKeys(keys), at, ids, a, b, c);
      CompareIdsCoherent(g, SpecKeys(keys), at, ids, c, b, a);
      CompareIdsCoherent(g, SpecKeys(keys), at, ids, c, a, b);
    }
  }

  // Whatever order the node map was enumerated in, the sorted result is the same.
  lemma SortedResultIsDeterminate(g: Graph, keys: seq<SortKey>, at: string, ids: seq<Id>, others: seq<Id>)
    requires forall id | id in ids :: id in g.nodes
    requires ColumnsComparable(g, SpecKeys(keys), at, ids)
    requires multiset(ids) == multiset(others)
    ensures SortIDs(g, ids, keys, at) == SortIDs(g, others, keys, at)
    ensures Ordered(ByKeys(g, keys, at), SortIDs(g, ids, keys, at))
  {
    SortOrderIsTotal(g, keys, at, ids);
    SortOrdered(ByKeys(g, keys, at), ids);
    SortIndependentOfInputOrder(ByKeys(g, keys, at), ids, others);
  }

  // Nodes without the first key come after every node with it, in either direction.
  lemma MissingValuesLast(g: Graph, keys: seq<SortKey>, at: string, ids: seq<Id>, i: nat, j: nat)
    requires forall id | id in ids :: id in g.nodes
    requires ColumnsComparable(g, SpecKeys(keys), at, ids)
    requires i < j < |SortIDs(g, ids, keys, at)|
    ensures var sorted := SortIDs(g, ids, keys, at);
            && sorted[i] in g.nodes && sorted[j] in g.nodes
            && (Field(g, g.nodes[sorted[j]], SpecKeys(keys)[0].key, at).Some? ==>
                Field(g, g.nodes[sorted[i]], SpecKeys(keys)[0].key, at).Some?)
  {
    var sorted := SortIDs(g, ids, keys, at);
    SameElements(ids, sorted);
    SortedResultIsDeterminate(g, keys, at, ids, ids);
    assert sorted[i] in sorted && sorted[j] in sorted;
    assert !ByKeys(g, keys, at)(sorted[j], sorted[i]);
  }
}
