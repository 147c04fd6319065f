// Finding one fact entered twice: candidates meet in an index of their rarest
// tokens, and the pairwise pass is bounded and says when the bounds cost it
// coverage.
module NearDupes {
  import opened Strings
  import opened Graphs
  import opened Sorting
  import opened Matching

  const MAX_BUCKET: nat := 256
  const NEAR_BUDGET: nat := 2_000_000
  const INDEX_TOKENS: nat := 3
  const NEAR_DUPLICATE: real := 0.72

  type Tokens = set<string>

  // ── scoring ──

  predicate Punctuation(c: char) { c in ".,;:!?\"'()[]" }

  function TrimPunctuation(w: string): string {
    if w != [] && Punctuation(w[0]) then TrimPunctuation(w[1..])
    else if w != [] && Punctuation(w[|w| - 1]) then TrimPunctuation(w[..|w| - 1])
    else w
  }

  function BodyTokens(body: string): Tokens {
    set w | w in Fields(Lower(body)) && |TrimPunctuation(w)| > 1 :: TrimPunctuation(w)
  }

  function Jaccard(a: Tokens, b: Tokens): real {
    if a == {} || b == {} then 0.0
    else
      UnionSize(a, b);
      |a * b| as real / (|a| + |b| - |a * b|) as real
  }

  lemma UnionSize<T>(a: set<T>, b: set<T>)
    ensures |a + b| == |a| + |b| - |a * b|
    ensures a != {} ==> |a + b| > 0
    ensures |a * b| <= |a + b|
    ensures |a * b| == |a + b| <==> a == b
  {
    assert a + b == a + (b - a) && |a + (b - a)| == |a| + |b - a|;
    assert b == (b - a) + (a * b) && |b| == |b - a| + |a * b|;
    assert a == (a - b) + (a * b) && |a| == |a - b| + |a * b|;
    if a == b {
      assert a * b == a;
    } else {
      assert a - b != {} || b - a != {};
    }
  }

  // The score lies between 0 and 1, does not depend on the order, and is 1
  // exactly for equal nonempty token sets.
  lemma JaccardScore(a: Tokens, b: Tokens)
    ensures 0.0 <= Jaccard(a, b) <= 1.0
    ensures Jaccard(a, b) == Jaccard(b, a)
    ensures Jaccard(a, b) == 1.0 <==> a == b && a != {}
  {
    UnionSize(a, b);
    UnionSize(b, a);
    assert a * b == b * a;
    if a != {} && b != {} {
      var x, y := |a * b| as real, |a + b| as real;
      assert Jaccard(a, b) == x / y;
      assert x / y == 1.0 <==> x == y;
    }
  }

  // ── the index ──

  // A token of one kind of node.
  function KeyOf(k: Kind, token: string): string { KindName(k) + ['\0'] + token }

  function NodeKeys(k: Kind, tokens: Tokens): set<string> { set t | t in tokens :: KeyOf(k, t) }

  function Frequency(df: map<string, nat>, key: string): nat { if key in df then df[key] else 0 }

  predicate Rarer(df: map<string, nat>, a: string, b: string) {
    Frequency(df, a) < Frequency(df, b) || (Frequency(df, a) == Frequency(df, b) && StrLess(a, b))
  }

  function ByRarity(df: map<string, nat>): (string, string) -> bool { (a, b) => Rarer(df, a, b) }

  lemma RarityIsTotal(df: map<string, nat>, keys: seq<string>)
    ensures WeakOrderOn(ByRarity(df), keys) && AntisymmetricOn(ByRarity(df), keys)
    ensures forall k | k in keys :: !ByRarity(df)(k, k)
  {
    StringsTotallyOrdered(keys);
  }

  // All the keys, rarest first.
  ghost predicate RarestFirst(df: map<string, nat>, keys: set<string>, order: seq<string>) {
    Distinct(order) && (forall k :: k in order <==> k in keys) && Ordered(ByRarity(df), order)
  }

  lemma RarestFirstUnique(df: map<string, nat>, keys: set<string>, a: seq<string>, b: seq<string>)
    requires RarestFirst(df, keys, a) && RarestFirst(df, keys, b)
    ensures a == b
  {
    DistinctSameMultiset(a, b);
    RarityIsTotal(df, a);
    OrderedUnique(ByRarity(df), a, b);
  }

  // The keys a node is posted under: the first few, rarest first.
  ghost predicate PostedUnder(df: map<string, nat>, keys: set<string>, posted: seq<string>) {
    exists order ::
      RarestFirst(df, keys, order) && posted == if |order| > INDEX_TOKENS then order[..INDEX_TOKENS] else order
  }

  // Nodes with the same keys are posted under the same ones, and under at least
  // one when they have any.
  lemma SameKeysSamePosting(df: map<string, nat>, keys: set<string>, a: seq<string>, b: seq<string>)
    requires PostedUnder(df, keys, a) && PostedUnder(df, keys, b)
    ensures a == b
    ensures keys != {} ==> a != []
  {
    var x :| RarestFirst(df, keys, x) && a == if |x| > INDEX_TOKENS then x[..INDEX_TOKENS] else x;
    var y :| RarestFirst(df, keys, y) && b == if |y| > INDEX_TOKENS then y[..INDEX_TOKENS] else y;
    RarestFirstUnique(df, keys, x, y);
    if keys != {} {
      var k :| k in keys;
      assert k in x;
    }
  }

  // What is indexed: nodes in id order, each with a kind and a token set.
  datatype Entry = Entry(kind: Kind, tokens: Tokens)

  type Posting = map<string, seq<Id>>

  function Bucket(posting: Posting, key: string): seq<Id> { if key in posting then posting[key] else [] }

  // Every indexed node is in exactly the buckets it is posted under, once each.
  ghost predicate Indexed(df: map<string, nat>, entries: map<Id, Entry>, ids: set<Id>, posting: Posting) {
    && (forall key :: Distinct(Bucket(posting, key)))
    && (forall key, id | id in Bucket(posting, key) :: id in ids)
    && (forall id | id in ids && id in entries :: Posted(df, entries[id], posting, id))
  }

  ghost predicate Posted(df: map<string, nat>, e: Entry, posting: Posting, id: Id) {
    exists keys ::
      && PostedUnder(df, NodeKeys(e.kind, e.tokens), keys)
      && forall key :: id in Bucket(posting, key) <==> key in keys
  }

  // Two nodes of one kind with one nonempty token set meet in a bucket.
  lemma TwinsMeet(df: map<string, nat>, entries: map<Id, Entry>, ids: set<Id>, posting: Posting, x: Id, y: Id)
    requires Indexed(df, entries, ids, posting)
    requires x in ids && y in ids && x in entries && y in entries && entries[x] == entries[y] && entries[x].tokens != {}
    ensures exists key :: key in posting && x in posting[key] && y in posting[key]
  {
    var keys := NodeKeys(entries[x].kind, entries[x].tokens);
    var a :| PostedUnder(df, keys, a) && forall key :: x in Bucket(posting, key) <==> key in a;
    var b :| PostedUnder(df, keys, b) && forall key :: y in Bucket(posting, key) <==> key in b;
    SameKeysSamePosting(df, keys, a, b);
    var t :| t in entries[x].tokens;
    assert KeyOf(entries[x].kind, t) in keys;
    assert a[0] in a;
    assert x in Bucket(posting, a[0]) && y in Bucket(posting, a[0]);
  }

  // ── building the index ──

  // How many of these nodes carry the key.
  function Carriers(entries: map<Id, Entry>, ids: seq<Id>, key: string): nat
    requires forall id | id in ids :: id in entries
  {
    if ids == [] then 0
    else
      var id := ids[|ids| - 1];
      assert forall x | x in ids[..|ids| - 1] :: x in ids;
      Carriers(entries, ids[..|ids| - 1], key) + if key in NodeKeys(entries[id].kind, entries[id].tokens) then 1 else 0
  }

  ghost predicate Counts(entries: map<Id, Entry>, ids: seq<Id>, df: map<string, nat>)
    requires forall id | id in ids :: id in entries
  {
    forall key :: Frequency(df, key) == Carriers(entries, ids, key)
  }

  method CountNode(df0: map<string, nat>, keys: set<string>) returns (df: map<string, nat>)
    ensures forall key :: Frequency(df, key) == Frequency(df0, key) + if key in keys then 1 else 0
  {
    df := df0;
    var todo := keys;
    while todo != {}
      invariant todo <= keys
      invariant forall key :: Frequency(df, key) == Frequency(df0, key) + if key in keys - todo then 1 else 0
    {
      var key :| key in todo;
      todo := todo - {key};
      df := df[key := Frequency(df, key) + 1];
    }
  }

  method CountTokens(entries: map<Id, Entry>, ids: seq<Id>) returns (df: map<string, nat>)
    requires forall id | id in ids :: id in entries
    ensures Counts(entries, ids, df)
  {
    df := map[];
    for i := 0 to |ids|
      invariant forall id | id in ids[..i] :: id in entries
      invariant Counts(entries, ids[..i], df)
    {
      var e := entries[ids[i]];
      var next := CountNode(df, NodeKeys(e.kind, e.tokens));
      CountsNext(entries, ids, i, df, next);
      df := next;
    }
    assert ids[..|ids|] == ids;
  }

  lemma CountsNext(entries: map<Id, Entry>, ids: seq<Id>, i: nat, df: map<string, nat>, next: map<string, nat>)
    requires i < |ids| && forall id | id in ids :: id in entries
    requires forall id | id in ids[..i] :: id in entries
    requires Counts(entries, ids[..i], df)
    requires forall key :: Frequency(next, key) ==
               Frequency(df, key) + if key in NodeKeys(entries[ids[i]].kind, entries[ids[i]].tokens) then 1 else 0
    ensures forall id | id in ids[..i + 1] :: id in entries
    ensures Counts(entries, ids[..i + 1], next)
  {
    assert ids[..i + 1][..i] == ids[..i];
  }

  method PostingKeys(df: map<string, nat>, keys: set<string>) returns (posted: seq<string>)
    ensures PostedUnder(df, keys, posted) && Distinct(posted)
  {
    var listed: seq<string>, todo := [], keys;
    while todo != {}
      invariant todo <= keys && Distinct(listed)
      invariant forall k :: k in listed <==> k in keys - todo
    {
      var k :| k in todo;
      DistinctAppend(listed, k);
      listed, todo := listed + [k], todo - {k};
    }
    var order := Sort(ByRarity(df), listed);
    SortedIsRarestFirst(df, keys, listed);
    posted := if |order| > INDEX_TOKENS then order[..INDEX_TOKENS] else order;
  }

  lemma SortedIsRarestFirst(df: map<string, nat>, keys: set<string>, listed: seq<string>)
    requires Distinct(listed) && forall k :: k in listed <==> k in keys
    ensures RarestFirst(df, keys, Sort(ByRarity(df), listed))
  {
    var order := Sort(ByRarity(df), listed);
    RarityIsTotal(df, listed);
    SortOrdered(ByRarity(df), listed);
    SameElements(listed, order);
    forall i, j | 0 <= i < j < |order|
      ensures order[i] != order[j]
    {
      DistinctByMultiset(listed, order, i, j);
    }
  }

  // id stands once more, at the end, of exactly the buckets of `posted`.
  ghost predicate PostedMore(before: Posting, after: Posting, posted: seq<string>, id: Id) {
    forall key :: Bucket(after, key) == Bucket(before, key) + if key in posted then [id] else []
  }

  predicate NoEmptyBucket(posting: Posting) { forall key | key in posting :: posting[key] != [] }

  method PostNode(posting0: Posting, posted: seq<string>, id: Id) returns (posting: Posting)
    requires Distinct(posted)
    ensures PostedMore(posting0, posting, posted, id)
    ensures NoEmptyBucket(posting0) ==> NoEmptyBucket(posting)
  {
    posting := posting0;
    for i := 0 to |posted|
      invariant forall key :: Bucket(posting, key) == Bucket(posting0, key) + if key in posted[..i] then [id] else []
      invariant NoEmptyBucket(posting0) ==> NoEmptyBucket(posting)
    {
      assert posted[i] !in posted[..i];
      TakeNext(posted, i);
      posting := posting[posted[i] := Bucket(posting, posted[i]) + [id]];
    }
    assert posted[..|posted|] == posted;
  }

  lemma BucketGrows(ids: set<Id>, posting: Posting, more: Posting, posted: seq<string>, id: Id, key: string)
    requires Distinct(Bucket(posting, key)) && (forall x | x in Bucket(posting, key) :: x in ids) && id !in ids
    requires PostedMore(posting, more, posted, id)
    ensures Distinct(Bucket(more, key)) && forall x | x in Bucket(more, key) :: x in ids + {id}
  {
    DistinctAppend(Bucket(posting, key), id);
    assert Bucket(more, key) == Bucket(posting, key) + if key in posted then [id] else [];
  }

  lemma IndexedNext(
      df: map<string, nat>, entries: map<Id, Entry>, ids: set<Id>, posting: Posting, id: Id, posted: seq<string>,
      more: Posting)
    requires Indexed(df, entries, ids, posting) && id !in ids && id in entries
    requires PostedUnder(df, NodeKeys(entries[id].kind, entries[id].tokens), posted)
    requires PostedMore(posting, more, posted, id)
    ensures Indexed(df, entries, ids + {id}, more)
  {
    forall key
      ensures Distinct(Bucket(more, key)) && forall x | x in Bucket(more, key) :: x in ids + {id}
    {
      BucketGrows(ids, posting, more, posted, id, key);
    }
    forall x | x in ids + {id} && x in entries
      ensures Posted(df, entries[x], more, x)
    {
      if x != id {
        PostedStays(df, entries[x], posting, more, x, id, posted);
      } else {
        PostedNow(df, entries, ids, posting, more, id, posted);
      }
    }
  }

  lemma PostedNow(
      df: map<string, nat>, entries: map<Id, Entry>, ids: set<Id>, posting: Posting, more: Posting, id: Id,
      posted: seq<string>)
    requires Indexed(df, entries, ids, posting) && id !in ids && id in entries
    requires PostedUnder(df, NodeKeys(entries[id].kind, entries[id].tokens), posted)
    requires PostedMore(posting, more, posted, id)
    ensures Posted(df, entries[id], more, id)
  {
    assert forall key :: id in Bucket(more, key) <==> key in posted;
  }

  lemma PostedStays(df: map<string, nat>, e: Entry, posting: Posting, more: Posting, x: Id, id: Id, posted: seq<string>)
    requires Posted(df, e, posting, x) && x != id
    requires PostedMore(posting, more, posted, id)
    ensures Posted(df, e, more, x)
  {
    var keys :| PostedUnder(df, NodeKeys(e.kind, e.tokens), keys)
                && forall key :: x in Bucket(posting, key) <==> key in keys;
    assert forall key :: x in Bucket(more, key) <==> key in keys;
  }

  function Elements(ids: seq<Id>): set<Id> { set id | id in ids }

  lemma ElementsNext(ids: seq<Id>, i: nat)
    requires Distinct(ids) && i < |ids|
    ensures ids[i] !in Elements(ids[..i]) && Elements(ids[..i + 1]) == Elements(ids[..i]) + {ids[i]}
  {
    TakeNext(ids, i);
  }

  method BuildIndex(entries: map<Id, Entry>, ids: seq<Id>) returns (df: map<string, nat>, posting: Posting)
    requires Distinct(ids) && forall id | id in ids :: id in entries
    ensures Counts(entries, ids, df)
    ensures Indexed(df, entries, Elements(ids), posting)
    ensures NoEmptyBucket(posting)
  {
    df := CountTokens(entries, ids);
    posting := map[];
    for i := 0 to |ids|
      invariant Indexed(df, entries, Elements(ids[..i]), posting)
      invariant NoEmptyBucket(posting)
    {
      var e := entries[ids[i]];
      var posted := PostingKeys(df, NodeKeys(e.kind, e.tokens));
      var more := PostNode(posting, posted, ids[i]);
      ElementsNext(ids, i);
      IndexedNext(df, entries, Elements(ids[..i]), posting, ids[i], posted, more);
      posting := more;
    }
    assert ids[..|ids|] == ids;
  }

  // ── the bounded comparison ──

  datatype Best = Best(other: Id, score: real)

  predicate Related(edges: seq<Edge>, a: Id, b: Id) {
    exists e | e in edges :: (e.src == a && e.dst == b) || (e.src == b && e.dst == a)
  }

  function Ordered2(x: Id, y: Id): (Id, Id) { if StrLess(y, x) then (y, x) else (x, y) }

  // A pair worth reporting: similar enough, and not related on purpose.
  predicate Reportable(entries: map<Id, Entry>, edges: seq<Edge>, x: Id, y: Id) {
    && x in entries && y in entries
    && Jaccard(entries[x].tokens, entries[y].tokens) >= NEAR_DUPLICATE && !Related(edges, x, y)
  }

  function Score(entries: map<Id, Entry>, x: Id, y: Id): real {
    if x in entries && y in entries then Jaccard(entries[x].tokens, entries[y].tokens) else 0.0
  }

  function Judged(entries: map<Id, Entry>, edges: seq<Edge>): (Id, Id) -> bool {
    (x, y) => Reportable(entries, edges, x, y)
  }

  function Scored(entries: map<Id, Entry>): (Id, Id) -> real { (x, y) => Score(entries, x, y) }

  lemma JudgementSymmetric(entries: map<Id, Entry>, edges: seq<Edge>, x: Id, y: Id)
    ensures Judged(entries, edges)(x, y) == Judged(entries, edges)(y, x)
    ensures Scored(entries)(x, y) == Scored(entries)(y, x)
  {
    if x in entries && y in entries { JaccardScore(entries[x].tokens, entries[y].tokens); }
  }

  predicate AtLeast(best: map<Id, Best>, x: Id, score: real) { x in best && best[x].score >= score }

  // Each recorded match is a compared, reportable pair with its own score.
  ghost predicate Earned(ok: (Id, Id) -> bool, sc: (Id, Id) -> real, seen: set<(Id, Id)>, best: map<Id, Best>) {
    forall x | x in best ::
      Ordered2(x, best[x].other) in seen && ok(x, best[x].other) && best[x].score == sc(x, best[x].other)
  }

  // No compared reportable pair beats the match recorded at either of its ends.
  ghost predicate Unbeaten(ok: (Id, Id) -> bool, sc: (Id, Id) -> real, seen: set<(Id, Id)>, best: map<Id, Best>) {
    forall p | p in seen && ok(p.0, p.1) :: AtLeast(best, p.0, sc(p.0, p.1)) && AtLeast(best, p.1, sc(p.0, p.1))
  }

  function Improved(best: map<Id, Best>, x: Id, other: Id, score: real): map<Id, Best> {
    if x !in best || score > best[x].score then best[x := Best(other, score)] else best
  }

  function Recorded(ok: (Id, Id) -> bool, sc: (Id, Id) -> real, best: map<Id, Best>, x: Id, y: Id): map<Id, Best> {
    if ok(x, y) then Improved(Improved(best, x, y, sc(x, y)), y, x, sc(x, y)) else best
  }

  lemma EarnedNext(ok: (Id, Id) -> bool, sc: (Id, Id) -> real, seen: set<(Id, Id)>, best: map<Id, Best>, x: Id, y: Id)
    requires Earned(ok, sc, seen, best) && StrLess(x, y) && ok(x, y) == ok(y, x) && sc(x, y) == sc(y, x)
    ensures Earned(ok, sc, seen + {(x, y)}, Recorded(ok, sc, best, x, y))
  {
    StrLessAsymmetric(x, y);
    assert Ordered2(x, y) == (x, y) && Ordered2(y, x) == (x, y);
  }

  lemma UnbeatenNext(ok: (Id, Id) -> bool, sc: (Id, Id) -> real, seen: set<(Id, Id)>, best: map<Id, Best>, x: Id, y: Id)
    requires Unbeaten(ok, sc, seen, best) && x != y
    ensures Unbeaten(ok, sc, seen + {(x, y)}, Recorded(ok, sc, best, x, y))
  {
    var after := Recorded(ok, sc, best, x, y);
    forall z, score | AtLeast(best, z, score)
      ensures AtLeast(after, z, score)
    {}
  }

  // ── a bucket at a time ──

  predicate BucketCompared(bucket: seq<Id>, seen: set<(Id, Id)>) {
    forall i, j | 0 <= i < j < |bucket| :: Ordered2(bucket[i], bucket[j]) in seen
  }

  function PairsBefore(n: nat, i: nat): (c: nat)
    requires i <= n
  {
    if i == 0 then 0 else PairsBefore(n, i - 1) + (n - i)
  }

  lemma {:induction false} PairsBound(n: nat, i: nat)
    requires i <= n
    ensures 2 * PairsBefore(n, i) == i * (2 * n - 1 - i)
  {
    if i > 0 {
      PairsBound(n, i - 1);
    }
  }

  const BUCKET_PAIRS: nat := MAX_BUCKET * (MAX_BUCKET - 1) / 2

  lemma BucketBound(n: nat)
    requires n <= MAX_BUCKET
    ensures PairsBefore(n, n) <= BUCKET_PAIRS
  {
    PairsBound(n, n);
    if n > 0 {
      ProductGrows(n, n - 1, MAX_BUCKET, MAX_BUCKET - 1);
    }
  }

  lemma ProductGrows(a: nat, b: nat, c: nat, d: nat)
    requires a <= c && b <= d
    ensures a * b <= c * d
  {
    assert a * b <= c * b <= c * d;
  }

  datatype Tally = Tally(seen: set<(Id, Id)>, best: map<Id, Best>, compared: nat)

  // The tally is in order: one comparison per pair seen, and the matches are the
  // best of them.
  ghost predicate Sound(ok: (Id, Id) -> bool, sc: (Id, Id) -> real, t: Tally) {
    t.compared == |t.seen| && Earned(ok, sc, t.seen, t.best) && Unbeaten(ok, sc, t.seen, t.best)
  }

  method ComparePair(entries: map<Id, Entry>, edges: seq<Edge>, t: Tally, a: Id, b: Id) returns (t': Tally)
    requires a != b && Sound(Judged(entries, edges), Scored(entries), t)
    ensures Sound(Judged(entries, edges), Scored(entries), t')
    ensures t'.seen == t.seen + {Ordered2(a, b)} && t'.compared <= t.compared + 1
  {
    var x, y := a, b;
    if StrLess(y, x) {
      x, y := y, x;
    }
    StrLessTotal(x, y);
    if (x, y) in t.seen {
      return t;
    }
    JudgementSymmetric(entries, edges, x, y);
    EarnedNext(Judged(entries, edges), Scored(entries), t.seen, t.best, x, y);
    UnbeatenNext(Judged(entries, edges), Scored(entries), t.seen, t.best, x, y);
    var best := t.best;
    var score := Score(entries, x, y);
    if score >= NEAR_DUPLICATE && x in entries && y in entries && !Related(edges, x, y) {
      best := Improved(best, x, y, score);
      best := Improved(best, y, x, score);
    }
    t' := Tally(t.seen + {(x, y)}, best, t.compared + 1);
  }

  method CompareBucket(entries: map<Id, Entry>, edges: seq<Edge>, t0: Tally, bucket: seq<Id>) returns (t: Tally)
    requires Distinct(bucket) && Sound(Judged(entries, edges), Scored(entries), t0)
    ensures Sound(Judged(entries, edges), Scored(entries), t)
    ensures t.seen == t0.seen + PairsOf(bucket)
    ensures t.compared <= t0.compared + PairsBefore(|bucket|, |bucket|)
  {
    t := t0;
    for i := 0 to |bucket|
      invariant Sound(Judged(entries, edges), Scored(entries), t) && t0.seen <= t.seen
      invariant RowsCompared(bucket, t.seen, i) && NothingElse(t0.seen, bucket, t.seen)
      invariant t.compared <= t0.compared + PairsBefore(|bucket|, i)
    {
      ghost var before := t.seen;
      t := CompareWithRest(entries, edges, t, bucket, i);
      NothingElseTwice(t0.seen, bucket, before, t.seen);
      NextRow(bucket, before, t.seen, i);
    }
    AllRows(t0.seen, bucket, t.seen);
  }

  // One position of a bucket against every later one.
  method CompareWithRest(entries: map<Id, Entry>, edges: seq<Edge>, t0: Tally, bucket: seq<Id>, i: nat)
    returns (t: Tally)
    requires i < |bucket| && Distinct(bucket) && Sound(Judged(entries, edges), Scored(entries), t0)
    ensures Sound(Judged(entries, edges), Scored(entries), t) && t0.seen <= t.seen
    ensures RowCompared(bucket, t.seen, i, |bucket|) && NothingElse(t0.seen, bucket, t.seen)
    ensures t.compared <= t0.compared + (|bucket| - i - 1)
  {
    t := t0;
    for j := i + 1 to |bucket|
      invariant Sound(Judged(entries, edges), Scored(entries), t) && t0.seen <= t.seen
      invariant RowCompared(bucket, t.seen, i, j) && NothingElse(t0.seen, bucket, t.seen)
      invariant t.compared <= t0.compared + (j - i - 1)
    {
      OnePairMore(t0.seen, bucket, i, j, t.seen);
      t := ComparePair(entries, edges, t, bucket[i], bucket[j]);
    }
  }

  // The pairs a bucket holds.
  ghost function PairsOf(bucket: seq<Id>): set<(Id, Id)> {
    set i, j | 0 <= i < j < |bucket| :: Ordered2(bucket[i], bucket[j])
  }

  predicate PairAt(bucket: seq<Id>, k: nat, l: nat, p: (Id, Id)) {
    k < l < |bucket| && p == Ordered2(bucket[k], bucket[l])
  }

  ghost predicate PairIn(bucket: seq<Id>, p: (Id, Id)) { exists k, l :: PairAt(bucket, k, l, p) }

  // Every pair compared was compared before or is one of the bucket's.
  ghost predicate NothingElse(before: set<(Id, Id)>, bucket: seq<Id>, seen: set<(Id, Id)>) {
    forall p | p in seen :: p in before || PairIn(bucket, p)
  }

  lemma OnePairMore(before: set<(Id, Id)>, bucket: seq<Id>, i: nat, j: nat, seen: set<(Id, Id)>)
    requires i < j < |bucket| && NothingElse(before, bucket, seen)
    ensures NothingElse(before, bucket, seen + {Ordered2(bucket[i], bucket[j])})
  {
    assert PairAt(bucket, i, j, Ordered2(bucket[i], bucket[j]));
  }

  lemma NothingElseTwice(
      before: set<(Id, Id)>, bucket: seq<Id>, middle: set<(Id, Id)>, seen: set<(Id, Id)>)
    requires NothingElse(before, bucket, middle) && NothingElse(middle, bucket, seen)
    ensures NothingElse(before, bucket, seen)
  {}

  lemma AllRows(before: set<(Id, Id)>, bucket: seq<Id>, seen: set<(Id, Id)>)
    requires before <= seen && RowsCompared(bucket, seen, |bucket|) && NothingElse(before, bucket, seen)
    ensures seen == before + PairsOf(bucket)
  {
    forall p | p in seen && p !in before
      ensures p in PairsOf(bucket)
    {
      var k, l :| PairAt(bucket, k, l, p);
    }
    forall p | p in PairsOf(bucket)
      ensures p in seen
    {
      var k, l :| 0 <= k < l < |bucket| && p == Ordered2(bucket[k], bucket[l]);
      assert RowCompared(bucket, seen, k, |bucket|);
    }
  }

  // Position i has been compared with the later ones before j.
  predicate RowCompared(bucket: seq<Id>, seen: set<(Id, Id)>, i: nat, j: nat) {
    forall k | i < k < j && k < |bucket| :: Ordered2(bucket[i], bucket[k]) in seen
  }

  predicate RowsCompared(bucket: seq<Id>, seen: set<(Id, Id)>, i: nat) {
    forall k: nat | k < i && k < |bucket| :: RowCompared(bucket, seen, k, |bucket|)
  }

  lemma NextRow(bucket: seq<Id>, before: set<(Id, Id)>, seen: set<(Id, Id)>, i: nat)
    requires RowsCompared(bucket, before, i) && before <= seen && RowCompared(bucket, seen, i, |bucket|)
    ensures RowsCompared(bucket, seen, i + 1)
  {
    forall k: nat | k < i + 1 && k < |bucket|
      ensures RowCompared(bucket, seen, k, |bucket|)
    {
      assert k < i ==> RowCompared(bucket, before, k, |bucket|);
    }
  }

  // Buckets smallest first.
  function Smaller(posting: Posting): (string, string) -> bool {
    (a, b) =>
      |Bucket(posting, a)| < |Bucket(posting, b)|
      || (|Bucket(posting, a)| == |Bucket(posting, b)| && StrLess(a, b))
  }

  lemma SmallerIsTotal(posting: Posting, listed: seq<string>)
    ensures WeakOrderOn(Smaller(posting), listed)
  {
    var less := Smaller(posting);
    StringsTotallyOrdered(listed);
  }

  method BucketOrder(posting: Posting) returns (keys: seq<string>)
    ensures Distinct(keys) && (forall k :: k in keys <==> k in posting) && Ordered(Smaller(posting), keys)
  {
    var listed := Keys(posting.Keys);
    KeysDistinct(listed, posting.Keys);
    SmallerIsTotal(posting, listed);
    SortOrdered(Smaller(posting), listed);
    keys := Sort(Smaller(posting), listed);
    SameElements(listed, keys);
    forall i, j | 0 <= i < j < |keys|
      ensures keys[i] != keys[j]
    {
      DistinctByMultiset(listed, keys, i, j);
    }
  }

  // ── what a bounded pass leaves out ──

  ghost function Oversized(posting: Posting, keys: set<string>): set<string> {
    set key | key in keys && |Bucket(posting, key)| > MAX_BUCKET
  }

  // Of the buckets of `keys`, all are compared but the oversized ones and those
  // of `left`: buckets no smaller than any compared one, left only once the budget
  // was spent.
  ghost predicate Passed(posting: Posting, keys: set<string>, left: set<string>, seen: set<(Id, Id)>) {
    && left <= keys - Oversized(posting, keys)
    && (forall p :: p in seen <==> exists key :: key in keys - Oversized(posting, keys) - left
                                                 && p in PairsOf(Bucket(posting, key)))
    && (left != {} ==> |seen| >= NEAR_BUDGET)
    && (forall key, other | key in left && other in keys - Oversized(posting, keys) - left ::
          !Smaller(posting)(key, other))
  }

  lemma PassOversized(posting: Posting, keys: set<string>, left: set<string>, seen: set<(Id, Id)>, key: string)
    requires Passed(posting, keys, left, seen) && key !in keys && |Bucket(posting, key)| > MAX_BUCKET
    ensures Passed(posting, keys + {key}, left, seen)
    ensures Oversized(posting, keys + {key}) == Oversized(posting, keys) + {key}
  {
    assert keys + {key} - Oversized(posting, keys + {key}) == keys - Oversized(posting, keys);
  }

  lemma PassLeft(posting: Posting, keys: set<string>, left: set<string>, seen: set<(Id, Id)>, key: string)
    requires Passed(posting, keys, left, seen) && key !in keys && |Bucket(posting, key)| <= MAX_BUCKET
    requires |seen| >= NEAR_BUDGET && forall other | other in keys :: !Smaller(posting)(key, other)
    ensures Passed(posting, keys + {key}, left + {key}, seen)
    ensures Oversized(posting, keys + {key}) == Oversized(posting, keys)
  {
    assert keys + {key} - Oversized(posting, keys + {key}) - (left + {key}) == keys - Oversized(posting, keys) - left;
  }

  lemma PassCompared(posting: Posting, keys: set<string>, left: set<string>, seen: set<(Id, Id)>, key: string)
    requires Passed(posting, keys, left, seen) && key !in keys && |Bucket(posting, key)| <= MAX_BUCKET
    requires |seen| < NEAR_BUDGET
    ensures Passed(posting, keys + {key}, left, seen + PairsOf(Bucket(posting, key)))
    ensures Oversized(posting, keys + {key}) == Oversized(posting, keys)
  {
    var done := keys - Oversized(posting, keys) - left;
    assert left == {} && Oversized(posting, keys + {key}) == Oversized(posting, keys);
    assert keys + {key} - Oversized(posting, keys + {key}) - left == done + {key};
    forall p
      ensures (exists k :: k in done + {key} && p in PairsOf(Bucket(posting, k)))
              <==> (exists k :: k in done && p in PairsOf(Bucket(posting, k))) || p in PairsOf(Bucket(posting, key))
    {
      OneMoreBucket(posting, done, key, p);
    }
  }

  lemma OneMoreBucket(posting: Posting, done: set<string>, key: string, p: (Id, Id))
    ensures (exists k :: k in done + {key} && p in PairsOf(Bucket(posting, k)))
            <==> (exists k :: k in done && p in PairsOf(Bucket(posting, k))) || p in PairsOf(Bucket(posting, key))
  {
    assert key in done + {key};
    if k :| k in done && p in PairsOf(Bucket(posting, k)) {
      assert k in done + {key};
    }
  }

  // The bounded pass. It compares exactly the pairs of the buckets it does not
  // skip; it skips the oversized ones and, once the budget is spent, the largest
  // of the others; it counts both; and the work stays under the budget plus one
  // bucket.
  method CompareAll(entries: map<Id, Entry>, edges: seq<Edge>, posting: Posting)
    returns (t: Tally, skippedBuckets: nat, unbudgeted: nat, ghost left: set<string>)
    requires forall key :: Distinct(Bucket(posting, key))
    ensures Sound(Judged(entries, edges), Scored(entries), t)
    ensures Passed(posting, posting.Keys, left, t.seen)
    ensures skippedBuckets == |Oversized(posting, posting.Keys)| && unbudgeted == |left|
    ensures t.compared < NEAR_BUDGET + BUCKET_PAIRS
  {
    var keys := BucketOrder(posting);
    t, skippedBuckets, unbudgeted, left := Tally({}, map[], 0), 0, 0, {};
    for i := 0 to |keys|
      invariant Sound(Judged(entries, edges), Scored(entries), t)
      invariant t.compared < NEAR_BUDGET + BUCKET_PAIRS
      invariant PassedUpTo(posting, keys, i, left, t.seen, skippedBuckets, unbudgeted)
    {
      var bucket := Bucket(posting, keys[i]);
      PassNext(posting, keys, i, left, t.seen, skippedBuckets, unbudgeted);
      if |bucket| > MAX_BUCKET {
        skippedBuckets := skippedBuckets + 1;
      } else if t.compared >= NEAR_BUDGET {
        unbudgeted, left := unbudgeted + 1, left + {keys[i]};
      } else {
        BucketBound(|bucket|);
        t := CompareBucket(entries, edges, t, bucket);
      }
    }
    PassDone(posting, keys, left, t.seen, skippedBuckets, unbudgeted);
  }

  ghost predicate PassedUpTo(
      posting: Posting, keys: seq<string>, i: nat, left: set<string>, seen: set<(Id, Id)>,
      skipped: nat, unbudgeted: nat)
    requires i <= |keys|
  {
    && Passed(posting, Elements(keys[..i]), left, seen)
    && skipped == |Oversized(posting, Elements(keys[..i]))| && unbudgeted == |left|
  }

  // The next bucket is skipped for its size, left for the budget, or compared.
  lemma PassNext(
      posting: Posting, keys: seq<string>, i: nat, left: set<string>, seen: set<(Id, Id)>,
      skipped: nat, unbudgeted: nat)
    requires Distinct(keys) && Ordered(Smaller(posting), keys) && i < |keys|
    requires PassedUpTo(posting, keys, i, left, seen, skipped, unbudgeted)
    ensures var bucket := Bucket(posting, keys[i]);
            if |bucket| > MAX_BUCKET then PassedUpTo(posting, keys, i + 1, left, seen, skipped + 1, unbudgeted)
            else if |seen| >= NEAR_BUDGET then
              PassedUpTo(posting, keys, i + 1, left + {keys[i]}, seen, skipped, unbudgeted + 1)
            else PassedUpTo(posting, keys, i + 1, left, seen + PairsOf(bucket), skipped, unbudgeted)
  {
    var before := Elements(keys[..i]);
    ElementsNext(keys, i);
    if |Bucket(posting, keys[i])| > MAX_BUCKET {
      PassOversized(posting, before, left, seen, keys[i]);
    } else if |seen| >= NEAR_BUDGET {
      NoSmallerThanEarlier(posting, keys, i);
      PassLeft(posting, before, left, seen, keys[i]);
    } else {
      PassCompared(posting, before, left, seen, keys[i]);
    }
  }

  lemma PassDone(
      posting: Posting, keys: seq<string>, left: set<string>, seen: set<(Id, Id)>, skipped: nat, unbudgeted: nat)
    requires (forall k :: k in keys <==> k in posting)
    requires PassedUpTo(posting, keys, |keys|, left, seen, skipped, unbudgeted)
    ensures Passed(posting, posting.Keys, left, seen)
    ensures skipped == |Oversized(posting, posting.Keys)| && unbudgeted == |left|
  {
    assert keys[..|keys|] == keys && Elements(keys) == posting.Keys;
  }

  lemma NoSmallerThanEarlier(posting: Posting, keys: seq<string>, i: nat)
    requires i < |keys| && Ordered(Smaller(posting), keys)
    ensures forall other | other in Elements(keys[..i]) :: !Smaller(posting)(keys[i], other)
  {}

  lemma AllCompared(posting: Posting, seen: set<(Id, Id)>)
    requires Passed(posting, posting.Keys, {}, seen) && Oversized(posting, posting.Keys) == {}
    ensures forall key | key in posting :: BucketCompared(posting[key], seen)
  {
    forall key | key in posting
      ensures BucketCompared(posting[key], seen)
    {
      assert key in posting.Keys - Oversized(posting, posting.Keys) - {};
      forall i, j | 0 <= i < j < |posting[key]|
        ensures Ordered2(posting[key][i], posting[key][j]) in seen
      {
        assert Ordered2(posting[key][i], posting[key][j]) in PairsOf(Bucket(posting, key));
      }
    }
  }

  // ── the check ──

  // Two nodes with one body said twice, which the content address finds exactly.
  predicate ExactCopy(nodes: map<Id, Node>, x: Id, y: Id) {
    && x in nodes && y in nodes && x != y
    && nodes[x].body != "" && nodes[x].kind == nodes[y].kind
    && NormalizeBody(nodes[x].body) == NormalizeBody(nodes[y].body)
  }

  function Joined(ws: seq<string>): string {
    if ws == [] then "" else if |ws| == 1 then ws[0] else ws[0] + " " + Joined(ws[1..])
  }

  function NormalizeBody(body: string): string {
    var ws := Fields(Lower(body));
    Joined(seq(|ws|, i requires 0 <= i < |ws| => TrimPunctuation(ws[i])))
  }

  predicate Copied(nodes: map<Id, Node>, id: Id) {
    exists y | y in nodes :: ExactCopy(nodes, id, y) && nodes[y].body != ""
  }

  function Candidates(nodes: map<Id, Node>): map<Id, Entry> {
    map id | id in nodes && nodes[id].body != "" && !Copied(nodes, id) ::
      Entry(nodes[id].kind, BodyTokens(nodes[id].body))
  }

  // The index the check runs on: every candidate posted under its rarest tokens.
  ghost predicate IndexOf(nodes: map<Id, Node>, ids: seq<Id>, df: map<string, nat>, posting: Posting) {
    && Distinct(ids) && Elements(ids) == Candidates(nodes).Keys
    && Counts(Candidates(nodes), ids, df)
    && Indexed(df, Candidates(nodes), Candidates(nodes).Keys, posting)
    && NoEmptyBucket(posting)
  }

  // A pass over that index which skipped this many buckets.
  ghost predicate PassOver(nodes: map<Id, Node>, tooLarge: nat, unbudgeted: nat, seen: set<(Id, Id)>) {
    exists ids, df, posting, left ::
      && IndexOf(nodes, ids, df, posting) && Passed(posting, posting.Keys, left, seen)
      && tooLarge == |Oversized(posting, posting.Keys)| && unbudgeted == |left|
  }

  method NearDuplicates(nodes: map<Id, Node>, edges: seq<Edge>)
    returns (best: map<Id, Best>, tooLarge: nat, unbudgeted: nat, compared: nat, ghost seen: set<(Id, Id)>)
    ensures compared == |seen| && compared < NEAR_BUDGET + BUCKET_PAIRS
    ensures PassOver(nodes, tooLarge, unbudgeted, seen)
    ensures Earned(Judged(Candidates(nodes), edges), Scored(Candidates(nodes)), seen, best)
    ensures Unbeaten(Judged(Candidates(nodes), edges), Scored(Candidates(nodes)), seen, best)
    ensures unbudgeted > 0 ==> compared >= NEAR_BUDGET
    ensures tooLarge + unbudgeted == 0 ==>
              forall x, y | Twins(nodes, edges, x, y) :: x in best && best[x].score == 1.0
  {
    var entries := Candidates(nodes);
    var ids := Keys(entries.Keys);
    IdsDistinct(ids, entries.Keys);
    var df, posting := BuildIndex(entries, ids);
    ghost var left;
    var t;
    t, tooLarge, unbudgeted, left := CompareAll(entries, edges, posting);
    best, compared, seen := t.best, t.compared, t.seen;
    assert IndexOf(nodes, ids, df, posting);
    if tooLarge + unbudgeted == 0 {
      AllCompared(posting, seen);
      forall x, y | Twins(nodes, edges, x, y)
        ensures x in best && best[x].score == 1.0
      {
        TwinsFound(nodes, edges, df, posting, t, x, y);
      }
    }
  }

  lemma IdsDistinct(ids: seq<string>, s: set<string>)
    requires SortedKeys(ids, s)
    ensures Distinct(ids) && Elements(ids) == s
  {
    KeysDistinct(ids, s);
  }

  // Two different candidates of one kind with one nonempty token set, joined by no
  // edge.
  ghost predicate Twins(nodes: map<Id, Node>, edges: seq<Edge>, x: Id, y: Id) {
    && x != y && x in Candidates(nodes) && y in Candidates(nodes)
    && Candidates(nodes)[x] == Candidates(nodes)[y] && Candidates(nodes)[x].tokens != {}
    && !Related(edges, x, y)
  }

  lemma TwinsFound(
      nodes: map<Id, Node>, edges: seq<Edge>, df: map<string, nat>, posting: Posting, t: Tally, x: Id, y: Id)
    requires var entries := Candidates(nodes);
             && Indexed(df, entries, entries.Keys, posting)
             && Sound(Judged(entries, edges), Scored(entries), t)
    requires forall key | key in posting :: BucketCompared(posting[key], t.seen)
    requires Twins(nodes, edges, x, y)
    ensures x in t.best && t.best[x].score == 1.0
  {
    var entries := Candidates(nodes);
    TwinsMeet(df, entries, entries.Keys, posting, x, y);
    var key :| key in posting && x in posting[key] && y in posting[key];
    BothCompared(posting[key], t.seen, x, y);
    ComparedTwinsMatch(entries, edges, t, x, y);
  }

  lemma ComparedTwinsMatch(entries: map<Id, Entry>, edges: seq<Edge>, t: Tally, x: Id, y: Id)
    requires Sound(Judged(entries, edges), Scored(entries), t)
    requires x != y && x in entries && y in entries && entries[x] == entries[y] && entries[x].tokens != {}
    requires !Related(edges, x, y) && Ordered2(x, y) in t.seen
    ensures x in t.best && t.best[x].score == 1.0
  {
    JaccardScore(entries[x].tokens, entries[x].tokens);
    JudgementSymmetric(entries, edges, x, y);
    assert AtLeast(t.best, x, 1.0);
    var other := t.best[x].other;
    JaccardScore(entries[x].tokens, entries[other].tokens);
  }

  lemma BothCompared(bucket: seq<Id>, seen: set<(Id, Id)>, x: Id, y: Id)
    requires BucketCompared(bucket, seen) && x in bucket && y in bucket && x != y
    ensures Ordered2(x, y) in seen
  {
    var i :| 0 <= i < |bucket| && bucket[i] == x;
    var j :| 0 <= j < |bucket| && bucket[j] == y;
    OrderedSymmetric(x, y);
  }

  lemma OrderedSymmetric(x: Id, y: Id)
    requires x != y
    ensures Ordered2(x, y) == Ordered2(y, x)
  {
    StrLessTotal(x, y);
    if StrLess(x, y) { StrLessAsymmetric(x, y); } else { StrLessAsymmetric(y, x); }
  }

  // ── the pairs kept for triage ──

  // Each node's best match is listed, as a pair in id order, and no pair twice.
  ghost predicate ListsBest(best: map<Id, Best>, owners: set<Id>, pairs: seq<(Id, Id)>) {
    && Distinct(pairs)
    && forall p :: p in pairs <==> exists x | x in owners :: x in best && p == Ordered2(x, best[x].other)
  }

  method NearPairs(best: map<Id, Best>) returns (pairs: seq<(Id, Id)>)
    ensures ListsBest(best, best.Keys, pairs)
  {
    var owners := Keys(best.Keys);
    pairs := [];
    for i := 0 to |owners|
      invariant ListsBest(best, Elements(owners[..i]), pairs)
    {
      var p := Ordered2(owners[i], best[owners[i]].other);
      TakeNext(owners, i);
      assert Elements(owners[..i + 1]) == Elements(owners[..i]) + {owners[i]};
      if p !in pairs {
        DistinctAppend(pairs, p);
        pairs := pairs + [p];
      }
    }
    assert Elements(owners[..|owners|]) == best.Keys;
  }
}
