// The SQL store behind the log, statement by statement, with other writers free
// to commit between any two of them.
module Store {
  import opened Options
  import opened Log
  import opened Append
  import opened Fold

  type Rows = map<(Index, int), Assertion>

  ghost predicate Upto(rows: Rows, idx: Index, n: nat) {
    forall s: int :: (idx, s) in rows <==> 1 <= s <= n
  }

  ghost predicate NoGap(rows: Rows, idx: Index) { exists n: nat :: Upto(rows, idx, n) }

  // Every index is numbered 1..n.
  ghost predicate Contiguous(rows: Rows) { forall idx: Index :: NoGap(rows, idx) }

  ghost function Size(rows: Rows, idx: Index): (n: nat)
    requires Contiguous(rows)
    ensures Upto(rows, idx, n)
  {
    assert NoGap(rows, idx);
    var n: nat :| Upto(rows, idx, n);
    n
  }

  // One index's rows, in sequence.
  ghost function LogOf(rows: Rows, idx: Index): seq<Assertion>
    requires Contiguous(rows)
  {
    seq(Size(rows, idx), i requires 0 <= i < Size(rows, idx) => rows[(idx, i + 1)])
  }

  lemma SizeUnique(rows: Rows, idx: Index, n: nat)
    requires Contiguous(rows) && Upto(rows, idx, n)
    ensures Size(rows, idx) == n
  {
    var m := Size(rows, idx);
    assert m > 0 ==> (idx, m) in rows;
    assert n > 0 ==> (idx, n) in rows;
  }

  lemma AddKeepsContiguous(rows: Rows, idx: Index, a: Assertion)
    requires Contiguous(rows)
    ensures Contiguous(rows[(idx, Size(rows, idx) + 1) := a])
    ensures Size(rows[(idx, Size(rows, idx) + 1) := a], idx) == Size(rows, idx) + 1
  {
    var n := Size(rows, idx);
    var more := rows[(idx, n + 1) := a];
    forall other: Index
      ensures NoGap(more, other)
    {
      if other == idx {
        assert Upto(more, idx, n + 1);
      } else {
        assert Upto(more, other, Size(rows, other));
      }
    }
    assert Upto(more, idx, n + 1);
    SizeUnique(more, idx, n + 1);
  }

  // Rows are only ever added.
  ghost predicate Grows(before: Rows, after: Rows) {
    forall k | k in before :: k in after && after[k] == before[k]
  }

  lemma GrowsSize(before: Rows, after: Rows, idx: Index)
    requires Contiguous(before) && Contiguous(after) && Grows(before, after)
    ensures Size(before, idx) <= Size(after, idx)
  {
    var n := Size(before, idx);
    assert n > 0 ==> (idx, n) in before;
  }

  const LAST_STATEMENT: nat := 2 * SEQ_RETRIES + 2

  // The engine refuses none of the first n statements.
  predicate NoFault(fails: nat -> bool, n: nat) { forall m: nat | m < n :: !fails(m) }

  // Nor any up to the insert of try k.
  predicate InsertReached(fails: nat -> bool, k: nat) { NoFault(fails, 2 * k + 2) }

  predicate FirstFault(fails: nat -> bool, n: nat) { fails(n) && NoFault(fails, n) }

  class SqlStore {
    const idx: Index
    var rows: Rows
    // The keys this handle has written; other writers own the rest.
    ghost var mine: set<(Index, int)>

    ghost predicate Valid()
      reads this
    {
      Contiguous(rows) && mine <= rows.Keys
    }

    constructor (idx: Index)
      ensures Valid() && this.idx == idx && rows == map[] && mine == {}
    {
      this.idx, rows, mine := idx, map[], {};
      new;
      forall i: Index
        ensures NoGap(rows, i)
      {
        assert Upto(rows, i, 0);
      }
    }

    // Any number of commits by others, to any index.
    method Others()
      requires Valid()
      modifies this`rows
      ensures Valid() && Grows(old(rows), rows)
    {
      var commits: int := *;
      while commits > 0
        invariant Valid() && Grows(old(rows), rows)
      {
        commits := commits - 1;
        var other: Index := *;
        var a: Assertion := *;
        var n := MaxSeq(other);
        AddKeepsContiguous(rows, other, a);
        rows := rows[(other, n + 1) := a];
      }
    }

    // SELECT COALESCE(MAX(seq), 0)
    method MaxSeq(of: Index) returns (n: nat)
      requires Valid()
      ensures n == Size(rows, of)
    {
      n := 0;
      var keys := rows.Keys;
      while keys != {}
        invariant keys <= rows.Keys
        invariant n == 0 || (of, n) in rows
        invariant forall s: int | (of, s) in rows :: s <= n || (of, s) in keys
      {
        var k :| k in keys;
        keys := keys - {k};
        if k.0 == of && k.1 > n {
          n := k.1;
        }
      }
      assert Upto(rows, of, Size(rows, of));
      assert Size(rows, of) > 0 ==> (of, Size(rows, of)) in rows;
    }

    // INSERT under PRIMARY KEY (idx, seq), after whatever others committed first.
    method Insert(next: nat, a: Assertion) returns (accepted: bool)
      requires Valid() && 1 <= next <= Size(rows, idx) + 1
      modifies this
      ensures Valid() && Grows(old(rows), rows)
      ensures accepted ==> (idx, next) !in old(rows) && (idx, next) in rows && rows[(idx, next)] == a
      ensures mine == if accepted then old(mine) + {(idx, next)} else old(mine)
      ensures !accepted ==> next <= Size(rows, idx)
    {
      Others();
      GrowsSize(old(rows), rows, idx);
      accepted := (idx, next) !in rows;
      if accepted {
        AddKeepsContiguous(rows, idx, a);
        rows := rows[(idx, next) := a];
        mine := mine + {(idx, next)};
      }
    }

    // The re-read, after whatever others committed first.
    method NextSeq() returns (next: nat)
      requires Valid()
      modifies this`rows
      ensures Valid() && Grows(old(rows), rows) && next == Size(rows, idx) + 1
      ensures Size(rows, idx) >= old(Size(rows, idx))
    {
      Others();
      GrowsSize(old(rows), rows, idx);
      next := MaxSeq(idx);
      next := next + 1;
    }

    // One assertion, at the next free number. `fails` says which statements the
    // engine refuses for a reason of its own: 0 is the first read, 2k + 1 the insert
    // of try k and 2k + 2 the read after it was taken for a duplicate. The first
    // such refusal ends the call; otherwise it goes on until an insert is accepted
    // or the tries run out, each duplicate meaning that others have committed.
    method Append(a: Assertion, fails: nat -> bool) returns (r: Result<nat, Refusal>)
      requires Valid()
      modifies this
      ensures Valid() && Grows(old(rows), rows)
      ensures r == Err(Invalid) <==> !ValidAssertion(a)
      ensures r.Ok? ==>
                && (idx, r.value) !in old(rows) && (idx, r.value) in rows && rows[(idx, r.value)] == a
                && mine == old(mine) + {(idx, r.value)}
      ensures r.Ok? ==>
                exists k :: 0 <= k <= SEQ_RETRIES && InsertReached(fails, k) && r.value >= old(Size(rows, idx)) + k + 1
      ensures r.Err? ==> mine == old(mine)
      ensures r == Err(Engine) ==>
                exists n :: 0 <= n < LAST_STATEMENT && FirstFault(fails, n)
                            && Size(rows, idx) >= old(Size(rows, idx)) + n / 2
      ensures r == Err(Exhausted) ==>
                NoFault(fails, LAST_STATEMENT) && Size(rows, idx) >= old(Size(rows, idx)) + SEQ_RETRIES + 1
    {
      if !ValidAssertion(a) {
        return Err(Invalid);
      }
      if fails(0) {
        assert FirstFault(fails, 0);
        return Err(Engine);
      }
      var next := NextSeq();
      var attempt := 0;
      while true
        invariant Valid() && Grows(old(rows), rows) && mine == old(mine)
        invariant attempt <= SEQ_RETRIES && NoFault(fails, 2 * attempt + 1)
        invariant old(Size(rows, idx)) + attempt + 1 <= next <= Size(rows, idx) + 1
        decreases SEQ_RETRIES - attempt
      {
        if fails(2 * attempt + 1) {
          assert FirstFault(fails, 2 * attempt + 1);
          return Err(Engine);
        }
        assert InsertReached(fails, attempt);
        var accepted := Insert(next, a);
        if accepted {
          return Ok(next);
        }
        if attempt >= SEQ_RETRIES {
          return Err(Exhausted);
        }
        if fails(2 * attempt + 2) {
          assert FirstFault(fails, 2 * attempt + 2);
          return Err(Engine);
        }
        next := NextSeq();
        attempt := attempt + 1;
      }
    }

    // ORDER BY at, seq over this handle's index.
    method All() returns (log: seq<Assertion>)
      requires Valid()
      ensures log == ReplayOrder(LogOf(rows, idx))
    {
      var n := MaxSeq(idx);
      var stored := [];
      for i := 0 to n
        invariant |stored| == i && forall j | 0 <= j < i :: stored[j] == rows[(idx, j + 1)]
      {
        stored := stored + [rows[(idx, i + 1)]];
      }
      assert stored == LogOf(rows, idx);
      log := ReplayOrder(stored);
    }
  }
}
