// Appending to a shared log: read MAX(seq)+1, insert under the primary key
// (idx, seq), re-read when the key was taken, give up after a bounded number of
// tries. Any number of writers interleave between the SQL statements.
module Append {
  import opened Log

  type Index = string
  type Ticket = nat
  type Key = (Index, nat)

  const SEQ_RETRIES: nat := 8

  datatype Row = Row(ticket: Ticket, a: Assertion)

  datatype Refusal = Invalid | Engine | Exhausted

  datatype Phase =
    | Reading(attempt: nat)
    | Inserting(next: nat, attempt: nat)
    | Acknowledged(seqno: nat)
    | Refused(why: Refusal)

  // `started` and `readAt` are positions in the commit history: where the call
  // began and where its last read looked.
  datatype Writer = Writer(idx: Index, a: Assertion, phase: Phase, started: nat, readAt: nat)

  datatype Commit = Commit(idx: Index, seqno: nat, ticket: Ticket)

  datatype State = State(table: map<Key, Row>, writers: map<Ticket, Writer>, commits: seq<Commit>)

  // COALESCE(MAX(seq), 0)
  ghost predicate IsMaxSeq(table: map<Key, Row>, idx: Index, m: nat) {
    && (m == 0 || (idx, m) in table)
    && forall s: nat | (idx, s) in table :: s <= m
  }

  ghost predicate Init(s: State) {
    s.table == map[] && s.writers == map[] && s.commits == []
  }

  // A new call: refused outright when the assertion is invalid.
  ghost predicate Call(s: State, s': State, t: Ticket, idx: Index, a: Assertion) {
    && t !in s.writers
    && var phase := if ValidAssertion(a) then Reading(0) else Refused(Invalid);
       s' == s.(writers := s.writers[t := Writer(idx, a, phase, |s.commits|, |s.commits|)])
  }

  ghost predicate Read(s: State, s': State, t: Ticket) {
    && t in s.writers && s.writers[t].phase.Reading?
    && var w := s.writers[t];
       exists m: nat :: IsMaxSeq(s.table, w.idx, m) &&
         s' == s.(writers := s.writers[t := w.(phase := Inserting(m + 1, w.phase.attempt), readAt := |s.commits|)])
  }

  ghost predicate KeyFree(s: State, t: Ticket)
    requires t in s.writers && s.writers[t].phase.Inserting?
  {
    (s.writers[t].idx, s.writers[t].phase.next) !in s.table
  }

  ghost predicate InsertAccepted(s: State, s': State, t: Ticket) {
    && t in s.writers && s.writers[t].phase.Inserting? && KeyFree(s, t)
    && var w := s.writers[t];
       s' == State(s.table[(w.idx, w.phase.next) := Row(t, w.a)],
                   s.writers[t := w.(phase := Acknowledged(w.phase.next))],
                   s.commits + [Commit(w.idx, w.phase.next, t)])
  }

  ghost predicate InsertDuplicate(s: State, s': State, t: Ticket) {
    && t in s.writers && s.writers[t].phase.Inserting? && !KeyFree(s, t)
    && var w := s.writers[t];
       var phase := if w.phase.attempt >= SEQ_RETRIES then Refused(Exhausted) else Reading(w.phase.attempt + 1);
       s' == s.(writers := s.writers[t := w.(phase := phase)])
  }

  // Any statement can fail for a reason that is not a duplicate; nothing is written.
  ghost predicate EngineError(s: State, s': State, t: Ticket) {
    && t in s.writers && (s.writers[t].phase.Reading? || s.writers[t].phase.Inserting?)
    && s' == s.(writers := s.writers[t := s.writers[t].(phase := Refused(Engine))])
  }

  ghost predicate Next(s: State, s': State) {
    || (exists t, idx, a :: Call(s, s', t, idx, a))
    || (exists t :: Read(s, s', t))
    || (exists t :: InsertAccepted(s, s', t))
    || (exists t :: InsertDuplicate(s, s', t))
    || (exists t :: EngineError(s, s', t))
  }

  ghost predicate StepAt(run: seq<State>, i: nat)
    requires i + 1 < |run|
  {
    Next(run[i], run[i + 1])
  }

  ghost predicate IsRun(run: seq<State>) {
    && run != [] && Init(run[0])
    && forall i: nat | i + 1 < |run| :: StepAt(run, i)
  }

  // ── the commit history ──

  function CommitsTo(commits: seq<Commit>, idx: Index): (n: nat)
    ensures n <= |commits|
  {
    if commits == [] then 0
    else CommitsTo(commits[..|commits| - 1], idx) + if commits[|commits| - 1].idx == idx then 1 else 0
  }

  function Since(commits: seq<Commit>, from: nat, idx: Index): int {
    CommitsTo(commits, idx) - if from <= |commits| then CommitsTo(commits[..from], idx) else 0
  }

  lemma CommitsSnoc(commits: seq<Commit>, c: Commit, idx: Index)
    ensures CommitsTo(commits + [c], idx) == CommitsTo(commits, idx) + if c.idx == idx then 1 else 0
    ensures forall from: nat | from <= |commits| :: (commits + [c])[..from] == commits[..from]
  {
    assert (commits + [c])[..|commits|] == commits;
  }

  lemma {:induction false} CommitsMonotone(commits: seq<Commit>, i: nat, idx: Index)
    requires i <= |commits|
    ensures CommitsTo(commits[..i], idx) <= CommitsTo(commits, idx)
    ensures CommitsTo(commits[..i], idx) == CommitsTo(commits, idx) <==>
            forall j | i <= j < |commits| :: commits[j].idx != idx
    decreases |commits|
  {
    if i == |commits| {
      assert commits[..i] == commits;
    } else {
      var init := commits[..|commits| - 1];
      CommitsMonotone(init, i, idx);
      assert init[..i] == commits[..i];
      assert forall j | i <= j < |init| :: init[j] == commits[j];
    }
  }

  // ── the invariant ──

  ghost predicate Dense(table: map<Key, Row>, commits: seq<Commit>) {
    forall idx: Index, n: nat :: (idx, n) in table <==> 1 <= n <= CommitsTo(commits, idx)
  }

  // A row records what its own call appended, and that call was acknowledged.
  ghost predicate RowOwned(writers: map<Ticket, Writer>, k: Key, row: Row) {
    && row.ticket in writers
    && var w := writers[row.ticket];
       w.idx == k.0 && w.phase == Acknowledged(k.1) && row.a == w.a
  }

  ghost predicate RowsOwned(s: State) {
    forall k | k in s.table :: RowOwned(s.writers, k, s.table[k])
  }

  ghost predicate Recorded(table: map<Key, Row>, c: Commit) {
    (c.idx, c.seqno) in table && table[(c.idx, c.seqno)].ticket == c.ticket
  }

  ghost predicate TableIsHistory(s: State) {
    && Dense(s.table, s.commits)
    && RowsOwned(s)
    && forall c | c in s.commits :: Recorded(s.table, c)
  }

  ghost predicate WriterOk(table: map<Key, Row>, commits: seq<Commit>, t: Ticket, w: Writer) {
    && w.started <= w.readAt <= |commits|
    && (w.phase != Refused(Invalid) ==> ValidAssertion(w.a))
    && match w.phase
       case Reading(attempt) => attempt <= SEQ_RETRIES && Since(commits, w.started, w.idx) >= attempt
       case Inserting(next, attempt) =>
         && attempt <= SEQ_RETRIES
         && next == CommitsTo(commits[..w.readAt], w.idx) + 1
         && CommitsTo(commits[..w.readAt], w.idx) - CommitsTo(commits[..w.started], w.idx) >= attempt
       case Acknowledged(n) => (w.idx, n) in table && table[(w.idx, n)] == Row(t, w.a)
       case Refused(why) => why.Exhausted? ==> Since(commits, w.started, w.idx) >= SEQ_RETRIES + 1
  }

  ghost predicate Inv(s: State) {
    TableIsHistory(s) && WritersOk(s)
  }

  ghost predicate WritersOk(s: State) {
    forall t | t in s.writers :: WriterOk(s.table, s.commits, t, s.writers[t])
  }

  // No step removes or rewrites a row, and the history only grows.
  ghost predicate RowsKept(s: State, s': State) {
    forall k | k in s.table :: k in s'.table && s'.table[k] == s.table[k]
  }

  ghost predicate WritersKept(s: State, s': State) {
    forall t | t in s.writers ::
      && t in s'.writers && s'.writers[t].idx == s.writers[t].idx
      && (s.writers[t].phase.Acknowledged? ==> s'.writers[t] == s.writers[t])
  }

  ghost predicate Extends(s: State, s': State) {
    RowsKept(s, s') && WritersKept(s, s') && s.commits <= s'.commits
  }

  // A step that only moves one unacknowledged writer along.
  lemma MoveKeepsInv(s: State, s': State, t: Ticket, w: Writer)
    requires Inv(s)
    requires s' == s.(writers := s.writers[t := w]) && !w.phase.Acknowledged?
    requires t in s.writers ==> !s.writers[t].phase.Acknowledged? && w.idx == s.writers[t].idx
    requires WriterOk(s.table, s.commits, t, w)
    ensures Inv(s') && Extends(s, s')
  {
    forall k | k in s.table
      ensures RowOwned(s'.writers, k, s.table[k])
    {
      assert RowOwned(s.writers, k, s.table[k]);
    }
    assert TableIsHistory(s');
    forall u | u in s'.writers
      ensures WriterOk(s'.table, s'.commits, u, s'.writers[u])
    {
      if u != t { assert WriterOk(s.table, s.commits, u, s.writers[u]); }
    }
  }

  lemma CallKeepsInv(s: State, s': State, t: Ticket, idx: Index, a: Assertion)
    requires Inv(s) && Call(s, s', t, idx, a)
    ensures Inv(s') && Extends(s, s')
  {
    assert s.commits[..|s.commits|] == s.commits;
    MoveKeepsInv(s, s', t, s'.writers[t]);
  }

  lemma ReadKeepsInv(s: State, s': State, t: Ticket)
    requires Inv(s) && Read(s, s', t)
    ensures Inv(s') && Extends(s, s')
  {
    var w := s.writers[t];
    assert WriterOk(s.table, s.commits, t, w);
    assert s.commits[..|s.commits|] == s.commits;
    var m: nat :| IsMaxSeq(s.table, w.idx, m) &&
      s' == s.(writers := s.writers[t := w.(phase := Inserting(m + 1, w.phase.attempt), readAt := |s.commits|)]);
    var n := CommitsTo(s.commits, w.idx);
    assert n > 0 ==> (w.idx, n) in s.table;
    assert m == n;
    MoveKeepsInv(s, s', t, s'.writers[t]);
  }

  // A key is taken exactly when another append to the index has committed since
  // the read that chose it.
  lemma DuplicateIffOvertaken(s: State, t: Ticket)
    requires Inv(s) && t in s.writers && s.writers[t].phase.Inserting?
    ensures KeyFree(s, t) <==> forall j | s.writers[t].readAt <= j < |s.commits| :: s.commits[j].idx != s.writers[t].idx
    ensures KeyFree(s, t) <==> s.writers[t].phase.next == CommitsTo(s.commits, s.writers[t].idx) + 1
  {
    var w := s.writers[t];
    assert WriterOk(s.table, s.commits, t, w);
    CommitsMonotone(s.commits, w.readAt, w.idx);
  }

  lemma DuplicateKeepsInv(s: State, s': State, t: Ticket)
    requires Inv(s) && InsertDuplicate(s, s', t)
    ensures Inv(s') && Extends(s, s')
  {
    var w := s.writers[t];
    assert WriterOk(s.table, s.commits, t, w);
    DuplicateIffOvertaken(s, t);
    CommitsMonotone(s.commits, w.readAt, w.idx);
    MoveKeepsInv(s, s', t, s'.writers[t]);
  }

  lemma ErrorKeepsInv(s: State, s': State, t: Ticket)
    requires Inv(s) && EngineError(s, s', t)
    ensures Inv(s') && Extends(s, s')
  {
    assert WriterOk(s.table, s.commits, t, s.writers[t]);
    MoveKeepsInv(s, s', t, s'.writers[t]);
  }

  lemma AcceptedKeepsDense(s: State, s': State, t: Ticket)
    requires Inv(s) && InsertAccepted(s, s', t)
    ensures Dense(s'.table, s'.commits)
  {
    var w := s.writers[t];
    DuplicateIffOvertaken(s, t);
    forall idx: Index, n: nat
      ensures (idx, n) in s'.table <==> 1 <= n <= CommitsTo(s'.commits, idx)
    {
      DenseNext(s.table, s.commits, Commit(w.idx, w.phase.next, t), Row(t, w.a), idx, n);
    }
  }

  lemma DenseNext(table: map<Key, Row>, commits: seq<Commit>, c: Commit, row: Row, idx: Index, n: nat)
    requires Dense(table, commits) && c.seqno == CommitsTo(commits, c.idx) + 1
    ensures (idx, n) in table[(c.idx, c.seqno) := row] <==> 1 <= n <= CommitsTo(commits + [c], idx)
  {
    CommitsSnoc(commits, c, idx);
    assert (idx, n) in table <==> 1 <= n <= CommitsTo(commits, idx);
  }

  lemma AcceptedKeepsRows(s: State, s': State, t: Ticket)
    requires RowsOwned(s) && InsertAccepted(s, s', t)
    ensures RowsOwned(s') && RowsKept(s, s')
  {
    forall k | k in s'.table
      ensures RowOwned(s'.writers, k, s'.table[k])
    {
      if k in s.table {
        assert RowOwned(s.writers, k, s.table[k]);
      }
    }
  }

  lemma AcceptedKeepsRecord(s: State, s': State, t: Ticket)
    requires (forall c | c in s.commits :: Recorded(s.table, c)) && InsertAccepted(s, s', t)
    ensures forall c | c in s'.commits :: Recorded(s'.table, c)
  {
    forall c | c in s'.commits
      ensures Recorded(s'.table, c)
    {
      if c in s.commits {
        assert Recorded(s.table, c);
      }
    }
  }

  lemma OtherStaysOk(table: map<Key, Row>, table': map<Key, Row>, commits: seq<Commit>, c: Commit, u: Ticket, w: Writer)
    requires WriterOk(table, commits, u, w)
    requires forall k | k in table :: k in table' && table'[k] == table[k]
    ensures WriterOk(table', commits + [c], u, w)
  {
    CommitsSnoc(commits, c, w.idx);
  }

  lemma AcceptedKeepsWriter(s: State, s': State, t: Ticket, u: Ticket)
    requires InsertAccepted(s, s', t) && u in s'.writers
    requires WriterOk(s.table, s.commits, u, s.writers[u]) && WriterOk(s.table, s.commits, t, s.writers[t])
    requires RowsKept(s, s')
    ensures WriterOk(s'.table, s'.commits, u, s'.writers[u])
  {
    var c := Commit(s.writers[t].idx, s.writers[t].phase.next, t);
    OtherStaysOk(s.table, s'.table, s.commits, c, u, s.writers[u]);
  }

  lemma AcceptedKeepsWriters(s: State, s': State, t: Ticket)
    requires WritersOk(s) && InsertAccepted(s, s', t) && RowsKept(s, s')
    ensures WritersOk(s')
  {
    assert WriterOk(s.table, s.commits, t, s.writers[t]);
    forall u | u in s'.writers
      ensures WriterOk(s'.table, s'.commits, u, s'.writers[u])
    {
      assert WriterOk(s.table, s.commits, u, s.writers[u]);
      AcceptedKeepsWriter(s, s', t, u);
    }
  }

  lemma AcceptedKeepsAnswers(s: State, s': State, t: Ticket)
    requires InsertAccepted(s, s', t)
    ensures WritersKept(s, s')
  {}

  lemma AcceptedKeepsInv(s: State, s': State, t: Ticket)
    requires Inv(s) && InsertAccepted(s, s', t)
    ensures Inv(s') && Extends(s, s')
  {
    AcceptedKeepsDense(s, s', t);
    AcceptedKeepsRows(s, s', t);
    AcceptedKeepsRecord(s, s', t);
    AcceptedKeepsWriters(s, s', t);
    AcceptedKeepsAnswers(s, s', t);
  }

  lemma NextKeepsInv(s: State, s': State)
    requires Inv(s) && Next(s, s')
    ensures Inv(s') && Extends(s, s')
  {
    if t, idx, a :| Call(s, s', t, idx, a) { CallKeepsInv(s, s', t, idx, a); }
    if t :| Read(s, s', t) { ReadKeepsInv(s, s', t); }
    if t :| InsertAccepted(s, s', t) { AcceptedKeepsInv(s, s', t); }
    if t :| InsertDuplicate(s, s', t) { DuplicateKeepsInv(s, s', t); }
    if t :| EngineError(s, s', t) { ErrorKeepsInv(s, s', t); }
  }

  // ── over whole runs ──

  lemma InitInv(s: State)
    requires Init(s)
    ensures Inv(s)
  {}

  lemma {:induction false} InvariantOverRuns(run: seq<State>, i: nat)
    requires IsRun(run) && i < |run|
    ensures Inv(run[i])
    decreases i
  {
    if i == 0 {
      InitInv(run[0]);
    } else {
      InvariantOverRuns(run, i - 1);
      assert StepAt(run, i - 1);
      NextKeepsInv(run[i - 1], run[i]);
    }
  }

  lemma ExtendsTransitive(a: State, b: State, c: State)
    requires Extends(a, b) && Extends(b, c)
    ensures Extends(a, c)
  {}

  lemma {:induction false} LogOnlyGrows(run: seq<State>, i: nat, j: nat)
    requires IsRun(run) && i <= j < |run|
    ensures Extends(run[i], run[j])
    decreases j
  {
    if i == j {
      assert Extends(run[i], run[i]);
    } else {
      LogOnlyGrows(run, i, j - 1);
      InvariantOverRuns(run, j - 1);
      assert StepAt(run, j - 1);
      NextKeepsInv(run[j - 1], run[j]);
      ExtendsTransitive(run[i], run[j - 1], run[j]);
    }
  }

  // In every reachable state an index's sequence numbers are exactly 1..n.
  lemma SequenceNumbersAreDense(run: seq<State>, i: nat, idx: Index)
    requires IsRun(run) && i < |run|
    ensures forall n: nat :: (idx, n) in run[i].table <==> 1 <= n <= CommitsTo(run[i].commits, idx)
  {
    InvariantOverRuns(run, i);
  }

  // An acknowledged assertion is in the log from then on, under one key only, and
  // says what was appended; one never acknowledged is in no row.
  lemma AcknowledgedExactlyOnce(run: seq<State>, i: nat, j: nat, t: Ticket)
    requires IsRun(run) && i <= j < |run| && t in run[i].writers
    ensures t in run[j].writers
    ensures run[i].writers[t].phase.Acknowledged? ==>
              var w := run[i].writers[t];
              var key := (w.idx, w.phase.seqno);
              && key in run[j].table && run[j].table[key] == Row(t, w.a)
              && forall k | k in run[j].table && run[j].table[k].ticket == t :: k == key
    ensures !run[j].writers[t].phase.Acknowledged? ==>
              forall k | k in run[j].table :: run[j].table[k].ticket != t
  {
    InvariantOverRuns(run, i);
    InvariantOverRuns(run, j);
    LogOnlyGrows(run, i, j);
    forall k | k in run[j].table
      ensures RowOwned(run[j].writers, k, run[j].table[k])
    {}
    assert WriterOk(run[i].table, run[i].commits, t, run[i].writers[t]);
  }

  ghost predicate SameRow(s: State, s': State, k: Key) {
    (k in s'.table <==> k in s.table) && (k in s.table ==> s'.table[k] == s.table[k])
  }

  ghost predicate IndexUntouched(s: State, s': State, idx: Index) {
    forall n: nat :: SameRow(s, s', (idx, n))
  }

  // A step leaves every row of every index alone but the one whose insert it
  // accepts, whoever else is inserting there.
  lemma OtherIndexesUntouched(s: State, s': State, idx: Index)
    requires Next(s, s')
    ensures IndexUntouched(s, s', idx) <==> !exists t :: InsertAccepted(s, s', t) && s.writers[t].idx == idx
  {
    if t :| InsertAccepted(s, s', t) && s.writers[t].idx == idx {
      assert !SameRow(s, s', (idx, s.writers[t].phase.next));
    } else {
      forall n: nat
        ensures SameRow(s, s', (idx, n))
      {
        StepKeepsRow(s, s', (idx, n));
      }
    }
  }

  lemma StepKeepsRow(s: State, s': State, k: Key)
    requires Next(s, s') && !exists t :: InsertAccepted(s, s', t) && s.writers[t].idx == k.0
    ensures SameRow(s, s', k)
  {
    if t, idx, a :| Call(s, s', t, idx, a) {}
    if t :| InsertAccepted(s, s', t) {}
  }

  // Over a whole run an index keeps its rows exactly as long as nobody commits to it.
  lemma IndexUntouchedIff(run: seq<State>, i: nat, j: nat, idx: Index)
    requires IsRun(run) && i <= j < |run|
    ensures IndexUntouched(run[i], run[j], idx) <==>
            CommitsTo(run[j].commits, idx) == CommitsTo(run[i].commits, idx)
  {
    SequenceNumbersAreDense(run, i, idx);
    SequenceNumbersAreDense(run, j, idx);
    LogOnlyGrows(run, i, j);
    assert run[j].commits[..|run[i].commits|] == run[i].commits;
    CommitsMonotone(run[j].commits, |run[i].commits|, idx);
    var m, n := CommitsTo(run[i].commits, idx), CommitsTo(run[j].commits, idx);
    if m < n {
      assert !SameRow(run[i], run[j], (idx, n));
    }
    forall k: nat | m == n
      ensures SameRow(run[i], run[j], (idx, k))
    {}
  }

  // Nobody exhausts the retries without nine commits by others to the same index
  // since the call began.
  lemma ExhaustedMeansOvertakenNineTimes(run: seq<State>, i: nat, t: Ticket)
    requires IsRun(run) && i < |run| && t in run[i].writers && run[i].writers[t].phase == Refused(Exhausted)
    ensures var w := run[i].writers[t];
            && w.started <= |run[i].commits|
            && CommitsTo(run[i].commits, w.idx) - CommitsTo(run[i].commits[..w.started], w.idx) >= 9
            && forall c | c in run[i].commits :: c.ticket != t
  {
    InvariantOverRuns(run, i);
    var s := run[i];
    assert WriterOk(s.table, s.commits, t, s.writers[t]);
    forall c | c in s.commits
      ensures c.ticket != t
    {
      var k := (c.idx, c.seqno);
      assert Recorded(s.table, c);
      assert RowOwned(s.writers, k, s.table[k]);
    }
  }
}
