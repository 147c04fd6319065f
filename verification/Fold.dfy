// Replaying the log into authored facts: last write per id wins, ordered by
// timestamp and then by position.
module Fold {
  import opened Strings
  import opened Options
  import opened Graphs
  import opened Log
  import opened Sorting

  predicate Earlier(a: Assertion, b: Assertion) { StrLess(a.at, b.at) }

  // The order `All` reads and the fold replays: by timestamp, ties as appended.
  function ReplayOrder(log: seq<Assertion>): seq<Assertion> { Sort(Earlier, log) }

  lemma TimestampsOrder(log: seq<Assertion>)
    ensures WeakOrderOn(Earlier, log)
  {
    var ats := seq(|log|, i requires 0 <= i < |log| => log[i].at);
    StringsTotallyOrdered(ats);
    forall a | a in log
      ensures a.at in ats
    {
      var i :| 0 <= i < |log| && log[i] == a;
      assert ats[i] == a.at;
    }
  }

  // ── replay ──

  datatype Slot = Slot(fields: Fields, live: bool)

  datatype Diag = NeverAsserted(at: string, op: Op, id: Id)

  datatype Replay = Replay(slots: map<Id, Slot>, order: seq<Id>, diags: seq<Diag>)

  const START := Replay(map[], [], [])

  function SlotOf(r: Replay, id: Id): Slot {
    if id in r.slots then r.slots[id] else Slot(map[], false)
  }

  // What one assertion does to its own slot, given what the slot holds.
  function Rewrite(s: Slot, a: Assertion): Slot {
    match a.op
    case Assert => Slot(a.fields["id" := JString(a.id)], true)
    case Withdraw =>
      if s.live then Slot(s.fields["status" := JString("withdrawn")]["reason" := JString(a.reason)], true) else s
    case Retire => if s.live then Slot(s.fields["same_as" := JString(a.into)], true) else s
    case UnknownOp(_) => s
  }

  function Complaint(s: Slot, a: Assertion): seq<Diag> {
    if (a.op.Withdraw? || a.op.Retire?) && !s.live then [NeverAsserted(a.at, a.op, a.id)] else []
  }

  function Apply(r: Replay, a: Assertion): Replay {
    var s := SlotOf(r, a.id);
    Replay(r.slots[a.id := Rewrite(s, a)],
           if a.id in r.slots then r.order else r.order + [a.id],
           r.diags + Complaint(s, a))
  }

  function ReplayAll(log: seq<Assertion>): Replay {
    if log == [] then START else Apply(ReplayAll(log[..|log| - 1]), log[|log| - 1])
  }

  // The authored entries handed to the format parser: live ids in the order they
  // were first mentioned.
  function Document(r: Replay, ids: seq<Id>): seq<Fields> {
    if ids == [] then []
    else
      var id := ids[|ids| - 1];
      Document(r, ids[..|ids| - 1]) + if SlotOf(r, id).live then [SlotOf(r, id).fields] else []
  }

  function Folded(log: seq<Assertion>): Replay { ReplayAll(ReplayOrder(log)) }

  // The fact the log leaves standing for an id, if any.
  function Entry(log: seq<Assertion>, id: Id): Option<Fields> {
    var s := SlotOf(Folded(log), id);
    if s.live then Some(s.fields) else None
  }

  lemma ReplayNext(log: seq<Assertion>, i: nat)
    requires i < |log|
    ensures ReplayAll(log[..i + 1]) == Apply(ReplayAll(log[..i]), log[i])
  {
    assert log[..i + 1][..i] == log[..i];
  }

  // The loop body of the fold: find or open the slot, then rewrite it by the op.
  method ApplyOne(a: Assertion, slots0: map<Id, Slot>, order0: seq<Id>, diags0: seq<Diag>)
    returns (slots: map<Id, Slot>, order: seq<Id>, diags: seq<Diag>)
    ensures Replay(slots, order, diags) == Apply(Replay(slots0, order0, diags0), a)
  {
    slots, order, diags := slots0, order0, diags0;
    if a.id !in slots {
      slots, order := slots[a.id := Slot(map[], false)], order + [a.id];
    }
    var s := slots[a.id];
    match a.op {
      case Assert =>
        slots := slots[a.id := Slot(a.fields["id" := JString(a.id)], true)];
      case Withdraw =>
        if s.live {
          var fields := s.fields["status" := JString("withdrawn")];
          slots := slots[a.id := Slot(fields["reason" := JString(a.reason)], true)];
        } else {
          diags := diags + [NeverAsserted(a.at, a.op, a.id)];
        }
      case Retire =>
        if s.live {
          slots := slots[a.id := Slot(s.fields["same_as" := JString(a.into)], true)];
        } else {
          diags := diags + [NeverAsserted(a.at, a.op, a.id)];
        }
      case UnknownOp(_) =>
    }
  }

  // FoldAssertions: one pass over the sorted log, then the live slots in order of
  // first mention.
  method FoldAssertions(log: seq<Assertion>) returns (doc: seq<Fields>, diags: seq<Diag>)
    ensures doc == Document(Folded(log), Folded(log).order)
    ensures diags == Folded(log).diags
  {
    var sorted := Sort(Earlier, log);
    var slots: map<Id, Slot>, order: seq<Id> := map[], [];
    diags := [];
    for i := 0 to |sorted|
      invariant Replay(slots, order, diags) == ReplayAll(sorted[..i])
    {
      slots, order, diags := ApplyOne(sorted[i], slots, order, diags);
      ReplayNext(sorted, i);
    }
    assert sorted[..|sorted|] == sorted;
    doc := LiveDocument(sorted, slots, order, diags);
  }

  method LiveDocument(ghost log: seq<Assertion>, slots: map<Id, Slot>, order: seq<Id>, ghost diags: seq<Diag>)
    returns (doc: seq<Fields>)
    requires ReplayAll(log) == Replay(slots, order, diags)
    ensures doc == Document(ReplayAll(log), order)
  {
    doc := [];
    for i := 0 to |order|
      invariant doc == Document(ReplayAll(log), order[..i])
    {
      assert order[..i + 1][..i] == order[..i];
      OrderIsDomain(log, order[i]);
      if slots[order[i]].live {
        doc := doc + [slots[order[i]].fields];
      }
    }
    assert order[..|order|] == order;
  }

  lemma {:induction false} OrderIsDomain(log: seq<Assertion>, id: Id)
    ensures id in ReplayAll(log).order <==> id in ReplayAll(log).slots
  {
    if log != [] {
      OrderIsDomain(log[..|log| - 1], id);
    }
  }

  // ── order independence ──

  // No two positions of the log share a timestamp.
  ghost predicate DistinctTimestamps(log: seq<Assertion>) {
    forall i, j | 0 <= i < j < |log| :: log[i].at != log[j].at
  }

  // Machines that appended the same assertions in different orders fold to the
  // same facts, in the same order, with the same complaints.
  lemma FoldIgnoresAppendOrder(log: seq<Assertion>, other: seq<Assertion>)
    requires multiset(log) == multiset(other) && DistinctTimestamps(log)
    ensures Folded(log) == Folded(other)
  {
    TimestampsOrder(log);
    forall a, b | a in log && b in log && !Earlier(a, b) && !Earlier(b, a)
      ensures a == b
    {
      StrLessTotal(a.at, b.at);
    }
    forall a | a in log
      ensures !Earlier(a, a)
    {
      StrLessIrreflexive(a.at);
    }
    SortIndependentOfInputOrder(Earlier, log, other);
  }

  function About(id: Id): Assertion -> bool { (a: Assertion) => a.id == id }

  // The part of the log about one id.
  function Own(log: seq<Assertion>, id: Id): seq<Assertion> { Filter(About(id), log) }

  lemma OwnSnoc(log: seq<Assertion>, a: Assertion, id: Id)
    ensures Own(log + [a], id) == if a.id == id then Own(log, id) + [a] else Own(log, id)
  {
    OneMoreKept(About(id), log, a);
  }

  lemma ReplaySnoc(log: seq<Assertion>, a: Assertion)
    ensures ReplayAll(log + [a]) == Apply(ReplayAll(log), a)
  {
    assert (log + [a])[..|log|] == log;
  }

  lemma {:induction false} ReplayIsLocal(log: seq<Assertion>, id: Id)
    ensures SlotOf(ReplayAll(log), id) == SlotOf(ReplayAll(Own(log, id)), id)
    decreases |log|
  {
    if log != [] {
      var init, a := log[..|log| - 1], log[|log| - 1];
      ReplayIsLocal(init, id);
      assert log == init + [a];
      ReplaySnoc(init, a);
      OwnSnoc(init, a, id);
      if a.id == id {
        ReplaySnoc(Own(init, id), a);
      }
    }
  }

  // What stands for an id depends on the assertions about it and their relative
  // order alone: the rest of the log can be anything.
  lemma EntryDependsOnOwnAssertions(log: seq<Assertion>, other: seq<Assertion>, id: Id)
    requires Own(log, id) == Own(other, id)
    ensures Entry(log, id) == Entry(other, id)
  {
    TimestampsOrder(log);
    TimestampsOrder(other);
    FilterSort(About(id), Earlier, log);
    FilterSort(About(id), Earlier, other);
    ReplayIsLocal(ReplayOrder(log), id);
    ReplayIsLocal(ReplayOrder(other), id);
  }

  // ── amendment ──

  function LastFieldsIn(log: seq<Assertion>, id: Id): Option<Fields> {
    if log == [] then None
    else
      var a := log[|log| - 1];
      if a.id == id && a.op.Assert? then Some(a.fields) else LastFieldsIn(log[..|log| - 1], id)
  }

  // LastFields scans the log forward and keeps the last match.
  method LastFields(log: seq<Assertion>, id: Id) returns (found: Option<Fields>)
    ensures found == LastFieldsIn(ReplayOrder(log), id)
  {
    var all := ReplayOrder(log);
    found := None;
    for i := 0 to |all|
      invariant found == LastFieldsIn(all[..i], id)
    {
      assert all[..i + 1][..i] == all[..i];
      if all[i].id == id && all[i].op.Assert? {
        found := Some(all[i].fields);
      }
    }
    assert all[..|all|] == all;
  }

  // None drops a field, a value sets it.
  type Change = map<string, Option<Json>>

  lemma OverrideNext(fields: Fields, change: Change, done: set<string>, k: string)
    requires k in change && done <= change.Keys
    ensures Overridden(fields, map j | j in change && j in done + {k} :: change[j]) ==
            var f := Overridden(fields, map j | j in change && j in done :: change[j]);
            if change[k].None? then f - {k} else f[k := change[k].value]
  {}

  function Overridden(fields: Fields, change: Change): Fields {
    map k | k in fields.Keys + change.Keys && (k in change ==> change[k].Some?) ::
      if k in change then change[k].value else fields[k]
  }

  datatype AmendError = NothingToAmend | Unloadable

  // Amend: re-assert the last asserted fields with some changed. `loads` is the
  // graph build the write would have to survive.
  method Amend(log: seq<Assertion>, id: Id, change: Change, who: string, note: string, now: string,
               loads: seq<Assertion> -> bool)
    returns (r: Result<seq<Assertion>, AmendError>)
    ensures r ==
            match LastFieldsIn(ReplayOrder(log), id)
            case None => Err(NothingToAmend)
            case Some(fields) =>
              var a := Amendment(id, Overridden(fields, change), who, note, now);
              if ValidAssertion(a) && loads(log + [a]) then Ok(log + [a]) else Err(Unloadable)
  {
    var found := LastFields(log, id);
    if found.None? {
      return Err(NothingToAmend);
    }
    var fields := found.value;
    var todo := change.Keys;
    while todo != {}
      invariant todo <= change.Keys
      invariant fields == Overridden(found.value, map k | k in change && k in change.Keys - todo :: change[k])
    {
      var k :| k in todo;
      OverrideNext(found.value, change, change.Keys - todo, k);
      assert change.Keys - todo + {k} == change.Keys - (todo - {k});
      todo := todo - {k};
      if change[k].None? {
        fields := fields - {k};
      } else {
        fields := fields[k := change[k].value];
      }
    }
    assert (map k | k in change && k in change.Keys - todo :: change[k]) == change;
    var a := Amendment(id, fields, who, note, now);
    if !ValidAssertion(a) || !loads(log + [a]) {
      return Err(Unloadable);
    }
    r := Ok(log + [a]);
  }

  // An amendment changes no other fact, whatever its stamp. Stamped no earlier
  // than the assertions about its own id, it leaves exactly the last asserted
  // fields with the overrides: a withdrawal or retirement since does not survive.
  lemma AmendmentChangesOneFact(
      log: seq<Assertion>, id: Id, fields: Fields, who: string, note: string, now: string, other: Id)
    ensures var amended := log + [Amendment(id, fields, who, note, now)];
            && (other != id ==> Entry(amended, other) == Entry(log, other))
            && ((forall a | a in log && a.id == id :: !StrLess(now, a.at)) ==>
                  Entry(amended, id) == Some(fields["id" := JString(id)]))
  {
    var a := Amendment(id, fields, who, note, now);
    if other != id {
      OwnSnoc(log, a, other);
      EntryDependsOnOwnAssertions(log + [a], log, other);
    }
    if forall b | b in log && b.id == id :: !StrLess(now, b.at) {
      OwnSnoc(log, a, id);
      OwnTwice(log + [a], id);
      EntryDependsOnOwnAssertions(log + [a], Own(log, id) + [a], id);
      forall b | b in Own(log, id)
        ensures !Earlier(a, b)
      {
        FilterMember(About(id), log, b);
      }
      SortAppendLast(Earlier, Own(log, id), a);
      ReplaySnoc(ReplayOrder(Own(log, id)), a);
    }
  }

  lemma {:induction false} OwnTwice(log: seq<Assertion>, id: Id)
    ensures Own(Own(log, id), id) == Own(log, id)
  {
    if log != [] {
      OwnTwice(log[1..], id);
      var rest := Own(log[1..], id);
      assert ([log[0]] + rest)[1..] == rest;
    }
  }

  // ── where an amendment lands ──

  function Later(now: string): Assertion -> bool { (a: Assertion) => StrLess(now, a.at) }

  function NotLater(now: string): Assertion -> bool { (a: Assertion) => !StrLess(now, a.at) }

  // What is said about an id after a time, in replay order.
  function SaidLater(log: seq<Assertion>, id: Id, now: string): seq<Assertion> {
    Filter(Later(now), ReplayOrder(Own(log, id)))
  }

  lemma {:induction false} FilterAll(keep: Assertion -> bool, xs: seq<Assertion>)
    ensures (forall x | x in xs :: keep(x)) ==> Filter(keep, xs) == xs
    ensures (forall x | x in xs :: !keep(x)) ==> Filter(keep, xs) == []
  {
    if xs != [] {
      FilterAll(keep, xs[1..]);
      HeadTail(xs);
    }
  }

  // A replay order is what is not later than a time, then what is.
  lemma {:induction false} SplitAt(xs: seq<Assertion>, now: string)
    requires Ordered(Earlier, xs)
    ensures xs == Filter(NotLater(now), xs) + Filter(Later(now), xs)
  {
    if xs != [] {
      HeadTail(xs);
      if StrLess(now, xs[0].at) {
        forall x | x in xs
          ensures StrLess(now, x.at)
        {
          var j :| 0 <= j < |xs| && xs[j] == x;
          StrLessTotal(xs[0].at, x.at);
          if j > 0 && xs[0].at != x.at { StrLessTransitive(now, xs[0].at, x.at); }
        }
        FilterAll(NotLater(now), xs);
        FilterAll(Later(now), xs);
      } else {
        SplitAt(xs[1..], now);
      }
    }
  }

  lemma ReplayOrderSplit(xs: seq<Assertion>, now: string)
    ensures ReplayOrder(xs) == ReplayOrder(Filter(NotLater(now), xs)) + ReplayOrder(Filter(Later(now), xs))
    ensures Filter(Later(now), ReplayOrder(xs)) == ReplayOrder(Filter(Later(now), xs))
  {
    TimestampsOrder(xs);
    SortOrdered(Earlier, xs);
    SplitAt(ReplayOrder(xs), now);
    FilterSort(NotLater(now), Earlier, xs);
    FilterSort(Later(now), Earlier, xs);
  }

  lemma OneMoreKept(keep: Assertion -> bool, xs: seq<Assertion>, a: Assertion)
    ensures Filter(keep, xs + [a]) == if keep(a) then Filter(keep, xs) + [a] else Filter(keep, xs)
  {
    FilterConcat(keep, xs, [a]);
    FilterAll(keep, [a]);
    assert Filter(keep, xs) + [] == Filter(keep, xs);
  }

  // A new assertion is replayed after everything not later than it and before
  // everything later.
  lemma LandsBeforeLater(xs: seq<Assertion>, a: Assertion)
    ensures ReplayOrder(xs + [a]) ==
            ReplayOrder(Filter(NotLater(a.at), xs)) + [a] + ReplayOrder(Filter(Later(a.at), xs))
  {
    var early := Filter(NotLater(a.at), xs);
    ReplayOrderSplit(xs + [a], a.at);
    StrLessIrreflexive(a.at);
    OneMoreKept(NotLater(a.at), xs, a);
    OneMoreKept(Later(a.at), xs, a);
    forall x | x in early
      ensures !Earlier(a, x)
    {
      FilterMember(NotLater(a.at), xs, x);
    }
    SortAppendLast(Earlier, early, a);
  }

  // ── the slot of one id ──

  // What some assertions about an id make of its slot.
  function SlotAfter(s: Slot, xs: seq<Assertion>): Slot
    decreases |xs|
  {
    if xs == [] then s else Rewrite(SlotAfter(s, xs[..|xs| - 1]), xs[|xs| - 1])
  }

  const EMPTY := Slot(map[], false)

  lemma {:induction false} SlotAfterJoin(s: Slot, xs: seq<Assertion>, ys: seq<Assertion>)
    ensures SlotAfter(s, xs + ys) == SlotAfter(SlotAfter(s, xs), ys)
    decreases |ys|
  {
    if ys == [] {
      assert xs + ys == xs;
    } else {
      SlotAfterJoin(s, xs, ys[..|ys| - 1]);
      assert (xs + ys)[..|xs + ys| - 1] == xs + ys[..|ys| - 1];
    }
  }

  lemma {:induction false} ReplayIsSlotAfter(xs: seq<Assertion>, id: Id)
    requires forall x | x in xs :: x.id == id
    ensures SlotOf(ReplayAll(xs), id) == SlotAfter(EMPTY, xs)
    decreases |xs|
  {
    if xs != [] {
      assert xs[|xs| - 1] in xs;
      assert forall x | x in xs[..|xs| - 1] :: x in xs;
      ReplayIsSlotAfter(xs[..|xs| - 1], id);
    }
  }

  // An assert makes what came before it not matter.
  lemma {:induction false} AssertForgets(s: Slot, t: Slot, xs: seq<Assertion>)
    requires exists x :: x in xs && x.op.Assert?
    ensures SlotAfter(s, xs) == SlotAfter(t, xs)
    decreases |xs|
  {
    var init, last := xs[..|xs| - 1], xs[|xs| - 1];
    assert xs == init + [last];
    if !last.op.Assert? {
      AssertForgets(s, t, init);
    }
  }

  // What withdrawals and retirements write on a live entry.
  function Marks(xs: seq<Assertion>): Fields {
    if xs == [] then map[]
    else
      var a := xs[|xs| - 1];
      Marks(xs[..|xs| - 1]) +
      match a.op
      case Withdraw => map["status" := JString("withdrawn"), "reason" := JString(a.reason)]
      case Retire => map["same_as" := JString(a.into)]
      case _ => map[]
  }

  lemma {:induction false} MarksTouch(xs: seq<Assertion>)
    ensures Marks(xs).Keys <= {"status", "reason", "same_as"}
  {
    if xs != [] {
      MarksTouch(xs[..|xs| - 1]);
    }
  }

  lemma {:induction false} MarksAreAdded(fields: Fields, xs: seq<Assertion>)
    requires forall x | x in xs :: !x.op.Assert?
    ensures SlotAfter(Slot(fields, true), xs) == Slot(fields + Marks(xs), true)
    decreases |xs|
  {
    if xs == [] {
      assert fields + map[] == fields;
    } else {
      var init, a := xs[..|xs| - 1], xs[|xs| - 1];
      assert a in xs;
      MarksAreAdded(fields, init);
      MarkAdded(fields, Marks(init), a);
    }
  }

  lemma MarkAdded(fields: Fields, marks: Fields, a: Assertion)
    requires !a.op.Assert?
    ensures Rewrite(Slot(fields + marks, true), a) ==
            Slot(fields + (marks +
                           match a.op
                           case Withdraw => map["status" := JString("withdrawn"), "reason" := JString(a.reason)]
                           case Retire => map["same_as" := JString(a.into)]
                           case _ => map[]),
                 true)
  {}

  function Amendment(id: Id, fields: Fields, who: string, note: string, now: string): Assertion {
    Assertion(Assert, id, fields, "", "", note, who, now)
  }

  ghost predicate AssertedLater(log: seq<Assertion>, id: Id, now: string) {
    exists b :: b in log && b.id == id && b.op.Assert? && StrLess(now, b.at)
  }

  lemma SaidLaterHolds(log: seq<Assertion>, id: Id, now: string, b: Assertion)
    ensures b in SaidLater(log, id, now) <==> b in log && b.id == id && StrLess(now, b.at)
  {
    FilterMember(Later(now), ReplayOrder(Own(log, id)), b);
    SameElements(Own(log, id), ReplayOrder(Own(log, id)));
    FilterMember(About(id), log, b);
  }

  lemma OwnEntry(xs: seq<Assertion>, id: Id)
    requires forall x | x in xs :: x.id == id
    ensures Entry(xs, id) ==
            var s := SlotAfter(EMPTY, ReplayOrder(xs)); if s.live then Some(s.fields) else None
  {
    SameElements(xs, ReplayOrder(xs));
    ReplayIsSlotAfter(ReplayOrder(xs), id);
  }

  // The entry before and after an assertion about its id, by what is said later.
  lemma EntryAround(log: seq<Assertion>, a: Assertion)
    requires a.op.Assert?
    ensures var later := SaidLater(log, a.id, a.at);
            && (exists s ::
                  var e := SlotAfter(s, later); Entry(log, a.id) == if e.live then Some(e.fields) else None)
            && (var e := SlotAfter(Slot(a.fields["id" := JString(a.id)], true), later);
                Entry(log + [a], a.id) == if e.live then Some(e.fields) else None)
  {
    var id, own := a.id, Own(log, a.id);
    var early, later := ReplayOrder(Filter(NotLater(a.at), own)), SaidLater(log, id, a.at);
    forall x | x in own
      ensures x.id == id
    {
      FilterMember(About(id), log, x);
    }
    OwnTwice(log, id);
    EntryDependsOnOwnAssertions(log, own, id);
    OwnEntry(own, id);
    ReplayOrderSplit(own, a.at);
    SlotAfterJoin(EMPTY, early, later);
    var s := SlotAfter(EMPTY, early);
    assert var e := SlotAfter(s, later); Entry(log, a.id) == if e.live then Some(e.fields) else None;

    OwnSnoc(log, a, id);
    OwnTwice(log + [a], id);
    EntryDependsOnOwnAssertions(log + [a], own + [a], id);
    OwnEntry(own + [a], id);
    LandsBeforeLater(own, a);
    SlotAfterJoin(EMPTY, early + [a], later);
    SlotAfterJoin(EMPTY, early, [a]);
    assert [a][..0] == [];
  }

  // What is asserted later stands: an amendment stamped before it is replayed
  // before it, and lost.
  lemma EarlierAmendmentIsLost(log: seq<Assertion>, a: Assertion, b: Assertion)
    requires a.op.Assert?
    requires b in log && b.id == a.id && b.op.Assert? && StrLess(a.at, b.at)
    ensures Entry(log + [a], a.id) == Entry(log, a.id)
  {
    var later := SaidLater(log, a.id, a.at);
    EntryAround(log, a);
    SaidLaterHolds(log, a.id, a.at, b);
    var s :| var e := SlotAfter(s, later); Entry(log, a.id) == if e.live then Some(e.fields) else None;
    AssertForgets(s, Slot(a.fields["id" := JString(a.id)], true), later);
  }

  // With no later assert, the entry is the amended fields, marked by the
  // withdrawals and retirements stamped later.
  lemma AmendmentStands(log: seq<Assertion>, a: Assertion)
    requires a.op.Assert? && !AssertedLater(log, a.id, a.at)
    ensures Entry(log + [a], a.id) == Some(a.fields["id" := JString(a.id)] + Marks(SaidLater(log, a.id, a.at)))
  {
    var later := SaidLater(log, a.id, a.at);
    EntryAround(log, a);
    forall x | x in later
      ensures !x.op.Assert?
    {
      SaidLaterHolds(log, a.id, a.at, x);
    }
    MarksAreAdded(a.fields["id" := JString(a.id)], later);
  }

  // Two amendments that differ in a body cannot both leave what was there.
  lemma SomeAmendmentStands(log: seq<Assertion>, id: Id, who: string, note: string, now: string)
    returns (fields: Fields)
    requires !AssertedLater(log, id, now)
    ensures Entry(log + [Amendment(id, fields, who, note, now)], id) != Entry(log, id)
  {
    var no, yes, marks := map["body" := JBool(false)], map["body" := JBool(true)], Marks(SaidLater(log, id, now));
    AmendmentStands(log, Amendment(id, no, who, note, now));
    AmendmentStands(log, Amendment(id, yes, who, note, now));
    MarksTouch(SaidLater(log, id, now));
    BodyStays(no, id, marks);
    BodyStays(yes, id, marks);
    fields := if Entry(log, id) == Some(no["id" := JString(id)] + marks) then yes else no;
  }

  lemma BodyStays(fields: Fields, id: Id, marks: Fields)
    requires "body" in fields && "body" !in marks
    ensures (fields["id" := JString(id)] + marks)["body"] == fields["body"]
  {}

  // Every amendment of an id stamped at a time is lost exactly when something
  // asserts the id later.
  lemma AmendmentsLostIff(log: seq<Assertion>, id: Id, who: string, note: string, now: string)
    ensures (forall fields :: Entry(log + [Amendment(id, fields, who, note, now)], id) == Entry(log, id))
            <==> AssertedLater(log, id, now)
  {
    if AssertedLater(log, id, now) {
      var b :| b in log && b.id == id && b.op.Assert? && StrLess(now, b.at);
      forall fields
        ensures Entry(log + [Amendment(id, fields, who, note, now)], id) == Entry(log, id)
      {
        EarlierAmendmentIsLost(log, Amendment(id, fields, who, note, now), b);
      }
    } else {
      var fields := SomeAmendmentStands(log, id, who, note, now);
    }
  }
}
