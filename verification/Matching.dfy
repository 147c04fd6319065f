// Matching one node against one atom, and following one hop.
module Matching {
  import opened Options
  import opened Comparison
  import opened Graphs
  import opened Queries
  import opened Satisfaction

  function KindName(k: Kind): string {
    match k
    case Claim => "claim" case Question => "question" case Group => "group"
    case Entity => "entity" case Event => "event" case Action => "action" case Source => "source"
  }

  function StatusName(s: Status): string {
    match s
    case Unset => "" case Asserted => "asserted" case Proposed => "proposed" case Open => "open"
    case Resolved => "resolved" case Done => "done" case Withdrawn => "withdrawn" case False => "false"
  }

  function Present(s: string): Option<string> { if s == "" then None else Some(s) }

  function Derived(g: Graph, id: Id, key: string, at: string): Option<string> {
    if (id, key, at) in g.derived then Some(g.derived[(id, key, at)]) else None
  }

  // A node's resolved occurrence date, which no query date changes.
  function ResolveAt(g: Graph, id: Id): Option<string> { Derived(g, id, "at", "") }

  function Field(g: Graph, n: Node, key: string, at: string): Option<string> {
    if key == "id" then Some(n.id)
    else if key == "kind" then Some(KindName(n.kind))
    else if key == "body" then Present(n.body)
    else if key == "status" then Present(StatusName(n.status))
    else if key == "owner" then Present(n.owner)
    else if key == "while" then Present(n.gate)
    else if key == "valid_from" then Present(n.validFrom)
    else if key == "valid_until" then Present(n.validUntil)
    else if key == "at" then ResolveAt(g, n.id)
    else Derived(g, n.id, key, at)
  }

  predicate IsFlag(key: string) { key == "computed" || key == "disputed" || key == "impeached" }

  function Clocked(v: string, now: string): string { if v == "now" then now else v }

  predicate MatchPred(g: Graph, p: Pred, n: Node, at: string, now: string)
    requires p.op.In? || p.op.Has? || p.vals != []
  {
    var got := Field(g, n, p.key, at);
    if IsFlag(p.key) then
      match p.op
      case Has => got.Some?
      case Eq => (p.vals[0] == "true") == got.Some?
      case Ne => (p.vals[0] == "true") != got.Some?
      case _ => false
    else if p.op.Has? then got.Some?
    else if got.None? then false
    else
      match p.op
      case In => exists v | v in p.vals :: got.value == Clocked(v, now)
      case Eq => got.value == Clocked(p.vals[0], now)
      case Ne => got.value != Clocked(p.vals[0], now)
      case Lt => Compare(g.num, got.value, Clocked(p.vals[0], now)) < 0
      case Le => Compare(g.num, got.value, Clocked(p.vals[0], now)) <= 0
      case Gt => Compare(g.num, got.value, Clocked(p.vals[0], now)) > 0
      case Ge => Compare(g.num, got.value, Clocked(p.vals[0], now)) >= 0
  }

  function Lower(s: string): (t: string)
    ensures |t| == |s|
  {
    seq(|s|, i requires 0 <= i < |s| => if 'A' <= s[i] <= 'Z' then s[i] + 32 as char else s[i])
  }

  predicate Contains(s: string, sub: string) {
    exists i | 0 <= i <= |s| :: sub <= s[i..]
  }

  predicate MatchAtom(g: Graph, a: Atom, n: Node, at: string, now: string)
    requires Stratified(g, at)
    requires forall r | r in a.preds :: r.op.In? || r.op.Has? || r.vals != []
  {
    && (a.id != "" ==> n.id == a.id)
    && (a.kinds != [] ==> KindName(n.kind) in a.kinds)
    && (a.text != "" ==> Contains(Lower(n.body), Lower(a.text)))
    && (forall r | r in a.preds :: MatchPred(g, r, n, at, now))
    && (at != "" ==> ValidAt(g, n, at) && (n.gate != "" ==> Sat(g, at, n.gate, {})))
  }
}
