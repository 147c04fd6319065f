// Nodes, edges and the incidence index every evaluator walks.
module Graphs {
  import opened Strings
  import opened Comparison

  type Id = string

  datatype Kind = Claim | Question | Group | Entity | Event | Action | Source

  datatype Status = Unset | Asserted | Proposed | Open | Resolved | Done | Withdrawn | False

  datatype EdgeType =
    | Causes | Implies | Requires | Prohibits | Supports | Contradicts
    | Answers | Supersedes | MemberOf | About | Attests | DerivedFrom

  // `gate` is the source's `while`: the edge holds only where that node does.
  datatype Edge = Edge(
    src: Id, dst: Id, typ: EdgeType, validFrom: string, validUntil: string, gate: Id,
    oneWay: bool, because: string)

  datatype Alias = Alias(name: string, from: string, until: string)

  datatype Binding = Binding(alias: Alias, node: Id)

  datatype Node = Node(
    id: Id, kind: Kind, body: string, status: Status, owner: Id,
    validFrom: string, validUntil: string, gate: Id,
    groupExpr: string, sameAs: Id, aliases: seq<Alias>)

  // `num` is the numeral reading every comparison uses, and `derived` answers the
  // query fields other code computes for a node at a date (`at`, `value`,
  // `disputed`, ...), absent when the node has none.
  datatype Graph = Graph(
    nodes: map<Id, Node>, edges: seq<Edge>,
    retired: map<Id, Id>, aliases: map<string, seq<Binding>>,
    derived: map<(Id, string, string), string>, num: Reading)

  predicate Joins(e: Edge, id: Id) { e.src == id || e.dst == id }

  predicate Grounded(g: Graph, e: Edge) { e.src in g.nodes && e.dst in g.nodes }

  // The edges at a node, in declaration order. A self-edge is listed twice and an
  // edge with an unknown end is not listed at all.
  function IncidentIn(g: Graph, es: seq<Edge>, id: Id): seq<Edge> {
    if es == [] then []
    else
      var e := es[|es| - 1];
      IncidentIn(g, es[..|es| - 1], id) + Listed(g, e, id)
  }

  function Listed(g: Graph, e: Edge, id: Id): seq<Edge> {
    if !Grounded(g, e) then [] else (if e.src == id then [e] else []) + (if e.dst == id then [e] else [])
  }

  function Incident(g: Graph, id: Id): seq<Edge> { IncidentIn(g, g.edges, id) }

  lemma {:induction false} IncidentInExact(g: Graph, es: seq<Edge>, id: Id, e: Edge)
    ensures e in IncidentIn(g, es, id) <==> e in es && Grounded(g, e) && Joins(e, id)
  {
    if es != [] {
      IncidentInExact(g, es[..|es| - 1], id, e);
      assert es == es[..|es| - 1] + [es[|es| - 1]];
    }
  }

  lemma IncidentExact(g: Graph, id: Id, e: Edge)
    ensures e in Incident(g, id) <==> e in g.edges && Grounded(g, e) && Joins(e, id)
  {
    IncidentInExact(g, g.edges, id, e);
  }

  function At(incident: map<Id, seq<Edge>>, id: Id): seq<Edge> {
    if id in incident then incident[id] else []
  }

  lemma IncidentSnoc(g: Graph, es: seq<Edge>, e: Edge, id: Id)
    ensures IncidentIn(g, es + [e], id) ==
            IncidentIn(g, es, id) + Listed(g, e, id)
  {
    assert (es + [e])[..|es|] == es;
  }

  ghost predicate Indexes(g: Graph, es: seq<Edge>, incident: map<Id, seq<Edge>>) {
    forall id :: At(incident, id) == IncidentIn(g, es, id)
  }

  lemma IndexesSnoc(g: Graph, es: seq<Edge>, e: Edge, before: map<Id, seq<Edge>>, after: map<Id, seq<Edge>>)
    requires Indexes(g, es, before)
    requires forall id :: At(after, id) == At(before, id) + Listed(g, e, id)
    ensures Indexes(g, es + [e], after)
  {
    forall id
      ensures At(after, id) == IncidentIn(g, es + [e], id)
    {
      IncidentSnoc(g, es, e, id);
    }
  }

  method Post(g: Graph, incident: map<Id, seq<Edge>>, e: Edge) returns (posted: map<Id, seq<Edge>>)
    ensures forall id :: At(posted, id) == At(incident, id) + Listed(g, e, id)
  {
    posted := incident;
    if Grounded(g, e) {
      posted := posted[e.src := At(posted, e.src) + [e]];
      posted := posted[e.dst := At(posted, e.dst) + [e]];
    }
  }

  // The loop that fills `g.incident` at build time and again in `reindex`.
  method BuildIncident(g: Graph) returns (incident: map<Id, seq<Edge>>)
    ensures Indexes(g, g.edges, incident)
  {
    incident := map[];
    for i := 0 to |g.edges|
      invariant Indexes(g, g.edges[..i], incident)
    {
      var posted := Post(g, incident, g.edges[i]);
      IndexesSnoc(g, g.edges[..i], g.edges[i], incident, posted);
      assert g.edges[..i + 1] == g.edges[..i] + [g.edges[i]];
      incident := posted;
    }
    assert g.edges[..|g.edges|] == g.edges;
  }

  predicate ValidWindow(num: Reading, from: string, until: string, at: string) {
    && (from != "" ==> Compare(num, at, from) >= 0)
    && (until != "" ==> Compare(num, at, until) <= 0)
  }

  predicate ValidAt(g: Graph, n: Node, at: string) { ValidWindow(g.num, n.validFrom, n.validUntil, at) }

  predicate Settled(s: Status) { s.Asserted? || s.Done? || s.Resolved? }

  // ── group expressions ──

  datatype Ordering = AtLeast | AtMost | Exactly | MoreThan | LessThan

  datatype Rule = AllOf | AnyOf | NoneOf | SumOf | Count(op: Ordering, k: nat) | Unknown

  const MAX_INT: nat := 0x7fff_ffff_ffff_ffff

  function SkipPatternSpace(s: string): string {
    if s != [] && (s[0] == ' ' || s[0] == '\t' || s[0] == '\n' || s[0] == '\r' || s[0] == 12 as char)
    then SkipPatternSpace(s[1..]) else s
  }

  function RuleOf(groupExpr: string): Rule {
    var e := TrimSpace(groupExpr);
    if e == "all" then AllOf
    else if e == "any" then AnyOf
    else if e == "none" then NoneOf
    else if "sum(" <= e then SumOf
    else if ">=" <= e then CountRule(AtLeast, e[2..])
    else if "<=" <= e then CountRule(AtMost, e[2..])
    else if "==" <= e then CountRule(Exactly, e[2..])
    else if ">" <= e then CountRule(MoreThan, e[1..])
    else if "<" <= e then CountRule(LessThan, e[1..])
    else Unknown
  }

  function CountRule(op: Ordering, tail: string): Rule {
    var digits := SkipPatternSpace(tail);
    if digits == [] || !AllDigits(digits) then Unknown
    else Count(op, if Decimal(digits) <= MAX_INT then Decimal(digits) else MAX_INT)
  }

  predicate Aggregate(rule: Rule, total: nat, satisfied: nat) {
    match rule
    case AllOf => total > 0 && satisfied == total
    case AnyOf => satisfied >= 1
    case NoneOf => satisfied == 0
    case SumOf => total > 0
    case Count(AtLeast, k) => satisfied >= k
    case Count(MoreThan, k) => satisfied > k
    case Count(AtMost, k) => satisfied <= k
    case Count(LessThan, k) => satisfied < k
    case Count(Exactly, k) => satisfied == k
    case Unknown => false
  }

  // More satisfied members never hurt.
  ghost predicate NonDecreasing(rule: Rule) {
    forall total: nat, s: nat, t: nat | s <= t <= total && Aggregate(rule, total, s) :: Aggregate(rule, total, t)
  }

  // Not `none`, nor a count that some number meets and a larger one does not.
  predicate Monotone(rule: Rule) {
    match rule
    case NoneOf => false
    case Count(AtMost, _) => false
    case Count(Exactly, _) => false
    case Count(LessThan, k) => k == 0
    case _ => true
  }

  // The largest tally a rule that is not monotone accepts.
  function Tipping(rule: Rule): nat
    requires !Monotone(rule)
  {
    match rule
    case NoneOf => 0
    case Count(LessThan, k) => k - 1
    case Count(_, k) => k
  }

  lemma TippingTips(rule: Rule)
    requires !Monotone(rule)
    ensures var s := Tipping(rule); Aggregate(rule, s + 1, s) && !Aggregate(rule, s + 1, s + 1)
  {}

  lemma MonotoneIffNonDecreasing(rule: Rule)
    ensures Monotone(rule) <==> NonDecreasing(rule)
  {
    if !Monotone(rule) {
      TippingTips(rule);
    }
  }
}
