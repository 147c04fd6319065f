// The query AST both the surface language and the tool interface lower to.
module Queries {
  import opened Options
  import opened Graphs

  datatype Direction = Forward | Inverse | Undirected

  datatype Hop = Hop(typ: EdgeType, dir: Direction, star: bool)

  datatype Op = Eq | Ne | Lt | Le | Gt | Ge | In | Has

  datatype Pred = Pred(key: string, op: Op, vals: seq<string>)

  datatype Atom = Atom(kinds: seq<string>, id: Id, preds: seq<Pred>, text: string)

  datatype Temporal = Temporal(now: bool, from: string, to: string)

  datatype SortKey = SortKey(key: string, desc: bool)

  // A chain of atoms joined by hops; the leftmost atom is the result set.
  datatype Pattern = Pattern(atoms: seq<Atom>, hops: seq<Hop>, at: Option<Temporal>, sort: seq<SortKey>)

  datatype Query =
    | Union(terms: seq<Query>)
    | Inter(terms: seq<Query>)
    | Not(x: Query)
    | Ref(name: string)
    | Match(pattern: Pattern)
    | Scoped(x: Query, at: Option<Temporal>, sort: seq<SortKey>)

  // What the evaluator indexes without looking: an atom on each side of every
  // hop, and a value for every comparison.
  predicate WellFormedPattern(p: Pattern) {
    && |p.atoms| == |p.hops| + 1
    && forall a, r | a in p.atoms && r in a.preds :: r.op.In? || r.op.Has? || r.vals != []
  }

  predicate WellFormed(q: Query) {
    match q
    case Union(terms) => forall t | t in terms :: WellFormed(t)
    case Inter(terms) => forall t | t in terms :: WellFormed(t)
    case Not(x) => WellFormed(x)
    case Ref(_) => true
    case Match(p) => WellFormedPattern(p)
    case Scoped(x, _, _) => WellFormed(x)
  }

  datatype Env = Env(now: string, named: map<string, Query>)
}
