// One line of the assertion log.
module Log {
  import opened Strings
  import opened Graphs

  // A number is kept as its text, which is what the encoder prints for it.
  datatype Json =
    | JNull | JBool(b: bool) | JNumber(text: string) | JString(s: string)
    | JArray(items: seq<Json>) | JObject(members: map<string, Json>)

  type Fields = map<string, Json>

  datatype Op = Assert | Withdraw | Retire | UnknownOp(name: string)

  datatype Assertion = Assertion(
    op: Op, id: Id, fields: Fields, reason: string, into: Id, note: string, who: string, at: string)

  predicate ValidAssertion(a: Assertion) {
    && !a.op.UnknownOp?
    && a.id != ""
    && TrimSpace(a.who) != ""
    && (a.op.Assert? ==> a.fields != map[])
    && (a.op.Withdraw? ==> TrimSpace(a.reason) != "")
    && (a.op.Retire? ==> a.into != "" && a.into != a.id)
  }
}
