// A format that keeps the promises `Export` asks of one: an encoder whose lines
// are read back, whatever the assertion. It lays an assertion out as a list of
// numbers, and the numbers out as one line.
module Encoding {
  import opened Strings
  import opened Options
  import opened Log
  import opened Export

  datatype Code = End | Then(n: nat, rest: Code)

  // ── assertions as numbers ──

  function PutChars(s: string, rest: Code): Code {
    if s == "" then rest else Then(s[0] as nat, PutChars(s[1..], rest))
  }

  function PutString(s: string, rest: Code): Code { Then(|s|, PutChars(s, rest)) }

  // The keys of an object, in some order that depends on nothing else.
  ghost function KeysOf(s: set<string>): (keys: seq<string>)
    ensures forall k :: k in keys <==> k in s
  {
    if s == {} then []
    else
      var k :| k in s;
      [k] + KeysOf(s - {k})
  }

  ghost function PutJson(j: Json, rest: Code): Code
    decreases j, 1, 0
  {
    match j
    case JNull => Then(0, rest)
    case JBool(b) => Then(if b then 1 else 2, rest)
    case JNumber(text) => Then(3, PutString(text, rest))
    case JString(s) => Then(4, PutString(s, rest))
    case JArray(items) => Then(5, Then(|items|, PutItems(items, rest)))
    case JObject(members) => Then(6, Then(|KeysOf(members.Keys)|, PutMembers(KeysOf(members.Keys), j, rest)))
  }

  ghost function PutItems(items: seq<Json>, rest: Code): Code
    decreases items, 0, 0
  {
    if items == [] then rest else PutJson(items[0], PutItems(items[1..], rest))
  }

  ghost function PutMembers(keys: seq<string>, j: Json, rest: Code): Code
    requires j.JObject? && forall k | k in keys :: k in j.members
    decreases j, 0, |keys|
  {
    if keys == [] then rest
    else PutString(keys[0], PutJson(j.members[keys[0]], PutMembers(keys[1..], j, rest)))
  }

  function PutOp(op: Op, rest: Code): Code {
    match op
    case Assert => Then(0, rest)
    case Withdraw => Then(1, rest)
    case Retire => Then(2, rest)
    case UnknownOp(name) => Then(3, PutString(name, rest))
  }

  ghost function Put(a: Assertion): Code {
    PutOp(a.op, PutString(a.id, PutJson(JObject(a.fields), PutString(a.reason,
    PutString(a.into, PutString(a.note, PutString(a.who, PutString(a.at, End))))))))
  }

  // ── and back: a code opens in one way ──

  lemma {:induction false} CharsOpen(s: string, t: string, x: Code, y: Code)
    requires |s| == |t| && PutChars(s, x) == PutChars(t, y)
    ensures s == t && x == y
  {
    if s != "" {
      CharsOpen(s[1..], t[1..], x, y);
      assert s == [s[0]] + s[1..] && t == [t[0]] + t[1..];
    }
  }

  lemma StringOpens(s: string, t: string, x: Code, y: Code)
    requires PutString(s, x) == PutString(t, y)
    ensures s == t && x == y
  {
    CharsOpen(s, t, x, y);
  }

  lemma {:induction false} JsonOpens(i: Json, j: Json, x: Code, y: Code)
    requires PutJson(i, x) == PutJson(j, y)
    ensures i == j && x == y
    decreases i, 1, 0
  {
    match i
    case JNumber(text) => StringOpens(text, j.text, x, y);
    case JString(s) => StringOpens(s, j.s, x, y);
    case JArray(items) => ItemsOpen(items, j.items, x, y);
    case JObject(members) =>
      MembersOpen(KeysOf(members.Keys), KeysOf(j.members.Keys), i, j, x, y);
      SameMembers(members, j.members);
    case _ =>
  }

  lemma {:induction false} ItemsOpen(items: seq<Json>, others: seq<Json>, x: Code, y: Code)
    requires |items| == |others| && PutItems(items, x) == PutItems(others, y)
    ensures items == others && x == y
    decreases items, 0, 0
  {
    if items != [] {
      JsonOpens(items[0], others[0], PutItems(items[1..], x), PutItems(others[1..], y));
      ItemsOpen(items[1..], others[1..], x, y);
      assert items == [items[0]] + items[1..] && others == [others[0]] + others[1..];
    }
  }

  lemma {:induction false} MembersOpen(keys: seq<string>, others: seq<string>, i: Json, j: Json, x: Code, y: Code)
    requires i.JObject? && (forall k | k in keys :: k in i.members)
    requires j.JObject? && (forall k | k in others :: k in j.members)
    requires |keys| == |others| && PutMembers(keys, i, x) == PutMembers(others, j, y)
    ensures keys == others && x == y && forall k | k in keys :: i.members[k] == j.members[k]
    decreases i, 0, |keys|
  {
    if keys != [] {
      var k, l := keys[0], others[0];
      var v, w := PutMembers(keys[1..], i, x), PutMembers(others[1..], j, y);
      StringOpens(k, l, PutJson(i.members[k], v), PutJson(j.members[l], w));
      JsonOpens(i.members[k], j.members[l], v, w);
      MembersOpen(keys[1..], others[1..], i, j, x, y);
      assert keys == [k] + keys[1..] && others == [l] + others[1..];
    }
  }

  lemma SameMembers(m: Fields, n: Fields)
    requires KeysOf(m.Keys) == KeysOf(n.Keys) && forall k | k in KeysOf(m.Keys) :: m[k] == n[k]
    ensures m == n
  {
    assert forall k :: k in m <==> k in KeysOf(m.Keys);
    assert forall k :: k in n <==> k in KeysOf(n.Keys);
  }

  lemma OpOpens(o: Op, p: Op, x: Code, y: Code)
    requires PutOp(o, x) == PutOp(p, y)
    ensures o == p && x == y
  {
    if o.UnknownOp? {
      StringOpens(o.name, p.name, x, y);
    }
  }

  // Everything after the fields.
  ghost function PutRest(a: Assertion): Code {
    PutString(a.reason, PutString(a.into, PutString(a.note, PutString(a.who, PutString(a.at, End)))))
  }

  lemma RestOpens(a: Assertion, b: Assertion)
    requires PutRest(a) == PutRest(b)
    ensures a.reason == b.reason && a.into == b.into && a.note == b.note && a.who == b.who && a.at == b.at
  {
    StringOpens(a.reason, b.reason, PutString(a.into, PutString(a.note, PutString(a.who, PutString(a.at, End)))),
                PutString(b.into, PutString(b.note, PutString(b.who, PutString(b.at, End)))));
    StringOpens(a.into, b.into, PutString(a.note, PutString(a.who, PutString(a.at, End))),
                PutString(b.note, PutString(b.who, PutString(b.at, End))));
    StringOpens(a.note, b.note, PutString(a.who, PutString(a.at, End)), PutString(b.who, PutString(b.at, End)));
    StringOpens(a.who, b.who, PutString(a.at, End), PutString(b.at, End));
    StringOpens(a.at, b.at, End, End);
  }

  lemma AssertionOpens(a: Assertion, b: Assertion)
    requires Put(a) == Put(b)
    ensures a == b
  {
    OpOpens(a.op, b.op, PutString(a.id, PutJson(JObject(a.fields), PutRest(a))),
            PutString(b.id, PutJson(JObject(b.fields), PutRest(b))));
    StringOpens(a.id, b.id, PutJson(JObject(a.fields), PutRest(a)), PutJson(JObject(b.fields), PutRest(b)));
    JsonOpens(JObject(a.fields), JObject(b.fields), PutRest(a), PutRest(b));
    RestOpens(a, b);
  }

  // ── numbers as a line ──

  function Text(c: Code): (s: string)
    ensures s != ""
  {
    match c
    case End => "}"
    case Then(n, rest) => Digits(n) + "," + Text(rest)
  }

  // The first comma ends the digits.
  lemma DigitsEnd(a: string, s: string)
    requires AllDigits(a)
    ensures var u := a + "," + s;
            && u[|a|] == ',' && (forall k | 0 <= k < |a| :: u[k] != ',')
            && u[..|a|] == a && u[|a| + 1..] == s
  {}

  lemma CommaSplits(a: string, b: string, s: string, t: string)
    requires AllDigits(a) && AllDigits(b) && a + "," + s == b + "," + t
    ensures a == b && s == t
  {
    DigitsEnd(a, s);
    DigitsEnd(b, t);
    assert |a| == |b|;
  }

  lemma TextHead(c: Code)
    ensures IsDigit(Text(c)[0]) <==> c.Then?
  {
    if c.Then? {
      assert Text(c)[0] == Digits(c.n)[0];
    }
  }

  lemma {:induction false} TextOpens(c: Code, d: Code)
    requires Text(c) == Text(d)
    ensures c == d
  {
    TextHead(c);
    TextHead(d);
    if c.Then? {
      CommaSplits(Digits(c.n), Digits(d.n), Text(c.rest), Text(d.rest));
      DecimalOfDigits(c.n);
      DecimalOfDigits(d.n);
      TextOpens(c.rest, d.rest);
    }
  }

  lemma {:induction false} TextIsOneLine(c: Code)
    ensures OneLine(Text(c)) && Text(c)[|Text(c)| - 1] == '}'
  {
    if c.Then? {
      TextIsOneLine(c.rest);
    }
  }

  ghost function Encoded(a: Assertion): string { "{" + Text(Put(a)) }

  ghost function Decoded(line: string): Option<Assertion> {
    if a :| Encoded(a) == line then Some(a) else None
  }

  lemma EncodedOpens(a: Assertion)
    ensures Decoded(Encoded(a)) == Some(a)
  {
    var b := Decoded(Encoded(a)).value;
    assert Encoded(b) == Encoded(a);
    assert Encoded(b)[1..] == Text(Put(b)) && Encoded(a)[1..] == Text(Put(a));
    TextOpens(Put(a), Put(b));
    AssertionOpens(a, b);
  }

  lemma EncodedIsALine(a: Assertion)
    ensures OneLine(Encoded(a)) && TrimSpace(Encoded(a)) == Encoded(a) && !Skipped(Encoded(a))
  {
    TextIsOneLine(Put(a));
    var line := Encoded(a);
    assert line[|line| - 1] == '}' && line[0] == '{';
    assert TrimLeft(line) == line && TrimRight(line) == line;
  }

  lemma FaithfulFormatExists() returns (f: Format)
    ensures Faithful(f)
  {
    f := Format(a => Encoded(a), line => Decoded(line), "// kgraph", "// log");
    forall a
      ensures f.decode(f.encode(a)) == Some(a)
      ensures OneLine(f.encode(a)) && TrimSpace(f.encode(a)) == f.encode(a) && !Skipped(f.encode(a))
    {
      EncodedOpens(a);
      EncodedIsALine(a);
    }
  }
}
