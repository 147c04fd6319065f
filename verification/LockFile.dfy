// The source lock: which version of each document the facts were read from, one
// document per line, written sorted and read back.
module LockFile {
  import opened Strings
  import opened Options
  import opened Sorting

  datatype Entry = Entry(hash: string, size: int, at: string)

  type Lock = map<string, Entry>

  datatype Fault = UnterminatedPath | TooFewFields | BadSize

  datatype Error = At(line: nat, fault: Fault)

  // ── reading ──

  // strconv.ParseInt in base 10, 64 bits.
  function ParseInt(s: string): Option<int> {
    var signed := s != "" && (s[0] == '+' || s[0] == '-');
    var body := if signed then s[1..] else s;
    if body == "" || !AllDigits(body) then None
    else
      var n := if signed && s[0] == '-' then -(Decimal(body) as int) else Decimal(body);
      if Int64(n) then Some(n) else None
  }

  // The first place c occurs, or the length.
  function IndexOf(s: string, c: char): (i: nat)
    ensures i <= |s| && (i < |s| ==> s[i] == c)
  {
    if s == "" || s[0] == c then 0 else 1 + IndexOf(s[1..], c)
  }

  function SplitLockPath(line: string): Result<(string, string), Fault> {
    if !("\"" <= line) then
      var i := IndexOf(line, ' ');
      Ok((line[..i], if i < |line| then line[i + 1..] else ""))
    else
      var end := IndexOf(line[1..], '"');
      if end == |line| - 1 then Err(UnterminatedPath)
      else Ok((line[1..1 + end], line[2 + end..]))
  }

  datatype LineRead = Skip | Bad(fault: Fault) | Says(path: string, entry: Entry)

  function ReadTail(path: string, tail: string): LineRead {
    var f := Fields(tail);
    if |f| < 2 then Bad(TooFewFields)
    else
      match ParseInt(f[1])
      case None => Bad(BadSize)
      case Some(size) => Says(path, Entry(f[0], size, if |f| > 2 then f[2] else ""))
  }

  function ReadTrimmed(line: string): LineRead {
    if line == "" || "#" <= line then Skip
    else
      match SplitLockPath(line)
      case Err(fault) => Bad(fault)
      case Ok(split) => ReadTail(split.0, split.1)
  }

  function ReadLine(line: string): LineRead { ReadTrimmed(TrimSpace(line)) }

  function ReadLines(read: string -> LineRead, lines: seq<string>, at: nat, l: Lock): Result<Lock, Error> {
    if lines == [] then Ok(l)
    else
      match read(lines[0])
      case Skip => ReadLines(read, lines[1..], at + 1, l)
      case Bad(fault) => Err(At(at, fault))
      case Says(path, entry) => ReadLines(read, lines[1..], at + 1, l[path := entry])
  }

  // A file that is not there is an empty lock.
  function Read(file: Option<string>): Result<Lock, Error> {
    match file
    case None => Ok(map[])
    case Some(text) => ReadLines(ReadLine, Lines(text), 1, map[])
  }

  // ── writing ──

  function Without(s: string, c: char): string {
    if s == "" then "" else (if s[0] == c then "" else [s[0]]) + Without(s[1..], c)
  }

  predicate NeedsQuotes(p: string) { ' ' in p || '\t' in p || '"' in p }

  function QuoteLockPath(p: string): string {
    if NeedsQuotes(p) then "\"" + Without(p, '"') + "\"" else p
  }

  function LineOf(p: string, e: Entry): string {
    QuoteLockPath(p) + " " + Body(e.hash, IntText(e.size), e.at)
  }

  function Body(hash: string, size: string, at: string): string { hash + " " + size + (" " + at) }

  // A line of the comment every written lock opens with.
  predicate Comment(line: string) { "# " < line && OneLine(line) && !IsSpace(line[|line| - 1]) }

  predicate Comments(header: seq<string>) { forall h | h in header :: Comment(h) }

  function LinesOf(paths: seq<string>, l: Lock): seq<string>
    requires forall p | p in paths :: p in l
  {
    if paths == [] then [] else [LineOf(paths[0], l[paths[0]])] + LinesOf(paths[1..], l)
  }

  function Unlines(ls: seq<string>): string {
    if ls == [] then "" else ls[0] + "\n" + Unlines(ls[1..])
  }

  // The file holds what WriteLock leaves for l: none for an empty lock, else the
  // header and the entries in the order of their paths.
  ghost predicate Written(header: seq<string>, l: Lock, file: Option<string>) {
    match file
    case None => l == map[]
    case Some(text) => l != map[] && exists paths :: WrittenInOrder(header, l, text, paths)
  }

  ghost predicate WrittenInOrder(header: seq<string>, l: Lock, text: string, paths: seq<string>) {
    SortedKeys(paths, l.Keys) && text == Unlines(header + LinesOf(paths, l))
  }

  // One lock has one file, whatever order its entries are met in.
  lemma WrittenOnce(header: seq<string>, l: Lock, f: Option<string>, g: Option<string>)
    requires Written(header, l, f) && Written(header, l, g)
    ensures f == g
  {
    if f.Some? && g.Some? {
      var xs :| WrittenInOrder(header, l, f.value, xs);
      var ys :| WrittenInOrder(header, l, g.value, ys);
      SortedKeysUnique(xs, ys, l.Keys);
    }
  }

  // ── one line ──

  // What every line the reader accepts says of its document.
  predicate Clean(e: Entry) {
    e.hash != "" && NoSpace(e.hash) && NoSpace(e.at) && Int64(e.size)
  }

  predicate Printable(p: string) {
    && p != "" && '"' !in p
    && (!NeedsQuotes(p) ==> p[0] != '#' && !IsSpace(p[0]))
  }

  lemma IntTextReads(n: int)
    requires Int64(n)
    ensures ParseInt(IntText(n)) == Some(n)
    ensures IntText(n) != "" && NoSpace(IntText(n)) && IntText(n)[0] != '"'
  {
    var m := if n < 0 then -n else n;
    DecimalOfDigits(m);
    var t := IntText(n);
    if n < 0 {
      assert t[1..] == Digits(m);
    } else {
      assert IsDigit(t[0]);
    }
    forall i | 0 <= i < |t|
      ensures !IsSpace(t[i])
    {
      assert t[i] == '-' || IsDigit(t[i]);
    }
  }

  // Hash, size and date as they stand at the end of a trimmed line.
  function Core(hash: string, size: string, at: string): string { hash + " " + size + Suffix(at) }

  function Suffix(at: string): string { if at == "" then "" else " " + at }

  lemma FieldsSpace(w: string, s: string)
    requires w != "" && NoSpace(w)
    ensures Fields(w + " " + s) == [w] + Fields(s)
  {
    FieldsOfWord(w, " " + s);
    assert w + (" " + s) == w + " " + s;
    assert (" " + s)[1..] == s;
  }

  lemma FieldsOne(w: string)
    requires w != "" && NoSpace(w)
    ensures Fields(w) == [w]
  {
    FieldsOfWord(w, "");
    assert w + "" == w;
  }

  lemma FieldsOfTail(size: string, at: string)
    requires size != "" && NoSpace(size) && NoSpace(at)
    ensures Fields(size + Suffix(at)) == [size] + if at == "" then [] else [at]
  {
    if at == "" {
      FieldsOne(size);
      assert size + "" == size;
    } else {
      FieldsSpace(size, at);
      FieldsOne(at);
      Assoc(size, " ", at);
    }
  }

  lemma FieldsOfCore(hash: string, size: string, at: string)
    requires hash != "" && size != "" && NoSpace(hash) && NoSpace(size) && NoSpace(at)
    ensures Fields(Core(hash, size, at)) == [hash, size] + if at == "" then [] else [at]
  {
    FieldsSpace(hash, size + Suffix(at));
    FieldsOfTail(size, at);
    Assoc(hash + " ", size, Suffix(at));
  }

  lemma TailReads(path: string, tail: string, e: Entry)
    requires Clean(e) && Fields(tail) == Fields(Core(e.hash, IntText(e.size), e.at))
    ensures ReadTail(path, tail) == Says(path, e)
  {
    IntTextReads(e.size);
    FieldsOfCore(e.hash, IntText(e.size), e.at);
  }

  lemma SpaceSkipped(s: string)
    ensures Fields(" " + s) == Fields(s)
  {
    assert (" " + s)[1..] == s;
  }

  lemma TrimRightDate(y: string, at: string)
    requires y != "" && !IsSpace(y[|y| - 1]) && NoSpace(at)
    ensures TrimRight(y + " " + at) == y + Suffix(at)
  {
    var z := y + " " + at;
    if at == "" {
      assert z == y + " " && z[..|y|] == y && z[|y|] == ' ';
    } else {
      assert z[|z| - 1] == at[|at| - 1] && z == y + (" " + at);
    }
  }

  lemma Regroup(x: string, hash: string, size: string, tail: string)
    ensures x + (hash + " " + size + tail) == x + hash + " " + size + tail
  {}

  lemma TrimRightOf(x: string, hash: string, size: string, at: string)
    requires size != "" && NoSpace(size) && NoSpace(at)
    ensures TrimRight(x + Body(hash, size, at)) == x + Core(hash, size, at)
  {
    var y := x + hash + " " + size;
    assert y[|y| - 1] == size[|size| - 1];
    TrimRightDate(y, at);
    Regroup(x, hash, size, Suffix(at));
    Regroup(x, hash, size, " " + at);
    assert y + " " + at == y + (" " + at);
  }

  lemma SpaceTrimmed(body: string)
    requires body != "" && !IsSpace(body[0])
    ensures TrimLeft(" " + body) == body
  {
    assert (" " + body)[1..] == body;
  }

  lemma TrimLeftLine(q: string, body: string)
    requires body != "" && !IsSpace(body[0])
    ensures TrimLeft(q + (" " + body)) == (if TrimLeft(q) != "" then TrimLeft(q) + (" " + body) else body)
  {
    TrimLeftJoin(q, " " + body);
    SpaceTrimmed(body);
  }

  lemma Assoc(a: string, b: string, c: string)
    ensures a + b + c == a + (b + c)
  {}

  lemma BodyStart(hash: string, size: string, at: string)
    requires hash != "" && NoSpace(hash)
    ensures Body(hash, size, at) != "" && !IsSpace(Body(hash, size, at)[0])
  {
    assert Body(hash, size, at)[0] == hash[0];
  }

  // A printed line without the whitespace around it.
  lemma PartsTrimmed(q: string, hash: string, size: string, at: string)
    requires hash != "" && size != "" && NoSpace(hash) && NoSpace(size) && NoSpace(at)
    ensures TrimSpace(q + " " + Body(hash, size, at)) ==
            if TrimLeft(q) != "" then TrimLeft(q) + " " + Core(hash, size, at) else Core(hash, size, at)
  {
    var body, t := Body(hash, size, at), TrimLeft(q);
    BodyStart(hash, size, at);
    Assoc(q, " ", body);
    TrimLeftLine(q, body);
    if t != "" {
      Assoc(t, " ", body);
      TrimRightOf(t + " ", hash, size, at);
    } else {
      TrimRightOf("", hash, size, at);
      Assoc("", "", body);
      assert "" + body == body && "" + Core(hash, size, at) == Core(hash, size, at);
    }
  }

  lemma LineTrimmed(p: string, e: Entry)
    requires Clean(e)
    ensures
      var q, core := TrimLeft(QuoteLockPath(p)), Core(e.hash, IntText(e.size), e.at);
      TrimSpace(LineOf(p, e)) == if q != "" then q + " " + core else core
  {
    IntTextReads(e.size);
    PartsTrimmed(QuoteLockPath(p), e.hash, IntText(e.size), e.at);
  }

  lemma {:induction false} IndexOfIn(a: string, c: char, b: string)
    requires c !in a
    ensures IndexOf(a + [c] + b, c) == |a|
  {
    var s := a + [c] + b;
    if a != "" {
      assert s[0] == a[0] && a[0] in a;
      assert s[1..] == a[1..] + [c] + b;
      IndexOfIn(a[1..], c, b);
    }
  }

  lemma {:induction false} WithoutHasNone(s: string, c: char)
    ensures c !in Without(s, c)
    ensures |Without(s, c)| <= |s|
    ensures c in s ==> |Without(s, c)| < |s|
    ensures c !in s ==> Without(s, c) == s
  {
    if s != "" {
      WithoutHasNone(s[1..], c);
      assert s == [s[0]] + s[1..];
    }
  }

  lemma SplitQuoted(w: string, core: string)
    requires '"' !in w
    ensures SplitLockPath("\"" + w + "\"" + " " + core) == Ok((w, " " + core))
  {
    var t := "\"" + w + "\"" + " " + core;
    assert t[1..] == w + ['"'] + (" " + core);
    IndexOfIn(w, '"', " " + core);
    assert t[1..1 + |w|] == w && t[2 + |w|..] == " " + core;
  }

  lemma SplitBare(q: string, core: string)
    requires ' ' !in q && q != "" && q[0] != '"'
    ensures SplitLockPath(q + " " + core) == Ok((q, core))
  {
    var t := q + " " + core;
    assert t == q + [' '] + core;
    assert t[0] == q[0];
    IndexOfIn(q, ' ', core);
    assert t[..|q|] == q && t[|q| + 1..] == core;
  }

  lemma QuotesStay(w: string)
    ensures TrimLeft("\"" + w + "\"") == "\"" + w + "\"" != ""
  {}

  // A path that is printed in quotes is read back without the quotes it held.
  lemma QuotedLineReads(p: string, e: Entry)
    requires Clean(e) && NeedsQuotes(p)
    ensures ReadLine(LineOf(p, e)) == Says(Without(p, '"'), e)
  {
    var w, core := Without(p, '"'), Core(e.hash, IntText(e.size), e.at);
    LineTrimmed(p, e);
    WithoutHasNone(p, '"');
    QuotesStay(w);
    SplitQuoted(w, core);
    SpaceSkipped(core);
    TailReads(w, " " + core, e);
  }

  lemma {:induction false} TrimLeftSubset(s: string, c: char)
    requires c !in s
    ensures c !in TrimLeft(s)
  {
    if s != "" && IsSpace(s[0]) {
      assert s == [s[0]] + s[1..];
      TrimLeftSubset(s[1..], c);
    }
  }

  // A path that is printed bare is read back without the whitespace it began
  // with, unless what is left looks like a comment.
  lemma {:induction false} BareLineReads(p: string, e: Entry)
    requires Clean(e) && !NeedsQuotes(p) && TrimLeft(p) != ""
    ensures
      var q := TrimLeft(p);
      ReadLine(LineOf(p, e)) == if q[0] == '#' then Skip else Says(q, e)
  {
    var q, core := TrimLeft(p), Core(e.hash, IntText(e.size), e.at);
    LineTrimmed(p, e);
    TrimLeftSubset(p, ' ');
    TrimLeftSubset(p, '"');
    assert (q + " " + core)[0] == q[0] && q[0] in q;
    if q[0] != '#' {
      SplitBare(q, core);
      TailReads(q, core, e);
    }
  }

  lemma TrimLeftKeeps(p: string)
    ensures TrimLeft(p) == p <==> p == "" || !IsSpace(p[0])
  {
    TrimLeftIs(p);
  }

  lemma PrintableLineReads(p: string, e: Entry)
    requires Clean(e) && Printable(p)
    ensures ReadLine(LineOf(p, e)) == Says(p, e)
  {
    WithoutHasNone(p, '"');
    if NeedsQuotes(p) {
      QuotedLineReads(p, e);
    } else {
      TrimLeftKeeps(p);
      BareLineReads(p, e);
    }
  }

  lemma SaysItsPath(t: string, p: string, e: Entry) returns (tail: string)
    requires ReadTrimmed(t) == Says(p, e)
    ensures t != "" && SplitLockPath(t) == Ok((p, tail))
    ensures Fields(tail) != [] && Fields(tail)[0] == e.hash
  {
    tail := SplitLockPath(t).value.1;
  }

  lemma NoSpaceIn(s: string)
    requires NoSpace(s)
    ensures ' ' !in s
  {
    forall i | 0 <= i < |s|
      ensures s[i] != ' '
    {
      assert !IsSpace(s[i]);
    }
  }

  // The line of a blank path begins with its hash, which is taken for the path.
  lemma HashTakenForPath(p: string, e: Entry, rest: string)
    requires e.hash != "" && NoSpace(e.hash) && e.hash[0] != '"'
    requires ReadTrimmed(e.hash + " " + rest) == Says(p, e)
    ensures TrimLeft(p) != ""
  {
    var tail := SaysItsPath(e.hash + " " + rest, p, e);
    NoSpaceIn(e.hash);
    SplitBare(e.hash, rest);
  }

  lemma QuotedPath(t: string, path: string, tail: string)
    requires t != "" && t[0] == '"' && SplitLockPath(t) == Ok((path, tail))
    ensures |t| > 1 && if path == "" then t[1] == '"' && tail == t[2..] else path[0] == t[1]
  {
    var end := IndexOf(t[1..], '"');
    assert t[1..][end] == t[1 + end];
  }

  // … or the start of it, when the hash begins with a quote.
  lemma QuotedHashTakenForPath(p: string, tail: string, hash: string, size: string, at: string)
    requires hash != "" && NoSpace(hash) && hash[0] == '"' && NoSpace(at)
    requires NoSpace(size) && size != "" && size[0] != '"'
    requires SplitLockPath(Core(hash, size, at)) == Ok((p, tail))
    requires Fields(tail) != [] && Fields(tail)[0] == hash
    ensures TrimLeft(p) != "" || NeedsQuotes(p)
  {
    assert Core(hash, size, at)[0] == hash[0];
    QuotedPath(Core(hash, size, at), p, tail);
    if p != "" {
      CoreSecond(hash, size, at);
      assert p[0] in p;
    } else {
      CoreFrom2(hash, size, at);
      LeftOfHash(hash, hash[2..], size, at);
    }
  }

  lemma CoreSecond(hash: string, size: string, at: string)
    requires hash != "" && NoSpace(hash)
    ensures
      var t := Core(hash, size, at);
      |t| > 1 && t[0] == hash[0] && (t[1] == ' ' || !IsSpace(t[1]))
  {
    var t := Core(hash, size, at);
    assert t[1] == if |hash| > 1 then hash[1] else ' ';
  }

  lemma CoreFrom2(hash: string, size: string, at: string)
    requires hash != "" && hash[0] == '"' && Core(hash, size, at)[1] == '"'
    ensures |hash| >= 2 && Core(hash, size, at)[2..] == Core(hash[2..], size, at)
  {}

  lemma BlankLineReads(p: string, e: Entry)
    requires Clean(e) && TrimLeft(p) == "" && !NeedsQuotes(p)
    ensures ReadLine(LineOf(p, e)) != Says(p, e)
  {
    LineTrimmed(p, e);
    IntTextReads(e.size);
    CoreNotRead(p, e, IntText(e.size));
  }

  lemma CoreNotRead(p: string, e: Entry, size: string)
    requires e.hash != "" && NoSpace(e.hash) && NoSpace(e.at)
    requires NoSpace(size) && size != "" && size[0] != '"'
    requires TrimLeft(p) == "" && !NeedsQuotes(p)
    ensures ReadTrimmed(Core(e.hash, size, e.at)) != Says(p, e)
  {
    if ReadTrimmed(Core(e.hash, size, e.at)) == Says(p, e) {
      if e.hash[0] == '"' {
        var tail := SaysItsPath(Core(e.hash, size, e.at), p, e);
        QuotedHashTakenForPath(p, tail, e.hash, size, e.at);
      } else {
        Assoc(e.hash + " ", size, Suffix(e.at));
        HashTakenForPath(p, e, size + Suffix(e.at));
      }
    }
  }

  lemma LeftOfHash(hash: string, left: string, size: string, at: string)
    requires |hash| >= 2 && hash[0] == '"' && left == hash[2..]
    requires NoSpace(hash) && NoSpace(size) && NoSpace(at) && size != "" && size[0] != '"'
    ensures
      var f := Fields(Core(left, size, at));
      f != [] && f[0] != hash
  {
    if left != "" {
      assert NoSpace(left);
      FieldsOfCore(left, size, at);
    } else {
      assert Core(left, size, at) == " " + (size + Suffix(at));
      SpaceSkipped(size + Suffix(at));
      FieldsOfWord(size, Suffix(at));
    }
  }

  // The line of a document is read back as that document's exactly when its
  // path is printable.
  lemma LineRoundTripsIff(p: string, e: Entry)
    requires Clean(e)
    ensures ReadLine(LineOf(p, e)) == Says(p, e) <==> Printable(p)
  {
    WithoutHasNone(p, '"');
    if Printable(p) {
      PrintableLineReads(p, e);
    } else if NeedsQuotes(p) {
      QuotedLineReads(p, e);
    } else if TrimLeft(p) != "" {
      TrimLeftKeeps(p);
      BareLineReads(p, e);
    } else {
      BlankLineReads(p, e);
    }
  }

  // ── the whole file ──

  lemma {:induction false} UnlinesLines(ls: seq<string>)
    requires forall x | x in ls :: OneLine(x)
    ensures Lines(Unlines(ls)) == ls + [""]
  {
    if ls != [] {
      UnlinesLines(ls[1..]);
      LinesOne(ls[0]);
      LinesJoin(ls[0], Unlines(ls[1..]));
      assert ls == [ls[0]] + ls[1..];
    } else {
      assert Lines("") == [""];
    }
  }

  predicate Storable(p: string, e: Entry) { OneLine(p) && Clean(e) }

  lemma NoSpaceOneLine(s: string)
    requires NoSpace(s)
    ensures OneLine(s)
  {
    forall i | 0 <= i < |s|
      ensures s[i] != '\n'
    {
      assert !IsSpace(s[i]);
    }
  }

  lemma OneLineJoin(a: string, b: string)
    requires OneLine(a) && OneLine(b)
    ensures OneLine(a + b)
  {}

  lemma {:induction false} WithoutOneLine(s: string, c: char)
    requires OneLine(s)
    ensures OneLine(Without(s, c))
  {
    if s != "" {
      WithoutOneLine(s[1..], c);
    }
  }

  lemma StorableLine(p: string, e: Entry)
    requires Storable(p, e)
    ensures OneLine(LineOf(p, e))
  {
    var size := IntText(e.size);
    WithoutOneLine(p, '"');
    OneLineJoin("\"", Without(p, '"'));
    OneLineJoin("\"" + Without(p, '"'), "\"");
    NoSpaceOneLine(e.hash);
    NoSpaceOneLine(e.at);
    IntTextReads(e.size);
    NoSpaceOneLine(size);
    OneLineJoin(e.hash + " ", size);
    OneLineJoin(e.hash + " " + size, " " + e.at);
    OneLineJoin(QuoteLockPath(p) + " ", Body(e.hash, size, e.at));
  }

  ghost predicate AllStorable(l: Lock) { forall p | p in l :: Storable(p, l[p]) }

  ghost predicate AllPrintable(l: Lock) { forall p | p in l :: Printable(p) }

  lemma {:induction false} LinesOfStorable(paths: seq<string>, l: Lock)
    requires (forall p | p in paths :: p in l) && AllStorable(l)
    ensures forall x | x in LinesOf(paths, l) :: OneLine(x)
  {
    if paths != [] {
      StorableLine(paths[0], l[paths[0]]);
      LinesOfStorable(paths[1..], l);
    }
  }

  ghost predicate ReadsBack(read: string -> LineRead, l: Lock) {
    forall p | p in l :: read(LineOf(p, l[p])) == Says(p, l[p])
  }

  function Restrict(l: Lock, paths: seq<string>): Lock
    requires forall p | p in paths :: p in l
  {
    map p | p in paths :: l[p]
  }

  lemma FirstLine(paths: seq<string>, l: Lock)
    requires paths != [] && forall p | p in paths :: p in l
    ensures var ls := LinesOf(paths, l) + [""];
            ls[0] == LineOf(paths[0], l[paths[0]]) && ls[1..] == LinesOf(paths[1..], l) + [""]
  {
    PutInFront(LineOf(paths[0], l[paths[0]]), LinesOf(paths[1..], l), [""]);
  }

  lemma {:induction false} ReadsEntries(read: string -> LineRead, paths: seq<string>, l: Lock, at: nat, acc: Lock)
    requires (forall p | p in paths :: p in l) && ReadsBack(read, l) && read("") == Skip
    ensures ReadLines(read, LinesOf(paths, l) + [""], at, acc) == Ok(acc + Restrict(l, paths))
  {
    var ls := LinesOf(paths, l) + [""];
    if paths == [] {
      assert ls[1..] == [] && acc + map[] == acc;
    } else {
      var p := paths[0];
      FirstLine(paths, l);
      ReadsEntries(read, paths[1..], l, at + 1, acc[p := l[p]]);
      RestrictStep(paths, l, acc);
    }
  }

  lemma RestrictStep(paths: seq<string>, l: Lock, acc: Lock)
    requires paths != [] && forall p | p in paths :: p in l
    ensures acc[paths[0] := l[paths[0]]] + Restrict(l, paths[1..]) == acc + Restrict(l, paths)
  {
    assert paths == [paths[0]] + paths[1..];
  }

  lemma {:induction false} SkipsHeader(
      read: string -> LineRead, header: seq<string>, rest: seq<string>, at: nat, acc: Lock)
    requires forall h | h in header :: read(h) == Skip
    ensures ReadLines(read, header + rest, at, acc) == ReadLines(read, rest, at + |header|, acc)
  {
    if header == [] {
      assert header + rest == rest;
    } else {
      assert (header + rest)[0] == header[0] && (header + rest)[1..] == header[1..] + rest;
      SkipsHeader(read, header[1..], rest, at + 1, acc);
    }
  }

  lemma CommentSkipped(h: string)
    requires Comment(h)
    ensures ReadLine(h) == Skip
  {
    assert TrimLeft(h) == h && TrimRight(h) == h;
  }

  lemma CommentsSkipped(header: seq<string>)
    requires Comments(header)
    ensures forall h | h in header :: ReadLine(h) == Skip
  {
    forall h | h in header
      ensures ReadLine(h) == Skip
    {
      CommentSkipped(h);
    }
  }

  // What was written is what is read, for every lock of printable entries.
  lemma LockRoundTrip(header: seq<string>, l: Lock, file: Option<string>)
    requires Comments(header) && AllStorable(l) && AllPrintable(l) && Written(header, l, file)
    ensures Read(file) == Ok(l)
  {
    if file.Some? {
      var paths :| WrittenInOrder(header, l, file.value, paths);
      CommentsSkipped(header);
      FileLines(header, l, file.value, paths);
      RestrictAll(paths, l);
      PrintableReadsBack(l);
      EntriesRead(ReadLine, l, paths, 1 + |header|);
      FileReads(ReadLine, header, LinesOf(paths, l) + [""], l);
    }
  }

  lemma PrintableReadsBack(l: Lock)
    requires AllStorable(l) && AllPrintable(l)
    ensures ReadsBack(ReadLine, l) && ReadLine("") == Skip
  {
    BlankLine();
    forall p | p in l
      ensures ReadLine(LineOf(p, l[p])) == Says(p, l[p])
    {
      PrintableLineReads(p, l[p]);
    }
  }

  lemma EntriesRead(read: string -> LineRead, l: Lock, paths: seq<string>, at: nat)
    requires (forall p | p in paths :: p in l) && map[] + Restrict(l, paths) == l
    requires ReadsBack(read, l) && read("") == Skip
    ensures ReadLines(read, LinesOf(paths, l) + [""], at, map[]) == Ok(l)
  {
    ReadsEntries(read, paths, l, at, map[]);
  }

  lemma FileReads(read: string -> LineRead, header: seq<string>, body: seq<string>, l: Lock)
    requires forall h | h in header :: read(h) == Skip
    requires ReadLines(read, body, 1 + |header|, map[]) == Ok(l)
    ensures ReadLines(read, header + body, 1, map[]) == Ok(l)
  {
    SkipsHeader(read, header, body, 1, map[]);
  }

  lemma RestrictAll(paths: seq<string>, l: Lock)
    requires SortedKeys(paths, l.Keys)
    ensures (forall p | p in paths :: p in l) && map[] + Restrict(l, paths) == l
  {}

  lemma FileLines(header: seq<string>, l: Lock, text: string, paths: seq<string>)
    requires Comments(header) && AllStorable(l) && WrittenInOrder(header, l, text, paths)
    ensures Lines(text) == header + (LinesOf(paths, l) + [""])
  {
    LinesOfStorable(paths, l);
    UnlinesLines(header + LinesOf(paths, l));
    assert header + LinesOf(paths, l) + [""] == header + (LinesOf(paths, l) + [""]);
  }

  // ── and only then ──

  lemma {:induction false} KeysAreSaid(
      read: string -> LineRead, paths: seq<string>, l: Lock, at: nat, acc: Lock, r: Lock, k: string)
    requires (forall p | p in paths :: p in l) && read("") == Skip
    requires ReadLines(read, LinesOf(paths, l) + [""], at, acc) == Ok(r) && k in r
    ensures (k in acc && r[k] == acc[k]) || exists p | p in paths :: read(LineOf(p, l[p])) == Says(k, r[k])
  {
    var ls := LinesOf(paths, l) + [""];
    if paths == [] {
      BlankFile(read, at, acc);
    } else {
      var p := paths[0];
      FirstLine(paths, l);
      match read(LineOf(p, l[p]))
      case Skip => KeysAreSaid(read, paths[1..], l, at + 1, acc, r, k);
      case Says(path, entry) => KeysAreSaid(read, paths[1..], l, at + 1, acc[path := entry], r, k);
    }
  }

  lemma {:induction false} BlankLine()
    ensures ReadLine("") == Skip
  {
    assert TrimLeft("") == "" && TrimRight("") == "";
  }

  // A path printed bare of which nothing is left when the line is trimmed.
  predicate Blank(p: string) { TrimLeft(p) == "" && !NeedsQuotes(p) }

  lemma {:induction false} BlankIsSpace(p: string, c: char)
    requires TrimLeft(p) == "" && c in p
    ensures IsSpace(c)
  {
    if c != p[0] {
      assert p == [p[0]] + p[1..];
      BlankIsSpace(p[1..], c);
    }
  }

  lemma {:induction false} WithoutKeeps(s: string, c: char, d: char)
    requires d in s && d != c
    ensures d in Without(s, c)
  {
    if s[0] != d {
      assert s == [s[0]] + s[1..];
      WithoutKeeps(s[1..], c, d);
    }
  }

  lemma {:induction false} BeforeFirst(s: string, c: char)
    ensures c !in s[..IndexOf(s, c)]
  {
    if s != "" && s[0] != c {
      BeforeFirst(s[1..], c);
      assert s[..IndexOf(s, c)] == [s[0]] + s[1..][..IndexOf(s[1..], c)];
    }
  }

  // The line of a blank path says its hash for the path, or what stands between
  // the quotes its hash begins with.
  predicate FromHash(k: string, hash: string) {
    || (k == hash != "" && hash[0] != '"' && !IsSpace(hash[0]))
    || ('"' !in k && (k == "" || k[0] == ' ' || !IsSpace(k[0])))
  }

  lemma BetweenQuotes(t: string, k: string, tail: string)
    requires |t| > 1 && t[0] == '"' && (t[1] == ' ' || !IsSpace(t[1])) && SplitLockPath(t) == Ok((k, tail))
    ensures '"' !in k && (k == "" || k[0] == ' ' || !IsSpace(k[0]))
  {
    QuotedPath(t, k, tail);
    BeforeFirst(t[1..], '"');
    assert k == t[1..][..IndexOf(t[1..], '"')];
  }

  lemma BlankLineSays(p: string, e: Entry, k: string, said: Entry)
    requires Clean(e) && Blank(p) && ReadLine(LineOf(p, e)) == Says(k, said)
    ensures FromHash(k, e.hash)
  {
    LineTrimmed(p, e);
    CoreSays(e.hash, IntText(e.size), e.at, k, said);
  }

  lemma CoreSays(hash: string, size: string, at: string, k: string, said: Entry)
    requires hash != "" && NoSpace(hash) && ReadTrimmed(Core(hash, size, at)) == Says(k, said)
    ensures FromHash(k, hash)
  {
    var t := Core(hash, size, at);
    var tail := SaysItsPath(t, k, said);
    CoreSecond(hash, size, at);
    if t[0] == '"' {
      BetweenQuotes(t, k, tail);
    } else {
      Assoc(hash + " ", size, Suffix(at));
      NoSpaceIn(hash);
      SplitBare(hash, size + Suffix(at));
    }
  }

  // What the line of a path can say.
  predicate Outcome(p: string, e: Entry, r: LineRead) {
    r.Says? ==>
      && (NeedsQuotes(p) ==> r.path == Without(p, '"'))
      && (!NeedsQuotes(p) && TrimLeft(p) != "" ==> r.path == TrimLeft(p) && r.path[0] != '#')
      && (Blank(p) ==> FromHash(r.path, e.hash) && r != Says(p, e))
  }

  lemma LineOutcome(p: string, e: Entry)
    requires Clean(e)
    ensures Outcome(p, e, ReadLine(LineOf(p, e)))
  {
    if NeedsQuotes(p) {
      QuotedLineReads(p, e);
    } else if TrimLeft(p) != "" {
      BareLineReads(p, e);
    } else {
      BlankLineReads(p, e);
      var r := ReadLine(LineOf(p, e));
      if r.Says? { BlankLineSays(p, e, r.path, r.entry); }
    }
  }

  // What each line of a lock reads as, and that the lock is what they say.
  ghost predicate ReadBack(l: Lock, lines: map<string, LineRead>) {
    && lines.Keys == l.Keys
    && (forall p | p in l :: Outcome(p, l[p], lines[p]))
    && (forall k {:trigger Said(l, lines, k)} | k in l :: Said(l, lines, k))
  }

  ghost predicate Said(l: Lock, lines: map<string, LineRead>, k: string)
    requires k in l
  {
    exists p :: SaidBy(l, lines, k, p)
  }

  predicate SaidBy(l: Lock, lines: map<string, LineRead>, k: string, p: string)
    requires k in l
  {
    p in l && p in lines && lines[p] == Says(k, l[k])
  }

  // A path that holds a quote can only be taken from the hash of a blank one.
  lemma QuoteIsFromHash(l: Lock, lines: map<string, LineRead>, k: string)
    requires ReadBack(l, lines) && k in l && '"' in k
    ensures k != "" && k[0] != '"' && !IsSpace(k[0])
    ensures exists p :: p in l && Blank(p)
  {
    assert Said(l, lines, k);
    var p :| SaidBy(l, lines, k, p);
    assert Outcome(p, l[p], lines[p]);
    WithoutHasNone(p, '"');
    if '"' !in p { TrimLeftSubset(p, '"'); }
  }

  // What is left of a path without its quotes is not blank.
  lemma NotFromQuotes(l: Lock, lines: map<string, LineRead>, p: string)
    requires ReadBack(l, lines) && p in l && NeedsQuotes(p)
    ensures !Blank(Without(p, '"'))
  {
    var k := Without(p, '"');
    if '"' in p {
      QuoteIsFromHash(l, lines, p);
      WithoutKeeps(p, '"', p[0]);
      if TrimLeft(k) == "" { BlankIsSpace(k, p[0]); }
    } else {
      WithoutHasNone(p, '"');
    }
  }

  // Only the empty path can be blank, and only a blank one says it.
  lemma BlankIsEmpty(l: Lock, lines: map<string, LineRead>, k: string) returns (p: string)
    requires ReadBack(l, lines) && k in l && Blank(k)
    ensures k == "" && SaidBy(l, lines, k, p) && Blank(p)
  {
    assert Said(l, lines, k);
    p :| SaidBy(l, lines, k, p);
    assert Outcome(p, l[p], lines[p]);
    if NeedsQuotes(p) { NotFromQuotes(l, lines, p); }
    TrimLeftIs(p);
    TrimLeftKeeps(k);
    if k != "" { BlankIsSpace(k, k[0]); }
  }

  lemma NoneBlank(l: Lock, lines: map<string, LineRead>, k: string)
    requires ReadBack(l, lines) && k in l
    ensures !Blank(k)
  {
    assert Outcome(k, l[k], lines[k]);
    if Blank(k) {
      var p := BlankIsEmpty(l, lines, k);
      var q := BlankIsEmpty(l, lines, p);
    }
  }

  lemma NoQuotes(l: Lock, lines: map<string, LineRead>, k: string)
    requires ReadBack(l, lines) && k in l
    ensures '"' !in k
  {
    if '"' in k {
      QuoteIsFromHash(l, lines, k);
      var p :| p in l && Blank(p);
      NoneBlank(l, lines, p);
      assert false;
    }
  }

  lemma SaidIsPrintable(l: Lock, lines: map<string, LineRead>, k: string)
    requires ReadBack(l, lines) && k in l
    ensures Printable(k)
  {
    assert Said(l, lines, k);
    var p :| SaidBy(l, lines, k, p);
    assert Outcome(p, l[p], lines[p]);
    NoneBlank(l, lines, p);
    NoQuotes(l, lines, p);
    NoQuotes(l, lines, k);
    WithoutHasNone(p, '"');
    TrimLeftIs(p);
  }

  // Reading a written file back to the lock it was written from.
  lemma FileReadBack(read: string -> LineRead, header: seq<string>, l: Lock, paths: seq<string>,
                     lines: map<string, LineRead>)
    requires SortedKeys(paths, l.Keys)
    requires (forall h | h in header :: read(h) == Skip) && read("") == Skip
    requires lines.Keys == l.Keys
    requires forall p | p in l :: lines[p] == read(LineOf(p, l[p])) && Outcome(p, l[p], lines[p])
    requires ReadLines(read, header + (LinesOf(paths, l) + [""]), 1, map[]) == Ok(l)
    ensures ReadBack(l, lines)
  {
    SkipsHeader(read, header, LinesOf(paths, l) + [""], 1, map[]);
    forall k | k in l
      ensures Said(l, lines, k)
    {
      KeysAreSaid(read, paths, l, 1 + |header|, map[], l, k);
      var p :| p in paths && read(LineOf(p, l[p])) == Says(k, l[k]);
      assert SaidBy(l, lines, k, p);
    }
  }

  lemma ReadBackIsPrintable(header: seq<string>, l: Lock, text: string, paths: seq<string>)
    requires Comments(header) && AllStorable(l) && WrittenInOrder(header, l, text, paths)
    requires Read(Some(text)) == Ok(l)
    ensures AllPrintable(l)
  {
    CommentsSkipped(header);
    FileLines(header, l, text, paths);
    BlankLine();
    var lines := map p | p in l :: ReadLine(LineOf(p, l[p]));
    forall p | p in l
      ensures Outcome(p, l[p], lines[p])
    {
      LineOutcome(p, l[p]);
    }
    FileReadBack(ReadLine, header, l, paths, lines);
    forall k | k in l
      ensures Printable(k)
    {
      SaidIsPrintable(l, lines, k);
    }
  }

  // ── no path that is read holds a newline ──

  lemma {:induction false} PiecesAreLines(s: string)
    ensures forall x | x in Lines(s) :: OneLine(x)
  {
    if s != "" {
      PiecesAreLines(s[1..]);
      var ls := Lines(s[1..]);
      assert ls[0] in ls;
      if s[0] != '\n' { OneLineJoin([s[0]], ls[0]); }
    }
  }

  lemma {:induction false} TrimRightSubset(s: string, c: char)
    requires c !in s
    ensures c !in TrimRight(s)
    decreases |s|
  {
    if s != "" && IsSpace(s[|s| - 1]) {
      TrimRightSubset(s[..|s| - 1], c);
    }
  }

  // A path is a piece of the line that says it.
  lemma PathIsAPiece(line: string, c: char)
    requires c !in line
    ensures var r := ReadLine(line); r.Says? ==> c !in r.path
  {
    TrimLeftSubset(line, c);
    TrimRightSubset(TrimLeft(line), c);
    if TrimSpace(line) != "" { SplitIsAPiece(TrimSpace(line), c); }
  }

  lemma SplitIsAPiece(t: string, c: char)
    requires c !in t && t != ""
    ensures var r := SplitLockPath(t); r.Ok? ==> c !in r.value.0
  {}

  lemma {:induction false} KeysArePieces(lines: seq<string>, at: nat, acc: Lock, r: Lock, c: char)
    requires (forall x | x in lines :: c !in x) && (forall k | k in acc :: c !in k)
    requires ReadLines(ReadLine, lines, at, acc) == Ok(r)
    ensures forall k | k in r :: c !in k
  {
    if lines != [] {
      PathIsAPiece(lines[0], c);
      match ReadLine(lines[0])
      case Skip => KeysArePieces(lines[1..], at + 1, acc, r, c);
      case Says(path, entry) => KeysArePieces(lines[1..], at + 1, acc[path := entry], r, c);
    }
  }

  lemma ReadPathsAreLines(text: string, l: Lock)
    requires Read(Some(text)) == Ok(l)
    ensures AllOneLine(l)
  {
    PiecesAreLines(text);
    KeysArePieces(Lines(text), 1, map[], l, '\n');
  }

  ghost predicate AllClean(l: Lock) { forall p | p in l :: Clean(l[p]) }

  ghost predicate AllOneLine(l: Lock) { forall p | p in l :: OneLine(p) }

  // A lock is read back exactly when every path in it is printable and holds no
  // newline: not empty, free of quotes, and, when it is printed bare, starting
  // with neither whitespace nor a comment sign.
  lemma LockRoundTripsIff(header: seq<string>, l: Lock, file: Option<string>)
    requires Comments(header) && AllClean(l) && Written(header, l, file)
    ensures Read(file) == Ok(l) <==> AllPrintable(l) && AllOneLine(l)
  {
    if AllPrintable(l) && AllOneLine(l) {
      LockRoundTrip(header, l, file);
    }
    if file.Some? && Read(file) == Ok(l) {
      ReadPathsAreLines(file.value, l);
      var paths :| WrittenInOrder(header, l, file.value, paths);
      ReadBackIsPrintable(header, l, file.value, paths);
    }
  }

  lemma BlankFile(read: string -> LineRead, at: nat, l: Lock)
    requires read("") == Skip
    ensures ReadLines(read, [""], at, l) == Ok(l)
  {
    assert [""][1..] == [];
  }

  // ── the loops ──

  method ReadLock(file: Option<string>) returns (r: Result<Lock, Error>)
    ensures r == Read(file)
  {
    var l: Lock := map[];
    if file.None? {
      return Ok(l);
    }
    var lines := Lines(file.value);
    for i := 0 to |lines|
      invariant ReadLines(ReadLine, lines[i..], i + 1, l) == Read(file)
    {
      HeadTail(lines[i..]);
      var line := TrimSpace(lines[i]);
      if line == "" || "#" <= line {
        continue;
      }
      var split := SplitLockPath(line);
      if split.Err? {
        return Err(At(i + 1, split.error));
      }
      var f := Fields(split.value.1);
      if |f| < 2 {
        return Err(At(i + 1, TooFewFields));
      }
      var size := ParseInt(f[1]);
      if size.None? {
        return Err(At(i + 1, BadSize));
      }
      var e := Entry(f[0], size.value, "");
      if |f| > 2 {
        e := e.(at := f[2]);
      }
      l := l[split.value.0 := e];
    }
    r := Ok(l);
  }

  lemma {:induction false} UnlinesJoin(xs: seq<string>, ys: seq<string>)
    ensures Unlines(xs + ys) == Unlines(xs) + Unlines(ys)
  {
    if xs == [] {
      assert xs + ys == ys;
    } else {
      assert (xs + ys)[1..] == xs[1..] + ys;
      UnlinesJoin(xs[1..], ys);
    }
  }

  lemma AppendLine(b: string, paths: seq<string>, l: Lock, i: nat)
    requires i < |paths| && forall p | p in paths :: p in l
    ensures b + Unlines(LinesOf(paths[i..], l)) ==
            b + LineOf(paths[i], l[paths[i]]) + "\n" + Unlines(LinesOf(paths[i + 1..], l))
  {
    HeadTail(paths[i..]);
    var x, rest := LineOf(paths[i], l[paths[i]]), LinesOf(paths[i + 1..], l);
    assert paths[i..][1..] == paths[i + 1..];
    assert ([x] + rest)[1..] == rest;
  }

  method WriteLock(header: seq<string>, l: Lock) returns (file: Option<string>)
    ensures Written(header, l, file)
  {
    var b := Unlines(header);
    var paths := Keys(l.Keys);
    UnlinesJoin(header, LinesOf(paths, l));
    assert paths[0..] == paths;
    for i := 0 to |paths|
      invariant forall p | p in paths :: p in l
      invariant b + Unlines(LinesOf(paths[i..], l)) == Unlines(header + LinesOf(paths, l))
    {
      AppendLine(b, paths, l, i);
      b := b + LineOf(paths[i], l[paths[i]]) + "\n";
    }
    if l == map[] {
      return None;
    }
    file := Some(b);
    assert b + "" == b;
    assert WrittenInOrder(header, l, b, paths);
  }
}
