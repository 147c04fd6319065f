// The text projection of the log: one encoded assertion per line, appended to
// when the file already says what the store's first assertions say, rewritten
// whole otherwise.
module Export {
  import opened Strings
  import opened Options
  import opened Log
  import opened Sorting
  import opened Fold

  // The JSON encoder and decoder, and the two header lines a fresh file opens with.
  datatype Format = Format(
    encode: Assertion -> string, decode: string -> Option<Assertion>, first: string, second: string)

  predicate HeaderLine(line: string) { "//" <= line && OneLine(line) && !IsSpace(line[|line| - 1]) }

  // A line the reader passes over: blank, or a header.
  predicate Skipped(line: string) { TrimSpace(line) == "" || "//" <= TrimSpace(line) }

  // Decoding gives back what was encoded; an encoding is one line, already
  // trimmed, and neither blank nor a header.
  ghost predicate Faithful(f: Format) {
    && HeaderLine(f.first) && HeaderLine(f.second)
    && forall a ::
         && f.decode(f.encode(a)) == Some(a)
         && OneLine(f.encode(a)) && TrimSpace(f.encode(a)) == f.encode(a) && !Skipped(f.encode(a))
  }

  // ── what a file says ──

  datatype Reading = Nothing | Says(a: Assertion) | Unreadable

  function Reader(f: Format): string -> Reading {
    (line: string) =>
      if Skipped(line) then Nothing
      else match f.decode(TrimSpace(line)) case None => Unreadable case Some(a) => Says(a)
  }

  function DecodeLines(read: string -> Reading, lines: seq<string>): Option<seq<Assertion>> {
    if lines == [] then Some([])
    else
      match read(lines[0])
      case Nothing => DecodeLines(read, lines[1..])
      case Unreadable => None
      case Says(a) => Both(Some([a]), DecodeLines(read, lines[1..]))
  }

  function Both(a: Option<seq<Assertion>>, b: Option<seq<Assertion>>): Option<seq<Assertion>> {
    if a.Some? && b.Some? then Some(a.value + b.value) else None
  }

  function Decode(read: string -> Reading, text: string): Option<seq<Assertion>> {
    DecodeLines(read, Lines(text))
  }

  lemma BothLaws(a: Option<seq<Assertion>>, b: Option<seq<Assertion>>, c: Option<seq<Assertion>>)
    ensures Both(Both(a, b), c) == Both(a, Both(b, c))
    ensures Both(Some([]), a) == a && Both(a, Some([])) == a
  {
    if a.Some? {
      assert [] + a.value == a.value && a.value + [] == a.value;
      if b.Some? && c.Some? {
        assert (a.value + b.value) + c.value == a.value + (b.value + c.value);
      }
    }
  }

  lemma {:induction false} DecodeJoin(read: string -> Reading, xs: seq<string>, ys: seq<string>)
    ensures DecodeLines(read, xs + ys) == Both(DecodeLines(read, xs), DecodeLines(read, ys))
  {
    if xs == [] {
      assert xs + ys == ys;
      BothLaws(DecodeLines(read, ys), None, None);
    } else {
      DecodeJoin(read, xs[1..], ys);
      assert (xs + ys)[0] == xs[0] && (xs + ys)[1..] == xs[1..] + ys;
      if read(xs[0]).Says? {
        BothLaws(Some([read(xs[0]).a]), DecodeLines(read, xs[1..]), DecodeLines(read, ys));
      }
    }
  }

  lemma DecodeOneLine(read: string -> Reading, line: string)
    requires OneLine(line)
    ensures Decode(read, line) ==
            match read(line) case Nothing => Some([]) case Unreadable => None case Says(a) => Some([a])
  {
    LinesOne(line);
    assert [line][0] == line && [line][1..] == [];
    assert DecodeLines(read, []) == Some([]);
    if read(line).Says? {
      BothLaws(Some([read(line).a]), None, None);
      assert DecodeLines(read, [line]) == Both(Some([read(line).a]), Some([]));
    }
  }

  // A text after a newline is read on its own.
  lemma DecodeAfterNewline(read: string -> Reading, s: string, t: string)
    ensures Decode(read, s + "\n" + t) == Both(Decode(read, s), Decode(read, t))
  {
    LinesJoin(s, t);
    DecodeJoin(read, Lines(s), Lines(t));
  }

  function EncodeAll(f: Format, log: seq<Assertion>): string {
    if log == [] then "" else f.encode(log[0]) + "\n" + EncodeAll(f, log[1..])
  }

  // What the format promises about reading lines back.
  ghost predicate Reads(read: string -> Reading, f: Format) {
    && OneLine(f.first) && OneLine(f.second)
    && read("") == Nothing && read(f.first) == Nothing && read(f.second) == Nothing
    && forall a :: OneLine(f.encode(a)) && read(f.encode(a)) == Says(a)
  }

  lemma HeaderLineReads(f: Format, line: string)
    requires HeaderLine(line)
    ensures Reader(f)(line) == Nothing
  {
    assert line[0] == "//"[0] && !IsSpace(line[0]);
    assert TrimLeft(line) == line && TrimRight(line) == line;
    assert Skipped(line);
  }

  lemma {:induction false} BlankSkipped()
    ensures Skipped("")
  {
    assert TrimLeft("") == "" && TrimRight("") == "";
  }

  lemma {:induction false} BlankReads(f: Format)
    ensures Reader(f)("") == Nothing
  {
    BlankSkipped();
  }

  lemma ReaderReads(f: Format)
    requires Faithful(f)
    ensures Reads(Reader(f), f)
  {
    HeaderLineReads(f, f.first);
    HeaderLineReads(f, f.second);
    BlankReads(f);
    forall a
      ensures OneLine(f.encode(a)) && Reader(f)(f.encode(a)) == Says(a)
    {
      assert f.decode(f.encode(a)) == Some(a);
    }
  }

  lemma {:induction false} DecodeEncodeAll(read: string -> Reading, f: Format, log: seq<Assertion>)
    requires Reads(read, f)
    ensures Decode(read, EncodeAll(f, log)) == Some(log)
  {
    if log == [] {
      DecodeOneLine(read, "");
    } else {
      var line := f.encode(log[0]);
      assert OneLine(line) && read(line) == Says(log[0]);
      DecodeEncodeAll(read, f, log[1..]);
      DecodeAfterNewline(read, line, EncodeAll(f, log[1..]));
      DecodeOneLine(read, line);
      HeadTail(log);
    }
  }

  // ── the export ──

  function Header(f: Format): string { f.first + "\n" + f.second + "\n" }

  lemma HeaderSaysNothing(read: string -> Reading, f: Format, rest: string)
    requires Reads(read, f)
    ensures Decode(read, Header(f) + rest) == Decode(read, rest)
  {
    DecodeOneLine(read, f.first);
    DecodeOneLine(read, f.second);
    DecodeAfterNewline(read, f.second, rest);
    DecodeAfterNewline(read, f.first, f.second + "\n" + rest);
    assert Header(f) + rest == f.first + "\n" + (f.second + "\n" + rest);
    BothLaws(Decode(read, rest), None, None);
  }

  // How many of the log's first assertions the file already holds, or None when
  // it is not a clean prefix of the log.
  function Kept(read: string -> Reading, file: Option<string>, log: seq<Assertion>): (n: Option<nat>)
    ensures n.Some? ==> file.Some? && file.value != "" && n.value <= |log|
  {
    if file.None? || file.value == "" then None
    else
      match Decode(read, file.value)
      case None => None
      case Some(said) => if said <= log then Some(|said|) else None
  }

  function Terminated(s: string): string
    requires s != ""
  {
    if s[|s| - 1] != '\n' then s + "\n" else s
  }

  function ExportText(read: string -> Reading, f: Format, file: Option<string>, log: seq<Assertion>): string {
    match Kept(read, file, log)
    case None => Header(f) + EncodeAll(f, log)
    case Some(n) => if n == |log| then file.value else Terminated(file.value) + EncodeAll(f, log[n..])
  }

  lemma DecodeTerminated(read: string -> Reading, s: string, t: string)
    requires s != "" && read("") == Nothing
    ensures Decode(read, Terminated(s) + t) == Both(Decode(read, s), Decode(read, t))
  {
    if s[|s| - 1] == '\n' {
      var init := s[..|s| - 1];
      assert s == init + "\n" && s + t == init + "\n" + t;
      DecodeAfterNewline(read, init, t);
      DecodeAfterNewline(read, init, "");
      assert init + "\n" + "" == s;
      DecodeOneLine(read, "");
      BothLaws(Decode(read, init), None, None);
    } else {
      DecodeAfterNewline(read, s, t);
    }
  }

  // What is exported decodes to exactly the log, whatever was in the file before.
  lemma ExportSaysTheLog(read: string -> Reading, f: Format, file: Option<string>, log: seq<Assertion>)
    requires Reads(read, f)
    ensures Decode(read, ExportText(read, f, file, log)) == Some(log)
    ensures ExportText(read, f, file, log) != ""
  {
    match Kept(read, file, log)
    case None =>
      HeaderSaysNothing(read, f, EncodeAll(f, log));
      DecodeEncodeAll(read, f, log);
    case Some(n) =>
      var said := Decode(read, file.value).value;
      assert said + log[n..] == log;
      if n < |log| {
        ExtendedSays(read, f, file.value, said, log[n..]);
      } else {
        assert said == log;
      }
  }

  // What a file says, with more appended.
  lemma ExtendedSays(read: string -> Reading, f: Format, text: string, said: seq<Assertion>, more: seq<Assertion>)
    requires Reads(read, f) && text != "" && Decode(read, text) == Some(said)
    ensures Decode(read, Terminated(text) + EncodeAll(f, more)) == Some(said + more)
  {
    DecodeTerminated(read, text, EncodeAll(f, more));
    DecodeEncodeAll(read, f, more);
  }

  // With nothing appended, exporting again leaves the bytes alone.
  lemma ExportAgainChangesNothing(read: string -> Reading, f: Format, file: Option<string>, log: seq<Assertion>)
    requires Reads(read, f)
    ensures ExportText(read, f, Some(ExportText(read, f, file, log)), log) == ExportText(read, f, file, log)
  {
    ExportSaysTheLog(read, f, file, log);
  }

  // The bytes of one export open the next exactly when the first log opens the
  // second; otherwise the file is rewritten under a fresh header.
  lemma NextExport(read: string -> Reading, f: Format, before: string, log: seq<Assertion>, next: seq<Assertion>)
    requires before != "" && Decode(read, before) == Some(log)
    ensures log <= next ==> before <= ExportText(read, f, Some(before), next)
    ensures !(log <= next) ==> ExportText(read, f, Some(before), next) == Header(f) + EncodeAll(f, next)
  {}

  // ── when the bytes are only extended ──

  // What is nowhere earlier is replayed after.
  lemma {:induction false} ReplayAfter(log: seq<Assertion>, more: seq<Assertion>)
    requires forall a, b | a in more && b in log :: !StrLess(a.at, b.at)
    ensures ReplayOrder(log + more) == ReplayOrder(log) + ReplayOrder(more)
  {
    if log == [] {
      assert log + more == more;
    } else {
      ReplayAfter(log[1..], more);
      HeadOfBoth(log, more);
      NoneEarlier(log[0], more);
      InsertAhead(Earlier, log[0], ReplayOrder(log[1..]), ReplayOrder(more));
    }
  }

  lemma HeadOfBoth(log: seq<Assertion>, more: seq<Assertion>)
    requires log != []
    ensures log + more != [] && (log + more)[0] == log[0] && (log + more)[1..] == log[1..] + more
  {}

  lemma NoneEarlier(x: Assertion, more: seq<Assertion>)
    requires forall a | a in more :: !StrLess(a.at, x.at)
    ensures forall y | y in ReplayOrder(more) :: !Earlier(y, x)
  {
    SameElements(more, ReplayOrder(more));
  }

  lemma BehindTheOld(log: seq<Assertion>, more: seq<Assertion>, a: Assertion, b: Assertion)
    requires ReplayOrder(log) <= ReplayOrder(log + more) && a in more && b in log
    ensures !StrLess(a.at, b.at)
  {
    var before, after := ReplayOrder(log), ReplayOrder(log + more);
    SameElements(log, before);
    NewOnesBehind(before, after, log, more);
    TimestampsOrder(log + more);
    SortOrdered(Earlier, log + more);
    var i :| 0 <= i < |before| && before[i] == b;
    var j :| |before| <= j < |after| && after[j] == a;
    assert after[i] == b && !Earlier(after[j], after[i]);
  }

  lemma NewOnesBehind(before: seq<Assertion>, after: seq<Assertion>, log: seq<Assertion>, more: seq<Assertion>)
    requires multiset(before) == multiset(log) && multiset(after) == multiset(log + more) && before <= after
    ensures forall a | a in more :: exists j :: |before| <= j < |after| && after[j] == a
  {
    var rest := after[|before|..];
    assert after == before + rest;
    assert multiset(after) == multiset(before) + multiset(rest);
    assert multiset(log + more) == multiset(log) + multiset(more);
    SameByRemoval(multiset(log), multiset(rest), multiset(more));
    SameElements(more, rest);
    forall a | a in more
      ensures exists j :: |before| <= j < |after| && after[j] == a
    {
      var j :| 0 <= j < |rest| && rest[j] == a;
      assert after[|before| + j] == a;
    }
  }

  lemma SameByRemoval<T>(x: multiset<T>, y: multiset<T>, z: multiset<T>)
    requires x + y == x + z
    ensures y == z
  {
    assert y == (x + y) - x && z == (x + z) - x;
  }

  // More assertions extend what `All` reads exactly when none of them is stamped
  // earlier than something there.
  lemma ExtendsReplayOrderIff(log: seq<Assertion>, more: seq<Assertion>)
    ensures ReplayOrder(log) <= ReplayOrder(log + more) <==> forall a, b | a in more && b in log :: !StrLess(a.at, b.at)
  {
    if forall a, b | a in more && b in log :: !StrLess(a.at, b.at) {
      ReplayAfter(log, more);
    }
    if ReplayOrder(log) <= ReplayOrder(log + more) {
      forall a, b | a in more && b in log
        ensures !StrLess(a.at, b.at)
      {
        BehindTheOld(log, more, a, b);
      }
    }
  }

  lemma AppendExtendsReplayOrder(log: seq<Assertion>, a: Assertion)
    ensures ReplayOrder(log) <= ReplayOrder(log + [a]) <==> forall b | b in log :: !StrLess(a.at, b.at)
  {
    ExtendsReplayOrderIff(log, [a]);
    assert a in [a];
  }

  predicate EndsLine(text: string) { text != "" && text[|text| - 1] == '\n' }

  // An export extends the bytes of a file that says an earlier log exactly when
  // nothing since is stamped earlier than something that log holds.
  lemma ExportExtendsIff(read: string -> Reading, f: Format, before: string, log: seq<Assertion>, more: seq<Assertion>)
    requires Reads(read, f) && EndsLine(before) && Decode(read, before) == Some(ReplayOrder(log))
    ensures before <= ExportText(read, f, Some(before), ReplayOrder(log + more)) <==>
            forall a, b | a in more && b in log :: !StrLess(a.at, b.at)
  {
    var text := ExportText(read, f, Some(before), ReplayOrder(log + more));
    ExtendsReplayOrderIff(log, more);
    if ReplayOrder(log) <= ReplayOrder(log + more) {
      NextExport(read, f, before, ReplayOrder(log), ReplayOrder(log + more));
    }
    if before <= text {
      ExportSaysTheLog(read, f, Some(before), ReplayOrder(log + more));
      SaysAtLeast(read, before, text);
    }
  }

  // A text that opens with whole lines says what they say first.
  lemma SaysAtLeast(read: string -> Reading, before: string, text: string)
    requires EndsLine(before) && before <= text && read("") == Nothing
    requires Decode(read, before).Some? && Decode(read, text).Some?
    ensures Decode(read, before).value <= Decode(read, text).value
  {
    var rest := text[|before|..];
    assert text == Terminated(before) + rest;
    DecodeTerminated(read, before, rest);
  }

  // ── over whole runs ──

  datatype Act = Put(a: Assertion) | Emit

  // `exported` is how much of the log the last export said.
  datatype World = World(log: seq<Assertion>, file: Option<string>, exported: nat)

  function Do(read: string -> Reading, f: Format, w: World, act: Act): World {
    match act
    case Put(a) => w.(log := w.log + [a])
    case Emit => w.(file := Some(ExportText(read, f, w.file, ReplayOrder(w.log))), exported := |w.log|)
  }

  function Run(read: string -> Reading, f: Format, w: World, acts: seq<Act>): World
    decreases |acts|
  {
    if acts == [] then w else Do(read, f, Run(read, f, w, acts[..|acts| - 1]), acts[|acts| - 1])
  }

  // The file is an export of an earlier state of the same log.
  ghost predicate Lagging(read: string -> Reading, w: World) {
    && w.exported <= |w.log| && w.file.Some? && w.file.value != ""
    && Decode(read, w.file.value) == Some(ReplayOrder(w.log[..w.exported]))
  }

  // Nothing put since the last export is stamped earlier than something it said.
  ghost predicate ClockKept(w: World) {
    w.exported <= |w.log| && forall a, b | a in w.log[w.exported..] && b in w.log[..w.exported] :: !StrLess(a.at, b.at)
  }

  // Every export of the run is of a state whose clock was kept.
  ghost predicate ClockKeptAtExports(read: string -> Reading, f: Format, w: World, acts: seq<Act>) {
    forall i | 0 <= i < |acts| && acts[i].Emit? :: ClockKept(Run(read, f, w, acts[..i]))
  }

  // Every act of the run leaves the bytes of the file or extends them.
  ghost predicate OnlyExtends(read: string -> Reading, f: Format, w: World, acts: seq<Act>) {
    forall i | 0 <= i < |acts| :: ExtendsAt(read, f, w, acts, i)
  }

  ghost predicate ExtendsAt(read: string -> Reading, f: Format, w: World, acts: seq<Act>, i: nat)
    requires i < |acts|
  {
    var was, now := Run(read, f, w, acts[..i]).file, Run(read, f, w, acts[..i + 1]).file;
    was.Some? && now.Some? && was.value <= now.value
  }

  lemma {:induction false} EncodingsEndLine(f: Format, log: seq<Assertion>)
    requires log != []
    ensures EndsLine(EncodeAll(f, log))
    decreases |log|
  {
    if |log| > 1 {
      EncodingsEndLine(f, log[1..]);
    } else {
      assert EncodeAll(f, log[1..]) == "";
    }
  }

  lemma ExportEndsLine(read: string -> Reading, f: Format, file: Option<string>, log: seq<Assertion>)
    requires file.Some? && file.value != "" ==> EndsLine(file.value)
    ensures EndsLine(ExportText(read, f, file, log))
  {
    match Kept(read, file, log)
    case None =>
      if log != [] { EncodingsEndLine(f, log); }
    case Some(n) =>
      if n < |log| { EncodingsEndLine(f, log[n..]); }
  }

  lemma PutKeepsLagging(read: string -> Reading, w: World, a: Assertion)
    requires Lagging(read, w)
    ensures Lagging(read, w.(log := w.log + [a]))
  {
    assert (w.log + [a])[..w.exported] == w.log[..w.exported];
  }

  lemma ActKeepsLagging(read: string -> Reading, f: Format, w: World, act: Act)
    requires Reads(read, f) && Lagging(read, w)
    ensures Lagging(read, Do(read, f, w, act))
    ensures EndsLine(w.file.value) ==> EndsLine(Do(read, f, w, act).file.value)
  {
    match act
    case Put(a) => PutKeepsLagging(read, w, a);
    case Emit =>
      EmitIsFaithful(read, f, w);
      if EndsLine(w.file.value) { ExportEndsLine(read, f, w.file, ReplayOrder(w.log)); }
  }

  lemma {:induction false} RunKeepsLagging(read: string -> Reading, f: Format, w: World, acts: seq<Act>)
    requires Reads(read, f) && Lagging(read, w)
    ensures Lagging(read, Run(read, f, w, acts))
    ensures EndsLine(w.file.value) ==> EndsLine(Run(read, f, w, acts).file.value)
    decreases |acts|
  {
    if acts != [] {
      RunKeepsLagging(read, f, w, acts[..|acts| - 1]);
      ActKeepsLagging(read, f, Run(read, f, w, acts[..|acts| - 1]), acts[|acts| - 1]);
    }
  }

  lemma ExtendsIffAt(read: string -> Reading, f: Format, before: string, log: seq<Assertion>, n: nat)
    requires Reads(read, f) && n <= |log| && EndsLine(before) && Decode(read, before) == Some(ReplayOrder(log[..n]))
    ensures before <= ExportText(read, f, Some(before), ReplayOrder(log)) <==>
            forall a, b | a in log[n..] && b in log[..n] :: !StrLess(a.at, b.at)
  {
    assert log == log[..n] + log[n..];
    ExportExtendsIff(read, f, before, log[..n], log[n..]);
  }

  lemma ExtendsAfter(read: string -> Reading, f: Format, before: string, log: seq<Assertion>, n: nat)
    requires Reads(read, f) && n <= |log| && before != "" && Decode(read, before) == Some(ReplayOrder(log[..n]))
    requires forall a, b | a in log[n..] && b in log[..n] :: !StrLess(a.at, b.at)
    ensures before <= ExportText(read, f, Some(before), ReplayOrder(log))
  {
    assert log == log[..n] + log[n..];
    ExtendsBehind(read, f, before, log[..n], log[n..]);
  }

  lemma ExtendsBehind(read: string -> Reading, f: Format, before: string, log: seq<Assertion>, more: seq<Assertion>)
    requires Reads(read, f) && before != "" && Decode(read, before) == Some(ReplayOrder(log))
    requires forall a, b | a in more && b in log :: !StrLess(a.at, b.at)
    ensures before <= ExportText(read, f, Some(before), ReplayOrder(log + more))
  {
    ExtendsReplayOrderIff(log, more);
    NextExport(read, f, before, ReplayOrder(log), ReplayOrder(log + more));
  }

  lemma EmitExtendsIff(read: string -> Reading, f: Format, w: World)
    requires Reads(read, f) && Lagging(read, w)
    ensures ClockKept(w) ==> w.file.value <= Do(read, f, w, Emit).file.value
    ensures EndsLine(w.file.value) && w.file.value <= Do(read, f, w, Emit).file.value ==> ClockKept(w)
  {
    if EndsLine(w.file.value) {
      ExtendsIffAt(read, f, w.file.value, w.log, w.exported);
    } else if ClockKept(w) {
      ExtendsAfter(read, f, w.file.value, w.log, w.exported);
    }
  }

  lemma RunNext(read: string -> Reading, f: Format, w: World, acts: seq<Act>, i: nat)
    requires i < |acts|
    ensures Run(read, f, w, acts[..i + 1]) == Do(read, f, Run(read, f, w, acts[..i]), acts[i])
  {
    assert acts[..i + 1][..i] == acts[..i];
  }

  lemma StepExtends(read: string -> Reading, f: Format, w: World, acts: seq<Act>, i: nat)
    requires Reads(read, f) && Lagging(read, w) && i < |acts|
    ensures (acts[i].Emit? ==> ClockKept(Run(read, f, w, acts[..i]))) ==> ExtendsAt(read, f, w, acts, i)
    ensures EndsLine(w.file.value) && ExtendsAt(read, f, w, acts, i) && acts[i].Emit? ==>
              ClockKept(Run(read, f, w, acts[..i]))
  {
    RunNext(read, f, w, acts, i);
    RunKeepsLagging(read, f, w, acts[..i]);
    EmitExtendsIff(read, f, Run(read, f, w, acts[..i]));
  }

  // A run rewrites no byte of a file of whole lines exactly when at every export
  // the clock was kept: nothing put since the export before is stamped earlier than
  // something that one said.
  lemma RunsOnlyExtendIff(read: string -> Reading, f: Format, w: World, acts: seq<Act>)
    requires Reads(read, f) && Lagging(read, w) && EndsLine(w.file.value)
    ensures OnlyExtends(read, f, w, acts) <==> ClockKeptAtExports(read, f, w, acts)
  {
    forall i: nat | i < |acts|
      ensures ExtendsAt(read, f, w, acts, i) <==> (acts[i].Emit? ==> ClockKept(Run(read, f, w, acts[..i])))
    {
      StepExtends(read, f, w, acts, i);
    }
  }

  lemma {:induction false} ExtendsThroughout(read: string -> Reading, f: Format, w: World, acts: seq<Act>, n: nat)
    requires OnlyExtends(read, f, w, acts) && 0 < n <= |acts|
    ensures w.file.Some? && Run(read, f, w, acts[..n]).file.Some?
    ensures w.file.value <= Run(read, f, w, acts[..n]).file.value
  {
    assert ExtendsAt(read, f, w, acts, n - 1);
    if n > 1 {
      ExtendsThroughout(read, f, w, acts, n - 1);
    } else {
      assert acts[..0] == [];
    }
  }

  // Then the last file extends the first, whole lines or not.
  lemma RunsOnlyExtend(read: string -> Reading, f: Format, w: World, acts: seq<Act>)
    requires Reads(read, f) && Lagging(read, w) && ClockKeptAtExports(read, f, w, acts)
    ensures Lagging(read, Run(read, f, w, acts)) && OnlyExtends(read, f, w, acts)
    ensures w.file.value <= Run(read, f, w, acts).file.value
  {
    RunKeepsLagging(read, f, w, acts);
    forall i: nat | i < |acts|
      ensures ExtendsAt(read, f, w, acts, i)
    {
      StepExtends(read, f, w, acts, i);
    }
    if acts != [] {
      ExtendsThroughout(read, f, w, acts, |acts|);
      assert acts[..|acts|] == acts;
    }
  }

  // An assertion exported, then one stamped earlier: the second export rewrites
  // the bytes of the first.
  lemma RewritingRun(read: string -> Reading, f: Format, a: Assertion, b: Assertion)
    requires Reads(read, f) && StrLess(b.at, a.at)
    ensures var w := World([], None, 0);
            var first := Run(read, f, w, [Put(a), Emit]);
            var second := Run(read, f, first, [Put(b), Emit]);
            && first.file.Some? && second.file.Some?
            && !(first.file.value <= second.file.value)
  {
    var w := World([], None, 0);
    var first := Run(read, f, w, [Put(a), Emit]);
    TwoActs(read, f, w, Put(a), Emit);
    TwoActs(read, f, first, Put(b), Emit);
    assert [] + [a] == [a];
    FirstExport(read, f, a);
    EarlierPutRewrites(read, f, first, a, b);
  }

  lemma FirstExport(read: string -> Reading, f: Format, a: Assertion)
    requires Reads(read, f)
    ensures var w := Do(read, f, World([a], None, 0), Emit); Lagging(read, w) && EndsLine(w.file.value)
  {
    ExportSaysTheLog(read, f, None, ReplayOrder([a]));
    ExportEndsLine(read, f, None, ReplayOrder([a]));
    assert [a][..1] == [a];
  }

  lemma EarlierPutRewrites(read: string -> Reading, f: Format, w: World, a: Assertion, b: Assertion)
    requires Reads(read, f) && Lagging(read, w) && EndsLine(w.file.value) && w.exported == |w.log|
    requires a in w.log && StrLess(b.at, a.at)
    ensures !(w.file.value <= Do(read, f, Do(read, f, w, Put(b)), Emit).file.value)
  {
    var mid := Do(read, f, w, Put(b));
    ActKeepsLagging(read, f, w, Put(b));
    assert mid.log[..mid.exported] == w.log && mid.log[mid.exported..] == [b];
    EmitExtendsIff(read, f, mid);
  }

  lemma TwoActs(read: string -> Reading, f: Format, w: World, x: Act, y: Act)
    ensures Run(read, f, w, [x, y]) == Do(read, f, Do(read, f, w, x), y)
  {
    RunSnoc(read, f, w, [], x);
    RunSnoc(read, f, w, [x], y);
    assert [] + [x] == [x] && [x] + [y] == [x, y];
  }

  // Whatever the run, and whatever was in the file at the start, after an export
  // the file says exactly the log, and exporting again is a no-op.
  lemma EveryExportIsFaithful(read: string -> Reading, f: Format, w: World, acts: seq<Act>)
    requires Reads(read, f)
    ensures var after := Run(read, f, w, acts + [Emit]);
            && after.file.Some? && Decode(read, after.file.value) == Some(ReplayOrder(after.log))
            && Run(read, f, w, acts + [Emit] + [Emit]) == after
            && Lagging(read, after)
  {
    var mid := Run(read, f, w, acts);
    RunSnoc(read, f, w, acts, Emit);
    RunSnoc(read, f, w, acts + [Emit], Emit);
    EmitIsFaithful(read, f, mid);
  }

  lemma RunSnoc(read: string -> Reading, f: Format, w: World, acts: seq<Act>, act: Act)
    ensures Run(read, f, w, acts + [act]) == Do(read, f, Run(read, f, w, acts), act)
  {
    assert (acts + [act])[..|acts|] == acts;
  }

  lemma EmitIsFaithful(read: string -> Reading, f: Format, w: World)
    requires Reads(read, f)
    ensures var after := Do(read, f, w, Emit);
            && Decode(read, after.file.value) == Some(ReplayOrder(after.log))
            && Do(read, f, after, Emit) == after && Lagging(read, after)
  {
    ExportSaysTheLog(read, f, w.file, ReplayOrder(w.log));
    ExportAgainChangesNothing(read, f, w.file, ReplayOrder(w.log));
    assert w.log[..|w.log|] == w.log;
  }

  // ── reading an export back ──

  // ReadAssertionLog: every line must decode to a valid assertion; a missing file
  // is an empty log.
  function ReadLog(read: string -> Reading, file: Option<string>): Option<seq<Assertion>> {
    if file.None? then Some([])
    else
      match Decode(read, file.value)
      case None => None
      case Some(said) => if forall a | a in said :: ValidAssertion(a) then Some(said) else None
  }

  // A store rebuilt from its export replays in the same order and folds to the
  // same facts.
  lemma ExportImportRoundTrip(read: string -> Reading, f: Format, file: Option<string>, log: seq<Assertion>)
    requires Reads(read, f) && forall a | a in log :: ValidAssertion(a)
    ensures var imported := ReadLog(read, Some(ExportText(read, f, file, ReplayOrder(log))));
            && imported == Some(ReplayOrder(log))
            && ReplayOrder(imported.value) == ReplayOrder(log)
            && Folded(imported.value) == Folded(log)
  {
    ExportSaysTheLog(read, f, file, ReplayOrder(log));
    SameElements(log, ReplayOrder(log));
    TimestampsOrder(log);
    SortOrdered(Earlier, log);
    SortKeepsOrdered(Earlier, ReplayOrder(log));
  }

  // ── the projection as it runs ──

  class Projection {
    const format: Format
    const read: string -> Reading
    var file: Option<string>

    ghost predicate Valid() { Faithful(format) && Reads(read, format) }

    constructor (format: Format, file: Option<string>)
      requires Faithful(format)
      ensures Valid() && this.format == format && this.file == file
    {
      this.format, this.read, this.file := format, Reader(format), file;
      ReaderReads(format);
    }

    // Lines are compared by re-encoding what they say next to the store's
    // assertion, so spelling does not matter.
    method KeptPrefix(log: seq<Assertion>) returns (n: Option<nat>)
      requires Valid()
      ensures n == Kept(read, file, log)
    {
      if file.None? || file.value == "" {
        return None;
      }
      var lines := Lines(file.value);
      var count: nat := 0;
      ghost var said := DecodeLines(read, lines);
      assert lines[0..] == lines && log[..0] == [];
      BothLaws(said, None, None);
      for i := 0 to |lines|
        invariant count <= |log|
        invariant said == Both(Some(log[..count]), DecodeLines(read, lines[i..]))
      {
        SaysNext(read, lines, i, log[..count]);
        match read(lines[i]) {
          case Nothing =>
          case Unreadable => return None;
          case Says(a) =>
            ghost var rest := DecodeLines(read, lines[i + 1..]);
            if count >= |log| || format.encode(a) != format.encode(log[count]) {
              Mismatch(log, count, a, said, rest);
              return None;
            }
            SameEncoding(format, a, log[count]);
            TakeOne(log, count);
            count := count + 1;
        }
      }
      assert lines[|lines|..] == [];
      BothLaws(Some(log[..count]), None, None);
      n := Some(count);
    }

    static lemma TakeOne<T>(xs: seq<T>, i: nat)
      requires i < |xs|
      ensures xs[..i + 1] == xs[..i] + [xs[i]]
    {}

    // What line i adds to what the lines before it said.
    static lemma SaysNext(read: string -> Reading, lines: seq<string>, i: nat, said: seq<Assertion>)
      requires i < |lines|
      ensures
        var rest := DecodeLines(read, lines[i + 1..]);
        Both(Some(said), DecodeLines(read, lines[i..])) ==
        match read(lines[i])
        case Nothing => Both(Some(said), rest)
        case Unreadable => None
        case Says(a) => Both(Some(said + [a]), rest)
      ensures
        read(lines[i]).Says? ==>
          Both(Some(said), DecodeLines(read, lines[i..])) ==
          Both(Some(said), Both(Some([read(lines[i]).a]), DecodeLines(read, lines[i + 1..])))
    {
      DropNext(lines, i);
      if read(lines[i]).Says? {
        BothLaws(Some(said), Some([read(lines[i]).a]), DecodeLines(read, lines[i + 1..]));
      }
    }

    static lemma SameEncoding(f: Format, a: Assertion, b: Assertion)
      requires Faithful(f) && f.encode(a) == f.encode(b)
      ensures a == b
    {
      assert f.decode(f.encode(a)) == Some(a) && f.decode(f.encode(b)) == Some(b);
    }

    static lemma Mismatch(log: seq<Assertion>, count: nat, a: Assertion, said: Option<seq<Assertion>>,
                          rest: Option<seq<Assertion>>)
      requires count <= |log| && said == Both(Some(log[..count]), Both(Some([a]), rest))
      requires count == |log| || a != log[count]
      ensures said.Some? ==> !(said.value <= log)
    {
      if said.Some? {
        assert said.value[count] == a;
      }
    }

    static lemma DropNext<T>(xs: seq<T>, i: nat)
      requires i < |xs|
      ensures xs[i..] != [] && xs[i..][0] == xs[i] && xs[i..][1..] == xs[i + 1..]
    {}

    method Export(log: seq<Assertion>) returns (count: nat)
      requires Valid()
      modifies this`file
      ensures file == Some(ExportText(read, format, old(file), log)) && count == |log|
    {
      var kept := KeptPrefix(log);
      count := |log|;
      if kept.Some? && kept.value == |log| {
        return;
      }
      var text, n := Header(format), 0;
      if kept.Some? {
        text, n := Terminated(file.value), kept.value;
      }
      assert log[0..] == log;
      text := EncodeFrom(text, log, n);
      file := Some(text);
    }

    method EncodeFrom(start: string, log: seq<Assertion>, n: nat) returns (text: string)
      requires n <= |log|
      ensures text == start + EncodeAll(format, log[n..])
    {
      text := start;
      for i := n to |log|
        invariant text + EncodeAll(format, log[i..]) == start + EncodeAll(format, log[n..])
      {
        DropNext(log, i);
        var line := format.encode(log[i]) + "\n";
        assert text + (line + EncodeAll(format, log[i + 1..])) == (text + line) + EncodeAll(format, log[i + 1..]);
        text := text + line;
      }
      assert log[|log|..] == [];
      assert text + "" == text;
    }
  }
}
