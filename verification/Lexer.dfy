// The query language's lexer. Source text is a sequence of bytes; a byte above
// 127 is read as the Latin-1 character of that number.
module Lexer {
  import opened Strings
  import opened Options

  datatype Sign =
    | OpenParen | CloseParen | OpenList | CloseList | Hash | AtSign | Tilde | Amp | Bar | Bang | Comma | Star
    | Equals | Less | Greater | Dash | Arrow | BackArrow | NotEqual | NotAbove | NotBelow

  datatype Tok = Ident(s: string) | Value(s: string) | Str(s: string) | Punct(sign: Sign) | End

  datatype LexError = UnterminatedString(at: nat) | UnexpectedCharacter(at: nat)

  // ── words ──

  predicate IsLetter(c: char) {
    || 'a' <= c <= 'z' || 'A' <= c <= 'Z'
    || c as int in {0xAA, 0xB5, 0xBA}
    || (0xC0 <= c as int <= 0xFF && c as int != 0xD7 && c as int != 0xF7)
  }

  predicate IsAlnum(c: char) { IsLetter(c) || IsDigit(c) }

  // Whether the character at j belongs to the word being scanned: a dash does
  // only when a letter or digit follows it.
  predicate InWord(src: string, j: nat)
    requires j < |src|
  {
    || IsAlnum(src[j]) || src[j] == '_' || src[j] == '.'
    || (src[j] == '-' && j + 1 < |src| && IsAlnum(src[j + 1]))
  }

  function ScanWord(src: string, i: nat): (j: nat)
    requires i <= |src|
    ensures i <= j <= |src|
    decreases |src| - i
  {
    if i < |src| && InWord(src, i) then ScanWord(src, i + 1) else i
  }

  // ── tokens ──

  predicate IsBlank(c: char) { c == ' ' || c == '\t' || c == '\n' || c == '\r' }

  function PairSign(c: char, d: char): Option<Sign> {
    match (c, d)
    case ('-', '>') => Some(Arrow)
    case ('<', '-') => Some(BackArrow)
    case ('!', '=') => Some(NotEqual)
    case ('<', '=') => Some(NotAbove)
    case ('>', '=') => Some(NotBelow)
    case _ => None
  }

  function OneSign(c: char): Option<Sign> {
    match c
    case '(' => Some(OpenParen) case ')' => Some(CloseParen) case '[' => Some(OpenList) case ']' => Some(CloseList)
    case '#' => Some(Hash) case '@' => Some(AtSign) case '~' => Some(Tilde) case '&' => Some(Amp)
    case '|' => Some(Bar) case '!' => Some(Bang) case ',' => Some(Comma) case '*' => Some(Star)
    case '=' => Some(Equals) case '<' => Some(Less) case '>' => Some(Greater) case '-' => Some(Dash)
    case _ => None
  }

  function SignText(sign: Sign): string {
    match sign
    case OpenParen => "(" case CloseParen => ")" case OpenList => "[" case CloseList => "]"
    case Hash => "#" case AtSign => "@" case Tilde => "~" case Amp => "&"
    case Bar => "|" case Bang => "!" case Comma => "," case Star => "*"
    case Equals => "=" case Less => "<" case Greater => ">" case Dash => "-"
    case Arrow => "->" case BackArrow => "<-" case NotEqual => "!=" case NotAbove => "<=" case NotBelow => ">="
  }

  function QuoteAt(src: string, i: nat): (j: nat)
    requires i <= |src|
    ensures i <= j <= |src| && (j < |src| ==> src[j] == '"')
    decreases |src| - i
  {
    if i < |src| && src[i] != '"' then QuoteAt(src, i + 1) else i
  }

  datatype Lexeme = Blank | Took(tok: Tok, next: nat) | Refused(error: LexError)

  function LexemeAt(src: string, i: nat): (l: Lexeme)
    requires i < |src|
    ensures l.Took? ==> i < l.next <= |src|
  {
    var c := src[i];
    if IsBlank(c) then Blank
    else if c == '"' then
      var j := QuoteAt(src, i + 1);
      if j == |src| then Refused(UnterminatedString(i)) else Took(Str(src[i + 1..j]), j + 1)
    else if IsDigit(c) then
      var j := ScanWord(src, i + 1);
      Took(Value(src[i..j]), j)
    else if IsLetter(c) || c == '_' then
      var j := ScanWord(src, i + 1);
      Took(Ident(src[i..j]), j)
    else if i + 1 < |src| && PairSign(c, src[i + 1]).Some? then Took(Punct(PairSign(c, src[i + 1]).value), i + 2)
    else if OneSign(c).Some? then Took(Punct(OneSign(c).value), i + 1)
    else Refused(UnexpectedCharacter(i))
  }

  function LexFrom(src: string, i: nat): (r: Result<seq<Tok>, LexError>)
    requires i <= |src|
    ensures r.Ok? ==> Ended(r.value)
    decreases |src| - i
  {
    if i == |src| then Ok([End])
    else
      match LexemeAt(src, i)
      case Blank => LexFrom(src, i + 1)
      case Took(tok, next) => Cons(tok, LexFrom(src, next))
      case Refused(error) => Err(error)
  }

  // The last token is the end mark.
  predicate Ended(toks: seq<Tok>) { toks != [] && toks[|toks| - 1] == End }

  function Cons(tok: Tok, r: Result<seq<Tok>, LexError>): Result<seq<Tok>, LexError> {
    match r
    case Ok(toks) => Ok([tok] + toks)
    case Err(_) => r
  }

  function Lex(src: string): (r: Result<seq<Tok>, LexError>)
    ensures r.Ok? ==> Ended(r.value)
  {
    LexFrom(src, 0)
  }

  // ── spelling tokens ──

  predicate Word(w: string) { w != "" && ScanWord(w, 0) == |w| }

  predicate Identifier(s: string) { Word(s) && (IsLetter(s[0]) || s[0] == '_') }

  predicate QuoteFree(s: string) { '"' !in s }

  // A token the lexer can produce before the end mark.
  predicate Good(t: Tok) {
    match t
    case Ident(s) => Identifier(s)
    case Value(s) => Word(s) && IsDigit(s[0])
    case Str(s) => QuoteFree(s)
    case Punct(_) => true
    case End => false
  }

  // Good tokens, then the end mark.
  predicate Lexed(toks: seq<Tok>) {
    toks != [] && (toks == [End] || (Good(toks[0]) && Lexed(toks[1..])))
  }

  function Text(t: Tok): string {
    match t
    case Str(s) => ['"'] + s + ['"']
    case Punct(sign) => SignText(sign)
    case End => ""
    case _ => t.s
  }

  function Spell(toks: seq<Tok>): string {
    if toks == [] || toks[0] == End then "" else Text(toks[0]) + " " + Spell(toks[1..])
  }

  lemma {:induction false} ScanSpelled(src: string, i: nat, w: string, k: nat)
    requires k <= |w| && i + |w| < |src| && src[i..i + |w|] == w && src[i + |w|] == ' '
    requires ScanWord(w, k) == |w|
    ensures ScanWord(src, i + k) == i + |w|
    decreases |w| - k
  {
    if k < |w| {
      assert src[i + k] == src[i..i + |w|][k];
      assert k + 1 < |w| ==> src[i + k + 1] == src[i..i + |w|][k + 1];
      ScanSpelled(src, i, w, k + 1);
    }
  }

  lemma {:induction false} QuoteSpelled(src: string, i: nat, s: string, k: nat)
    requires k <= |s| && i + |s| < |src| && src[i..i + |s|] == s && src[i + |s|] == '"'
    requires QuoteFree(s)
    ensures QuoteAt(src, i + k) == i + |s|
    decreases |s| - k
  {
    if k < |s| {
      assert src[i + k] == src[i..i + |s|][k] && s[k] in s;
      QuoteSpelled(src, i, s, k + 1);
    }
  }

  lemma WordSpelled(src: string, i: nat, w: string)
    requires i + |w| < |src| && src[i..i + |w|] == w && src[i + |w|] == ' '
    requires Word(w)
    ensures ScanWord(src, i + 1) == i + |w| && src[i] == w[0]
  {
    assert ScanWord(w, 1) == |w|;
    ScanSpelled(src, i, w, 1);
    assert src[i] == src[i..i + |w|][0];
  }

  lemma SliceOfSlice(s: string, i: nat, j: nat, a: nat, b: nat)
    requires i <= j <= |s| && a <= b <= j - i
    ensures s[i..j][a..b] == s[i + a..i + b]
  {
    var x, y := s[i..j][a..b], s[i + a..i + b];
    assert |x| == |y| && forall k | 0 <= k < |x| :: x[k] == y[k];
  }

  lemma StringSpelled(src: string, i: nat, s: string)
    requires i + |s| + 2 < |src| && src[i..i + |s| + 2] == ['"'] + s + ['"'] && QuoteFree(s)
    ensures LexemeAt(src, i) == Took(Str(s), i + |s| + 2)
  {
    var t := src[i..i + |s| + 2];
    assert src[i] == t[0] && src[i + 1 + |s|] == t[1 + |s|];
    SliceOfSlice(src, i, i + |s| + 2, 1, 1 + |s|);
    assert t[1..1 + |s|] == s;
    QuoteSpelled(src, i + 1, s, 0);
  }

  lemma PunctSpelled(src: string, i: nat, sign: Sign)
    requires i + |SignText(sign)| < |src|
    requires src[i..i + |SignText(sign)|] == SignText(sign) && src[i + |SignText(sign)|] == ' '
    ensures LexemeAt(src, i) == Took(Punct(sign), i + |SignText(sign)|)
  {
    var t := SignText(sign);
    assert src[i] == src[i..i + |t|][0] == t[0];
    assert |t| == 2 ==> src[i + 1] == src[i..i + 2][1] == t[1];
  }

  lemma TokenSpelled(src: string, i: nat, t: Tok)
    requires Good(t) && i + |Text(t)| < |src|
    requires src[i..i + |Text(t)|] == Text(t) && src[i + |Text(t)|] == ' '
    ensures LexemeAt(src, i) == Took(t, i + |Text(t)|)
  {
    match t
    case Str(s) => StringSpelled(src, i, s);
    case Punct(sign) => PunctSpelled(src, i, sign);
    case Ident(s) => WordSpelled(src, i, s);
    case Value(s) => WordSpelled(src, i, s);
  }

  lemma LexedApart(toks: seq<Tok>)
    requires Lexed(toks) && toks != [End]
    ensures toks == [toks[0]] + toks[1..] && Good(toks[0]) && Lexed(toks[1..])
    ensures Spell(toks) == Text(toks[0]) + " " + Spell(toks[1..])
  {}

  // The text of a token after `pre`, with a space and `tail` behind it.
  lemma TokenIn(pre: string, t: Tok, tail: string)
    requires Good(t)
    ensures var src, n := pre + Text(t) + " " + tail, |pre| + |Text(t)|;
            LexemeAt(src, |pre|) == Took(t, n) && src[n] == ' '
  {
    var src, n := pre + Text(t) + " " + tail, |pre| + |Text(t)|;
    assert src[|pre|..n] == Text(t) && src[n] == ' ';
    TokenSpelled(src, |pre|, t);
  }

  lemma Regrouped(pre: string, text: string, tail: string)
    ensures pre + (text + " " + tail) == pre + text + " " + tail
  {}

  lemma {:induction false} LexOfSpellAfter(pre: string, toks: seq<Tok>)
    requires Lexed(toks)
    ensures LexFrom(pre + Spell(toks), |pre|) == Ok(toks)
    decreases |toks|
  {
    if toks == [End] {
      assert pre + Spell(toks) == pre;
    } else {
      LexedApart(toks);
      LexOfSpellAfter(pre + Text(toks[0]) + " ", toks[1..]);
      SpelledBefore(pre, toks[0], Spell(toks[1..]), toks[1..]);
    }
  }

  lemma SpelledBefore(pre: string, t: Tok, tail: string, rest: seq<Tok>)
    requires Good(t)
    requires var next := pre + Text(t) + " "; LexFrom(next + tail, |next|) == Ok(rest)
    ensures LexFrom(pre + (Text(t) + " " + tail), |pre|) == Ok([t] + rest)
  {
    var src, n := pre + Text(t) + " " + tail, |pre| + |Text(t)|;
    Regrouped(pre, Text(t), tail);
    TokenIn(pre, t, tail);
    LexedOn(src, |pre|, t, n, rest);
  }

  // A token and the space after it put the token in front of what follows.
  lemma LexedOn(src: string, i: nat, t: Tok, n: nat, rest: seq<Tok>)
    requires i < n < |src| && LexemeAt(src, i) == Took(t, n) && src[n] == ' '
    requires LexFrom(src, n + 1) == Ok(rest)
    ensures LexFrom(src, i) == Ok([t] + rest)
  {
    assert LexemeAt(src, n) == Blank;
    assert LexFrom(src, n) == Ok(rest);
  }

  // Any tokens, spelled out with a space after each, are lexed back.
  lemma LexOfSpell(toks: seq<Tok>)
    requires Lexed(toks)
    ensures Lex(Spell(toks)) == Ok(toks)
  {
    assert "" + Spell(toks) == Spell(toks);
    LexOfSpellAfter("", toks);
  }

  // ── what the lexer produces ──

  lemma {:induction false} ScanSlice(src: string, i: nat, j: nat, k: nat)
    requires i <= k <= j <= |src| && ScanWord(src, k) == j
    ensures ScanWord(src[i..j], k - i) == j - i
    decreases j - k
  {
    if k < j {
      ScanSlice(src, i, j, k + 1);
      if src[k] == '-' {
        assert InWord(src, k + 1);
      }
    }
  }

  lemma WordSlice(src: string, i: nat)
    requires i < |src| && InWord(src, i)
    ensures Word(src[i..ScanWord(src, i + 1)])
  {
    ScanSlice(src, i, ScanWord(src, i), i);
  }

  lemma {:induction false} QuoteSlice(src: string, i: nat, k: nat)
    requires i <= |src| && i <= k < QuoteAt(src, i)
    ensures src[k] != '"'
    decreases |src| - i
  {
    if k > i {
      QuoteSlice(src, i + 1, k);
    }
  }

  lemma LexemeIsGood(src: string, i: nat)
    requires i < |src| && LexemeAt(src, i).Took?
    ensures Good(LexemeAt(src, i).tok)
  {
    var c := src[i];
    if c == '"' {
      var j := QuoteAt(src, i + 1);
      forall k | i + 1 <= k < j
        ensures src[k] != '"'
      {
        QuoteSlice(src, i + 1, k);
      }
    } else if IsDigit(c) || IsLetter(c) || c == '_' {
      WordSlice(src, i);
    }
  }

  lemma {:induction false} LexIsGood(src: string, i: nat)
    requires i <= |src| && LexFrom(src, i).Ok?
    ensures Lexed(LexFrom(src, i).value)
    decreases |src| - i
  {
    if i < |src| {
      match LexemeAt(src, i)
      case Blank => LexIsGood(src, i + 1);
      case Took(tok, next) =>
        LexIsGood(src, next);
        LexemeIsGood(src, i);
        assert ([tok] + LexFrom(src, next).value)[1..] == LexFrom(src, next).value;
    }
  }

  // ── the loop ──

  method ScanWordLoop(src: string, i: nat) returns (j: nat)
    requires i <= |src|
    ensures j == ScanWord(src, i)
  {
    j := i;
    while j < |src|
      invariant i <= j <= |src|
      invariant ScanWord(src, j) == ScanWord(src, i)
    {
      var c := src[j];
      if IsLetter(c) || IsDigit(c) || c == '_' || c == '.' {
        j := j + 1;
      } else if c == '-' && j + 1 < |src| && (IsLetter(src[j + 1]) || IsDigit(src[j + 1])) {
        j := j + 1;
      } else {
        return;
      }
    }
  }

  // One token that does not begin with a blank.
  method TakeToken(src: string, i: nat) returns (next: Lexeme)
    requires i < |src| && !IsBlank(src[i])
    ensures next == LexemeAt(src, i) != Blank
  {
    var c := src[i];
    if c == '"' {
      var j := i + 1;
      while j < |src| && src[j] != '"'
        invariant i < j <= |src|
        invariant QuoteAt(src, j) == QuoteAt(src, i + 1)
      {
        j := j + 1;
      }
      if j >= |src| {
        return Refused(UnterminatedString(i));
      }
      return Took(Str(src[i + 1..j]), j + 1);
    }
    if IsDigit(c) {
      var j := ScanWordLoop(src, i);
      return Took(Value(src[i..j]), j);
    }
    if IsLetter(c) || c == '_' {
      var j := ScanWordLoop(src, i);
      return Took(Ident(src[i..j]), j);
    }
    if i + 1 < |src| {
      var two := PairSign(c, src[i + 1]);
      if two.Some? {
        return Took(Punct(two.value), i + 2);
      }
    }
    var one := OneSign(c);
    if one.Some? {
      return Took(Punct(one.value), i + 1);
    }
    next := Refused(UnexpectedCharacter(i));
  }

  method LexAll(src: string) returns (r: Result<seq<Tok>, LexError>)
    ensures r == Lex(src)
    ensures r.Ok? ==> Lexed(r.value)
  {
    var out: seq<Tok>, i := [], 0;
    PrependNone(Lex(src));
    while i < |src|
      invariant 0 <= i <= |src|
      invariant Lex(src) == Prepend(out, LexFrom(src, i))
    {
      var c := src[i];
      if c == ' ' || c == '\t' || c == '\n' || c == '\r' {
        i := i + 1;
        continue;
      }
      var next := TakeToken(src, i);
      match next
      case Refused(error) => return Err(error);
      case Took(tok, j) =>
        PrependCons(out, tok, LexFrom(src, j));
        out := out + [tok];
        i := j;
      case Blank =>
    }
    r := Ok(out + [End]);
    LexIsGood(src, 0);
  }

  ghost function Prepend(out: seq<Tok>, r: Result<seq<Tok>, LexError>): Result<seq<Tok>, LexError> {
    match r
    case Ok(toks) => Ok(out + toks)
    case Err(_) => r
  }

  lemma PrependNone(r: Result<seq<Tok>, LexError>)
    ensures Prepend([], r) == r
  {
    if r.Ok? {
      assert [] + r.value == r.value;
    }
  }

  lemma PrependCons(out: seq<Tok>, t: Tok, r: Result<seq<Tok>, LexError>)
    ensures Prepend(out, Cons(t, r)) == Prepend(out + [t], r)
  {
    if r.Ok? {
      assert out + ([t] + r.value) == out + [t] + r.value;
    }
  }
}
