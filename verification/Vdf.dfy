/** Lexing of VDF text: quoted strings and braces, and how words behave under concatenation and cutting. */
module Vdf {
  import opened SemTypes

  predicate Space(c: char) {
    c == ' ' || c == '\t' || c == '\n' || c == '\r'
  }

  predicate AllSpace(s: string) {
    forall i :: 0 <= i < |s| ==> Space(s[i])
  }

  /** Where a quoted string ends whose body goes on at `i`; an escape takes any one character but a newline. */
  function StringEnd(text: string, i: nat): (r: Option<nat>)
    ensures r.Some? ==> i < r.value <= |text|
    decreases |text| - i
  {
    if i >= |text| then None
    else if text[i] == '"' then Some(i + 1)
    else if text[i] == '\\' then
      if i + 1 < |text| && text[i + 1] != '\n' then StringEnd(text, i + 2) else None
    else StringEnd(text, i + 1)
  }

  function TokenEnd(text: string, at: nat): (r: Option<nat>)
    requires at < |text|
    ensures r.Some? ==> at < r.value <= |text|
  {
    if text[at] == '{' || text[at] == '}' then Some(at + 1)
    else if text[at] == '"' then StringEnd(text, at + 1)
    else None
  }

  datatype Token = Token(start: nat, word: string)

  /** The tokens from position `at` on; characters that start no token are passed over. */
  function Lex(text: string, at: nat): (r: seq<Token>)
    requires at <= |text|
    ensures forall i :: 0 <= i < |r| ==> at <= r[i].start && r[i].start + |r[i].word| <= |text| && IsWord(r[i].word)
    decreases |text| - at
  {
    if at == |text| then []
    else match TokenEnd(text, at)
      case Some(e) => [Token(at, text[at..e])] + Lex(text, e)
      case None => Lex(text, at + 1)
  }

  /** A brace or a quoted string. */
  predicate IsWord(w: string) {
    w == "{" || w == "}" || (|w| >= 2 && w[0] == '"')
  }

  function WordsOf(tokens: seq<Token>): (r: seq<string>)
    ensures |r| == |tokens| && forall i :: 0 <= i < |r| ==> r[i] == tokens[i].word
  {
    seq(|tokens|, i requires 0 <= i < |tokens| => tokens[i].word)
  }

  function Words(text: string): seq<string> {
    WordsOf(Lex(text, 0))
  }

  /** Every quote is part of a token, so that what follows cannot change how the text reads. */
  predicate SolidFrom(text: string, at: nat)
    requires at <= |text|
    decreases |text| - at
  {
    at == |text| ||
    match TokenEnd(text, at)
    case Some(e) => SolidFrom(text, e)
    case None => text[at] != '"' && SolidFrom(text, at + 1)
  }

  predicate Solid(text: string) {
    SolidFrom(text, 0)
  }

  /** Nothing but space lies between tokens. */
  predicate CleanFrom(text: string, at: nat): (r: bool)
    requires at <= |text|
    ensures r ==> SolidFrom(text, at)
    decreases |text| - at
  {
    at == |text| ||
    match TokenEnd(text, at)
    case Some(e) => CleanFrom(text, e)
    case None => Space(text[at]) && CleanFrom(text, at + 1)
  }

  predicate Clean(text: string): (r: bool)
    ensures r ==> Solid(text)
  {
    CleanFrom(text, 0)
  }

  // ---------------------------------------------------------------- locality

  /** A string that ends within `a` ends there whatever follows. */
  lemma {:induction false} StringEndLocal(a: string, b: string, i: nat, e: nat)
    requires e <= |a|
    ensures StringEnd(a + b, i) == Some(e) <==> StringEnd(a, i) == Some(e)
    decreases |a| - i
  {
    if i < |a| && a[i] != '"' {
      if a[i] == '\\' {
        if i + 1 < |a| { StringEndLocal(a, b, i + 2, e); }
      } else {
        StringEndLocal(a, b, i + 1, e);
      }
    }
  }

  lemma TokenEndLocal(a: string, b: string, at: nat, e: nat)
    requires at < |a| && e <= |a|
    ensures TokenEnd(a + b, at) == Some(e) <==> TokenEnd(a, at) == Some(e)
  {
    StringEndLocal(a, b, at + 1, e);
  }

  lemma {:induction false} StringEndShift(a: string, b: string, i: nat)
    ensures StringEnd(a + b, |a| + i) == (match StringEnd(b, i) case Some(e) => Some(|a| + e) case None => None)
    decreases |b| - i
  {
    if i < |b| && b[i] != '"' {
      if b[i] == '\\' {
        if i + 1 < |b| && b[i + 1] != '\n' { StringEndShift(a, b, i + 2); }
      } else {
        StringEndShift(a, b, i + 1);
      }
    }
  }

  function Shift(tokens: seq<Token>, d: nat): (r: seq<Token>)
    ensures |r| == |tokens| && forall i :: 0 <= i < |r| ==> r[i] == Token(tokens[i].start + d, tokens[i].word)
  {
    seq(|tokens|, i requires 0 <= i < |tokens| => Token(tokens[i].start + d, tokens[i].word))
  }

  lemma ShiftCons(t: Token, rest: seq<Token>, d: nat)
    ensures Shift([t] + rest, d) == [Token(t.start + d, t.word)] + Shift(rest, d)
  {
  }

  lemma TokenEndShift(a: string, b: string, at: nat)
    requires at < |b|
    ensures TokenEnd(a + b, |a| + at) == (match TokenEnd(b, at) case Some(e) => Some(|a| + e) case None => None)
    ensures TokenEnd(b, at).Some? ==> (a + b)[|a| + at..|a| + TokenEnd(b, at).value] == b[at..TokenEnd(b, at).value]
  {
    StringEndShift(a, b, at + 1);
  }

  lemma {:induction false} LexShift(a: string, b: string, at: nat)
    requires at <= |b|
    ensures Lex(a + b, |a| + at) == Shift(Lex(b, at), |a|)
    decreases |b| - at
  {
    hide TokenEnd, IsWord;
    if at < |b| {
      TokenEndShift(a, b, at);
      match TokenEnd(b, at)
      case Some(e) =>
        LexShift(a, b, e);
        ShiftCons(Token(at, b[at..e]), Lex(b, e), |a|);
      case None => LexShift(a, b, at + 1);
    }
  }

  lemma {:induction false} CleanShift(a: string, b: string, at: nat)
    requires at <= |b|
    ensures CleanFrom(a + b, |a| + at) <==> CleanFrom(b, at)
    decreases |b| - at
  {
    hide TokenEnd;
    if at < |b| {
      TokenEndShift(a, b, at);
      match TokenEnd(b, at)
      case Some(e) => CleanShift(a, b, e);
      case None => CleanShift(a, b, at + 1);
    }
  }

  lemma {:induction false} SolidShift(a: string, b: string, at: nat)
    requires at <= |b|
    ensures SolidFrom(a + b, |a| + at) <==> SolidFrom(b, at)
    decreases |b| - at
  {
    hide TokenEnd;
    if at < |b| {
      TokenEndShift(a, b, at);
      match TokenEnd(b, at)
      case Some(e) => SolidShift(a, b, e);
      case None => SolidShift(a, b, at + 1);
    }
  }

  /** Where a solid text starts no token, it starts none with something after it. */
  lemma NoTokenStill(a: string, b: string, at: nat)
    requires at < |a| && TokenEnd(a, at).None? && a[at] != '"'
    ensures TokenEnd(a + b, at).None?
  {
  }

  /** Lexing a solid text and whatever follows it is lexing the two apart. */
  lemma {:induction false} LexAppend(a: string, b: string, at: nat)
    requires at <= |a| && SolidFrom(a, at)
    ensures Lex(a + b, at) == Lex(a, at) + Shift(Lex(b, 0), |a|)
    decreases |a| - at
  {
    hide TokenEnd, IsWord;
    if at == |a| {
      LexShift(a, b, 0);
    } else {
      match TokenEnd(a, at)
      case Some(e) =>
        TokenEndLocal(a, b, at, e);
        assert (a + b)[at..e] == a[at..e];
        LexAppend(a, b, e);
      case None =>
        NoTokenStill(a, b, at);
        LexAppend(a, b, at + 1);
    }
  }

  lemma {:induction false} SolidAppend(a: string, b: string, at: nat)
    requires at <= |a| && SolidFrom(a, at) && Solid(b)
    ensures SolidFrom(a + b, at)
    decreases |a| - at
  {
    hide TokenEnd;
    if at == |a| {
      SolidShift(a, b, 0);
    } else {
      match TokenEnd(a, at)
      case Some(e) =>
        TokenEndLocal(a, b, at, e);
        SolidAppend(a, b, e);
      case None =>
        NoTokenStill(a, b, at);
        SolidAppend(a, b, at + 1);
    }
  }

  lemma {:induction false} CleanAppend(a: string, b: string, at: nat)
    requires at <= |a| && CleanFrom(a, at) && Clean(b)
    ensures CleanFrom(a + b, at)
    decreases |a| - at
  {
    hide TokenEnd;
    if at == |a| {
      CleanShift(a, b, 0);
    } else {
      match TokenEnd(a, at)
      case Some(e) =>
        TokenEndLocal(a, b, at, e);
        CleanAppend(a, b, e);
      case None =>
        NoTokenStill(a, b, at);
        CleanAppend(a, b, at + 1);
    }
  }

  lemma WordsAppend(a: string, b: string)
    requires Solid(a)
    ensures Words(a + b) == Words(a) + Words(b)
    ensures Solid(b) ==> Solid(a + b)
    ensures Clean(a) && Clean(b) ==> Clean(a + b)
  {
    hide Lex, SolidFrom, CleanFrom;
    LexAppend(a, b, 0);
    ShiftWords(Lex(b, 0), |a|);
    if Solid(b) { SolidAppend(a, b, 0); }
    if Clean(a) && Clean(b) { CleanAppend(a, b, 0); }
  }

  /** Lexing from where token `i` starts gives the rest of the tokens. */
  lemma {:induction false} LexFrom(text: string, at: nat, i: nat)
    requires at <= |text| && CleanFrom(text, at) && i < |Lex(text, at)|
    ensures var p := Lex(text, at)[i].start;
            && at <= p < |text| && CleanFrom(text, p) && Lex(text, p) == Lex(text, at)[i..]
            && (i > 0 ==> Lex(text, at)[0].start < p)
    decreases |text| - at
  {
    hide TokenEnd, IsWord;
    match TokenEnd(text, at)
    case Some(e) => if i > 0 { LexFrom(text, e, i - 1); }
    case None => LexFrom(text, at + 1, i);
  }

  /** A clean text cut where token `i` starts keeps the tokens before it. */
  lemma {:induction false} LexCut(text: string, at: nat, i: nat)
    requires at <= |text| && CleanFrom(text, at) && i < |Lex(text, at)|
    ensures var p := Lex(text, at)[i].start;
            at <= p < |text| && CleanFrom(text[..p], at) && Lex(text[..p], at) == Lex(text, at)[..i]
    decreases |text| - at
  {
    hide TokenEnd, IsWord;
    var p := Lex(text, at)[i].start;
    LexFrom(text, at, i);
    match TokenEnd(text, at)
    case Some(e) =>
      if i > 0 {
        LexCut(text, e, i - 1);
        PrefixToken(text, p, at);
      }
    case None =>
      LexCut(text, at + 1, i);
      PrefixToken(text, p, at);
  }

  /** Tokens that end before the cut are tokens of what is left, and what starts no token still starts none. */
  lemma PrefixToken(text: string, p: nat, at: nat)
    requires at < p <= |text|
    ensures TokenEnd(text, at).Some? && TokenEnd(text, at).value <= p ==>
              && TokenEnd(text[..p], at) == TokenEnd(text, at)
              && text[..p][at..TokenEnd(text, at).value] == text[at..TokenEnd(text, at).value]
    ensures TokenEnd(text, at).None? && Space(text[at]) ==> TokenEnd(text[..p], at).None?
  {
    assert text[..p] + text[p..] == text;
    if TokenEnd(text, at).Some? && TokenEnd(text, at).value <= p {
      TokenEndLocal(text[..p], text[p..], at, TokenEnd(text, at).value);
    }
  }

  lemma ShiftWords(tokens: seq<Token>, d: nat)
    ensures WordsOf(Shift(tokens, d)) == WordsOf(tokens)
  {
  }

  /** The rest of a text on its own. */
  lemma RestWords(text: string, p: nat)
    requires p <= |text| && CleanFrom(text, p)
    ensures Clean(text[p..]) && Words(text[p..]) == WordsOf(Lex(text, p))
  {
    hide Lex, CleanFrom;
    assert text[..p] + text[p..] == text;
    LexShift(text[..p], text[p..], 0);
    CleanShift(text[..p], text[p..], 0);
    ShiftWords(Lex(text[p..], 0), p);
  }

  /** Cutting a clean text at the start of a token splits its words there. */
  lemma CutAt(text: string, i: nat)
    requires Clean(text) && i < |Lex(text, 0)|
    ensures var p := Lex(text, 0)[i].start;
            && p < |text| && Clean(text[..p]) && Clean(text[p..])
            && Words(text[..p]) == Words(text)[..i] && Words(text[p..]) == Words(text)[i..]
  {
    hide Lex, CleanFrom;
    LexFrom(text, 0, i);
    LexCut(text, 0, i);
    RestWords(text, Lex(text, 0)[i].start);
  }

  /** The same past the end of a token. */
  lemma CutAfter(text: string, i: nat)
    requires Clean(text) && i < |Lex(text, 0)|
    ensures var t := Lex(text, 0)[i];
            var q := t.start + |t.word|;
            q <= |text| && Clean(text[q..]) && Words(text[q..]) == Words(text)[i + 1..]
  {
    hide Lex, CleanFrom, IsWord, WordsOf;
    LexFrom(text, 0, i);
    var t := Lex(text, 0)[i];
    assert Lex(text, t.start)[0] == t;
    TokenStart(text, t.start);
    RestWords(text, t.start + |t.word|);
    WordsAfter(Lex(text, 0), i);
  }

  lemma WordsAfter(tokens: seq<Token>, i: nat)
    requires i < |tokens|
    ensures WordsOf(tokens[i..][1..]) == WordsOf(tokens)[i + 1..]
  {
    assert tokens[i..][1..] == tokens[i + 1..];
  }

  lemma TokenStart(text: string, p: nat)
    requires p < |text| && CleanFrom(text, p) && |Lex(text, p)| > 0 && Lex(text, p)[0].start == p
    ensures var q := p + |Lex(text, p)[0].word|;
            q <= |text| && CleanFrom(text, q) && Lex(text, q) == Lex(text, p)[1..]
  {
  }

  /** Inserting solid text before a token inserts its words there and changes nothing else. */
  lemma InsertWords(text: string, i: nat, extra: string)
    requires Clean(text) && i < |Lex(text, 0)| && Solid(extra)
    ensures var p := Lex(text, 0)[i].start;
            && p <= |text|
            && (Clean(extra) ==> Clean(text[..p] + extra + text[p..]))
            && Words(text[..p] + extra + text[p..]) == Words(text)[..i] + Words(extra) + Words(text)[i..]
  {
    hide Words, Clean, Solid;
    CutAt(text, i);
    var p := Lex(text, 0)[i].start;
    WordsAppend(text[..p], extra);
    WordsAppend(text[..p] + extra, text[p..]);
  }

  /** Replacing a token by another replaces that word and changes nothing else. */
  lemma ReplaceWord(text: string, i: nat, word: string)
    requires Clean(text) && i < |Lex(text, 0)| && Clean(word) && Words(word) == [word]
    ensures var t := Lex(text, 0)[i];
            var q := t.start + |t.word|;
            q <= |text| && Clean(text[..t.start] + word + text[q..]) &&
            Words(text[..t.start] + word + text[q..]) == Words(text)[i := word]
  {
    WordCount(text);
    hide Words, Clean;
    CutAt(text, i);
    CutAfter(text, i);
    var t := Lex(text, 0)[i];
    var q := t.start + |t.word|;
    WordsAppend(text[..t.start], word);
    WordsAppend(text[..t.start] + word, text[q..]);
    assert Words(text)[i := word] == Words(text)[..i] + [word] + Words(text)[i + 1..];
  }

  lemma WordCount(text: string)
    ensures |Words(text)| == |Lex(text, 0)|
  {
  }

  // ---------------------------------------------------------------- text we write

  function Quoted(s: string): string {
    "\"" + s + "\""
  }

  predicate Plain(s: string) {
    forall i :: 0 <= i < |s| ==> s[i] != '"' && s[i] != '\\'
  }

  lemma {:induction false} QuotedEnd(s: string, i: nat)
    requires Plain(s) && 1 <= i <= |s| + 1
    ensures StringEnd(Quoted(s), i) == Some(|s| + 2)
    decreases |s| - i
  {
    if i <= |s| { QuotedEnd(s, i + 1); }
  }

  lemma QuotedWord(s: string)
    requires Plain(s)
    ensures Clean(Quoted(s)) && Words(Quoted(s)) == [Quoted(s)]
  {
    QuotedEnd(s, 1);
    assert Quoted(s)[0..|s| + 2] == Quoted(s);
    assert Lex(Quoted(s), |s| + 2) == [];
    assert Lex(Quoted(s), 0) == [Token(0, Quoted(s))];
  }

  lemma BraceWord(w: string)
    requires w == "{" || w == "}"
    ensures Clean(w) && Words(w) == [w]
  {
    assert Lex(w, 1) == [];
    assert w[0..1] == w;
    assert Lex(w, 0) == [Token(0, w)];
  }

  lemma {:induction false} SpaceFrom(s: string, at: nat)
    requires AllSpace(s) && at <= |s|
    ensures CleanFrom(s, at) && Lex(s, at) == []
    decreases |s| - at
  {
    if at < |s| { SpaceFrom(s, at + 1); }
  }

  lemma SpaceWords(s: string)
    requires AllSpace(s)
    ensures Clean(s) && Words(s) == []
  {
    SpaceFrom(s, 0);
  }

  lemma {:induction false} NoWordsFrom(s: string, at: nat)
    requires at <= |s| && CleanFrom(s, at) && Lex(s, at) == []
    ensures forall i :: at <= i < |s| ==> Space(s[i])
    decreases |s| - at
  {
    if at < |s| && TokenEnd(s, at).None? { NoWordsFrom(s, at + 1); }
  }

  /** Clean text is all space exactly when it has no words. */
  lemma SpaceIff(s: string)
    requires Clean(s)
    ensures AllSpace(s) <==> Words(s) == []
  {
    if AllSpace(s) { SpaceWords(s); }
    if Words(s) == [] { NoWordsFrom(s, 0); }
  }
}
