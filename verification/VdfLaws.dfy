/**
 The editor from outside: tokens are the matches of its regular expression, and
 what it does to a text is decided by the keys, braces and names in it.
 */
module VdfLaws {
  import opened SemTypes
  import opened Vdf
  import opened VdfEdit

  // ---------------------------------------------------------------- tokens

  /** The inside of a quoted string: any characters but quote and backslash, or a backslash before anything but a
      newline. */
  predicate Body(s: string) {
    s == "" || if s[0] == '\\' then |s| >= 2 && s[1] != '\n' && Body(s[2..]) else s[0] != '"' && Body(s[1..])
  }

  /** A match of the token pattern. */
  predicate IsToken(w: string) {
    w == "{" || w == "}" || (|w| >= 2 && w[0] == '"' && w[|w| - 1] == '"' && Body(w[1..|w| - 1]))
  }

  lemma {:induction false} StringEndIff(text: string, i: nat, e: nat)
    ensures StringEnd(text, i) == Some(e) <==> i < e <= |text| && text[e - 1] == '"' && Body(text[i..e - 1])
    decreases |text| - i
  {
    if i < |text| && text[i] != '"' {
      var step := if text[i] == '\\' then 2 else 1;
      if text[i] != '\\' || (i + 1 < |text| && text[i + 1] != '\n') {
        StringEndIff(text, i + step, e);
        assert i + step <= e - 1 <= |text| ==> text[i..e - 1][step..] == text[i + step..e - 1];
      }
    }
  }

  lemma TokenEndIff(text: string, at: nat, e: nat)
    requires at < |text|
    ensures TokenEnd(text, at) == Some(e) <==> at < e <= |text| && IsToken(text[at..e])
  {
    hide StringEnd, Body;
    if text[at] == '"' {
      StringEndIff(text, at + 1, e);
      if at + 2 <= e <= |text| { Inside(text, at, e); }
    }
  }

  lemma Inside(text: string, at: nat, e: nat)
    requires at + 2 <= e <= |text|
    ensures text[at..e][1..|text[at..e]| - 1] == text[at + 1..e - 1]
  {
    var w := text[at..e];
    var a, b := w[1..|w| - 1], text[at + 1..e - 1];
    assert forall k :: 0 <= k < |a| ==> a[k] == b[k];
  }

  /** No match starts at `p`. */
  ghost predicate NoMatch(text: string, p: nat) {
    forall e :: p < e <= |text| ==> !IsToken(text[p..e])
  }

  /** These are all the matches from `at` on, as a search that goes on behind each match finds them. */
  ghost predicate FindsAll(text: string, at: nat, tokens: seq<Token>)
    requires at <= |text|
    decreases |tokens|
  {
    if tokens == [] then forall p :: at <= p < |text| ==> NoMatch(text, p)
    else
      var t := tokens[0];
      var e := t.start + |t.word|;
      && at <= t.start && e <= |text| && t.word == text[t.start..e] && IsToken(t.word)
      && (forall p :: at <= p < t.start ==> NoMatch(text, p))
      && FindsAll(text, e, tokens[1..])
  }

  lemma NoMatchIff(text: string, at: nat)
    requires at < |text|
    ensures NoMatch(text, at) <==> TokenEnd(text, at).None?
  {
    hide IsToken, TokenEnd;
    forall e: nat ensures TokenEnd(text, at) == Some(e) <==> at < e <= |text| && IsToken(text[at..e]) {
      TokenEndIff(text, at, e);
    }
  }

  /** The words of a text are the matches of the token pattern in it. */
  lemma {:induction false} LexFinds(text: string, at: nat)
    requires at <= |text|
    ensures FindsAll(text, at, Lex(text, at))
    decreases |text| - at
  {
    hide IsToken, TokenEnd, NoMatch;
    if at < |text| {
      NoMatchIff(text, at);
      match TokenEnd(text, at)
      case Some(e) =>
        LexFinds(text, e);
        TokenEndIff(text, at, e);
        assert Lex(text, at)[1..] == Lex(text, e);
      case None =>
        LexFinds(text, at + 1);
        Earlier(text, at, Lex(text, at + 1));
    }
  }

  lemma Earlier(text: string, at: nat, tokens: seq<Token>)
    requires at < |text| && NoMatch(text, at) && FindsAll(text, at + 1, tokens)
    ensures FindsAll(text, at, tokens)
  {
    hide IsToken, NoMatch;
  }

  /** And there is only one list of all the matches. */
  lemma {:induction false} FindsOnce(text: string, at: nat, a: seq<Token>, b: seq<Token>)
    requires at <= |text| && FindsAll(text, at, a) && FindsAll(text, at, b)
    ensures a == b
    decreases |a|
  {
    hide IsToken, NoMatch;
    if a != [] { MatchesAt(text, a[0]); }
    if b != [] { MatchesAt(text, b[0]); }
    if a != [] && b != [] {
      SameMatch(text, a[0], b[0]);
      FindsOnce(text, a[0].start + |a[0].word|, a[1..], b[1..]);
      assert a == [a[0]] + a[1..] && b == [b[0]] + b[1..];
    }
  }

  lemma MatchesAt(text: string, t: Token)
    requires t.start + |t.word| <= |text| && t.word == text[t.start..t.start + |t.word|] && IsToken(t.word)
    ensures !NoMatch(text, t.start) && t.start < |text| && |t.word| > 0
  {
  }

  lemma SameMatch(text: string, s: Token, t: Token)
    requires s.start + |s.word| <= |text| && s.word == text[s.start..s.start + |s.word|] && IsToken(s.word)
    requires t.start + |t.word| <= |text| && t.word == text[t.start..t.start + |t.word|] && IsToken(t.word)
    ensures s.start == t.start ==> s == t
  {
    hide IsToken;
    MatchesAt(text, s);
    MatchesAt(text, t);
    TokenEndIff(text, s.start, s.start + |s.word|);
    TokenEndIff(text, t.start, t.start + |t.word|);
    if s.start == t.start {
      assert |s.word| == |t.word|;
    }
  }

  predicate AllTokens(w: seq<string>) {
    forall i :: 0 <= i < |w| ==> IsToken(w[i])
  }

  lemma {:induction false} FoundAreTokens(text: string, at: nat, tokens: seq<Token>)
    requires at <= |text| && FindsAll(text, at, tokens)
    ensures forall i :: 0 <= i < |tokens| ==> IsToken(tokens[i].word)
    decreases |tokens|
  {
    hide IsToken, NoMatch;
    if tokens != [] { FoundAreTokens(text, tokens[0].start + |tokens[0].word|, tokens[1..]); }
  }

  lemma WordsAreTokens(text: string)
    ensures AllTokens(Words(text)) && AllWords(Words(text)) && |Words(text)| == |Lex(text, 0)|
  {
    hide IsToken, Lex, FindsAll;
    LexFinds(text, 0);
    FoundAreTokens(text, 0, Lex(text, 0));
    LexWords(text);
  }

  // ---------------------------------------------------------------- keys, braces and names

  /** A key with a block of its own. */
  predicate Key(w: seq<string>, i: nat, name: string) {
    i + 1 < |w| && w[i] == "\"" + name + "\"" && w[i + 1] == "{"
  }

  /** A quoted string says its inside; a brace says itself. */
  lemma SaysIff(word: string, name: string)
    requires IsToken(word) && name != "{" && name != "}"
    ensures IsWord(word)
    ensures Value(word) == name <==> word == "\"" + name + "\""
  {
  }

  lemma NamedIff(w: seq<string>, i: nat, name: string)
    requires AllTokens(w) && AllWords(w) && name != "{" && name != "}"
    ensures IsNamed(w, name, i) <==> Key(w, i, name)
  {
    hide IsToken, Value;
    if i + 1 < |w| { SaysIff(w[i], name); }
  }

  /** The opening brace at `o` is closed at `c`: between them every brace closed was opened, and all are. */
  ghost predicate Closes(w: seq<string>, o: nat, c: nat) {
    && o < c < |w| && w[o] == "{" && w[c] == "}" && Depth(w, o + 1, c) == 0
    && NeverBelow(w, o + 1, c)
  }

  /** Nothing among words a..c closes what was not opened there. */
  ghost predicate NeverBelow(w: seq<string>, a: nat, c: nat)
    requires c <= |w|
  {
    forall k :: a <= k <= c ==> Depth(w, a, k) >= 0
  }

  function Braces(w: seq<string>, a: nat, b: nat, brace: string): set<nat>
    requires b <= |w|
  {
    set i | a <= i < b && w[i] == brace
  }

  /** Depth is the number of braces opened less the number closed. */
  lemma {:induction false} DepthCounts(w: seq<string>, a: nat, b: nat)
    requires a <= b <= |w|
    ensures Depth(w, a, b) == |Braces(w, a, b, "{")| - |Braces(w, a, b, "}")|
    decreases b
  {
    hide Braces;
    if a < b {
      DepthCounts(w, a, b - 1);
      OneMoreBrace(w, a, b - 1, "{");
      OneMoreBrace(w, a, b - 1, "}");
    } else {
      NoBraces(w, a);
    }
  }

  lemma OneMoreBrace(w: seq<string>, a: nat, b: nat, brace: string)
    requires a <= b < |w|
    ensures |Braces(w, a, b + 1, brace)| == |Braces(w, a, b, brace)| + if w[b] == brace then 1 else 0
  {
    assert Braces(w, a, b + 1, brace) == Braces(w, a, b, brace) + if w[b] == brace then {b} else {};
  }

  lemma NoBraces(w: seq<string>, a: nat)
    requires a <= |w|
    ensures Braces(w, a, a, "{") == {} && Braces(w, a, a, "}") == {}
  {
  }

  lemma ClosesIff(w: seq<string>, o: nat, c: nat)
    requires o < |w| && w[o] == "{"
    ensures BlockEnd(w, o, o) == Some(c) <==> Closes(w, o, c)
  {
    hide Depth, BlockEnd;
    if BlockEnd(w, o, o) == Some(c) {
      BlockEndMatches(w, o, c);
      var a := o + 1;
      forall k | a <= k <= c ensures Depth(w, a, k) >= 0 { BlockEndMatches(w, o, k); }
    }
    if Closes(w, o, c) {
      OpenDepth(w, o, c + 1);
      ClosingDepth(w, o, c);
      assert Ends(w, o, c);
      forall e | o <= e < c ensures !Ends(w, o, e) {
        OpenDepth(w, o, e + 1);
        assert Depth(w, o + 1, e + 1) >= 0;
      }
    }
  }

  lemma OpenDepth(w: seq<string>, o: nat, k: nat)
    requires o < k <= |w| && w[o] == "{"
    ensures Depth(w, o, k) == 1 + Depth(w, o + 1, k)
  {
    assert Depth(w, o, o) == 0 && Depth(w, o, o + 1) == 1;
    DepthSplit(w, o, o + 1, k);
  }

  lemma ClosingDepth(w: seq<string>, o: nat, c: nat)
    requires o < c < |w| && w[c] == "}"
    ensures Depth(w, o + 1, c + 1) == Depth(w, o + 1, c) - 1
  {
  }

  // ---------------------------------------------------------------- the decision

  /** The first key of this name that has a block. */
  ghost predicate FirstBlock(w: seq<string>, m: nat, name: string) {
    Key(w, m, name) && forall j :: 0 <= j < m ==> !Key(w, j, name)
  }

  /** The key "0" with a block of its own, directly inside the block from `o` to `c`. */
  predicate DefaultKey(w: seq<string>, o: nat, c: nat, i: nat)
    requires c <= |w|
  {
    o < i && i + 1 < c && Key(w, i, "0") && Depth(w, o + 1, i) == 0
  }

  /** A "name" with a string for its value. */
  predicate NameKey(w: seq<string>, i: nat) {
    i + 1 < |w| && w[i] == "\"name\"" && w[i + 1] != "" && w[i + 1][0] == '"'
  }

  /** Tools that are left as they are: the three of this system, and all whose name does not start with "proton_". */
  predicate Kept(tool: string) {
    || tool == "proton_bionic_termux" || tool == "proton_bionic_fex_termux" || tool == "box64_native_termux"
    || |tool| < 7 || tool[..7] != "proton_"
  }

  lemma KeptIff(tool: string)
    ensures LeavesAlone(tool) <==> Kept(tool)
  {
  }

  /** No key of this name has a block. */
  ghost predicate Lacks(w: seq<string>, name: string) {
    forall j: nat :: !Key(w, j, name)
  }

  /** The block opened at `o` is never closed. */
  ghost predicate Open(w: seq<string>, o: nat) {
    forall c: nat :: !Closes(w, o, c)
  }

  ghost predicate FirstDefault(w: seq<string>, o: nat, c: nat, d: nat)
    requires c <= |w|
  {
    DefaultKey(w, o, c, d) && forall j :: 0 <= j < d ==> !DefaultKey(w, o, c, j)
  }

  ghost predicate NoDefault(w: seq<string>, o: nat, c: nat)
    requires c <= |w|
  {
    forall j: nat :: !DefaultKey(w, o, c, j)
  }

  lemma NamedIs(w: seq<string>, name: string, m: nat)
    requires AllTokens(w) && AllWords(w) && name != "{" && name != "}"
    ensures FirstBlock(w, m, name) ==> NamedBlock(w, name) == BlockFrom(w, m + 1)
    ensures Lacks(w, name) ==> NamedBlock(w, name) == Missing
  {
    hide IsToken, Value, BlockFrom;
    forall j: nat ensures IsNamed(w, name, j) <==> Key(w, j, name) { NamedIff(w, j, name); }
    var first := FirstNamed(w, name, 0);
    if FirstBlock(w, m, name) { assert first == Some(m); }
  }

  lemma FromIs(w: seq<string>, o: nat, c: nat)
    requires o < |w| && w[o] == "{"
    ensures Closes(w, o, c) ==> BlockFrom(w, o) == Found(o, c)
    ensures Open(w, o) ==> BlockFrom(w, o) == Unterminated
  {
    hide Closes, BlockEnd;
    ClosesIff(w, o, c);
    if BlockEnd(w, o, o).Some? { ClosesIff(w, o, BlockEnd(w, o, o).value); }
  }

  lemma DefaultIff(w: seq<string>, o: nat, c: nat, i: nat)
    requires AllTokens(w) && AllWords(w) && c <= |w|
    ensures ChildAt(w, o, c, "0", i) <==> DefaultKey(w, o, c, i)
  {
    hide IsToken, Value, Depth;
    if i + 1 < c { SaysIff(w[i], "0"); }
  }

  lemma ChildIs(w: seq<string>, o: nat, c: nat, d: nat)
    requires AllTokens(w) && AllWords(w) && o < c <= |w|
    ensures FirstDefault(w, o, c, d) ==> ChildBlock(w, o, c, "0") == BlockFrom(w, d + 1)
    ensures NoDefault(w, o, c) ==> ChildBlock(w, o, c, "0") == Missing
  {
    hide DefaultKey, ChildAt, BlockFrom, FirstChild;
    forall j: nat ensures ChildAt(w, o, c, "0", j) <==> DefaultKey(w, o, c, j) { DefaultIff(w, o, c, j); }
    InBlock(w, o, c, d);
    var first := FirstChild(w, o, c, "0", o + 1);
    if first.Some? { InBlock(w, o, c, first.value); }
  }

  lemma InBlock(w: seq<string>, o: nat, c: nat, d: nat)
    requires c <= |w|
    ensures DefaultKey(w, o, c, d) ==> o + 1 <= d < c
  {
  }

  lemma NameIs(w: seq<string>, at: nat, to: nat, n: nat)
    requires AllTokens(w) && AllWords(w)
    ensures at <= n < to && NameKey(w, n) && (forall j :: at <= j < n ==> !NameKey(w, j)) ==>
              FirstName(w, at, to) == Some(n)
    ensures (forall j :: at <= j < to ==> !NameKey(w, j)) ==> FirstName(w, at, to) == None
  {
    hide IsToken, Value, FirstName;
    forall j: nat ensures NameAt(w, j) <==> NameKey(w, j) {
      if j + 1 < |w| { SaysIff(w[j], "name"); }
    }
  }

  /** Where the default's block is: the mapping's key and closing brace, and the default's. */
  ghost predicate DefaultBlock(w: seq<string>, m: nat, c: nat, d: nat, e: nat) {
    && FirstBlock(w, m, "CompatToolMapping") && Closes(w, m + 1, c)
    && FirstDefault(w, m + 1, c, d) && Closes(w, d + 1, e)
  }

  /** With a default in the mapping, its first name decides: kept, renamed, or, without a name, refused. */
  lemma DefaultDecides(w: seq<string>, m: nat, c: nat, d: nat, e: nat, n: nat)
    requires AllTokens(w) && AllWords(w) && DefaultBlock(w, m, c, d, e)
    ensures d + 2 <= n < e - 1 && NameKey(w, n) && (forall j :: d + 2 <= j < n ==> !NameKey(w, j)) ==>
              var tool := w[n + 1][1..|w[n + 1]| - 1];
              Decide(w) == if Kept(tool) then Keep(tool) else Rename(n + 1)
    ensures (forall j :: d + 2 <= j < e - 1 ==> !NameKey(w, j)) ==> Decide(w) == Refuse
  {
    hide IsToken, NamedBlock, ChildBlock, FirstName, LeavesAlone, Kept, BlockFrom, Depth, NameKey;
    NamedIs(w, "CompatToolMapping", m);
    FromIs(w, m + 1, c);
    ChildIs(w, m + 1, c, d);
    FromIs(w, d + 1, e);
    NameIs(w, d + 2, e - 1, n);
    if d + 2 <= n < e - 1 && NameKey(w, n) {
      NamedString(w, n);
      KeptIff(w[n + 1][1..|w[n + 1]| - 1]);
    }
  }

  lemma NamedString(w: seq<string>, n: nat)
    requires AllTokens(w) && AllWords(w) && NameKey(w, n)
    ensures n + 1 < |w| && |w[n + 1]| >= 2 && Value(w[n + 1]) == w[n + 1][1..|w[n + 1]| - 1]
  {
    assert IsToken(w[n + 1]);
  }

  /** Without a default, an entry is added at the end of the mapping; without a mapping, one is added at the end of the
      first "Steam" block; a block left open, or no "Steam" block, is refused. */
  lemma InsertionDecides(w: seq<string>, m: nat, c: nat)
    requires AllTokens(w) && AllWords(w)
    ensures FirstBlock(w, m, "CompatToolMapping") && Closes(w, m + 1, c) && NoDefault(w, m + 1, c) ==>
              Decide(w) == AddEntry(c)
    ensures FirstBlock(w, m, "CompatToolMapping") && Open(w, m + 1) ==> Decide(w) == Refuse
    ensures Lacks(w, "CompatToolMapping") && FirstBlock(w, m, "Steam") && Closes(w, m + 1, c) ==>
              Decide(w) == AddMapping(c)
    ensures Lacks(w, "CompatToolMapping") && FirstBlock(w, m, "Steam") && Open(w, m + 1) ==> Decide(w) == Refuse
    ensures Lacks(w, "CompatToolMapping") && Lacks(w, "Steam") ==> Decide(w) == Refuse
  {
    hide IsToken, NamedBlock, ChildBlock, FirstName, LeavesAlone, BlockFrom, Depth, DefaultKey, Closes, Open, Lacks,
         NoDefault;
    NamedIs(w, "CompatToolMapping", m);
    NamedIs(w, "Steam", m);
    if m + 1 < |w| && w[m + 1] == "{" {
      FromIs(w, m + 1, c);
      if Closes(w, m + 1, c) {
        ClosesIn(w, m + 1, c);
        ChildIs(w, m + 1, c, 0);
      }
    }
  }

  lemma ClosesIn(w: seq<string>, o: nat, c: nat)
    requires Closes(w, o, c)
    ensures o < c < |w|
  {
  }

  /** A default left open is refused. */
  lemma OpenDefault(w: seq<string>, m: nat, c: nat, d: nat)
    requires AllTokens(w) && AllWords(w) && FirstBlock(w, m, "CompatToolMapping") && Closes(w, m + 1, c)
    requires FirstDefault(w, m + 1, c, d) && Open(w, d + 1)
    ensures Decide(w) == Refuse
  {
    hide IsToken, NamedBlock, ChildBlock, FirstName, LeavesAlone, BlockFrom, Depth, Open;
    NamedIs(w, "CompatToolMapping", m);
    FromIs(w, m + 1, c);
    ChildIs(w, m + 1, c, d);
    FromIs(w, d + 1, 0);
  }

  /** On a text with a default tool: a tool that is kept leaves the text as it is; any other name is replaced, and
      nothing else in the text. */
  lemma DefaultTool(text: string, m: nat, c: nat, d: nat, e: nat, n: nat)
    requires DefaultBlock(Words(text), m, c, d, e) && d + 2 <= n < e - 1
    requires NameKey(Words(text), n) && (forall j :: d + 2 <= j < n ==> !NameKey(Words(text), j))
    ensures n + 1 < |Lex(text, 0)|
    ensures var t := Lex(text, 0)[n + 1];
            && |t.word| >= 2 && t.start + |t.word| <= |text|
            && var tool := t.word[1..|t.word| - 1];
               Configure(text) ==
                 if Kept(tool) then Ok((text, tool))
                 else Ok((text[..t.start] + ("\"" + "proton_bionic_termux" + "\"") + text[t.start + |t.word|..],
                          "proton_bionic_termux"))
  {
    hide IsToken, Decide, DefaultBlock, Lex, Kept, NameKey, IsWord;
    var w := Words(text);
    WordsAreTokens(text);
    NamedString(w, n);
    DefaultDecides(w, m, c, d, e, n);
  }

  function Line(indent: string, s: string): string {
    indent + s + "\n"
  }

  lemma OpenedLines(indent: string, key: string)
    ensures Opened(indent, key) == Line(indent, Quoted(key)) + Line(indent, "{")
  {
    hide Quoted;
  }

  lemma PairLine(indent: string, key: string, val: string)
    ensures Pair(indent, key, val) == Line(indent, Quoted(key) + "\t\t" + Quoted(val))
  {
    hide Quoted;
  }

  lemma SixLines(a: string, b: string, c: string, d: string, e: string, f: string)
    ensures (a + b) + (c + d + e) + f == a + b + c + d + e + f
  {
  }

  /** The entry written, line by line. */
  lemma EntryText(indent: string)
    ensures var child, field := indent + "\t", indent + "\t\t";
            MappingEntry(indent) ==
              Line(child, Quoted("0")) + Line(child, "{") +
              Line(field, Quoted("name") + "\t\t" + Quoted("proton_bionic_termux")) +
              Line(field, Quoted("config") + "\t\t" + Quoted("")) +
              Line(field, Quoted("priority") + "\t\t" + Quoted("250")) +
              Line(child, "}")
  {
    var child, field := indent + "\t", indent + "\t\t";
    OpenedLines(child, "0");
    PairLine(field, "name", BOX64);
    PairLine(field, "config", "");
    PairLine(field, "priority", "250");
    hide Quoted, Opened, Pair;
    SixLines(Line(child, Quoted("0")), Line(child, "{"), Pair(field, "name", BOX64), Pair(field, "config", ""),
             Pair(field, "priority", "250"), Line(child, "}"));
  }

  /** And the mapping around it. */
  lemma MappingText(indent: string)
    ensures var child := indent + "\t";
            NewMapping(indent) ==
              Line(child, Quoted("CompatToolMapping")) + Line(child, "{") + MappingEntry(child) + Line(child, "}")
  {
    hide MappingEntry;
    OpenedLines(indent + "\t", "CompatToolMapping");
  }

  /** What stands on the line before `p`. */
  predicate Indents(text: string, p: nat, indent: string) {
    && |indent| <= p <= |text| && text[p - |indent|..p] == indent && '\n' !in indent
    && (|indent| < p ==> text[p - |indent| - 1] == '\n')
  }

  lemma IndentIs(text: string, p: nat, indent: string)
    requires Indents(text, p, indent)
    ensures ClosingIndent(text, p) == indent
  {
    hide LineStart;
    var start := LineStart(text, p);
    var own := p - |indent|;
    forall i | own <= i < p ensures text[i] != '\n' {
      assert text[i] == indent[i - own];
    }
    assert start == own;
  }

  /** An insertion puts the entry, or the mapping, indented like the brace, before that brace and changes nothing
      else. */
  lemma InsertionText(text: string, i: nat, p: nat, indent: string)
    requires i < |Lex(text, 0)| && p == Lex(text, 0)[i].start && Indents(text, p, indent)
    ensures AllWords(Words(text))
    ensures Decide(Words(text)) == AddEntry(i) ==>
              Configure(text) == Ok((text[..p] + MappingEntry(indent) + text[p..], "proton_bionic_termux"))
    ensures Decide(Words(text)) == AddMapping(i) ==>
              Configure(text) == Ok((text[..p] + NewMapping(indent) + text[p..], "proton_bionic_termux"))
  {
    hide Decide, Lex, MappingEntry, NewMapping, ClosingIndent, IsWord;
    LexWords(text);
    IndentIs(text, p, indent);
  }
}
