/**
 Selecting the default compatibility tool in a VDF file: brace matching, the
 decision made on the words, the splice made on the text, and the proof that the
 edit is minimal and that running it again changes nothing.
 */
module VdfEdit {
  import opened SemTypes
  import opened Vdf

  const BOX64 := "proton_bionic_termux"
  const FEX := "proton_bionic_fex_termux"
  const NATIVE := "box64_native_termux"

  predicate TermuxTool(s: string) {
    s == BOX64 || s == FEX || s == NATIVE
  }

  predicate IsString(word: string) {
    word != "" && word[0] == '"'
  }

  /** A word without its quotes. */
  function Value(word: string): string
    requires IsWord(word)
  {
    if IsString(word) then word[1..|word| - 1] else word
  }

  predicate AllWords(w: seq<string>) {
    forall i :: 0 <= i < |w| ==> IsWord(w[i])
  }

  // ---------------------------------------------------------------- matching braces

  function Delta(word: string): int {
    if word == "{" then 1 else if word == "}" then -1 else 0
  }

  /** Opening minus closing braces among words a..b. */
  function Depth(w: seq<string>, a: nat, b: nat): int
    requires b <= |w|
    decreases b
  {
    if b <= a then 0 else Depth(w, a, b - 1) + Delta(w[b - 1])
  }

  predicate Ends(w: seq<string>, opening: nat, c: nat) {
    opening <= c < |w| && w[c] == "}" && Depth(w, opening, c + 1) == 0
  }

  /** The first closing brace at which the nesting opened at `opening` is back to zero. */
  function BlockEnd(w: seq<string>, opening: nat, at: nat): (r: Option<nat>)
    requires opening <= at <= |w|
    ensures r.Some? ==>
            && at <= r.value && Ends(w, opening, r.value)
            && forall c :: at <= c < r.value ==> !Ends(w, opening, c)
    ensures r.None? ==> forall c :: at <= c < |w| ==> !Ends(w, opening, c)
    decreases |w| - at
  {
    if at == |w| then None else if Ends(w, opening, at) then Some(at) else BlockEnd(w, opening, at + 1)
  }

  /** The loop with its running depth. */
  method FindBlockEnd(w: seq<string>, opening: nat) returns (r: Option<nat>)
    requires opening <= |w|
    ensures r == BlockEnd(w, opening, opening)
  {
    var depth := 0;
    for index := opening to |w|
      invariant depth == Depth(w, opening, index)
      invariant forall c :: opening <= c < index ==> !Ends(w, opening, c)
    {
      if w[index] == "{" {
        depth := depth + 1;
      } else if w[index] == "}" {
        depth := depth - 1;
        if depth == 0 {
          assert Ends(w, opening, index);
          return Some(index);
        }
      }
    }
    r := None;
  }

  lemma {:induction false} DepthSplit(w: seq<string>, a: nat, m: nat, b: nat)
    requires a <= m <= b <= |w|
    ensures Depth(w, a, b) == Depth(w, a, m) + Depth(w, m, b)
    decreases b
  {
    if m < b { DepthSplit(w, a, m, b - 1); }
  }

  /** Until its end, an opened block stays open. */
  lemma {:induction false} StaysOpen(w: seq<string>, o: nat, k: nat)
    requires o < k <= |w| && w[o] == "{" && forall c :: o <= c < k ==> !Ends(w, o, c)
    ensures Depth(w, o, k) >= 1
    decreases k
  {
    if k == o + 1 {
      assert Depth(w, o, o) == 0;
    } else {
      StaysOpen(w, o, k - 1);
      assert !Ends(w, o, k - 1);
    }
  }

  /** The brace found is the matching one: what it encloses is balanced and never closes below its own level. */
  lemma BlockEndMatches(w: seq<string>, o: nat, k: nat)
    requires o < |w| && w[o] == "{" && BlockEnd(w, o, o).Some?
    ensures var c := BlockEnd(w, o, o).value;
            && o < c < |w| && w[c] == "}" && Depth(w, o + 1, c) == 0
            && (o < k <= c ==> Depth(w, o + 1, k) >= 0)
  {
    var c := BlockEnd(w, o, o).value;
    assert Depth(w, o, o) == 0 && Depth(w, o, o + 1) == 1;
    DepthSplit(w, o, o + 1, c);
    if o < k <= c {
      StaysOpen(w, o, k);
      DepthSplit(w, o, o + 1, k);
    }
  }

  /** Every prefix closes no more than it opens, and everything opened is closed. */
  ghost predicate Balanced(w: seq<string>) {
    Depth(w, 0, |w|) == 0 && forall k :: 0 <= k <= |w| ==> Depth(w, 0, k) >= 0
  }

  lemma BalancedCloses(w: seq<string>, o: nat)
    requires Balanced(w) && o < |w| && w[o] == "{"
    ensures BlockEnd(w, o, o).Some?
  {
    assert Depth(w, 0, o) >= 0;
    DepthSplit(w, 0, o, |w|);
    if BlockEnd(w, o, o).None? { StaysOpen(w, o, |w|); }
  }

  // ---------------------------------------------------------------- finding blocks

  predicate IsNamed(w: seq<string>, name: string, i: nat)
    requires AllWords(w)
  {
    i + 1 < |w| && Value(w[i]) == name && w[i + 1] == "{"
  }

  function FirstNamed(w: seq<string>, name: string, at: nat): (r: Option<nat>)
    requires AllWords(w) && at <= |w|
    ensures r.Some? ==>
            && at <= r.value && IsNamed(w, name, r.value)
            && forall i :: at <= i < r.value ==> !IsNamed(w, name, i)
    ensures r.None? ==> forall i :: at <= i < |w| ==> !IsNamed(w, name, i)
    decreases |w| - at
  {
    if at == |w| then None else if IsNamed(w, name, at) then Some(at) else FirstNamed(w, name, at + 1)
  }

  datatype Block = Missing | Unterminated | Found(opening: nat, closing: nat)

  function BlockFrom(w: seq<string>, opening: nat): Block
    requires opening <= |w|
  {
    match BlockEnd(w, opening, opening)
    case None => Unterminated
    case Some(c) => Found(opening, c)
  }

  function NamedBlock(w: seq<string>, name: string): Block
    requires AllWords(w)
  {
    match FirstNamed(w, name, 0)
    case None => Missing
    case Some(i) => BlockFrom(w, i + 1)
  }

  method FindNamedBlock(w: seq<string>, name: string) returns (r: Block)
    requires AllWords(w)
    ensures r == NamedBlock(w, name)
  {
    for index := 0 to |w| - (if w == [] then 0 else 1)
      invariant forall i :: 0 <= i < index ==> !IsNamed(w, name, i)
    {
      if Value(w[index]) == name && w[index + 1] == "{" {
        assert IsNamed(w, name, index);
        var end := FindBlockEnd(w, index + 1);
        return if end.None? then Unterminated else Found(index + 1, end.value);
      }
    }
    r := Missing;
  }

  /** A key directly inside the block opened at `o` that has a block of its own. */
  predicate ChildAt(w: seq<string>, o: nat, closing: nat, name: string, i: nat)
    requires AllWords(w) && closing <= |w|
  {
    && o < i && i + 1 < closing && Delta(w[i]) == 0 && Depth(w, o + 1, i) == 0
    && Value(w[i]) == name && w[i + 1] == "{"
  }

  function FirstChild(w: seq<string>, o: nat, closing: nat, name: string, at: nat): (r: Option<nat>)
    requires AllWords(w) && closing <= |w| && at <= closing
    ensures r.Some? ==>
            && at <= r.value && ChildAt(w, o, closing, name, r.value)
            && forall i :: at <= i < r.value ==> !ChildAt(w, o, closing, name, i)
    ensures r.None? ==> forall i :: at <= i < closing ==> !ChildAt(w, o, closing, name, i)
    decreases closing - at
  {
    if at == closing then None
    else if ChildAt(w, o, closing, name, at) then Some(at)
    else FirstChild(w, o, closing, name, at + 1)
  }

  function ChildBlock(w: seq<string>, o: nat, closing: nat, name: string): Block
    requires AllWords(w) && o < closing <= |w|
  {
    match FirstChild(w, o, closing, name, o + 1)
    case None => Missing
    case Some(i) => BlockFrom(w, i + 1)
  }

  /** The loop keeps the depth; a key counts only at depth one. */
  method FindChildBlock(w: seq<string>, o: nat, closing: nat, name: string) returns (r: Block)
    requires AllWords(w) && o < closing <= |w|
    ensures r == ChildBlock(w, o, closing, name)
  {
    var depth := 1;
    var index := o + 1;
    while index < closing
      invariant o < index <= closing && depth == 1 + Depth(w, o + 1, index)
      invariant forall i :: o + 1 <= i < index ==> !ChildAt(w, o, closing, name, i)
    {
      var current := w[index];
      if current == "{" {
        depth := depth + 1;
      } else if current == "}" {
        depth := depth - 1;
      } else if depth == 1 && Value(current) == name {
        if index + 1 < closing && w[index + 1] == "{" {
          assert ChildAt(w, o, closing, name, index);
          var end := FindBlockEnd(w, index + 1);
          return if end.None? then Unterminated else Found(index + 1, end.value);
        }
      }
      index := index + 1;
    }
    r := Missing;
  }

  predicate NameAt(w: seq<string>, i: nat)
    requires AllWords(w)
  {
    i + 1 < |w| && Value(w[i]) == "name" && IsString(w[i + 1])
  }

  /** The first "name" key among words at..to whose value is a string. */
  function FirstName(w: seq<string>, at: nat, to: nat): (r: Option<nat>)
    requires AllWords(w)
    ensures r.Some? ==> at <= r.value < to && NameAt(w, r.value) && forall i :: at <= i < r.value ==> !NameAt(w, i)
    ensures r.None? ==> forall i :: at <= i < to ==> !NameAt(w, i)
    decreases if at < to then to - at else 0
  {
    if at >= to then None else if NameAt(w, at) then Some(at) else FirstName(w, at + 1, to)
  }

  // ---------------------------------------------------------------- the decision

  datatype Plan =
    | Refuse
    | Keep(selected: string)
    | Rename(index: nat)
    | AddEntry(before: nat)
    | AddMapping(before: nat)

  predicate StartsWith(s: string, prefix: string) {
    |prefix| <= |s| && s[..|prefix|] == prefix
  }

  predicate LeavesAlone(tool: string) {
    TermuxTool(tool) || !StartsWith(tool, "proton_")
  }

  function PlanDefault(w: seq<string>, opening: nat, closing: nat): Plan
    requires AllWords(w)
  {
    match FirstName(w, opening + 1, if closing == 0 then 0 else closing - 1)
    case None => Refuse
    case Some(i) => if LeavesAlone(Value(w[i + 1])) then Keep(Value(w[i + 1])) else Rename(i + 1)
  }

  function PlanMapping(w: seq<string>, opening: nat, closing: nat): Plan
    requires AllWords(w) && opening < closing < |w|
  {
    match ChildBlock(w, opening, closing, "0")
    case Unterminated => Refuse
    case Found(o, c) => PlanDefault(w, o, c)
    case Missing => AddEntry(closing)
  }

  lemma BlockIsFound(w: seq<string>, opening: nat)
    requires opening < |w| && w[opening] == "{" && BlockFrom(w, opening).Found?
    ensures BlockFrom(w, opening).opening == opening < BlockFrom(w, opening).closing < |w|
  {
    assert Depth(w, opening, opening) == 0;
  }

  lemma NamedIsFound(w: seq<string>, name: string)
    requires AllWords(w) && NamedBlock(w, name).Found?
    ensures NamedBlock(w, name).opening < NamedBlock(w, name).closing < |w|
  {
    BlockIsFound(w, NamedBlock(w, name).opening);
  }

  /** What to do, decided on the words alone. */
  function Decide(w: seq<string>): Plan
    requires AllWords(w)
  {
    match NamedBlock(w, "CompatToolMapping")
    case Unterminated => Refuse
    case Found(o, c) =>
      NamedIsFound(w, "CompatToolMapping");
      PlanMapping(w, o, c)
    case Missing =>
      match NamedBlock(w, "Steam")
      case Found(_, c) => AddMapping(c)
      case _ => Refuse
  }

  // ---------------------------------------------------------------- the splice

  function LineStart(text: string, position: nat): (r: nat)
    requires position <= |text|
    ensures r <= position
    ensures r > 0 ==> text[r - 1] == '\n'
    ensures forall i :: r <= i < position ==> text[i] != '\n'
  {
    if position == 0 || text[position - 1] == '\n' then position else LineStart(text, position - 1)
  }

  /** What stands before the brace on its line. */
  function ClosingIndent(text: string, position: nat): string
    requires position <= |text|
  {
    text[LineStart(text, position)..position]
  }

  function Pair(indent: string, key: string, val: string): string {
    indent + Quoted(key) + "\t\t" + Quoted(val) + "\n"
  }

  function Opened(indent: string, key: string): string {
    indent + Quoted(key) + "\n" + indent + "{" + "\n"
  }

  function Fields(indent: string): string {
    Pair(indent, "name", BOX64) + Pair(indent, "config", "") + Pair(indent, "priority", "250")
  }

  function MappingEntry(indent: string): string {
    Opened(indent + "\t", "0") + Fields(indent + "\t\t") + (indent + "\t" + "}" + "\n")
  }

  function NewMapping(indent: string): string {
    Opened(indent + "\t", "CompatToolMapping") + MappingEntry(indent + "\t") + (indent + "\t" + "}" + "\n")
  }

  /** The text with one token replaced by the tool selected. */
  function Renamed(text: string, t: Token): (string, string)
    requires t.start + |t.word| <= |text|
  {
    (text[..t.start] + Quoted(BOX64) + text[t.start + |t.word|..], BOX64)
  }

  /** Where a plan edits. */
  function Target(plan: Plan): nat {
    match plan
    case Rename(i) => i
    case AddEntry(i) => i
    case AddMapping(i) => i
    case _ => 0
  }

  /** The edited text and the tool selected, or an error. */
  function Carried(text: string, plan: Plan): Result<(string, string)>
    requires plan.Rename? || plan.AddEntry? || plan.AddMapping? ==> Target(plan) < |Lex(text, 0)|
  {
    match plan
    case Refuse => Err(EINVAL)
    case Keep(selected) => Ok((text, selected))
    case Rename(i) => Ok(Renamed(text, Lex(text, 0)[i]))
    case AddEntry(i) =>
      var p := Lex(text, 0)[i].start;
      Ok((text[..p] + MappingEntry(ClosingIndent(text, p)) + text[p..], BOX64))
    case AddMapping(i) =>
      var p := Lex(text, 0)[i].start;
      Ok((text[..p] + NewMapping(ClosingIndent(text, p)) + text[p..], BOX64))
  }

  function Configure(text: string): Result<(string, string)> {
    LexWords(text);
    DecideInRange(Words(text));
    Carried(text, Decide(Words(text)))
  }

  lemma LexWords(text: string)
    ensures AllWords(Words(text)) && |Words(text)| == |Lex(text, 0)|
  {
  }

  lemma DecideInRange(w: seq<string>)
    requires AllWords(w)
    ensures var plan := Decide(w);
            && (plan.Rename? || plan.AddEntry? || plan.AddMapping? ==> Target(plan) < |w|)
            && (plan.AddEntry? || plan.AddMapping? ==> w[Target(plan)] == "}")
            && (plan.Rename? ==> IsString(w[plan.index]) && StartsWith(Value(w[plan.index]), "proton_"))
  {
    hide ChildBlock, Depth, StartsWith, TermuxTool;
    if NamedBlock(w, "CompatToolMapping").Missing? && NamedBlock(w, "Steam").Found? { NamedIsFound(w, "Steam"); }
    if NamedBlock(w, "CompatToolMapping").Found? { NamedIsFound(w, "CompatToolMapping"); }
  }

  method FindName(w: seq<string>, at: nat, to: nat) returns (r: Option<nat>)
    requires AllWords(w) && to < |w|
    ensures r == FirstName(w, at, to)
  {
    var index := at;
    while index < to
      invariant at <= index && (at <= to ==> index <= to) && forall i :: at <= i < index ==> !NameAt(w, i)
    {
      if Value(w[index]) == "name" && IsString(w[index + 1]) {
        assert NameAt(w, index);
        return Some(index);
      }
      index := index + 1;
    }
    r := None;
  }

  /** The default's tool is left alone or renamed. */
  method ConfigureDefault(text: string, tokens: seq<Token>, w: seq<string>, opening: nat, closing: nat)
    returns (r: Result<(string, string)>)
    requires tokens == Lex(text, 0) && w == WordsOf(tokens) && AllWords(w) && closing < |w|
    ensures var plan := PlanDefault(w, opening, closing);
            (plan.Rename? ==> plan.index < |w|) && !plan.AddEntry? && !plan.AddMapping? && r == Carried(text, plan)
  {
    hide FirstName, LeavesAlone, Value, Lex, Renamed, IsWord;
    var index := FindName(w, opening + 1, if closing == 0 then 0 else closing - 1);
    if index.None? { return Err(EINVAL); }
    var current := Value(w[index.value + 1]);
    if LeavesAlone(current) { return Ok((text, current)); }
    r := Ok(Renamed(text, tokens[index.value + 1]));
  }

  /** The whole edit, step by step. */
  method ConfigureText(text: string) returns (r: Result<(string, string)>)
    ensures r == Configure(text)
  {
    hide NamedBlock, ChildBlock, PlanDefault, Lex, MappingEntry, NewMapping, ClosingIndent, Renamed, AllWords;
    var tokens := Lex(text, 0);
    LexWords(text);
    var w := WordsOf(tokens);
    DecideInRange(w);
    var mapping := FindNamedBlock(w, "CompatToolMapping");
    if mapping.Unterminated? { return Err(EINVAL); }
    if mapping.Found? {
      NamedIsFound(w, "CompatToolMapping");
      var child := FindChildBlock(w, mapping.opening, mapping.closing, "0");
      if child.Unterminated? { return Err(EINVAL); }
      if child.Found? {
        ChildIsFound(w, mapping.opening, mapping.closing, "0");
        r := ConfigureDefault(text, tokens, w, child.opening, child.closing);
        return;
      }
      var position := tokens[mapping.closing].start;
      var indent := ClosingIndent(text, position);
      return Ok((text[..position] + MappingEntry(indent) + text[position..], BOX64));
    }
    var steam := FindNamedBlock(w, "Steam");
    if !steam.Found? { return Err(EINVAL); }
    NamedIsFound(w, "Steam");
    var position := tokens[steam.closing].start;
    var indent := ClosingIndent(text, position);
    r := Ok((text[..position] + NewMapping(indent) + text[position..], BOX64));
  }

  lemma ChildIsFound(w: seq<string>, o: nat, closing: nat, name: string)
    requires AllWords(w) && o < closing <= |w| && ChildBlock(w, o, closing, name).Found?
    ensures ChildBlock(w, o, closing, name).closing < |w|
  {
  }

  // ---------------------------------------------------------------- the words we write

  function Entry(): seq<string> {
    [Quoted("0"), "{",
     Quoted("name"), Quoted(BOX64), Quoted("config"), Quoted(""), Quoted("priority"), Quoted("250"), "}"]
  }

  function Mapping(): seq<string> {
    [Quoted("CompatToolMapping"), "{"] + Entry() + ["}"]
  }

  /** Solid text with just these words, and clean if so marked. */
  predicate Reads(text: string, words: seq<string>, clean: bool) {
    Solid(text) && Words(text) == words && (clean ==> Clean(text))
  }

  lemma ReadsAppend(a: string, u: seq<string>, b: string, v: seq<string>, clean: bool)
    requires Reads(a, u, clean) && Reads(b, v, clean)
    ensures Reads(a + b, u + v, clean)
  {
    WordsAppend(a, b);
  }

  lemma ReadsSpace(a: string, u: seq<string>, s: string, clean: bool)
    requires Reads(a, u, clean) && AllSpace(s)
    ensures Reads(a + s, u, clean)
  {
    SpaceWords(s);
    WordsAppend(a, s);
    assert u + [] == u;
  }

  lemma ReadsQuoted(s: string)
    requires Plain(s)
    ensures Reads(Quoted(s), [Quoted(s)], true) && Reads(Quoted(s), [Quoted(s)], false)
  {
    QuotedWord(s);
  }

  lemma ReadsBrace(w: string)
    requires w == "{" || w == "}"
    ensures Reads(w, [w], true) && Reads(w, [w], false)
  {
    BraceWord(w);
  }

  lemma PairReads(indent: string, k: seq<string>, clean: bool, key: string, val: string)
    requires Reads(indent, k, clean) && Plain(key) && Plain(val)
    ensures Reads(Pair(indent, key, val), k + [Quoted(key)] + [Quoted(val)], clean)
  {
    hide Reads, Quoted;
    ReadsQuoted(key);
    ReadsQuoted(val);
    ReadsAppend(indent, k, Quoted(key), [Quoted(key)], clean);
    ReadsSpace(indent + Quoted(key), k + [Quoted(key)], "\t\t", clean);
    ReadsAppend(indent + Quoted(key) + "\t\t", k + [Quoted(key)], Quoted(val), [Quoted(val)], clean);
    ReadsSpace(indent + Quoted(key) + "\t\t" + Quoted(val), k + [Quoted(key)] + [Quoted(val)], "\n", clean);
  }

  lemma OpenedReads(indent: string, k: seq<string>, clean: bool, key: string)
    requires Reads(indent, k, clean) && Plain(key)
    ensures Reads(Opened(indent, key), k + [Quoted(key)] + k + ["{"], clean)
  {
    hide Reads, Quoted;
    ReadsQuoted(key);
    ReadsBrace("{");
    var text, u := indent + Quoted(key), k + [Quoted(key)];
    ReadsAppend(indent, k, Quoted(key), [Quoted(key)], clean);
    ReadsSpace(text, u, "\n", clean);
    ReadsAppend(text + "\n", u, indent, k, clean);
    ReadsAppend(text + "\n" + indent, u + k, "{", ["{"], clean);
    ReadsSpace(text + "\n" + indent + "{", u + k + ["{"], "\n", clean);
  }

  lemma CloserReads(indent: string, k: seq<string>, clean: bool)
    requires Reads(indent, k, clean)
    ensures Reads(indent + "\t" + "}" + "\n", k + ["}"], clean)
  {
    hide Reads;
    ReadsBrace("}");
    ReadsSpace(indent, k, "\t", clean);
    ReadsAppend(indent + "\t", k, "}", ["}"], clean);
    ReadsSpace(indent + "\t" + "}", k + ["}"], "\n", clean);
  }

  function FieldWords(k: seq<string>): seq<string> {
    (k + [Quoted("name")] + [Quoted(BOX64)]) + (k + [Quoted("config")] + [Quoted("")]) +
        (k + [Quoted("priority")] + [Quoted("250")])
  }

  /** The words of an entry whose every line starts with the words `k`. */
  function EntryWith(k: seq<string>): seq<string> {
    (k + [Quoted("0")] + k + ["{"]) + FieldWords(k) + (k + ["}"])
  }

  function MappingWith(k: seq<string>): seq<string> {
    (k + [Quoted("CompatToolMapping")] + k + ["{"]) + EntryWith(k) + (k + ["}"])
  }

  lemma FieldsRead(indent: string, k: seq<string>, clean: bool)
    requires Reads(indent, k, clean)
    ensures Reads(Fields(indent), FieldWords(k), clean)
  {
    hide Reads, Quoted, Pair;
    PairReads(indent, k, clean, "name", BOX64);
    PairReads(indent, k, clean, "config", "");
    PairReads(indent, k, clean, "priority", "250");
    var a, b, c := k + [Quoted("name")] + [Quoted(BOX64)], k + [Quoted("config")] + [Quoted("")],
        k + [Quoted("priority")] + [Quoted("250")];
    ReadsAppend(Pair(indent, "name", BOX64), a, Pair(indent, "config", ""), b, clean);
    ReadsAppend(Pair(indent, "name", BOX64) + Pair(indent, "config", ""), a + b, Pair(indent, "priority", "250"), c,
        clean);
  }

  lemma EntryReads(indent: string, k: seq<string>, clean: bool)
    requires Reads(indent, k, clean)
    ensures Reads(MappingEntry(indent), EntryWith(k), clean)
  {
    hide Reads, Quoted, Fields, Opened, FieldWords;
    ReadsSpace(indent, k, "\t", clean);
    ReadsSpace(indent, k, "\t\t", clean);
    var open, close := k + [Quoted("0")] + k + ["{"], k + ["}"];
    OpenedReads(indent + "\t", k, clean, "0");
    FieldsRead(indent + "\t\t", k, clean);
    CloserReads(indent, k, clean);
    ReadsAppend(Opened(indent + "\t", "0"), open, Fields(indent + "\t\t"), FieldWords(k), clean);
    ReadsAppend(Opened(indent + "\t", "0") + Fields(indent + "\t\t"), open + FieldWords(k), indent + "\t" + "}" + "\n",
        close, clean);
  }

  lemma MappingReads(indent: string, k: seq<string>, clean: bool)
    requires Reads(indent, k, clean)
    ensures Reads(NewMapping(indent), MappingWith(k), clean)
  {
    hide Reads, Quoted, MappingEntry, Opened, EntryWith;
    ReadsSpace(indent, k, "\t", clean);
    var open, close := k + [Quoted("CompatToolMapping")] + k + ["{"], k + ["}"];
    OpenedReads(indent + "\t", k, clean, "CompatToolMapping");
    EntryReads(indent + "\t", k, clean);
    CloserReads(indent, k, clean);
    ReadsAppend(Opened(indent + "\t", "CompatToolMapping"), open, MappingEntry(indent + "\t"), EntryWith(k), clean);
    ReadsAppend(Opened(indent + "\t", "CompatToolMapping") + MappingEntry(indent + "\t"), open + EntryWith(k),
        indent + "\t" + "}" + "\n", close, clean);
  }

  /** With nothing but space before it on its line, exactly the entry or the mapping is written; otherwise more. */
  lemma WrittenWords(k: seq<string>)
    ensures k == [] ==> EntryWith(k) == Entry() && MappingWith(k) == Mapping()
    ensures k != [] ==> |EntryWith(k)| > |Entry()| && |MappingWith(k)| > |Mapping()|
  {
    hide Quoted;
  }
}
