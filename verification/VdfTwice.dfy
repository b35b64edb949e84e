/** The edit is minimal, and making it twice is making it once. */
module VdfTwice {
  import opened SemTypes
  import opened Vdf
  import opened VdfEdit
  import opened VdfLines

  lemma QuotedIs(s: string)
    ensures IsWord(Quoted(s)) && IsString(Quoted(s)) && Value(Quoted(s)) == s && Delta(Quoted(s)) == 0
    ensures Quoted(s) != "{" && Quoted(s) != "}"
  {
  }

  lemma {:induction false} DepthPrefix(w: seq<string>, w': seq<string>, a: nat, b: nat)
    requires b <= |w| && b <= |w'| && forall j :: a <= j < b ==> Delta(w[j]) == Delta(w'[j])
    ensures Depth(w, a, b) == Depth(w', a, b)
    decreases b
  {
    if a < b { DepthPrefix(w, w', a, b - 1); }
  }

  // ---------------------------------------------------------------- renaming

  /** A string the editor does not look for. */
  predicate Indifferent(word: string) {
    IsWord(word) && IsString(word) && Value(word) != "CompatToolMapping" && Value(word) != "0" && Value(word) != "name"
  }

  /** The same words but for one that the editor does not look for. */
  predicate Alike(w: seq<string>, w': seq<string>) {
    |w| == |w'| && forall j :: 0 <= j < |w| ==> w'[j] == w[j] || (Indifferent(w[j]) && Indifferent(w'[j]))
  }

  lemma AlikeEnd(w: seq<string>, w': seq<string>, o: nat)
    requires Alike(w, w') && o <= |w|
    ensures BlockEnd(w, o, o) == BlockEnd(w', o, o)
  {
    forall c | o <= c < |w| ensures Ends(w, o, c) <==> Ends(w', o, c) {
      DepthPrefix(w, w', o, c + 1);
    }
  }

  lemma AlikeNamed(w: seq<string>, w': seq<string>)
    requires AllWords(w) && AllWords(w') && Alike(w, w')
    ensures NamedBlock(w, "CompatToolMapping") == NamedBlock(w', "CompatToolMapping")
  {
    forall j: nat ensures IsNamed(w, "CompatToolMapping", j) <==> IsNamed(w', "CompatToolMapping", j) {}
    assert FirstNamed(w, "CompatToolMapping", 0) == FirstNamed(w', "CompatToolMapping", 0);
    if FirstNamed(w, "CompatToolMapping", 0).Some? { AlikeEnd(w, w', FirstNamed(w, "CompatToolMapping", 0).value + 1); }
  }

  lemma AlikeChild(w: seq<string>, w': seq<string>, o: nat, c: nat)
    requires AllWords(w) && AllWords(w') && Alike(w, w') && o < c <= |w|
    ensures ChildBlock(w, o, c, "0") == ChildBlock(w', o, c, "0")
  {
    hide Alike, AllWords, FirstChild, BlockEnd, Depth, Value;
    AlikeFirst(w, w', o, c);
    if FirstChild(w, o, c, "0", o + 1).Some? { AlikeEnd(w, w', FirstChild(w, o, c, "0", o + 1).value + 1); }
  }

  lemma AlikeFirst(w: seq<string>, w': seq<string>, o: nat, c: nat)
    requires AllWords(w) && AllWords(w') && Alike(w, w') && o < c <= |w|
    ensures FirstChild(w, o, c, "0", o + 1) == FirstChild(w', o, c, "0", o + 1)
  {
    hide FirstChild, Depth, Delta, Value, AllWords, Indifferent;
    forall j: nat | j < c ensures ChildAt(w, o, c, "0", j) <==> ChildAt(w', o, c, "0", j) {
      AlikeAt(w, w', o, c, j);
    }
  }

  lemma AlikeAt(w: seq<string>, w': seq<string>, o: nat, c: nat, j: nat)
    requires AllWords(w) && AllWords(w') && Alike(w, w') && j < c <= |w|
    ensures ChildAt(w, o, c, "0", j) <==> ChildAt(w', o, c, "0", j)
  {
    hide Depth;
    DepthPrefix(w, w', o + 1, j);
  }

  lemma AlikeName(w: seq<string>, w': seq<string>, a: nat, b: nat)
    requires AllWords(w) && AllWords(w') && Alike(w, w')
    ensures FirstName(w, a, b) == FirstName(w', a, b)
  {
    hide FirstName;
    forall j: nat ensures NameAt(w, j) <==> NameAt(w', j) {}
    FirstNameSame(w, w', a, b);
  }

  lemma FirstNameSame(w: seq<string>, w': seq<string>, a: nat, b: nat)
    requires AllWords(w) && AllWords(w') && forall j: nat :: NameAt(w, j) <==> NameAt(w', j)
    ensures FirstName(w, a, b) == FirstName(w', a, b)
  {
    hide NameAt, FirstName;
  }

  /** A "proton_" tool and the tool selected are nothing the editor looks for. */
  lemma ToolsIndifferent(word: string)
    requires IsWord(word) && IsString(word) && StartsWith(Value(word), "proton_")
    ensures Indifferent(word) && Indifferent(Quoted(BOX64))
  {
    assert "CompatToolMapping"[0] != 'p';
    QuotedIs(BOX64);
    assert BOX64[0] == 'p';
  }

  /** The plan to rename says where the mapping, its default and the default's tool are. */
  lemma RenameMeans(w: seq<string>)
    requires AllWords(w) && Decide(w).Rename?
    ensures var m := NamedBlock(w, "CompatToolMapping");
            && m.Found? && m.opening < m.closing < |w|
            && var d := ChildBlock(w, m.opening, m.closing, "0");
               d.Found? && FirstName(w, d.opening + 1, Last(d.closing)) == Some(Decide(w).index - 1)
  {
    hide NamedBlock, ChildBlock, FirstName, LeavesAlone, AllWords, IsString, Value, IsWord;
    NamedIsFound(w, "CompatToolMapping");
  }

  function Last(closing: nat): nat {
    if closing == 0 then 0 else closing - 1
  }

  lemma KeepsBox(w: seq<string>, i: nat)
    requires AllWords(w) && i < |w| && w[i] == Quoted(BOX64)
    requires var m := NamedBlock(w, "CompatToolMapping");
             && m.Found? && m.opening < m.closing < |w|
             && var d := ChildBlock(w, m.opening, m.closing, "0");
                d.Found? && FirstName(w, d.opening + 1, Last(d.closing)) == Some(i - 1)
    ensures Decide(w) == Keep(BOX64)
  {
    hide NamedBlock, ChildBlock, PlanDefault, FirstName, AllWords, Quoted;
    var m := NamedBlock(w, "CompatToolMapping");
    var d := ChildBlock(w, m.opening, m.closing, "0");
    DefaultKeepsBox(w, d.opening, d.closing, i);
  }

  lemma DefaultKeepsBox(w: seq<string>, o: nat, c: nat, i: nat)
    requires AllWords(w) && i < |w| && w[i] == Quoted(BOX64) && FirstName(w, o + 1, Last(c)) == Some(i - 1)
    ensures PlanDefault(w, o, c) == Keep(BOX64)
  {
    QuotedIs(BOX64);
    hide FirstName, IsWord, Quoted, Value, NameAt, StartsWith;
  }

  /** After the default's tool is renamed, the same mapping, default and name are found, and the tool is left alone. */
  lemma RenamedKeeps(w: seq<string>)
    requires AllWords(w) && Decide(w).Rename?
    ensures var w' := w[Decide(w).index := Quoted(BOX64)];
            Decide(w).index < |w| && AllWords(w') && Decide(w') == Keep(BOX64)
  {
    hide NamedBlock, ChildBlock, FirstName, Quoted, Value, NameAt, IsWord, Decide, StartsWith, Indifferent, IsString;
    DecideInRange(w);
    RenameMeans(w);
    var i := Decide(w).index;
    ToolsIndifferent(w[i]);
    QuotedIs(BOX64);
    var w' := w[i := Quoted(BOX64)];
    assert AllWords(w') && Alike(w, w');
    var m := NamedBlock(w, "CompatToolMapping");
    AlikeNamed(w, w');
    AlikeChild(w, w', m.opening, m.closing);
    var d := ChildBlock(w, m.opening, m.closing, "0");
    AlikeName(w, w', d.opening + 1, Last(d.closing));
    KeepsBox(w', i);
  }

  // ---------------------------------------------------------------- inserting

  function Inserted(w: seq<string>, c: nat, extra: seq<string>): (r: seq<string>)
    requires c <= |w|
    ensures |r| == |w| + |extra|
    ensures forall j :: 0 <= j < c ==> r[j] == w[j]
    ensures forall j :: 0 <= j < |extra| ==> r[c + j] == extra[j]
    ensures forall j :: c <= j < |w| ==> r[|extra| + j] == w[j]
  {
    w[..c] + extra + w[c..]
  }

  lemma EntryIs()
    ensures |Entry()| == 9 && AllWords(Entry()) && Entry()[0] == Quoted("0") && Entry()[1] == "{"
            && Entry()[2] == Quoted("name")
    ensures Entry()[3] == Quoted(BOX64) && Entry()[8] == "}"
    ensures forall j :: 0 <= j < 9 && j != 1 && j != 8 ==> Delta(Entry()[j]) == 0 && Entry()[j] != "}"
  {
    QuotedIs("0");
    QuotedIs("name");
    QuotedIs(BOX64);
    QuotedIs("config");
    QuotedIs("");
    QuotedIs("priority");
    QuotedIs("250");
  }

  /** The entry stands at `c`. */
  predicate EntryAt(w: seq<string>, c: nat) {
    c + 9 <= |w| && forall j :: 0 <= j < 9 ==> w[c + j] == Entry()[j]
  }

  /** Nesting inside the entry, counted from any earlier word. */
  lemma {:induction false} EntryDepth(w: seq<string>, a: nat, c: nat, k: nat)
    requires EntryAt(w, c) && a <= c && c <= k <= c + 9
    ensures Depth(w, a, k) == Depth(w, a, c) + if c + 2 <= k <= c + 8 then 1 else 0
    decreases k
  {
    EntryIs();
    if k > c {
      EntryDepth(w, a, c, k - 1);
      assert w[c + (k - 1 - c)] == Entry()[k - 1 - c];
    }
  }

  /** An entry directly inside a mapping that has no earlier default is found, and its tool is left alone. */
  lemma EntryKept(w: seq<string>, o: nat, c: nat, closing: nat)
    requires AllWords(w) && EntryAt(w, c) && o < c && c + 9 <= closing < |w|
    requires Depth(w, o + 1, c) == 0
    requires forall j :: o < j < c ==> !ChildAt(w, o, closing, "0", j)
    ensures PlanMapping(w, o, closing) == Keep(BOX64)
  {
    hide Depth, Quoted, Entry, Delta, IsWord, Value, BlockEnd;
    EntryIs();
    assert w[c + 0] == Entry()[0] && w[c + 1] == "{" && w[c + 2] == Entry()[2] && w[c + 3] == Entry()[3]
           && w[c + 8] == "}";
    QuotedIs("0");
    QuotedIs("name");
    QuotedIs(BOX64);
    assert ChildAt(w, o, closing, "0", c);
    assert FirstChild(w, o, closing, "0", o + 1) == Some(c);
    EntryEnd(w, c);
    assert NameAt(w, c + 2);
    assert FirstName(w, c + 2, c + 7) == Some(c + 2);
  }

  lemma EntryEnd(w: seq<string>, c: nat)
    requires EntryAt(w, c)
    ensures BlockEnd(w, c + 1, c + 1) == Some(c + 8)
  {
    EntryIs();
    assert w[c + 8] == Entry()[8];
    EntryDepth(w, c, c, c + 9);
    DepthSplit(w, c, c + 1, c + 9);
    EntryDepth(w, c, c, c + 1);
    assert Ends(w, c + 1, c + 8);
    var o := c + 1;
    forall k | o <= k < c + 8 ensures !Ends(w, o, k) {
      assert w[c + (k - c)] == Entry()[k - c];
    }
  }

  lemma AddEntryMeans(w: seq<string>)
    requires AllWords(w) && Decide(w).AddEntry?
    ensures var m := NamedBlock(w, "CompatToolMapping");
            && m.Found? && 0 < m.opening < m.closing < |w| && m.closing == Decide(w).before
            && w[m.opening] == "{" && FirstNamed(w, "CompatToolMapping", 0) == Some(m.opening - 1)
            && BlockEnd(w, m.opening, m.opening) == Some(m.closing)
            && FirstChild(w, m.opening, m.closing, "0", m.opening + 1).None?
  {
    hide NamedBlock, ChildBlock, FirstName, LeavesAlone, IsWord, IsString, Value, FirstNamed, FirstChild, BlockEnd,
         AllWords;
    NamedIsFound(w, "CompatToolMapping");
    FoundMeans(w, "CompatToolMapping");
    var m := NamedBlock(w, "CompatToolMapping");
    MissingMeans(w, m.opening, m.closing);
  }

  lemma FoundMeans(w: seq<string>, name: string)
    requires AllWords(w) && NamedBlock(w, name).Found?
    ensures var m := NamedBlock(w, name);
            && 0 < m.opening < |w| && w[m.opening] == "{" && FirstNamed(w, name, 0) == Some(m.opening - 1)
            && BlockEnd(w, m.opening, m.opening) == Some(m.closing)
  {
    hide FirstNamed, BlockEnd, Depth, AllWords, IsWord, Value;
  }

  lemma MissingMeans(w: seq<string>, o: nat, c: nat)
    requires AllWords(w) && o < c <= |w| && ChildBlock(w, o, c, "0").Missing?
    ensures FirstChild(w, o, c, "0", o + 1).None?
  {
    hide FirstChild, BlockEnd, AllWords, Depth, Value;
  }

  lemma KeepsMapping(w: seq<string>, o: nat, c: nat)
    requires AllWords(w) && 0 < o < c < |w| && FirstNamed(w, "CompatToolMapping", 0) == Some(o - 1)
             && BlockEnd(w, o, o) == Some(c)
    requires PlanMapping(w, o, c) == Keep(BOX64)
    ensures Decide(w) == Keep(BOX64)
  {
    hide FirstNamed, BlockEnd, PlanMapping;
  }

  /** After an entry is added to the mapping, the mapping is found where it was, one entry longer, and keeps its
      default. */
  lemma AddedEntryKeeps(w: seq<string>)
    requires AllWords(w) && Decide(w).AddEntry?
    ensures var c := Decide(w).before;
            c < |w| && AllWords(Inserted(w, c, Entry())) && Decide(Inserted(w, c, Entry())) == Keep(BOX64)
  {
    hide Entry, Inserted, IsWord, Depth, Decide, NamedBlock, FirstNamed, FirstChild, BlockEnd, Ends, PlanMapping,
         ChildAt;
    EntryIs();
    AddEntryMeans(w);
    var m := NamedBlock(w, "CompatToolMapping");
    var o, c := m.opening, m.closing;
    var w' := Inserted(w, c, Entry());
    AllInserted(w, c, Entry());
    assert EntryAt(w', c);
    NamedBefore(w, w', c, "CompatToolMapping");
    EndMoves(w, o, c);
    DepthPrefix(w, w', o + 1, c);
    BlockEndMatches(w, o, o);
    NoEarlierChild(w, o, c, c + 9);
    EntryKept(w', o, c, c + 9);
    KeepsMapping(w', o, c + 9);
  }

  /** Keys before the entry are children after the insertion only if they were before. */
  lemma NoEarlierChild(w: seq<string>, o: nat, c: nat, closing: nat)
    requires AllWords(w) && o < c < |w| && AllWords(Inserted(w, c, Entry()))
             && c + 9 <= closing <= |Inserted(w, c, Entry())|
    requires FirstChild(w, o, c, "0", o + 1).None?
    ensures forall j :: o < j < c ==> !ChildAt(Inserted(w, c, Entry()), o, closing, "0", j)
  {
    EntryIs();
    QuotedIs("0");
    hide Entry, Value, IsWord, Quoted, Depth, Inserted;
    var w' := Inserted(w, c, Entry());
    assert w'[c + 0] == Entry()[0];
    forall j | o < j < c ensures !ChildAt(w', o, closing, "0", j) {
      DepthPrefix(w, w', o + 1, j);
      assert !ChildAt(w, o, c, "0", j);
    }
  }

  lemma AllInserted(w: seq<string>, c: nat, extra: seq<string>)
    requires AllWords(w) && AllWords(extra) && c <= |w|
    ensures AllWords(Inserted(w, c, extra))
  {
    var w' := Inserted(w, c, extra);
    forall j | 0 <= j < |w'| ensures IsWord(w'[j]) {
      if j < c {
        assert w'[j] == w[j];
      } else if j < c + |extra| {
        assert w'[c + (j - c)] == extra[j - c];
      } else {
        assert w'[|extra| + (j - |extra|)] == w[j - |extra|];
      }
    }
  }

  /** Words that agree up to `c` name the same first block if it opens before `c`. */
  lemma NamedBefore(w: seq<string>, w': seq<string>, c: nat, name: string)
    requires AllWords(w) && AllWords(w') && c <= |w| && c <= |w'| && forall j :: 0 <= j < c ==> w[j] == w'[j]
    requires FirstNamed(w, name, 0).Some? && FirstNamed(w, name, 0).value + 1 < c
    ensures FirstNamed(w', name, 0) == FirstNamed(w, name, 0)
  {
    var i := FirstNamed(w, name, 0).value;
    assert IsNamed(w', name, i);
    forall j | 0 <= j < i ensures !IsNamed(w', name, j) {
      assert !IsNamed(w, name, j);
    }
  }

  lemma DepthStep(w: seq<string>, a: nat, b: nat)
    requires a <= b < |w|
    ensures Depth(w, a, b + 1) == Depth(w, a, b) + Delta(w[b])
  {
  }

  /** The mapping's closing brace moves by the length of the entry. */
  lemma EndMoves(w: seq<string>, o: nat, c: nat)
    requires o < |w| && w[o] == "{" && BlockEnd(w, o, o) == Some(c)
    ensures c < |w| && BlockEnd(Inserted(w, c, Entry()), o, o) == Some(c + 9)
  {
    hide Entry, Inserted, Depth;
    EntryIs();
    BlockEndMatches(w, o, o);
    var w' := Inserted(w, c, Entry());
    assert EntryAt(w', c);
    assert w'[9 + c] == w[c];
    DepthStep(w, o, c);
    DepthStep(w', o, c + 9);
    DepthPrefix(w, w', o, c);
    EntryDepth(w', o, c, c + 9);
    forall k | o <= k < c + 9 ensures !Ends(w', o, k) {
      if k < c {
        DepthPrefix(w, w', o, k + 1);
        assert !Ends(w, o, k);
      } else {
        EntryDepth(w', o, c, k + 1);
      }
    }
    FirstEnd(w', o, c + 9);
  }

  lemma FirstEnd(w: seq<string>, o: nat, c: nat)
    requires Ends(w, o, c) && forall k :: o <= k < c ==> !Ends(w, o, k)
    ensures BlockEnd(w, o, o) == Some(c)
  {
    hide Ends, BlockEnd;
    EndsRange(w, o, c);
  }

  lemma EndsRange(w: seq<string>, o: nat, c: nat)
    requires Ends(w, o, c)
    ensures o <= c < |w|
  {
  }

  lemma MappingIs()
    ensures |Mapping()| == 12 && AllWords(Mapping()) && Mapping()[0] == Quoted("CompatToolMapping")
            && Mapping()[1] == "{" && Mapping()[11] == "}"
    ensures forall j :: 0 <= j < 9 ==> Mapping()[2 + j] == Entry()[j]
  {
    EntryIs();
    QuotedIs("CompatToolMapping");
  }

  lemma AddMappingMeans(w: seq<string>)
    requires AllWords(w) && Decide(w).AddMapping?
    ensures FirstNamed(w, "CompatToolMapping", 0).None? && Decide(w).before < |w|
  {
    hide FirstNamed, BlockEnd, FirstName, FirstChild, LeavesAlone, AllWords;
    DecideInRange(w);
  }

  /** After a whole mapping is added to a text that had none, it is the first found, and its default is kept. */
  lemma AddedMappingKeeps(w: seq<string>)
    requires AllWords(w) && Decide(w).AddMapping?
    ensures var c := Decide(w).before;
            c < |w| && AllWords(Inserted(w, c, Mapping())) && Decide(Inserted(w, c, Mapping())) == Keep(BOX64)
  {
    hide Entry, Mapping, Inserted, IsWord, Decide, FirstNamed, FirstChild, BlockEnd, Ends, PlanMapping, ChildAt;
    MappingIs();
    EntryIs();
    AddMappingMeans(w);
    var c := Decide(w).before;
    var w' := Inserted(w, c, Mapping());
    AllInserted(w, c, Mapping());
    NewIsFirst(w, c);
    assert w'[c + 1] == "{" && w'[c + 11] == "}";
    forall j | 0 <= j < 9 ensures w'[c + 2 + j] == Entry()[j] { assert w'[c + (2 + j)] == Mapping()[2 + j]; }
    assert EntryAt(w', c + 2);
    NewEnd(w', c + 1);
    assert Depth(w', c + 2, c + 2) == 0;
    EntryKept(w', c + 1, c + 2, c + 11);
    KeepsMapping(w', c + 1, c + 11);
  }

  lemma NewIsFirst(w: seq<string>, c: nat)
    requires AllWords(w) && c < |w| && FirstNamed(w, "CompatToolMapping", 0).None?
             && AllWords(Inserted(w, c, Mapping()))
    ensures FirstNamed(Inserted(w, c, Mapping()), "CompatToolMapping", 0) == Some(c)
  {
    MappingIs();
    QuotedIs("CompatToolMapping");
    hide Mapping, Inserted, Quoted, Value, IsWord, FirstNamed, AllWords;
    var w' := Inserted(w, c, Mapping());
    assert w'[c + 0] == Mapping()[0] && w'[c + 1] == Mapping()[1];
    assert IsNamed(w', "CompatToolMapping", c);
    forall j | 0 <= j < c ensures !IsNamed(w', "CompatToolMapping", j) {
      assert !IsNamed(w, "CompatToolMapping", j);
    }
  }

  lemma NewEnd(w: seq<string>, o: nat)
    requires EntryAt(w, o + 1) && o + 10 < |w| && w[o] == "{" && w[o + 10] == "}"
    ensures BlockEnd(w, o, o) == Some(o + 10)
  {
    assert Depth(w, o, o) == 0 && Depth(w, o, o + 1) == 1;
    EntryDepth(w, o, o + 1, o + 10);
    assert Ends(w, o, o + 10);
    forall k | o <= k < o + 10 ensures !Ends(w, o, k) {
      if k > o { EntryDepth(w, o, o + 1, k + 1); }
    }
  }

  // ---------------------------------------------------------------- the text

  /** What stands before the brace that the edit is spliced before. */
  function SpliceIndent(text: string): string {
    LexWords(text);
    DecideInRange(Words(text));
    var plan := Decide(Words(text));
    if plan.AddEntry? || plan.AddMapping? then ClosingIndent(text, Lex(text, 0)[Target(plan)].start) else ""
  }

  /** The brace the edit is spliced before, if there is one, is the first thing on its line. */
  predicate SpliceOk(text: string) {
    AllSpace(SpliceIndent(text))
  }

  /** What the plan does to the words. */
  function Edited(w: seq<string>, plan: Plan): seq<string>
    requires Target(plan) < |w| || plan.Keep? || plan.Refuse?
  {
    match plan
    case Rename(i) => w[i := Quoted(BOX64)]
    case AddEntry(i) => Inserted(w, i, Entry())
    case AddMapping(i) => Inserted(w, i, Mapping())
    case _ => w
  }

  /** A successful run replaces at most one word, or inserts one entry or one mapping before one brace, and leaves
      every other word and its order alone. */
  lemma EditIsMinimal(text: string)
    requires Clean(text) && SpliceOk(text) && Configure(text).Ok?
    ensures AllWords(Words(text))
    ensures var plan := Decide(Words(text));
            var after := Configure(text).value.0;
            && (Target(plan) < |Words(text)| || plan.Keep?)
            && Clean(after) && Words(after) == Edited(Words(text), plan)
            && (plan.Keep? ==> after == text)
  {
    hide Decide, Words, Clean, Lex, MappingEntry, NewMapping, Quoted, AllWords, ClosingIndent, Inserted, Entry, Mapping,
         AllSpace, EntryWith, MappingWith;
    LexWords(text);
    DecideInRange(Words(text));
    match Decide(Words(text))
    case Rename(i) =>
      BoxPlain();
      QuotedWord(BOX64);
      ReplaceWord(text, i, Quoted(BOX64));
    case AddEntry(i) =>
      var indent := ClosingIndent(text, Lex(text, 0)[i].start);
      SpaceWords(indent);
      WrittenWords([]);
      EntryText(text, i, indent, [], true);
    case AddMapping(i) =>
      var indent := ClosingIndent(text, Lex(text, 0)[i].start);
      SpaceWords(indent);
      WrittenWords([]);
      MappingText(text, i, indent, [], true);
    case _ =>
  }

  /** An entry written with a solid indent that has the words `k`. */
  lemma EntryText(text: string, i: nat, indent: string, k: seq<string>, clean: bool)
    requires Clean(text) && i < |Lex(text, 0)| && Reads(indent, k, clean)
    ensures var p := Lex(text, 0)[i].start;
            && p <= |text| && i < |Words(text)|
            && (clean ==> Clean(text[..p] + MappingEntry(indent) + text[p..]))
            && Words(text[..p] + MappingEntry(indent) + text[p..]) == Inserted(Words(text), i, EntryWith(k))
  {
    hide Clean, Solid, MappingEntry, EntryWith, Words, Lex;
    LexWords(text);
    EntryReads(indent, k, clean);
    InsertWords(text, i, MappingEntry(indent));
  }

  lemma MappingText(text: string, i: nat, indent: string, k: seq<string>, clean: bool)
    requires Clean(text) && i < |Lex(text, 0)| && Reads(indent, k, clean)
    ensures var p := Lex(text, 0)[i].start;
            && p <= |text| && i < |Words(text)|
            && (clean ==> Clean(text[..p] + NewMapping(indent) + text[p..]))
            && Words(text[..p] + NewMapping(indent) + text[p..]) == Inserted(Words(text), i, MappingWith(k))
  {
    hide Clean, Solid, NewMapping, MappingWith, Words, Lex;
    LexWords(text);
    MappingReads(indent, k, clean);
    InsertWords(text, i, NewMapping(indent));
  }

  /** The edited text reads as the plan says. */
  predicate ReadsAsPlanned(text: string)
    requires AllWords(Words(text)) && Configure(text).Ok? && Target(Decide(Words(text))) < |Words(text)|
  {
    Words(Configure(text).value.0) == Edited(Words(text), Decide(Words(text)))
  }

  /** What the edit splices in. */
  function Written(plan: Plan, indent: string): string {
    if plan.AddEntry? then MappingEntry(indent) else NewMapping(indent)
  }

  /** The first string of it. */
  function FirstKey(plan: Plan): string {
    if plan.AddEntry? then "0" else "CompatToolMapping"
  }

  /** An insertion is minimal if and only if the brace it is spliced before comes first on its line, even where that
      line starts inside a string. */
  lemma MinimalIff(text: string)
    requires Clean(text) && AllWords(Words(text)) && (Decide(Words(text)).AddEntry? || Decide(Words(text)).AddMapping?)
    ensures Target(Decide(Words(text))) < |Words(text)| && Configure(text).Ok?
    ensures ReadsAsPlanned(text) <==> AllSpace(SpliceIndent(text))
  {
    LexWords(text);
    DecideInRange(Words(text));
    Selects(text);
    hide Decide, Words, Clean, Solid, Lex, AllWords, ReadsAsPlanned, AllSpace, Configure, SpliceIndent;
    var indent := SpliceIndent(text);
    IndentCases(text);
    if Clean(indent) {
      SpaceIff(indent);
      SolidIff(text, indent);
    } else if Solid(indent) && Words(indent) != [] {
      SolidIff(text, indent);
    } else {
      var f: nat :| Off(indent, f);
      OffIsNotPlanned(text, f);
    }
  }

  lemma IndentCases(text: string)
    requires Clean(text) && AllWords(Words(text)) && (Decide(Words(text)).AddEntry? || Decide(Words(text)).AddMapping?)
    ensures var indent := SpliceIndent(text);
            || Clean(indent)
            || (!AllSpace(indent) && Solid(indent) && Words(indent) != [])
            || (!AllSpace(indent) && exists f: nat :: Off(indent, f))
  {
    hide Decide, Words, Clean, Solid, Lex, AllWords, AllSpace, Off;
    LexWords(text);
    DecideInRange(Words(text));
    var i := Target(Decide(Words(text)));
    var p := Lex(text, 0)[i].start;
    CutAt(text, i);
    var cut := LineStart(text, p);
    assert text[..p][cut..] == text[cut..p];
    LineCases(text[..p], cut);
  }

  /** Behind an indent that reads as words of its own, exactly the plan is written if and only if there are none. */
  lemma SolidIff(text: string, indent: string)
    requires Clean(text) && AllWords(Words(text)) && (Decide(Words(text)).AddEntry? || Decide(Words(text)).AddMapping?)
    requires indent == SpliceIndent(text) && Solid(indent) && Configure(text).Ok?
             && Target(Decide(Words(text))) < |Words(text)|
    ensures ReadsAsPlanned(text) <==> Words(indent) == []
  {
    hide Decide, Words, Clean, Solid, Lex, MappingEntry, NewMapping, AllWords, ClosingIndent, Inserted, Entry, Mapping,
         EntryWith, MappingWith, AllSpace;
    LexWords(text);
    DecideInRange(Words(text));
    var k := Words(indent);
    WrittenWords(k);
    match Decide(Words(text))
    case AddEntry(i) =>
      EntryText(text, i, indent, k, false);
      InsertedLength(Words(text), i, EntryWith(k), Entry());
    case AddMapping(i) =>
      MappingText(text, i, indent, k, false);
      InsertedLength(Words(text), i, MappingWith(k), Mapping());
    case _ =>
  }

  lemma InsertedLength(w: seq<string>, i: nat, a: seq<string>, b: seq<string>)
    requires i <= |w|
    ensures |a| > |b| ==> Inserted(w, i, a) != Inserted(w, i, b)
  {
  }

  /** Behind an indent that leaves a string open or begins with a brace, the first word is not the one planned. */
  lemma OffIsNotPlanned(text: string, f: nat)
    requires Clean(text) && AllWords(Words(text)) && (Decide(Words(text)).AddEntry? || Decide(Words(text)).AddMapping?)
    requires Off(SpliceIndent(text), f) && Configure(text).Ok? && Target(Decide(Words(text))) < |Words(text)|
    ensures !ReadsAsPlanned(text)
  {
    hide Decide, Words, Clean, Solid, Lex, MappingEntry, NewMapping, AllWords, ClosingIndent, Inserted, Entry, Mapping,
         Off, Quoted;
    LexWords(text);
    DecideInRange(Words(text));
    var plan := Decide(Words(text));
    var i, indent := Target(plan), SpliceIndent(text);
    var p := Lex(text, 0)[i].start;
    CutAt(text, i);
    var rest := WrittenRest(plan, indent);
    var tail := rest + text[p..];
    var written := indent + "\t" + Quoted(FirstKey(plan));
    assert Configure(text).value.0 == text[..p] + (written + tail);
    WordsAppend(text[..p], written + tail);
    OffWord(indent, f, FirstKey(plan), tail);
    EntryIs();
    MappingIs();
    assert Words(text[..p]) == Words(text)[..i];
    assert Words(Configure(text).value.0)[i] != Quoted(FirstKey(plan));
  }

  lemma WrittenRest(plan: Plan, indent: string) returns (rest: string)
    requires plan.AddEntry? || plan.AddMapping?
    ensures Written(plan, indent) == indent + "\t" + Quoted(FirstKey(plan)) + rest
  {
    hide Fields, Quoted;
    var head := indent + "\t" + Quoted(FirstKey(plan));
    rest := Written(plan, indent)[|head|..];
    assert Written(plan, indent)[..|head|] == head;
  }

  lemma BoxPlain()
    ensures Plain(BOX64)
  {
  }

  /** Running it again changes nothing and reports the same tool. */
  lemma ConfigureTwice(text: string)
    requires Clean(text) && SpliceOk(text) && Configure(text).Ok?
    ensures Configure(Configure(text).value.0) == Configure(text)
  {
    hide Decide, Words, Clean, Lex, Quoted, AllWords, Inserted, Entry, Mapping, SpliceOk, Configure;
    EditIsMinimal(text);
    var w := Words(text);
    var after := Configure(text).value.0;
    LexWords(after);
    Selects(text);
    Selects(after);
    match Decide(w)
    case Rename(i) => RenamedKeeps(w);
    case AddEntry(i) => AddedEntryKeeps(w);
    case AddMapping(i) => AddedMappingKeeps(w);
    case _ =>
  }

  /** A plan that keeps the text keeps it; any other selects the new tool. */
  lemma Selects(text: string)
    requires AllWords(Words(text))
    ensures var plan := Decide(Words(text));
            && (plan.Refuse? <==> Configure(text).Err?)
            && (plan.Keep? ==> Configure(text) == Ok((text, plan.selected)))
            && (Configure(text).Ok? && !plan.Keep? ==> Configure(text).value.1 == BOX64)
  {
    hide Decide, Words, Lex;
  }

  // ---------------------------------------------------------------- a brace that is not first on its line

  /** On one line, the copied indent carries the line's words along: the mapping's own key is written again. */
  lemma OneLineIsNotMinimal()
    ensures var text := Quoted("CompatToolMapping") + "{" + "}";
            && Clean(text) && AllWords(Words(text)) && Decide(Words(text)) == AddEntry(2) && |Words(text)| == 3
            && Configure(text).Ok? && Words(Configure(text).value.0) != Edited(Words(text), AddEntry(2))
  {
    hide Words, Clean, Solid, AllWords, Decide, Quoted, Configure, Entry;
    var head := Quoted("CompatToolMapping") + "{";
    OneLineWords();
    OneLinePlan();
    var rest := OneLineAfter();
    WordsAppend(head, head + rest);
    WordsAppend(head, rest);
    EntryIs();
    QuotedIs("0");
    QuotedIs("CompatToolMapping");
    assert Edited(Words(head + "}"), AddEntry(2))[2 + 0] == Quoted("0");
  }

  lemma OneLineAfter() returns (rest: string)
    ensures var head := Quoted("CompatToolMapping") + "{";
            Configure(head + "}").Ok? && Configure(head + "}").value.0 == head + (head + rest)
  {
    hide Words, Clean, Lex, Decide, Quoted, ClosingIndent, MappingEntry, AllWords, IsWord, Renamed;
    var head := Quoted("CompatToolMapping") + "{";
    var text := head + "}";
    OneLineWords();
    OneLinePlan();
    LexWords(text);
    assert Configure(text) == Carried(text, AddEntry(2));
    OneLineAt();
    OneLineIndent();
    EntryStarts(head);
    rest := MappingEntry(head)[|head|..] + "}";
    HeadAgain(head, MappingEntry(head), "}");
  }

  lemma HeadAgain(head: string, entry: string, tail: string)
    requires |head| <= |entry| && entry[..|head|] == head
    ensures var text := head + tail;
            text[..|head|] + entry + text[|head|..] == head + (head + (entry[|head|..] + tail))
  {
    assert (head + tail)[..|head|] == head && (head + tail)[|head|..] == tail;
    assert entry == head + entry[|head|..];
  }

  lemma EntryStarts(indent: string)
    ensures |indent| <= |MappingEntry(indent)| && MappingEntry(indent)[..|indent|] == indent
  {
    hide Fields, Quoted;
  }

  lemma OneLineWords()
    ensures var key := Quoted("CompatToolMapping");
            && Clean(key) && Words(key) == [key] && Clean(key + "{") && Words(key + "{") == [key, "{"]
            && Clean(key + "{" + "}") && Words(key + "{" + "}") == [key, "{", "}"]
  {
    hide Words, Clean, Quoted;
    QuotedWord("CompatToolMapping");
    BraceWord("{");
    BraceWord("}");
    WordsAppend(Quoted("CompatToolMapping"), "{");
    WordsAppend(Quoted("CompatToolMapping") + "{", "}");
  }

  lemma OneLinePlan()
    ensures var w := [Quoted("CompatToolMapping"), "{", "}"]; AllWords(w) && Decide(w) == AddEntry(2)
  {
    var w := [Quoted("CompatToolMapping"), "{", "}"];
    QuotedIs("CompatToolMapping");
    assert IsNamed(w, "CompatToolMapping", 0);
    assert Depth(w, 1, 1) == 0 && Depth(w, 1, 2) == 1 && Depth(w, 1, 3) == 0;
    assert !Ends(w, 1, 1) && Ends(w, 1, 2);
    assert BlockEnd(w, 1, 1) == Some(2);
  }

  lemma OneLineAt()
    ensures var text := Quoted("CompatToolMapping") + "{" + "}";
            |Lex(text, 0)| == 3 && Lex(text, 0)[2].start == |text| - 1
  {
    var head := Quoted("CompatToolMapping") + "{";
    OneLineWords();
    LexAppend(head, "}", 0);
    LexWords(head);
    LexWords("}");
    BraceWord("}");
  }

  lemma OneLineIndent()
    ensures var text := Quoted("CompatToolMapping") + "{" + "}";
            ClosingIndent(text, |text| - 1) == Quoted("CompatToolMapping") + "{"
  {
    var text := Quoted("CompatToolMapping") + "{" + "}";
    var start := LineStart(text, |text| - 1);
    assert text[..|text| - 1] == Quoted("CompatToolMapping") + "{";
  }
}
