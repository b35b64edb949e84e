/**
 What a line of clean text can begin with: the words of the line, or, when the
 line starts inside a string, the tail of that string. In no such tail is the
 text the editor writes after it read as written.
 */
module VdfLines {
  import opened SemTypes
  import opened Vdf

  // ---------------------------------------------------------------- lines that start inside a string

  /** A cut of clean text falls between tokens or inside one. */
  lemma {:induction false} Straddle(x: string, at: nat, cut: nat)
    requires at <= cut <= |x| && CleanFrom(x, at)
    ensures CleanFrom(x, cut) || exists s: nat, t: nat :: Straddles(x, cut, s, t)
    decreases |x| - at
  {
    if at < cut {
      match TokenEnd(x, at)
      case Some(e) => if e <= cut { Straddle(x, e, cut); } else { assert Straddles(x, cut, at, e); }
      case None => Straddle(x, at + 1, cut);
    }
  }

  predicate Straddles(x: string, cut: nat, s: nat, t: nat) {
    s < cut < t <= |x| && TokenEnd(x, s) == Some(t) && CleanFrom(x, t)
  }

  /** A string ends with a quote. */
  lemma {:induction false} EndsInQuote(x: string, i: nat)
    ensures StringEnd(x, i).Some? ==> x[StringEnd(x, i).value - 1] == '"'
    decreases |x| - i
  {
    if i < |x| && x[i] != '"' {
      if x[i] == '\\' { if i + 1 < |x| { EndsInQuote(x, i + 2); } } else { EndsInQuote(x, i + 1); }
    }
  }

  /** Any other quote of a string is escaped, and the string goes on behind it to the same end. */
  lemma {:induction false} QuoteInside(x: string, i: nat, t: nat, q: nat)
    requires StringEnd(x, i) == Some(t) && i <= q < t && x[q] == '"' && q != t - 1
    ensures StringEnd(x, q + 1) == Some(t)
    decreases |x| - i
  {
    if x[i] == '\\' {
      if q != i + 1 { QuoteInside(x, i + 2, t, q); }
    } else {
      QuoteInside(x, i + 1, t, q);
    }
  }

  predicate Special(c: char) {
    c == '"' || c == '{' || c == '}'
  }

  predicate PlainBefore(s: string, at: nat, f: nat) {
    f <= |s| && forall j :: at <= j < f ==> !Special(s[j])
  }

  lemma {:induction false} SkipPlain(s: string, at: nat, f: nat)
    requires at <= f && PlainBefore(s, at, f)
    ensures Lex(s, at) == Lex(s, f) && (SolidFrom(s, f) ==> SolidFrom(s, at))
    decreases f - at
  {
    if at < f { SkipPlain(s, at + 1, f); }
  }

  predicate Blank(c: char) {
    Space(c) || c == '{' || c == '}'
  }

  /** Up to its first quote, clean text is space and braces. */
  lemma {:induction false} BlankUntilQuote(x: string, at: nat, u: nat)
    requires at <= u <= |x| && CleanFrom(x, at) && forall j :: at <= j < u ==> x[j] != '"'
    ensures forall j :: at <= j < u ==> Blank(x[j])
    decreases u - at
  {
    if at < u { BlankUntilQuote(x, at + 1, u); }
  }

  function FirstQuote(s: string, at: nat): (u: nat)
    requires at <= |s|
    ensures at <= u <= |s| && (u < |s| ==> s[u] == '"') && forall j :: at <= j < u ==> s[j] != '"'
    decreases |s| - at
  {
    if at == |s| || s[at] == '"' then at else FirstQuote(s, at + 1)
  }

  function FirstSpecial(s: string, at: nat): (u: nat)
    requires at <= |s|
    ensures at <= u <= |s| && (u < |s| ==> Special(s[u])) && PlainBefore(s, at, u)
    decreases |s| - at
  {
    if at == |s| || Special(s[at]) then at else FirstSpecial(s, at + 1)
  }

  /** The first thing read is a brace, or a string opened at `f` with nothing but blanks up to the next quote or the
      end. */
  predicate Off(s: string, f: nat) {
    && f < |s| && PlainBefore(s, 0, f) && Special(s[f])
    && (s[f] == '"' ==> forall j :: f < j < FirstQuote(s, f + 1) ==> Blank(s[j]))
  }

  /** A line of clean text is clean; or it starts inside a string, and either reads as words of its own or begins with
      a brace or with a string of blanks. */
  lemma LineCases(x: string, cut: nat)
    requires Clean(x) && cut <= |x| && (cut > 0 ==> x[cut - 1] == '\n')
    ensures var line := x[cut..];
            || Clean(line)
            || (!AllSpace(line) && Solid(line) && Words(line) != [])
            || (!AllSpace(line) && exists f: nat :: Off(line, f))
  {
    Straddle(x, 0, cut);
    assert x[..cut] + x[cut..] == x;
    if CleanFrom(x, cut) {
      CleanShift(x[..cut], x[cut..], 0);
    } else {
      var s: nat, t: nat :| Straddles(x, cut, s, t);
      InsideString(x, cut, s, t);
    }
  }

  lemma InsideString(x: string, cut: nat, s: nat, t: nat)
    requires Straddles(x, cut, s, t)
    ensures var line := x[cut..];
            !AllSpace(line) && ((Solid(line) && Words(line) != []) || exists f: nat :: Off(line, f))
  {
    var line := x[cut..];
    assert StringEnd(x, s + 1) == Some(t);
    EndsInQuote(x, s + 1);
    assert line[t - 1 - cut] == '"';
    var q := FirstQuote(line, 0);
    assert q <= t - 1 - cut;
    if q == t - 1 - cut {
      TailIsOff(x, cut, t, q);
    } else {
      QuoteInside(x, s + 1, t, cut + q);
      TailIsSolid(x, cut, t, q);
    }
  }

  /** The line's first quote closes the string it starts in. */
  lemma TailIsOff(x: string, cut: nat, t: nat, q: nat)
    requires cut < t <= |x| && CleanFrom(x, t) && q == t - 1 - cut && q == FirstQuote(x[cut..], 0) && x[t - 1] == '"'
    ensures exists f: nat :: Off(x[cut..], f)
  {
    var line := x[cut..];
    var f := FirstSpecial(line, 0);
    assert f <= q;
    if f == q {
      var u := FirstQuote(line, f + 1);
      forall j | t <= j < cut + u ensures x[j] != '"' { assert line[j - cut] != '"'; }
      BlankUntilQuote(x, t, cut + u);
      forall j | f < j < u ensures Blank(line[j]) { assert line[j] == x[cut + j]; }
    }
    assert Off(line, f);
  }

  /** The line's first quote is escaped in the string it starts in: read from there, the same string ends at the same
      place. */
  lemma TailIsSolid(x: string, cut: nat, t: nat, q: nat)
    requires cut < t <= |x| && CleanFrom(x, t) && q < t - 1 - cut && q == FirstQuote(x[cut..], 0)
    requires StringEnd(x, cut + q + 1) == Some(t)
    ensures Solid(x[cut..]) && Words(x[cut..]) != []
  {
    hide StringEnd, IsWord, CleanFrom, FirstQuote, Words, Solid, Lex;
    var line := x[cut..];
    assert x[..cut] + line == x;
    StringEndShift(x[..cut], line, q + 1);
    CleanShift(x[..cut], line, t - cut);
    FirstToken(line, q, t - cut);
  }

  lemma FirstToken(s: string, q: nat, e: nat)
    requires q < |s| && TokenEnd(s, q) == Some(e) && CleanFrom(s, e) && forall j :: 0 <= j < q ==> s[j] != '"'
    ensures Solid(s) && Words(s) != []
  {
    hide TokenEnd, CleanFrom, Lex;
    assert SolidFrom(s, q);
    SolidBefore(s, 0, q);
    MoreWords(s, 0, q);
  }

  lemma {:induction false} SolidBefore(s: string, at: nat, q: nat)
    requires at <= q <= |s| && SolidFrom(s, q) && forall j :: at <= j < q ==> s[j] != '"'
    ensures SolidFrom(s, at)
    decreases q - at
  {
    if at < q { SolidBefore(s, at + 1, q); }
  }

  lemma {:induction false} MoreWords(s: string, at: nat, q: nat)
    requires at <= q < |s| && TokenEnd(s, q).Some? && forall j :: at <= j < q ==> s[j] != '"'
    ensures |Lex(s, at)| > 0
    decreases q - at
  {
    if at < q { MoreWords(s, at + 1, q); }
  }

  // ---------------------------------------------------------------- what is read behind such a line

  lemma {:induction false} StringOfBlanks(z: string, i: nat, u: nat)
    requires i <= u < |z| && z[u] == '"' && forall j :: i <= j < u ==> Blank(z[j])
    ensures StringEnd(z, i) == Some(u + 1)
    decreases u - i
  {
    if i < u { StringOfBlanks(z, i + 1, u); }
  }

  lemma FirstWordAt(z: string, f: nat)
    requires PlainBefore(z, 0, f) && f < |z| && TokenEnd(z, f).Some?
    ensures Words(z) != [] && Words(z)[0] == z[f..TokenEnd(z, f).value]
  {
    SkipPlain(z, 0, f);
  }

  /** Behind such a line, whatever string is written first, the first word read is not it. */
  lemma OffWord(line: string, f: nat, word: string, rest: string)
    requires Off(line, f) && word != "" && !Blank(word[0])
    ensures var w := Words(line + "\t" + Quoted(word) + rest); w != [] && w[0] != Quoted(word)
  {
    hide Words, StringEnd, Blank;
    var tail := "\t" + Quoted(word) + rest;
    var z := line + tail;
    assert line + "\t" + Quoted(word) + rest == z;
    assert PlainBefore(z, 0, f);
    assert Quoted(word)[0] == '"' && Quoted(word)[1] == word[0];
    if line[f] == '"' {
      var v := BlanksEnd(line, f, tail);
      StringOfBlanks(z, f + 1, v);
      FirstWordAt(z, f);
      assert v == f + 1 || Blank(z[f..v + 1][1]);
    } else {
      FirstWordAt(z, f);
      assert z[f..f + 1][0] != '"';
    }
  }

  /** Where the string of blanks closes: at the line's next quote, or at the one written behind it. */
  lemma BlanksEnd(line: string, f: nat, tail: string) returns (v: nat)
    requires Off(line, f) && line[f] == '"' && |tail| >= 2 && tail[0] == '\t' && tail[1] == '"'
    ensures f < v < |line + tail| && (line + tail)[v] == '"' && forall j :: f + 1 <= j < v ==> Blank((line + tail)[j])
  {
    var u := FirstQuote(line, f + 1);
    v := if u < |line| then u else |line| + 1;
  }
}
