/** Texts with white space between their tokens. */
module JsonSpaces {
  import opened JsonText
  import opened JsonLexer
  import opened JsonParse
  import opened JsonTokens
  import opened JsonSpell
  import opened JsonEvery

  // ---------- numbers are followed by what ends them ----------

  predicate Separates(tok: Token) { tok == Comma || tok == EndObject || tok == EndArray }

  /** Each number but a last one has a token behind it that ends it. */
  predicate Separated(toks: seq<Token>) { forall i | 0 <= i < |toks| - 1 :: SeparatedAt(toks, i) }

  predicate SeparatedAt(toks: seq<Token>, i: nat)
    requires i < |toks| - 1
  {
    toks[i].TNumber? ==> Separates(toks[i + 1])
  }

  lemma SeparatedParts(a: seq<Token>, b: seq<Token>)
    requires Separated(a) && Separated(b)
    requires a != [] && b != [] && a[|a| - 1].TNumber? ==> Separates(b[0])
    ensures Separated(a + b)
  {
    forall i | 0 <= i < |a + b| - 1 ensures SeparatedAt(a + b, i) {
      if i < |a| - 1 { assert SeparatedAt(a, i); } else if i >= |a| { assert SeparatedAt(b, i - |a|); }
    }
  }

  lemma {:induction false} TokensSeparated(l: Loose)
    ensures Separated(Tokens(l)) && Tokens(l) != []
    decreases l, 0
  {
    if l.kind == KString && l.kids != [] {
      AllSeparated(l.kids, false);
      var k := TokensAll(l.kids, false);
      SeparatedParts([Colon], k);
      SeparatedParts([TString(l.text)], [Colon] + k);
    } else if Container(l.kind) {
      AllSeparated(l.kids, false);
      SeparatedContainer(l);
    }
  }

  lemma SeparatedContainer(l: Loose)
    requires Container(l.kind) && Separated(TokensAll(l.kids, false))
    ensures Separated(Tokens(l))
  {
    var k := TokensAll(l.kids, false);
    var c := if l.kind == KArray && l.extra then [Comma] else [];
    hide Separated, TokensAll;
    assert Tokens(l) == [BeginToken(l.kind)] + (k + (c + [EndToken(l.kind)]));
    ShortSeparated(c, EndToken(l.kind));
    SeparatedParts(k, c + [EndToken(l.kind)]);
    OneSeparated(BeginToken(l.kind));
    SeparatedParts([BeginToken(l.kind)], k + (c + [EndToken(l.kind)]));
  }

  lemma OneSeparated(tok: Token)
    ensures Separated([tok])
  {}

  lemma ShortSeparated(c: seq<Token>, tok: Token)
    requires c == [] || c == [Comma]
    ensures Separated(c + [tok])
  {}

  lemma {:induction false} AllSeparated(ls: seq<Loose>, more: bool)
    ensures Separated(TokensAll(ls, more)) && (more && ls != [] ==> TokensAll(ls, more)[0] == Comma)
    decreases ls
  {
    if ls != [] {
      TokensSeparated(ls[0]);
      AllSeparated(ls[1..], true);
      hide Tokens;
      var c: seq<Token> := if more then [Comma] else [];
      assert TokensAll(ls, more) == c + (Tokens(ls[0]) + TokensAll(ls[1..], true));
      SeparatedParts(Tokens(ls[0]), TokensAll(ls[1..], true));
      SeparatedParts(c, Tokens(ls[0]) + TokensAll(ls[1..], true));
    }
  }

  // ---------- trees without further commas ----------

  function Plain(t: Tree): (l: Loose)
    ensures l.kind == t.kind
    decreases t
  {
    Loose(t.kind, t.text, PlainAll(t.kids), false)
  }

  function PlainAll(ts: seq<Tree>): (ls: seq<Loose>)
    ensures |ls| == |ts| && forall i | 0 <= i < |ts| :: ls[i] == Plain(ts[i])
    decreases ts
  {
    if ts == [] then [] else [Plain(ts[0])] + PlainAll(ts[1..])
  }

  lemma {:induction false} PlainIs(t: Tree)
    ensures Strip(Plain(t)) == t && Commas(Plain(t))
    decreases t
  {
    forall i | 0 <= i < |t.kids| ensures Strip(Plain(t).kids[i]) == t.kids[i] && Commas(Plain(t).kids[i]) {
      PlainIs(t.kids[i]);
    }
    assert StripAll(Plain(t).kids) == t.kids;
  }

  // ---------- white space ----------

  /** Spaces, tabs, line feeds and carriage returns. */
  predicate OnlyWhite(s: string) { forall c | c in s :: c == ' ' || c == '\t' || c == '\n' || c == '\r' }

  /** The tokens, with white space before each of them and at the end. */
  function SpacedText(toks: seq<Token>, spaces: seq<string>): string
    requires |spaces| == |toks| + 1
  {
    if toks == [] then spaces[0] else spaces[0] + TokenText(toks[0]) + SpacedText(toks[1..], spaces[1..])
  }

  function Blanks(s: string): (gs: seq<Gap>)
    ensures |gs| == |s| && forall i | 0 <= i < |s| :: gs[i] == Blank(s[i])
  {
    if s == "" then [] else [Blank(s[0])] + Blanks(s[1..])
  }

  lemma {:induction false} BlanksText(s: string)
    ensures GapsText(Blanks(s)) == s
    decreases |s|
  {
    if s != "" {
      assert Blanks(s)[1..] == Blanks(s[1..]);
      BlanksText(s[1..]);
    }
  }

  lemma BlanksLegal(s: string)
    requires OnlyWhite(s)
    ensures LegalGaps(Blanks(s))
  {
    forall g | g in Blanks(s) ensures LegalGap(g) {
      var i :| 0 <= i < |s| && Blanks(s)[i] == g;
      assert s[i] in s;
    }
  }

  function AllBlanks(spaces: seq<string>): (gaps: seq<seq<Gap>>)
    ensures |gaps| == |spaces| && forall i | 0 <= i < |gaps| :: gaps[i] == Blanks(spaces[i])
  {
    if spaces == [] then [] else [Blanks(spaces[0])] + AllBlanks(spaces[1..])
  }

  /** White space before the tokens, without that at the end. */
  function Leading(spaces: seq<string>): seq<seq<Gap>>
    requires spaces != []
  {
    AllBlanks(spaces[..|spaces| - 1])
  }

  lemma LeadingStep(spaces: seq<string>)
    requires |spaces| > 1
    ensures Leading(spaces) == [Blanks(spaces[0])] + Leading(spaces[1..])
  {
    assert spaces[..|spaces| - 1][1..] == spaces[1..][..|spaces[1..]| - 1];
  }

  /** A spaced text as a spelled one. */
  lemma {:induction false} SpacedIsSpelled(toks: seq<Token>, spaces: seq<string>)
    requires |spaces| == |toks| + 1
    ensures Spell(toks, Leading(spaces)) + spaces[|spaces| - 1] == SpacedText(toks, spaces)
    decreases |toks|
  {
    if toks != [] {
      LeadingStep(spaces);
      BlanksText(spaces[0]);
      SpacedIsSpelled(toks[1..], spaces[1..]);
      assert Leading(spaces)[1..] == Leading(spaces[1..]) && Leading(spaces)[0] == Blanks(spaces[0]);
      var g, x, rest := GapsText(Blanks(spaces[0])), TokenText(toks[0]), Spell(toks[1..], Leading(spaces[1..]));
      hide GapsText, TokenText, Leading;
      assert g + x + rest + spaces[|spaces| - 1] == g + x + (rest + spaces[|spaces| - 1]);
    }
  }

  lemma SpacedStarts(toks: seq<Token>, spaces: seq<string>)
    requires |spaces| == |toks| + 1 && toks != [] && OnlyWhite(spaces[0]) && Separates(toks[0])
    ensures Apart(SpacedText(toks, spaces))
  {
    var s := SpacedText(toks, spaces);
    if spaces[0] == "" {
      assert s[0] == TokenText(toks[0])[0];
    } else {
      assert spaces[0][0] in spaces[0] && s[0] == spaces[0][0];
    }
  }

  /** Numbers are apart from what follows them when there is only white space. */
  lemma {:induction false} SpacedApart(toks: seq<Token>, spaces: seq<string>)
    requires |spaces| == |toks| + 1 && (forall s | s in spaces :: OnlyWhite(s)) && Separated(toks)
    requires toks != [] ==> !toks[|toks| - 1].TNumber?
    ensures NumbersApart(toks, Leading(spaces), spaces[|spaces| - 1])
    decreases |toks|
  {
    hide OnlyWhite, Apart, Separates, SpacedText;
    if toks != [] {
      LeadingStep(spaces);
      assert Leading(spaces)[1..] == Leading(spaces[1..]);
      SpacedIsSpelled(toks[1..], spaces[1..]);
      if toks[0].TNumber? {
        assert SeparatedAt(toks, 0);
        assert spaces[1] in spaces;
        SpacedStarts(toks[1..], spaces[1..]);
      }
      SeparatedTail(toks);
      SpacedApart(toks[1..], spaces[1..]);
    }
  }

  lemma SeparatedTail(toks: seq<Token>)
    requires toks != [] && Separated(toks)
    ensures Separated(toks[1..])
  {
    forall i | 0 <= i < |toks[1..]| - 1 ensures SeparatedAt(toks[1..], i) { assert SeparatedAt(toks, i + 1); }
  }

  lemma WhiteRest(s: string)
    requires OnlyWhite(s)
    ensures Rest(s)
  {
    BlanksText(s);
    BlanksLegal(s);
    NothingLeft(s);
    assert s[|s|..] == "" && GapsText(Blanks(s)) + "" == s;
    hide Unfinished, LegalGaps, GapsText;
  }

  /** The tokens of a well-formed tree are legal. */
  lemma {:induction false} TokensLegal(l: Loose, isLabel: bool)
    requires Whole(l, isLabel)
    ensures forall tok | tok in Tokens(l) :: LegalToken(tok)
    decreases l, 1
  {
    if Container(l.kind) {
      WholeKids(l, isLabel);
      KidsLegal(l.kids, l.kind == KObject);
      hide StringText, NumberText;
    } else if isLabel {
      LabelTokens(l);
      TokensLegal(l.kids[0], false);
      hide NumberText;
    } else {
      assert l.kids == [] by { assert |StripAll(l.kids)| == |l.kids|; }
      hide StringText, NumberText;
    }
  }

  lemma {:induction false} KidsLegal(ls: seq<Loose>, isLabel: bool)
    requires forall i | 0 <= i < |ls| :: Whole(ls[i], isLabel)
    ensures forall more :: forall tok | tok in TokensAll(ls, more) :: LegalToken(tok)
    decreases ls
  {
    hide Whole, LegalToken, Tokens;
    if ls != [] {
      TokensLegal(ls[0], isLabel);
      KidsLegal(ls[1..], isLabel);
      assert LegalToken(Comma) by { CommaLegal(); }
    }
  }

  lemma CommaLegal()
    ensures LegalToken(Comma)
  {}

  lemma LastEnds(l: Loose)
    requires Container(l.kind)
    ensures Tokens(l) != [] && !Tokens(l)[|Tokens(l)| - 1].TNumber?
  {
    hide TokensAll;
  }

  /** White space before, between and behind the tokens changes nothing. */
  lemma SpacedIsRead(t: Tree, spaces: seq<string>)
    requires WellFormed(t, false) && (t.kind == KObject || t.kind == KArray)
    requires |spaces| == |Tokens(Plain(t))| + 1 && forall s | s in spaces :: OnlyWhite(s)
    ensures ParseDocument(SpacedText(Tokens(Plain(t)), spaces)) == Root(t)
  {
    hide ParseDocument, Tokens, Spell, SpacedText, OnlyWhite, Rest, NumbersApart, Leading, Separated, WellFormed;
    var l := Plain(t);
    var toks := Tokens(l);
    PlainIs(t);
    TokensSeparated(l);
    TokensLegal(l, false);
    LastEnds(l);
    SpacedIsSpelled(toks, spaces);
    SpacedApart(toks, spaces);
    assert spaces[|spaces| - 1] in spaces;
    WhiteRest(spaces[|spaces| - 1]);
    LeadingLegal(spaces);
    TextIsRead(SpacedText(toks, spaces), l, Leading(spaces), spaces[|spaces| - 1]);
  }

  lemma LeadingLegal(spaces: seq<string>)
    requires spaces != [] && forall s | s in spaces :: OnlyWhite(s)
    ensures |Leading(spaces)| == |spaces| - 1 && forall g | g in Leading(spaces) :: LegalGaps(g)
  {
    forall g | g in Leading(spaces) ensures LegalGaps(g) {
      var i :| 0 <= i < |spaces| - 1 && Leading(spaces)[i] == g;
      assert spaces[i] in spaces && g == Blanks(spaces[i]);
      BlanksLegal(spaces[i]);
    }
  }

  // ---------- without white space it is the printed text ----------

  function Bare(toks: seq<Token>): string { if toks == [] then "" else TokenText(toks[0]) + Bare(toks[1..]) }

  lemma {:induction false} BareParts(a: seq<Token>, b: seq<Token>)
    ensures Bare(a + b) == Bare(a) + Bare(b)
    decreases |a|
  {
    hide TokenText;
    if a == [] {
      assert a + b == b;
    } else {
      assert (a + b)[0] == a[0] && (a + b)[1..] == a[1..] + b;
      BareParts(a[1..], b);
    }
  }

  lemma BareOne(tok: Token)
    ensures Bare([tok]) == TokenText(tok)
  {
    assert [tok][1..] == [];
    hide TokenText;
  }

  lemma {:induction false} BareIsSpaced(toks: seq<Token>, spaces: seq<string>)
    requires |spaces| == |toks| + 1 && forall s | s in spaces :: s == ""
    ensures SpacedText(toks, spaces) == Bare(toks)
    decreases |toks|
  {
    hide TokenText;
    assert spaces[0] in spaces;
    if toks != [] {
      forall s | s in spaces[1..] ensures s == "" { assert s in spaces; }
      BareIsSpaced(toks[1..], spaces[1..]);
    }
  }

  /** The printed text is the text of the tokens, without anything between them. */
  lemma {:induction false} PrintIsBare(t: Tree, isLabel: bool)
    requires WellFormed(t, isLabel)
    ensures Print(t) == Bare(Tokens(Plain(t)))
    decreases t, 1
  {
    if t.kind == KObject || t.kind == KArray {
      ContainerBare(t);
    } else if isLabel {
      LabelBare(t);
    } else {
      assert PlainAll(t.kids) == [] && PrintAll(t.kids, false) == "";
      BareOne(LooseToken(Plain(t)));
      hide Bare;
    }
  }

  lemma {:induction false} ContainerBare(t: Tree)
    requires (t.kind == KObject || t.kind == KArray) && WellFormed(t, false)
    ensures Print(t) == Bare(Tokens(Plain(t)))
    decreases t, 0
  {
    hide WellFormed, Tokens, TokensAll, Print, PrintAll, Bare;
    var l := Plain(t);
    AllKids(t);
    KidsBare(t.kids, t.kind == KObject, false);
    ContainerTokens(l);
    PrintParts(t);
    var k := TokensAll(l.kids, false);
    BareParts([BeginToken(l.kind)], k + ([] + [EndToken(l.kind)]));
    BareParts(k, [EndToken(l.kind)]);
    assert [] + [EndToken(l.kind)] == [EndToken(l.kind)];
    BareOne(BeginToken(l.kind));
    BareOne(EndToken(l.kind));
  }

  lemma {:induction false} KidsBare(ts: seq<Tree>, isLabel: bool, more: bool)
    requires forall i | 0 <= i < |ts| :: WellFormed(ts[i], isLabel)
    ensures PrintAll(ts, more) == Bare(TokensAll(PlainAll(ts), more))
    decreases ts
  {
    hide WellFormed, Tokens, Print, Bare;
    if ts == [] {
      assert Bare([]) == "" by { NothingBare(); }
    } else {
      PrintIsBare(ts[0], isLabel);
      KidsBare(ts[1..], isLabel, true);
      var c := if more then [Comma] else [];
      assert PlainAll(ts)[1..] == PlainAll(ts[1..]);
      BareParts(c + Tokens(Plain(ts[0])), TokensAll(PlainAll(ts[1..]), true));
      BareParts(c, Tokens(Plain(ts[0])));
      NothingBare();
      BareOne(Comma);
    }
  }

  lemma NothingBare()
    ensures Bare([]) == ""
  {}

  lemma {:induction false} LabelBare(t: Tree)
    requires WellFormed(t, true)
    ensures Print(t) == Bare(Tokens(Plain(t)))
    decreases t, 0
  {
    hide WellFormed, Tokens, Print, Bare, Whole;
    LabelParts(t);
    PlainIs(t);
    var l := Plain(t);
    assert Whole(l, true) by { PlainWhole(t); }
    LabelTokens(l);
    PrintIsBare(t.kids[0], false);
    assert l.kids[0] == Plain(t.kids[0]);
    BareParts([TString(t.text)], [Colon] + Tokens(l.kids[0]));
    BareParts([Colon], Tokens(l.kids[0]));
    BareOne(TString(t.text));
    BareOne(Colon);
  }

  lemma PlainWhole(t: Tree)
    requires WellFormed(t, true)
    ensures Whole(Plain(t), true)
  {
    PlainIs(t);
    hide WellFormed;
  }

  /** The printed text of a tree, with any white space before, between and behind its tokens, is read as
      that tree; without white space it is the printed text. */
  lemma PrintSpaced(t: Tree, spaces: seq<string>)
    requires WellFormed(t, false) && (t.kind == KObject || t.kind == KArray)
    requires |spaces| == |Tokens(Plain(t))| + 1 && forall s | s in spaces :: OnlyWhite(s)
    ensures ParseDocument(SpacedText(Tokens(Plain(t)), spaces)) == Root(t)
    ensures (forall s | s in spaces :: s == "") ==> SpacedText(Tokens(Plain(t)), spaces) == Print(t)
  {
    hide ParseDocument, Tokens, Plain, SpacedText, OnlyWhite, WellFormed, Print, Bare;
    SpacedIsRead(t, spaces);
    PrintIsBare(t, false);
    if forall s | s in spaces :: s == "" { BareIsSpaced(Tokens(Plain(t)), spaces); }
  }
}
