/** How lists of tokens are spelled, with what may stand between them. */
module JsonSpell {
  import opened JsonText
  import opened JsonLexer
  import opened JsonParse
  import opened JsonTokens

  // ---------- gaps between tokens ----------

  /** White space, and the two kinds of comments. */
  datatype Gap = Blank(c: char) | Line(body: string, end: char) | Block(body: string)

  function GapText(g: Gap): string {
    match g case Blank(c) => [c] case Line(body, end) => "//" + body + [end] case Block(body) => "/*" + body + "*/"
  }

  /** The text of a comment up to the `*` and `/` that end it. Behind a star one character is passed over
      if it does not end the comment, also when it is a star. */
  predicate BlockBody(t: string)
    decreases |t|
  {
    t == "" || (t[0] != '*' && BlockBody(t[1..])) || (t[0] == '*' && |t| >= 2 && t[1] != '/' && BlockBody(t[2..]))
  }

  predicate White(c: char) { c == ' ' || c == '\t' || c == '\n' || c == '\r' }

  predicate LegalGap(g: Gap) {
    match g
    case Blank(c) => White(c)
    case Line(body, end) => (end == '\n' || end == '\r') && '\n' !in body && '\r' !in body
    case Block(body) => BlockBody(body)
  }

  function GapsText(gs: seq<Gap>): string { if gs == [] then "" else GapText(gs[0]) + GapsText(gs[1..]) }

  predicate LegalGaps(gs: seq<Gap>) { forall g | g in gs :: LegalGap(g) }

  // ---------- tokens with gaps before them ----------

  function TokenText(tok: Token): string {
    match tok
    case BeginObject => "{" case EndObject => "}"
    case BeginArray => "[" case EndArray => "]"
    case Colon => ":" case Comma => ","
    case TString(s) => "\"" + s + "\""
    case TNumber(n) => n
    case TTrue => "true" case TFalse => "false" case TNull => "null"
    case _ => ""
  }

  function Spell(toks: seq<Token>, gaps: seq<seq<Gap>>): string
    requires |gaps| == |toks|
  {
    if toks == [] then "" else GapsText(gaps[0]) + TokenText(toks[0]) + Spell(toks[1..], gaps[1..])
  }

  /** What may follow a number. */
  predicate Apart(t: string) { t != "" && (White(t[0]) || t[0] == ']' || t[0] == '}' || t[0] == ',') }

  /** The numbers are apart from what follows them. */
  predicate NumbersApart(toks: seq<Token>, gaps: seq<seq<Gap>>, tail: string)
    requires |gaps| == |toks|
  {
    toks == [] || ((toks[0].TNumber? ==> Apart(Spell(toks[1..], gaps[1..]) + tail))
                   && NumbersApart(toks[1..], gaps[1..], tail))
  }

  predicate Proper(toks: seq<Token>, gaps: seq<seq<Gap>>, tail: string) {
    && |gaps| == |toks| && NumbersApart(toks, gaps, tail)
    && (forall g | g in gaps :: LegalGaps(g)) && (forall tok | tok in toks :: LegalToken(tok))
  }

  // ---------- what may stand behind the last token ----------

  /** The beginning of a token, which it does not end; a number may be whole. */
  predicate Beginning(u: string, w: string, tok: Token) {
    LegalToken(tok) && TokenText(tok) == u + w && (w != "" || tok.TNumber?)
  }

  predicate CommentBeginning(u: string, w: string, g: Gap) {
    LegalGap(g) && !g.Blank? && GapText(g) == u + w && w != ""
  }

  /** It breaks off behind two of the four hexadecimal digits of a character. */
  predicate TwoDigits(u: string, s: string, a: char, b: char) {
    StringText(s) && IsHex(a) && IsHex(b) && u == "\"" + s + ['\\', 'u', a, b]
  }

  /** A token or a comment that is not finished. */
  ghost predicate Unfinished(u: string) {
    || (exists w, g :: CommentBeginning(u, w, g))
    || ((exists w, tok :: Beginning(u, w, tok)) && forall s, a, b :: !TwoDigits(u, s, a, b))
  }

  ghost predicate Rest(tail: string) {
    exists gs, u :: LegalGaps(gs) && tail == GapsText(gs) + u && Unfinished(u)
  }

  // ---------- the tokens of a text ----------

  /** The tokens from `p` on, and what stops them. */
  datatype Read = Read(toks: seq<Token>, last: Token)

  function Stream(z: string, p: nat): Read
    decreases |z| - p
  {
    if p >= |z| then Read([], More) else
      var l := Lex(z, p, 0, "");
      LexAhead(z, p, 0, "");
      if l.tok == More || l.tok == Invalid then Read([], l.tok) else
        var r := Stream(z, l.p);
        Read([l.tok] + r.toks, r.last)
  }

  /** Opening a value changes nothing for a stopped or finished parser. */
  predicate Finished(m: Machine) { m.Machine? && m.state == 99 }

  /** Stops at the end in another state, or goes on in it. */
  lemma {:induction false} ParseIsRun(z: string, p: nat, m: Machine)
    requires m.Machine? ==> m.state != 1 && m.state != 7
    ensures Finished(Parse(z, p, m))
      <==> Stream(z, p).last == More && Finished(Run(m, Stream(z, p).toks))
    ensures Finished(Parse(z, p, m)) ==> Parse(z, p, m) == Run(m, Stream(z, p).toks)
    ensures Parse(z, p, m).Machine? ==> Finished(Parse(z, p, m))
    decreases |z| - p
  {
    hide Apply, Lex;
    if m.Machine? && p < |z| {
      var l := Lex(z, p, 0, "");
      LexAhead(z, p, 0, "");
      if l.tok == More || l.tok == Invalid {
        LastApply(m, l.tok);
      } else {
        var n := Apply(m, l.tok);
        ParseEnters(z, l.p, n);
        ParseIsRun(z, l.p, Enter(n));
        var r := Stream(z, l.p);
        assert Stream(z, p).toks[0] == l.tok && Stream(z, p).toks[1..] == r.toks;
      }
    } else if m.Stop? {
      Stopped(Stream(z, p).toks, m.err);
    }
  }

  lemma LastApply(m: Machine, tok: Token)
    requires m.Machine? && (tok == More || tok == Invalid)
    ensures if tok == More && m.state == 99 then Apply(m, tok) == m else Apply(m, tok).Stop?
  {}

  lemma ParseEnters(z: string, p: nat, m: Machine)
    ensures Finished(Parse(z, p, m)) <==> Finished(Parse(z, p, Enter(m)))
    ensures Finished(Parse(z, p, m)) ==> Parse(z, p, m) == Parse(z, p, Enter(m))
    ensures Parse(z, p, m).Machine? <==> Parse(z, p, Enter(m)).Machine?
  {
    hide Lex, Apply;
  }

  // ---------- passing over gaps ----------

  lemma WhiteIsSpace(c: char)
    ensures White(c) == IsSpace(c)
  {}

  lemma SkipWhite(z: string, p: nat)
    requires p < |z| && White(z[p])
    ensures Lex(z, p, 0, "") == Lex(z, p + 1, 0, "")
  {}

  lemma {:induction false} SkipLine(z: string, p: nat, body: string, end: char)
    requires '\n' !in body && '\r' !in body && (end == '\n' || end == '\r') && Goes(z, p, body + [end])
    ensures Lex(z, p, 61, "") == Lex(z, p + |body| + 1, 0, "")
    decreases |body|
  {
    GoesAt(z, p, body + [end], 0);
    if body != "" {
      GoesTail(z, p, body + [end], 1);
      assert (body + [end])[1..] == body[1..] + [end];
      assert body[0] in body;
      SkipLine(z, p + 1, body[1..], end);
    }
  }

  lemma {:induction false} SkipBlock(z: string, p: nat, body: string)
    requires BlockBody(body) && Goes(z, p, body + "*/")
    ensures Lex(z, p, 62, "") == Lex(z, p + |body| + 2, 0, "")
    decreases |body|
  {
    var t := body + "*/";
    GoesAt(z, p, t, 0);
    GoesAt(z, p, t, 1);
    if body == "" {
      LexStep(z, p, 62, "", 63, false);
      LexStep(z, p + 1, 63, "", 0, false);
    } else {
      var n := if body[0] == '*' then 2 else 1;
      GoesTail(z, p, t, n);
      assert t[n..] == body[n..] + "*/";
      LexStep(z, p, 62, "", if n == 2 then 63 else 62, false);
      if n == 2 { LexStep(z, p + 1, 63, "", 62, false); }
      hide Lex, Goes;
      SkipBlock(z, p + n, body[n..]);
    }
  }

  lemma SkipGap(z: string, p: nat, g: Gap)
    requires LegalGap(g) && Goes(z, p, GapText(g))
    ensures Lex(z, p, 0, "") == Lex(z, p + |GapText(g)|, 0, "")
  {
    GoesAt(z, p, GapText(g), 0);
    match g
    case Blank(_) => SkipWhite(z, p);
    case Line(body, end) =>
      assert GapText(g) == "//" + (body + [end]);
      Slashes(z, p, "//", body + [end]);
      SkipLine(z, p + 2, body, end);
    case Block(body) =>
      assert GapText(g) == "/*" + (body + "*/");
      Slashes(z, p, "/*", body + "*/");
      SkipBlock(z, p + 2, body);
  }

  lemma Slashes(z: string, p: nat, a: string, b: string)
    requires (a == "//" || a == "/*") && Goes(z, p, a + b)
    ensures Goes(z, p + 2, b) && Lex(z, p, 0, "") == Lex(z, p + 2, if a == "//" then 61 else 62, "")
  {
    GoesParts(z, p, a, b);
    GoesAt(z, p, a, 0);
    GoesAt(z, p, a, 1);
    hide Goes, Lex;
    LexStep(z, p, 0, "", 60, false);
    LexStep(z, p + 1, 60, "", if a == "//" then 61 else 62, false);
  }

  lemma {:induction false} SkipGaps(z: string, p: nat, gs: seq<Gap>)
    requires LegalGaps(gs) && Goes(z, p, GapsText(gs))
    ensures Lex(z, p, 0, "") == Lex(z, p + |GapsText(gs)|, 0, "")
    decreases |gs|
  {
    hide Lex, Goes, GapText, LegalGap;
    if gs != [] {
      GoesParts(z, p, GapText(gs[0]), GapsText(gs[1..]));
      assert LegalGap(gs[0]);
      SkipGap(z, p, gs[0]);
      SkipGaps(z, p + |GapText(gs[0])|, gs[1..]);
    }
  }

  // ---------- spelled tokens are read ----------

  lemma MarkIs(z: string, p: nat, tok: Token)
    requires tok == BeginObject || tok == EndObject || tok == BeginArray || tok == EndArray || tok == Colon
      || tok == Comma
    requires Goes(z, p, TokenText(tok))
    ensures Lex(z, p, 0, "") == Lexed(tok, p + 1)
  {
    GoesAt(z, p, TokenText(tok), 0);
    LexMark(z, p);
    hide Lex, Goes;
  }

  /** A token is read; behind a number a white character is read with it. */
  lemma TokenRead(z: string, p: nat, tok: Token)
    requires LegalToken(tok) && Goes(z, p, TokenText(tok))
    requires tok.TNumber? ==> p + |tok.text| < |z| && Stops(z[p + |tok.text|])
    ensures Lex(z, p, 0, "") == Lexed(tok, if tok.TNumber? then Past(z, p + |tok.text|) else p + |TokenText(tok)|)
  {
    hide Lex, Goes, StringText, NumberText;
    match tok
    case TString(s) => LexString(z, p, s);
    case TNumber(n) => LexNumber(z, p, n);
    case TTrue => LexWord(z, p, "true");
    case TFalse => LexWord(z, p, "false");
    case TNull => LexWord(z, p, "null");
    case _ => MarkIs(z, p, tok);
  }

  /** White space does not change what is read behind it. */
  lemma StreamPast(z: string, p: nat)
    ensures Stream(z, Past(z, p)) == Stream(z, p)
  {
    if p < |z| && IsSpace(z[p]) {
      WhiteIsSpace(z[p]);
      SkipWhite(z, p);
      hide Lex;
      if p + 1 >= |z| { LexEnd(z, p + 1); }
    }
  }

  lemma LexEnd(z: string, p: nat)
    requires p >= |z|
    ensures Lex(z, p, 0, "") == Lexed(More, p)
  {}

  lemma StreamStep(z: string, p: nat, tok: Token, q: nat)
    requires p < |z| && Lex(z, p, 0, "") == Lexed(tok, q) && tok != More && tok != Invalid
    ensures q >= p && Stream(z, p) == Read([tok] + Stream(z, q).toks, Stream(z, q).last)
  {
    LexAhead(z, p, 0, "");
    hide Lex;
  }

  /** The text stands at `p` and goes to the end. */
  predicate GoesToEnd(z: string, p: nat, t: string) { Goes(z, p, t) && p + |t| == |z| }

  lemma ToEnd(z: string, p: nat, a: string, b: string)
    requires GoesToEnd(z, p, a + b)
    ensures Goes(z, p, a) && GoesToEnd(z, p + |a|, b)
  {
    GoesParts(z, p, a, b);
  }

  lemma ApartIs(z: string, p: nat, t: string)
    requires GoesToEnd(z, p, t) && Apart(t)
    ensures p < |z| && Stops(z[p])
  {
    GoesAt(z, p, t, 0);
  }

  /** What is spelled is read, and then what is behind it. */
  lemma {:induction false} SpelledIsRead(z: string, p: nat, toks: seq<Token>, gaps: seq<seq<Gap>>, tail: string)
    requires Proper(toks, gaps, tail) && GoesToEnd(z, p, Spell(toks, gaps) + tail)
    ensures GoesToEnd(z, p + |Spell(toks, gaps)|, tail)
    ensures var r := Stream(z, p + |Spell(toks, gaps)|); Stream(z, p) == Read(toks + r.toks, r.last)
    decreases |toks|
  {
    hide Stream, Goes, LegalToken, LegalGaps, TokenText, GapsText;
    if toks == [] {
      assert Spell(toks, gaps) + tail == tail;
      assert toks + Stream(z, p).toks == Stream(z, p).toks;
    } else {
      var g, x, rest := GapsText(gaps[0]), TokenText(toks[0]), Spell(toks[1..], gaps[1..]);
      assert Spell(toks, gaps) + tail == g + (x + (rest + tail));
      SpelledFirst(z, p, gaps[0], toks[0], rest + tail);
      assert p + |Spell(toks, gaps)| == p + |g| + |x| + |rest|;
      SpelledIsRead(z, p + |g| + |x|, toks[1..], gaps[1..], tail);
      var r := Stream(z, p + |Spell(toks, gaps)|);
      assert [toks[0]] + (toks[1..] + r.toks) == toks + r.toks;
    }
  }

  lemma SpelledFirst(z: string, p: nat, gs: seq<Gap>, tok: Token, rest: string)
    requires LegalGaps(gs) && LegalToken(tok) && (tok.TNumber? ==> Apart(rest))
    requires GoesToEnd(z, p, GapsText(gs) + (TokenText(tok) + rest))
    ensures var q := p + |GapsText(gs)| + |TokenText(tok)|;
      GoesToEnd(z, q, rest) && Stream(z, p) == Read([tok] + Stream(z, q).toks, Stream(z, q).last)
  {
    hide Stream, Goes, Lex, StringText, NumberText, Stops, Apart;
    ToEnd(z, p, GapsText(gs), TokenText(tok) + rest);
    SkipGaps(z, p, gs);
    var r := p + |GapsText(gs)|;
    ToEnd(z, r, TokenText(tok), rest);
    var q := r + |TokenText(tok)|;
    if tok.TNumber? { ApartIs(z, q, rest); }
    TokenRead(z, r, tok);
    SomeText(tok);
    StreamStep(z, p, tok, if tok.TNumber? then Past(z, q) else q);
    if tok.TNumber? { StreamPast(z, q); }
  }

  lemma SomeText(tok: Token)
    requires LegalToken(tok)
    ensures TokenText(tok) != ""
  {}

  // ---------- what is not finished stops the lexer at the end ----------

  ghost predicate StopsAtEnd(z: string, p: nat, state: nat, text: string) { Lex(z, p, state, text).tok == More }

  lemma AtEnd(z: string, p: nat, state: nat, text: string)
    requires p >= |z| && state != 5
    ensures StopsAtEnd(z, p, state, text)
  {}

  lemma {:induction false} LineCut(z: string, p: nat, x: string)
    requires '\n' !in x && '\r' !in x && GoesToEnd(z, p, x)
    ensures StopsAtEnd(z, p, 61, "")
    decreases |x|
  {
    if x != "" {
      GoesAt(z, p, x, 0);
      GoesTail(z, p, x, 1);
      assert x[0] in x;
      LineCut(z, p + 1, x[1..]);
    }
  }

  lemma {:induction false} BlockCut(z: string, p: nat, x: string, w: string, body: string)
    requires BlockBody(body) && x + w == body + "*/" && w != "" && GoesToEnd(z, p, x)
    ensures StopsAtEnd(z, p, 62, "")
    decreases |x|
  {
    if x != "" {
      GoesAt(z, p, x, 0);
      assert x[0] == (body + "*/")[0];
      if body == "" {
        assert |x| == 1;
        LexStep(z, p, 62, "", 63, false);
        AtEnd(z, p + 1, 63, "");
      } else {
        var n := if body[0] == '*' then 2 else 1;
        LexStep(z, p, 62, "", if n == 2 then 63 else 62, false);
        if |x| < n {
          AtEnd(z, p + 1, 63, "");
        } else {
          if n == 2 {
            GoesAt(z, p, x, 1);
            assert x[1] == (body + "*/")[1];
            LexStep(z, p + 1, 63, "", 62, false);
          }
          GoesTail(z, p, x, n);
          assert x[n..] + w == (x + w)[n..] == body[n..] + "*/";
          hide Lex, Goes;
          BlockCut(z, p + n, x[n..], w, body[n..]);
        }
      }
    }
  }

  lemma CommentCut(z: string, p: nat, u: string, w: string, g: Gap)
    requires CommentBeginning(u, w, g) && GoesToEnd(z, p, u)
    ensures StopsAtEnd(z, p, 0, "")
  {
    var t := u + w;
    if u == "" {
      AtEnd(z, p, 0, "");
    } else {
      GoesAt(z, p, u, 0);
      assert u[0] == t[0] == '/' by { assert GapText(g)[0] == '/'; }
      LexStep(z, p, 0, "", 60, false);
      if |u| == 1 { AtEnd(z, p + 1, 60, ""); } else { LongComment(z, p, u, w, g); }
    }
  }

  lemma LongComment(z: string, p: nat, u: string, w: string, g: Gap)
    requires CommentBeginning(u, w, g) && GoesToEnd(z, p, u) && |u| >= 2 && Lex(z, p, 0, "") == Lex(z, p + 1, 60, "")
    ensures StopsAtEnd(z, p, 0, "")
  {
    GoesAt(z, p, u, 1);
    GoesTail(z, p, u, 2);
    var x := u[2..];
    assert x + w == (u + w)[2..];
    if g.Line? {
      assert u[1] == GapText(g)[1] == '/';
      LexStep(z, p + 1, 60, "", 61, false);
      assert x + w == g.body + [g.end] by { assert GapText(g)[2..] == g.body + [g.end]; }
      assert x == (g.body + [g.end])[..|x|] == g.body[..|x|];
      hide Lex, Goes;
      LineCut(z, p + 2, x);
    } else {
      assert u[1] == GapText(g)[1] == '*';
      LexStep(z, p + 1, 60, "", 62, false);
      assert x + w == g.body + "*/" by { assert GapText(g)[2..] == g.body + "*/"; }
      hide Lex, Goes;
      BlockCut(z, p + 2, x, w, g.body);
    }
  }

  /** It ends behind two of the four digits. */
  predicate EndsTwo(x: string, s: string, a: char, b: char) {
    StringText(s) && IsHex(a) && IsHex(b) && x == s + ['\\', 'u', a, b]
  }

  /** Inside a string whose text goes on. */
  lemma {:induction false} StringCut(z: string, p: nat, x: string, w: string, before: string)
    requires StringText(x + w) && GoesToEnd(z, p, x)
    requires forall s, a, b :: !EndsTwo(x, s, a, b)
    ensures StopsAtEnd(z, p, 1, before)
    decreases |x|
  {
    if x != "" {
      var t := x + w;
      var n := if t[0] != '\\' then 1 else if t[1] == 'u' then 6 else 2;
      assert t[0] == x[0];
      GoesAt(z, p, x, 0);
      if n <= |x| {
        StringUnit(z, p, x, w, before, n);
        assert t[n..] == x[n..] + w;
        GoesTail(z, p, x, n);
        forall s, a, b ensures !EndsTwo(x[n..], s, a, b) {
          if EndsTwo(x[n..], s, a, b) { OneUnitMore(x, w, n, s, a, b); }
        }
        hide Lex, Goes, StringText;
        StringCut(z, p + n, x[n..], w, before + x[..n]);
      } else {
        PartUnit(z, p, x, w, before, n);
      }
    }
  }

  lemma StringUnit(z: string, p: nat, x: string, w: string, before: string, n: nat)
    requires StringText(x + w) && Goes(z, p, x) && x != "" && n <= |x|
    requires n == if x[0] != '\\' then 1 else if (x + w)[1] == 'u' then 6 else 2
    ensures Lex(z, p, 1, before) == Lex(z, p + n, 1, before + x[..n]) && StringText((x + w)[n..])
  {
    var t := x + w;
    assert t[0] == x[0];
    GoesAt(z, p, x, 0);
    if n == 1 {
      assert before + [x[0]] == before + x[..1];
      LexStep(z, p, 1, before, 1, true);
    } else {
      GoesAt(z, p, x, 1);
      assert t[1] == x[1];
      LexStep(z, p, 1, before, 2, true);
      if n == 2 {
        assert before + [x[0]] + [x[1]] == before + x[..2];
        LexStep(z, p + 1, 2, before + [x[0]], 1, true);
      } else {
        UnicodeUnit(z, p, x, w, before);
      }
    }
  }

  lemma UnicodeUnit(z: string, p: nat, x: string, w: string, before: string)
    requires StringText(x + w) && Goes(z, p, x) && |x| >= 6 && x[0] == '\\' && x[1] == 'u'
    ensures Lex(z, p, 1, before) == Lex(z, p + 6, 1, before + x[..6])
  {
    var t := x + w;
    assert t[0] == '\\' && t[1] == 'u';
    forall i | 0 <= i < 6 ensures p + i < |z| && z[p + i] == x[i] == t[i] { GoesAt(z, p, x, i); }
    HexDigits(t);
    hide Goes, Lex, IsHex, StringText;
    var b2 := before + [x[0]] + [x[1]];
    LexStep(z, p, 1, before, 2, true);
    LexStep(z, p + 1, 2, before + [x[0]], 3, true);
    HexStep(z, p + 2, 3, b2);
    HexStep(z, p + 3, 4, b2 + [x[2]]);
    HexStep(z, p + 4, 5, b2 + [x[2]] + [x[3]]);
    HexStep(z, p + 5, 6, b2 + [x[2]] + [x[3]] + [x[4]]);
    assert b2 + [x[2]] + [x[3]] + [x[4]] + [x[5]] == before + x[..6];
  }

  lemma HexDigits(t: string)
    requires StringText(t) && |t| >= 2 && t[0] == '\\' && t[1] == 'u'
    ensures |t| >= 6 && IsHex(t[2]) && IsHex(t[3]) && IsHex(t[4]) && IsHex(t[5])
  {}

  lemma OneUnitMore(x: string, w: string, n: nat, s: string, a: char, b: char)
    requires StringText(x + w) && x != "" && n <= |x| && EndsTwo(x[n..], s, a, b)
    requires n == if x[0] != '\\' then 1 else if (x + w)[1] == 'u' then 6 else 2
    ensures EndsTwo(x, x[..n] + s, a, b)
  {
    var t := x + w;
    var y := x[..n] + s;
    assert t[0] == x[0] && y[n..] == s && y[0] == t[0];
    assert forall i | 0 <= i < n :: y[i] == t[i];
    assert x == x[..n] + x[n..];
    if n == 6 { HexDigits(t); }
  }

  /** The text ends inside an escape. */
  lemma PartUnit(z: string, p: nat, x: string, w: string, before: string, n: nat)
    requires StringText(x + w) && GoesToEnd(z, p, x) && 0 < |x| < n && x[0] == '\\'
    requires n == if (x + w)[1] == 'u' then 6 else 2
    requires forall s, a, b :: !EndsTwo(x, s, a, b)
    ensures StopsAtEnd(z, p, 1, before)
  {
    var t := x + w;
    assert t[0] == x[0];
    forall i | 0 <= i < |x| ensures p + i < |z| && z[p + i] == x[i] == t[i] { GoesAt(z, p, x, i); }
    LexStep(z, p, 1, before, 2, true);
    if |x| == 1 {
      AtEnd(z, p + 1, 2, before + [x[0]]);
    } else {
      HexDigits(t);
      PartUnicode(z, p, x, before);
    }
  }

  lemma FourIsTwo(x: string)
    requires |x| == 4 && x[0] == '\\' && x[1] == 'u' && IsHex(x[2]) && IsHex(x[3])
    ensures EndsTwo(x, "", x[2], x[3])
  {
    assert x == "" + ['\\', 'u', x[2], x[3]];
  }

  lemma PartUnicode(z: string, p: nat, x: string, before: string)
    requires GoesToEnd(z, p, x) && 2 <= |x| < 6 && x[0] == '\\' && x[1] == 'u'
    requires forall i | 2 <= i < |x| :: IsHex(x[i])
    requires forall i | 0 <= i < |x| :: p + i < |z| && z[p + i] == x[i]
    requires forall s, a, b :: !EndsTwo(x, s, a, b)
    ensures StopsAtEnd(z, p, 1, before)
  {
    if |x| == 4 {
      FourIsTwo(x);
    } else {
      hide Lex, IsHex;
      var b2 := before + [x[0]] + [x[1]];
      LexStep(z, p, 1, before, 2, true);
      LexStep(z, p + 1, 2, before + [x[0]], 3, true);
      if |x| == 2 {
        AtEnd(z, p + 2, 3, b2);
      } else {
        HexStep(z, p + 2, 3, b2);
        if |x| == 3 {
          AtEnd(z, p + 3, 4, b2 + [x[2]]);
        } else {
          HexStep(z, p + 3, 4, b2 + [x[2]]);
          HexStep(z, p + 4, 5, b2 + [x[2]] + [x[3]]);
          AtEnd(z, p + 5, 6, b2 + [x[2]] + [x[3]] + [x[4]]);
        }
      }
    }
  }

  /** Inside a number: if it is one with more text behind it, then the lexer reads to the end. */
  lemma {:induction false} NumberCut(z: string, w: string, p: nat, state: nat, text: string, n: string)
    requires 17 <= state <= 24 && p <= |z| && Lex(z + w, p, state, text).tok == TNumber(n) && |n| >= |text| + |z| - p
    ensures StopsAtEnd(z, p, state, text)
    decreases |z| - p
  {
    if p < |z| {
      assert (z + w)[p] == z[p];
      match Act1(state, text, z[p])
      case Give(_, _) =>
      case Go(next, keep) =>
        NumberStays(state, text, z[p]);
        hide NumberAct, StartAct, WordAct, StringAct, CommentAct;
        NumberCut(z, w, p + 1, next, text + [z[p]], n);
    }
  }

  lemma NumberStays(state: nat, text: string, c: char)
    requires 17 <= state <= 24 && Act1(state, text, c).Go?
    ensures 17 <= Act1(state, text, c).state <= 24 && Act1(state, text, c).keep
  {}

  lemma WordCut(z: string, p: nat, u: string, w: string, tok: Token)
    requires (tok == TTrue || tok == TFalse || tok == TNull) && TokenText(tok) == u + w && w != ""
    requires GoesToEnd(z, p, u)
    ensures StopsAtEnd(z, p, 0, "")
  {
    var t := TokenText(tok);
    forall i | 0 <= i < |u| ensures p + i < |z| && z[p + i] == t[i] { GoesAt(z, p, u, i); }
    hide Goes, Lex;
    if u == "" {
      AtEnd(z, p, 0, "");
    } else {
      Starts();
      assert z[p + 0] == t[0];
      var s := if tok == TTrue then 7 else if tok == TFalse then 10 else 14;
      LexStep(z, p, 0, "", s, false);
      WordLetters(z, p, |u|, t, s);
    }
  }

  lemma LetterAct(t: string, s: nat, i: nat, c: char)
    requires (t == "true" && s == 7) || (t == "false" && s == 10) || (t == "null" && s == 14)
    requires 1 <= i < |t| - 1 && c == t[i]
    ensures Act1(s + i - 1, "", c) == Go(s + i, false)
  {}

  lemma WordLetters(z: string, p: nat, n: nat, t: string, s: nat)
    requires 1 <= n < |t| && p + n == |z| && (forall i | 0 <= i < n :: z[p + i] == t[i])
    requires (t == "true" && s == 7) || (t == "false" && s == 10) || (t == "null" && s == 14)
    ensures StopsAtEnd(z, p + 1, s, "")
  {
    hide Lex;
    if n > 1 { LetterAct(t, s, 1, z[p + 1]); }
    if n > 2 { LetterAct(t, s, 2, z[p + 2]); }
    if n > 3 { LetterAct(t, s, 3, z[p + 3]); }
    hide Act1;
    if n == 1 {
      AtEnd(z, p + 1, s, "");
    } else {
      LexStep(z, p + 1, s, "", s + 1, false);
      if n == 2 {
        AtEnd(z, p + 2, s + 1, "");
      } else {
        LexStep(z, p + 2, s + 1, "", s + 2, false);
        if n == 3 {
          AtEnd(z, p + 3, s + 2, "");
        } else {
          LexStep(z, p + 3, s + 2, "", s + 3, false);
          AtEnd(z, p + 4, s + 3, "");
        }
      }
    }
  }

  lemma TwoMore(x: string, y: string, a: char, b: char)
    requires EndsTwo(x, y, a, b)
    ensures TwoDigits("\"" + x, y, a, b)
  {
    assert "\"" + (y + ['\\', 'u', a, b]) == "\"" + y + ['\\', 'u', a, b];
  }

  lemma QuoteCut(z: string, p: nat, u: string, w: string, s: string)
    requires StringText(s) && "\"" + s + "\"" == u + w && w != "" && GoesToEnd(z, p, u)
    requires forall y, a, b :: !TwoDigits(u, y, a, b)
    ensures StopsAtEnd(z, p, 0, "")
  {
    Quoted(s);
    if u == "" {
      AtEnd(z, p, 0, "");
    } else {
      GoesAt(z, p, u, 0);
      GoesTail(z, p, u, 1);
      var x := u[1..];
      assert u[0] == (u + w)[0] == '"' && u == "\"" + x;
      assert x + w == (u + w)[1..] == s + "\"";
      var v := w[..|w| - 1];
      assert x + v == (x + w)[..|s|] == s;
      forall y, a, b ensures !EndsTwo(x, y, a, b) {
        if EndsTwo(x, y, a, b) { TwoMore(x, y, a, b); }
      }
      hide Lex, Goes, StringText;
      Starts();
      LexStep(z, p, 0, "", 1, false);
      StringCut(z, p + 1, x, v, "");
    }
  }

  lemma NumberTokenCut(z: string, p: nat, u: string, w: string, n: string)
    requires NumberText(n) && n == u + w && GoesToEnd(z, p, u)
    ensures StopsAtEnd(z, p, 0, "")
  {
    if u == "" {
      AtEnd(z, p, 0, "");
    } else {
      GoesAt(z, p, u, 0);
      var y := z + (w + "]");
      assert y[p..p + |n|] == n by { assert y[p..p + |n|] == z[p..] + w; assert z[p..] == u; }
      assert y[p + |n|] == ']';
      LexNumber(y, p, n);
      NumberFirst(n);
      assert n[0] == u[0];
      StartNumber(u[0]);
      var s := if u[0] == '-' then 17 else if u[0] == '0' then 18 else 19;
      assert y[p] == z[p] == u[0];
      LexStep(z, p, 0, "", s, true);
      LexStep(y, p, 0, "", s, true);
      hide Lex, Goes, NumberText;
      NumberCut(z, w + "]", p + 1, s, "" + [u[0]], n);
    }
  }

  lemma NumberFirst(n: string)
    requires NumberText(n)
    ensures n != "" && (n[0] == '-' || IsDigit(n[0]))
  {
    hide AfterInt, IntDigits;
  }

  lemma TokenCut(z: string, p: nat, u: string, w: string, tok: Token)
    requires Beginning(u, w, tok) && GoesToEnd(z, p, u) && forall s, a, b :: !TwoDigits(u, s, a, b)
    ensures StopsAtEnd(z, p, 0, "")
  {
    hide Lex, Goes, StringText, NumberText, TwoDigits;
    if tok.TString? {
      QuoteCut(z, p, u, w, tok.text);
    } else if tok.TNumber? {
      NumberTokenCut(z, p, u, w, tok.text);
    } else if tok == TTrue || tok == TFalse || tok == TNull {
      WordCut(z, p, u, w, tok);
    } else {
      OneCharacter(u, w, tok);
      AtEnd(z, p, 0, "");
    }
  }

  lemma OneCharacter(u: string, w: string, tok: Token)
    requires LegalToken(tok) && TokenText(tok) == u + w && w != ""
    requires !tok.TString? && !tok.TNumber? && tok != TTrue && tok != TFalse && tok != TNull
    ensures u == ""
  {
    assert |u + w| == 1;
  }

  lemma UnfinishedStops(z: string, p: nat, u: string)
    requires Unfinished(u) && GoesToEnd(z, p, u)
    ensures StopsAtEnd(z, p, 0, "")
  {
    hide Beginning, CommentBeginning, TwoDigits, Goes, StopsAtEnd;
    if w, g :| CommentBeginning(u, w, g) {
      CommentCut(z, p, u, w, g);
    } else {
      var w, tok :| Beginning(u, w, tok);
      TokenCut(z, p, u, w, tok);
    }
  }

  /** Behind the last token the reading stops at the end. */
  lemma RestIsRead(z: string, p: nat, tail: string)
    requires Rest(tail) && GoesToEnd(z, p, tail)
    ensures Stream(z, p) == Read([], More)
  {
    hide Unfinished, Goes, Lex, LegalGaps, GapsText;
    var gs, u :| LegalGaps(gs) && tail == GapsText(gs) + u && Unfinished(u);
    ToEnd(z, p, GapsText(gs), u);
    SkipGaps(z, p, gs);
    UnfinishedStops(z, p + |GapsText(gs)|, u);
  }
}
