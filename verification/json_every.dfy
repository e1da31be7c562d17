/** Every text that the parser takes is a spelled tree. */
module JsonEvery {
  import opened JsonText
  import opened JsonLexer
  import opened JsonParse
  import opened JsonTokens
  import opened JsonSpell

  // ---------- gaps ----------

  lemma {:induction false} LineBack(z: string, p: nat) returns (found: bool, e: nat)
    requires p <= |z|
    ensures p <= e <= |z| && '\n' !in z[p..e] && '\r' !in z[p..e] && (found ==> e < |z|)
    ensures found ==> (z[e] == '\n' || z[e] == '\r') && Lex(z, p, 61, "") == Lex(z, e + 1, 0, "")
    ensures !found ==> e == |z| && StopsAtEnd(z, p, 61, "")
    decreases |z| - p
  {
    if p == |z| {
      found, e := false, p;
    } else if z[p] == '\n' || z[p] == '\r' {
      found, e := true, p;
    } else {
      found, e := LineBack(z, p + 1);
      assert z[p..e] == [z[p]] + z[p + 1..e];
    }
  }

  lemma BodyMore(z: string, p: nat, n: nat, e: nat)
    requires p + n <= e <= |z| && (n == 1 || n == 2) && BlockBody(z[p + n..e])
    requires if n == 1 then z[p] != '*' else z[p] == '*' && z[p + 1] != '/'
    ensures BlockBody(z[p..e])
  {
    var t := z[p..e];
    assert t[0] == z[p] && t[n..] == z[p + n..e];
    if n == 2 { assert t[1] == z[p + 1]; }
  }

  /** From `p` on the text of a comment goes on to `e`, where it ends, or would end with `w` behind it. */
  ghost predicate BlockSays(z: string, p: nat, found: bool, e: nat, w: string) {
    && p <= e <= |z| && BlockBody(z[p..e])
    && if found then e + 2 <= |z| && z[e] == '*' && z[e + 1] == '/' && Lex(z, p, 62, "") == Lex(z, e + 2, 0, "")
       else StopsAtEnd(z, p, 62, "") && w != "" && z[e..] + w == "*/"
  }

  lemma {:induction false} BlockBack(z: string, p: nat) returns (found: bool, e: nat, w: string)
    requires p <= |z|
    ensures BlockSays(z, p, found, e, w)
    decreases |z| - p
  {
    hide Lex, BlockSays;
    w := "";
    if p == |z| {
      found, e, w := false, p, "*/";
      BlockEnd(z);
    } else if z[p] != '*' {
      found, e, w := BlockBack(z, p + 1);
      LexStep(z, p, 62, "", 62, false);
      BlockMore(z, p, 1, found, e, w);
    } else {
      LexStep(z, p, 62, "", 63, false);
      if p + 1 == |z| {
        found, e, w := false, p, "/";
        BlockStar(z, p);
      } else if z[p + 1] == '/' {
        found, e := true, p;
        LexStep(z, p + 1, 63, "", 0, false);
        BlockEnded(z, p);
      } else {
        found, e, w := BlockBack(z, p + 2);
        LexStep(z, p + 1, 63, "", 62, false);
        BlockMore(z, p, 2, found, e, w);
      }
    }
  }

  lemma BlockEnd(z: string)
    ensures BlockSays(z, |z|, false, |z|, "*/")
  {
    AtEnd(z, |z|, 62, "");
    hide Lex;
    assert z[|z|..] + "*/" == "*/";
  }

  lemma BlockStar(z: string, p: nat)
    requires p + 1 == |z| && z[p] == '*' && Lex(z, p, 62, "") == Lex(z, p + 1, 63, "")
    ensures BlockSays(z, p, false, p, "/")
  {
    AtEnd(z, p + 1, 63, "");
    SameStop(z, p, 62, p + 1, 63);
    hide Lex;
    assert z[p..] + "/" == "*/" && z[p..p] == "";
  }

  lemma BlockEnded(z: string, p: nat)
    requires p + 2 <= |z| && z[p] == '*' && z[p + 1] == '/' && Lex(z, p, 62, "") == Lex(z, p + 2, 0, "")
    ensures BlockSays(z, p, true, p, "")
  {
    hide Lex;
    assert z[p..p] == "";
  }

  lemma BlockMore(z: string, p: nat, n: nat, found: bool, e: nat, w: string)
    requires BlockSays(z, p + n, found, e, w) && (n == 1 || n == 2) && p + n <= |z|
    requires Lex(z, p, 62, "") == Lex(z, p + n, 62, "")
    requires if n == 1 then z[p] != '*' else z[p] == '*' && z[p + 1] != '/'
    ensures BlockSays(z, p, found, e, w)
  {
    hide Lex, BlockBody;
    BodyMore(z, p, n, e);
  }

  ghost predicate CommentOpen(z: string, r: nat)
    requires r <= |z|
  {
    StopsAtEnd(z, r, 0, "") && exists w, g :: CommentBeginning(z[r..], w, g)
  }

  /** No gap is left before `r`; a comment that starts there is not finished. */
  ghost predicate NoGap(z: string, r: nat) {
    r < |z| ==> !White(z[r]) && (z[r] == '/' ==> Lex(z, r, 0, "").tok == Invalid || CommentOpen(z, r))
  }

  /** The gap goes from `p` to `e`, and is passed over. */
  ghost predicate GapIs(z: string, p: nat, g: Gap, e: nat) {
    p < e <= |z| && LegalGap(g) && z[p..e] == GapText(g) && Lex(z, p, 0, "") == Lex(z, e, 0, "")
  }

  /** All gaps before a token are passed over. */
  lemma {:induction false} SkipBack(z: string, p: nat) returns (gs: seq<Gap>, r: nat)
    requires p <= |z|
    ensures p <= r <= |z| && LegalGaps(gs) && z[p..r] == GapsText(gs)
    ensures Lex(z, p, 0, "") == Lex(z, r, 0, "") && NoGap(z, r)
    decreases |z| - p
  {
    hide Lex, NoGap, LegalGap, GapText;
    var g, e := GapBack(z, p);
    if g == [] {
      gs, r := [], p;
    } else {
      gs, r := SkipBack(z, e);
      assert z[p..r] == z[p..e] + z[e..r];
      assert g + gs == [g[0]] + gs;
      gs := g + gs;
    }
  }

  /** The first gap at `p`, if there is one. */
  lemma GapBack(z: string, p: nat) returns (gs: seq<Gap>, e: nat)
    requires p <= |z|
    ensures if gs == [] then NoGap(z, p) else GapIs(z, p, gs[0], e)
    ensures |gs| <= 1
  {
    gs, e := [], p;
    if p < |z| && White(z[p]) {
      SkipWhite(z, p);
      gs, e := [Blank(z[p])], p + 1;
    } else if p < |z| && z[p] == '/' {
      gs, e := CommentBack(z, p);
    }
  }

  lemma CommentBack(z: string, p: nat) returns (gs: seq<Gap>, e: nat)
    requires p < |z| && z[p] == '/'
    ensures if gs == [] then NoGap(z, p) else GapIs(z, p, gs[0], e)
    ensures |gs| <= 1
  {
    hide Lex;
    gs, e := [], p;
    LexStep(z, p, 0, "", 60, false);
    if p + 1 == |z| {
      AtEnd(z, p + 1, 60, "");
      assert z[p..] + "/\n" == GapText(Line("", '\n'));
      assert CommentBeginning(z[p..], "/\n", Line("", '\n'));
      assert StopsAtEnd(z, p, 0, "") by { SameStop(z, p, 0, p + 1, 60); }
    } else if z[p + 1] == '/' {
      LexStep(z, p + 1, 60, "", 61, false);
      gs, e := LineGap(z, p);
    } else if z[p + 1] == '*' {
      LexStep(z, p + 1, 60, "", 62, false);
      gs, e := BlockGap(z, p);
    } else {
      LexGive(z, p + 1, 60, "", Invalid, false);
    }
  }

  lemma SameStop(z: string, p: nat, state: nat, q: nat, other: nat)
    requires Lex(z, p, state, "") == Lex(z, q, other, "") && StopsAtEnd(z, q, other, "")
    ensures StopsAtEnd(z, p, state, "")
  {}

  lemma LineGap(z: string, p: nat) returns (gs: seq<Gap>, e: nat)
    requires p + 2 <= |z| && z[p] == '/' && z[p + 1] == '/' && Lex(z, p, 0, "") == Lex(z, p + 2, 61, "")
    ensures if gs == [] then NoGap(z, p) else GapIs(z, p, gs[0], e)
    ensures |gs| <= 1
  {
    hide Lex;
    var found, f := LineBack(z, p + 2);
    var body := z[p + 2..f];
    if found {
      assert z[p..f + 1] == "//" + body + [z[f]];
      gs, e := [Line(body, z[f])], f + 1;
    } else {
      gs, e := [], p;
      assert z[p..] + "\n" == "//" + body + "\n";
      assert CommentBeginning(z[p..], "\n", Line(body, '\n'));
      SameStop(z, p, 0, p + 2, 61);
    }
  }

  lemma BlockGap(z: string, p: nat) returns (gs: seq<Gap>, e: nat)
    requires p + 2 <= |z| && z[p] == '/' && z[p + 1] == '*' && Lex(z, p, 0, "") == Lex(z, p + 2, 62, "")
    ensures if gs == [] then NoGap(z, p) else GapIs(z, p, gs[0], e)
    ensures |gs| <= 1
  {
    hide Lex, BlockBody;
    var found, f, w := BlockBack(z, p + 2);
    var body := z[p + 2..f];
    assert z[p..f] == "/*" + body;
    if found {
      assert z[p..f + 2] == z[p..f] + [z[f], z[f + 1]];
      gs, e := [Block(body)], f + 2;
    } else {
      gs, e := [], p;
      assert z[p..] + w == z[p..f] + (z[f..] + w);
      assert CommentBeginning(z[p..], w, Block(body));
      SameStop(z, p, 0, p + 2, 62);
    }
  }

  // ---------- words ----------

  predicate WordOf(t: string, s: nat, tok: Token) {
    (t == "true" && s == 7 && tok == TTrue) || (t == "false" && s == 10 && tok == TFalse)
    || (t == "null" && s == 14 && tok == TNull)
  }

  /** What the lexer says of a word, behind its first `i` letters. */
  predicate WordSays(z: string, p: nat, t: string, i: nat, word: Token, l: Lexed)
    requires i <= |t| && p <= |z|
  {
    if l.tok == More then |z| - p < |t| - i && z[p..] == t[i..i + |z| - p]
    else l.tok == Invalid || (l.tok == word && l.p == p + |t| - i <= |z| && z[p..l.p] == t[i..])
  }

  lemma LetterBefore(z: string, p: nat, t: string, i: nat, word: Token, l: Lexed)
    requires i + 1 <= |t| && p + 1 <= |z| && z[p] == t[i] && WordSays(z, p + 1, t, i + 1, word, l) && word != More
    ensures WordSays(z, p, t, i, word, l)
  {
    assert z[p..] == [z[p]] + z[p + 1..];
  }

  /** Inside a word, behind its first `i` letters. */
  lemma {:induction false} WordBack(z: string, p: nat, t: string, s: nat, i: nat, word: Token)
    requires WordOf(t, s, word) && 1 <= i < |t| && p <= |z|
    ensures WordSays(z, p, t, i, word, Lex(z, p, s + i - 1, ""))
    decreases |t| - i
  {
    hide Lex, Act1;
    if p == |z| {
      AtEnd(z, p, s + i - 1, "");
    } else if z[p] == t[i] {
      if i + 1 < |t| {
        LetterAct(t, s, i, z[p]);
        LexStep(z, p, s + i - 1, "", s + i, false);
        hide WordSays;
        WordBack(z, p + 1, t, s, i + 1, word);
        LetterBefore(z, p, t, i, word, Lex(z, p + 1, s + i, ""));
      } else {
        LastLetter(t, s, z[p], word);
        LexGive(z, p, s + i - 1, "", word, true);
        assert z[p..p + 1] == [z[p]] == t[i..];
      }
    } else {
      WrongLetter(t, s, i, z[p], word);
      LexGive(z, p, s + i - 1, "", Invalid, true);
    }
  }

  lemma LastLetter(t: string, s: nat, c: char, word: Token)
    requires WordOf(t, s, word) && c == t[|t| - 1]
    ensures Act1(s + |t| - 2, "", c) == Give(word, true)
  {}

  lemma WrongLetter(t: string, s: nat, i: nat, c: char, word: Token)
    requires WordOf(t, s, word) && 1 <= i < |t| && c != t[i]
    ensures Act1(s + i - 1, "", c) == Give(Invalid, true)
  {}

  // ---------- strings ----------

  /** What the lexer says of the text of a string from `p` on. */
  ghost predicate StringSays(z: string, p: nat, before: string, s: string, l: Lexed) {
    if l.tok == More then p <= |z| && |s| >= |z| - p && StringText(s) && s[..|z| - p] == z[p..]
    else l.tok == Invalid || (StringText(s) && Goes(z, p, s + "\"") && l == Lexed(TString(before + s), p + |s| + 1))
  }

  lemma {:induction false} StringBack(z: string, p: nat, before: string) returns (s: string)
    requires '\0' !in z && p <= |z|
    ensures StringSays(z, p, before, s, Lex(z, p, 1, before))
    decreases |z| - p, 1
  {
    s := "";
    if p < |z| {
      assert z[p] in z;
      if z[p] == '"' {
        LexGive(z, p, 1, before, TString(before), true);
        assert before + "" == before && z[p..p + 1] == "" + "\"";
      } else if z[p] != '\\' {
        s := PlainBack(z, p, before);
      } else {
        LexStep(z, p, 1, before, 2, true);
        s := EscapeBack(z, p, before);
      }
    }
  }

  lemma {:induction false} PlainBack(z: string, p: nat, before: string) returns (s: string)
    requires '\0' !in z && p < |z| && z[p] != '"' && z[p] != '\\'
    ensures StringSays(z, p, before, s, Lex(z, p, 1, before))
    decreases |z| - p, 0
  {
    assert z[p] in z;
    var u := [z[p]];
    LexStep(z, p, 1, before, 1, true);
    s := StringBack(z, p + 1, before + u);
    assert z[p..p + 1] == u && (u + s)[1..] == s;
    assert StringText(s) ==> StringText(u + s);
    hide Lex, StringText, StringSays, Act1;
    UnitBefore(z, p, 1, before, s);
    s := u + s;
  }

  /** One unit more before the rest of a string. */
  lemma UnitBefore(z: string, p: nat, n: nat, before: string, s: string)
    requires 1 <= n && p + n <= |z| && Lex(z, p, 1, before) == Lex(z, p + n, 1, before + z[p..p + n])
    requires StringSays(z, p + n, before + z[p..p + n], s, Lex(z, p, 1, before))
    requires StringText(s) ==> StringText(z[p..p + n] + s)
    ensures StringSays(z, p, before, z[p..p + n] + s, Lex(z, p, 1, before))
  {
    hide Lex, StringText;
    var u := z[p..p + n];
    assert before + u + s == before + (u + s);
    assert z[p..] == u + z[p + n..];
    if Goes(z, p + n, s + "\"") { assert z[p..p + |u + s| + 1] == u + z[p + n..p + n + |s| + 1] == u + s + "\""; }
  }

  lemma {:induction false} EscapeBack(z: string, p: nat, before: string) returns (s: string)
    requires '\0' !in z && p < |z| && z[p] == '\\' && Lex(z, p, 1, before) == Lex(z, p + 1, 2, before + [z[p]])
    ensures StringSays(z, p, before, s, Lex(z, p, 1, before))
    decreases |z| - p, 0
  {
    s := "";
    if p + 1 == |z| {
      s := "\\n";
      AtEnd(z, p + 1, 2, before + [z[p]]);
      assert z[p..] == s[..1];
      assert StringText(s) by { assert s[2..] == ""; }
    } else if IsEscape(z[p + 1]) {
      var u := z[p..p + 2];
      LexStep(z, p + 1, 2, before + [z[p]], 1, true);
      assert before + [z[p]] + [z[p + 1]] == before + u;
      s := StringBack(z, p + 2, before + u);
      assert (u + s)[2..] == s;
      UnitBefore(z, p, 2, before, s);
      s := u + s;
    } else if z[p + 1] == 'u' {
      LexStep(z, p + 1, 2, before + [z[p]], 3, true);
      assert before + [z[p]] + [z[p + 1]] == before + z[p..p + 2];
      var k := HexBack(z, p + 2, 3, before + z[p..p + 2]);
      if k == 4 {
        var u := z[p..p + 6];
        assert before + z[p..p + 2] + z[p + 2..p + 6] == before + u;
        s := StringBack(z, p + 6, before + u);
        UnicodeText(u, s);
        UnitBefore(z, p, 6, before, s);
        s := u + s;
      } else {
        s := PartBack(z, p, before, k);
      }
    } else {
      LexGive(z, p + 1, 2, before + [z[p]], Invalid, false);
    }
  }

  lemma UnicodeText(u: string, s: string)
    requires |u| == 6 && u[0] == '\\' && u[1] == 'u' && forall i | 2 <= i < 6 :: IsHex(u[i])
    ensures StringText(s) ==> StringText(u + s)
  {
    assert (u + s)[6..] == s;
    assert forall i | 0 <= i < 6 :: (u + s)[i] == u[i];
  }

  /** The hexadecimal digits at `p`, in the state that expects the first, second, third or fourth. */
  lemma {:induction false} HexBack(z: string, p: nat, state: nat, text: string) returns (k: nat)
    requires 3 <= state <= 6 && p <= |z|
    ensures k <= 7 - state && p + k <= |z| && forall i | p <= i < p + k :: IsHex(z[i])
    ensures k == 7 - state ==> Lex(z, p, state, text) == Lex(z, p + k, 1, text + z[p..p + k])
    ensures k < 7 - state ==>
      if p + k == |z| && state + k != 5 then Lex(z, p, state, text).tok == More
      else Lex(z, p, state, text).tok == Invalid
    decreases 7 - state
  {
    if p == |z| || !IsHex(z[p]) {
      k := 0;
      assert text + z[p..p] == text;
      if p < |z| { LexGive(z, p, state, text, Invalid, false); }
    } else {
      HexStep(z, p, state, text);
      if state == 6 {
        k := 1;
        assert z[p..p + 1] == [z[p]];
      } else {
        hide Lex, IsHex;
        k := HexBack(z, p + 1, state + 1, text + [z[p]]);
        assert text + [z[p]] + z[p + 1..p + 1 + k] == text + z[p..p + 1 + k];
        k := k + 1;
      }
    }
  }

  lemma PartBack(z: string, p: nat, before: string, k: nat) returns (s: string)
    requires p + 2 + k <= |z| && k < 4 && z[p] == '\\' && z[p + 1] == 'u'
    requires forall i | p + 2 <= i < p + 2 + k :: IsHex(z[i])
    requires if p + 2 + k == |z| && k != 2 then Lex(z, p, 1, before).tok == More
      else Lex(z, p, 1, before).tok == Invalid
    ensures StringSays(z, p, before, s, Lex(z, p, 1, before))
  {
    s := "";
    if p + 2 + k == |z| {
      var x := z[p..];
      var w := if k == 0 then "0000" else if k == 1 then "000" else "0";
      s := x + w;
      if k != 2 {
        assert |s| == 6 && forall i | 0 <= i < 2 + k :: s[i] == z[p + i];
        assert s[6..] == "";
      }
    }
  }

  // ---------- numbers ----------

  /** What may follow in a number, in each state of the lexer. */
  predicate NumberRest(state: nat, t: string) {
    match state
    case 17 => t != "" && if t[0] == '0' then AfterInt(t[1..]) else '1' <= t[0] <= '9' && IntDigits(t[1..])
    case 18 => AfterInt(t)
    case 19 => IntDigits(t)
    case 20 => t != "" && IsDigit(t[0]) && FractionDigits(t[1..])
    case 21 => FractionDigits(t)
    case 22 => t != "" && if t[0] == '+' || t[0] == '-' then |t| >= 2 && Digits(t[1..]) else Digits(t)
    case 23 => t != "" && Digits(t)
    case _ => Digits(t)
  }

  lemma RestStep(state: nat, text: string, c: char, t: string, next: nat, keep: bool)
    requires 17 <= state <= 24 && Act1(state, text, c) == Go(next, keep) && NumberRest(next, t)
    ensures NumberRest(state, [c] + t) && 17 <= next <= 24 && keep
  {
    var s := [c] + t;
    assert s[0] == c && s[1..] == t;
    if next == 20 || next == 22 { assert s[1] == t[0] && s[2..] == t[1..]; }
  }

  /** What the lexer says of a number, inside it. */
  predicate NumberSays(z: string, p: nat, state: nat, text: string, t: string, l: Lexed)
    requires p <= |z|
  {
    if l.tok == More then NumberRest(state, t) && |t| >= |z| - p && t[..|z| - p] == z[p..]
    else l.tok == Invalid || (NumberRest(state, t) && Rests(z, p, t)
                              && l == Lexed(TNumber(text + t), Past(z, p + |t|)))
  }

  lemma {:induction false} NumberBack(z: string, p: nat, state: nat, text: string) returns (t: string)
    requires 17 <= state <= 24 && p <= |z|
    ensures NumberSays(z, p, state, text, t, Lex(z, p, state, text))
    decreases |z| - p
  {
    hide Lex;
    if p == |z| {
      t := if state == 17 || state == 20 || state == 22 || state == 23 then "0" else "";
      AtEnd(z, p, state, text);
      Shortest(state, t);
    } else {
      match Act1(state, text, z[p]) {
        case Give(tok, read) =>
          t := "";
          LexGive(z, p, state, text, tok, read);
          GivesNumber(z, p, state, text);
        case Go(next, keep) =>
          NumberStays(state, text, z[p]);
          LexStep(z, p, state, text, next, keep);
          hide Act1, NumberSays;
          var s := NumberBack(z, p + 1, next, text + [z[p]]);
          DigitBefore(z, p, state, text, s, next, Lex(z, p, state, text));
          t := [z[p]] + s;
      }
    }
  }

  lemma Shortest(state: nat, t: string)
    requires 17 <= state <= 24
    requires t == if state == 17 || state == 20 || state == 22 || state == 23 then "0" else ""
    ensures NumberRest(state, t)
  {
    if t == "0" { assert t[1..] == ""; }
  }

  lemma GivesNumber(z: string, p: nat, state: nat, text: string)
    requires 17 <= state <= 24 && p < |z| && Act1(state, text, z[p]).Give?
    ensures var a := Act1(state, text, z[p]);
      NumberSays(z, p, state, text, "", Lexed(a.tok, if a.read then p + 1 else p))
  {
    assert z[p..p] == "" && text + "" == text;
  }

  lemma DigitBefore(z: string, p: nat, state: nat, text: string, s: string, next: nat, l: Lexed)
    requires p < |z| && 17 <= state <= 24 && Act1(state, text, z[p]) == Go(next, true)
    requires NumberSays(z, p + 1, next, text + [z[p]], s, l)
    ensures NumberSays(z, p, state, text, [z[p]] + s, l)
  {
    if NumberRest(next, s) { RestStep(state, text, z[p], s, next, true); }
    hide NumberRest, Act1;
    assert z[p..] == [z[p]] + z[p + 1..];
    assert text + [z[p]] + s == text + ([z[p]] + s);
    if Goes(z, p + 1, s) { assert z[p..p + 1 + |s|] == [z[p]] + z[p + 1..p + 1 + |s|]; }
  }

  // ---------- tokens ----------

  /** A token that is given at `r` stands there. */
  ghost predicate TokenSays(z: string, r: nat, l: Lexed)
    requires r <= |z|
  {
    if l.tok == More then Unfinished(z[r..]) else l.tok == Invalid || TokenStands(z, r, l)
  }

  predicate TokenStands(z: string, r: nat, l: Lexed) {
    LegalToken(l.tok) && Goes(z, r, TokenText(l.tok)) &&
    var e := r + |TokenText(l.tok)|;
    if l.tok.TNumber? then e < |z| && Stops(z[e]) && l.p == Past(z, e) else l.p == e
  }

  lemma QuoteBack(z: string, r: nat)
    requires '\0' !in z && r < |z| && z[r] == '"'
    ensures TokenSays(z, r, Lex(z, r, 0, ""))
  {
    hide Lex, StringText, TokenSays, StringSays;
    Starts();
    LexStep(z, r, 0, "", 1, false);
    var s := StringBack(z, r + 1, "");
    QuoteFound(z, r, s, Lex(z, r + 1, 1, ""));
  }

  lemma QuoteFound(z: string, r: nat, s: string, l: Lexed)
    requires r < |z| && z[r] == '"' && StringSays(z, r + 1, "", s, l) && l == Lex(z, r + 1, 1, "")
    ensures TokenSays(z, r, l)
  {
    hide Lex, StringText, Unfinished;
    assert "" + s == s;
    if l.tok == More {
      OpenQuote(z, r, s);
    } else if l.tok != Invalid {
      QuoteStands(z, r, s);
    }
  }

  lemma QuoteStands(z: string, r: nat, s: string)
    requires r < |z| && z[r] == '"' && Goes(z, r + 1, s + "\"")
    ensures Goes(z, r, "\"" + s + "\"")
  {
    assert z[r..r + |s| + 2] == [z[r]] + z[r + 1..r + 1 + |s| + 1];
    assert "\"" + s + "\"" == [z[r]] + (s + "\"");
  }

  lemma OpenText(x: string, v: string)
    requires StringText(x + v)
    ensures Beginning("\"" + x, v + "\"", TString(x + v))
  {
    hide StringText;
    assert "\"" + x + (v + "\"") == "\"" + (x + v) + "\"";
  }

  lemma OpenQuote(z: string, r: nat, s: string)
    requires r < |z| && z[r] == '"' && StringText(s) && |s| >= |z| - r - 1 && s[..|z| - r - 1] == z[r + 1..]
    requires Lex(z, r + 1, 1, "").tok == More
    ensures Unfinished(z[r..])
  {
    hide Lex, StringText, Beginning, TwoDigits, CommentBeginning;
    var x, v := z[r + 1..], s[|z| - r - 1..];
    assert s == x + v;
    OpenText(x, v);
    assert z[r..] == "\"" + x;
    forall y, a, b ensures !TwoDigits(z[r..], y, a, b) {
      if TwoDigits(z[r..], y, a, b) { TwoIsInvalid(z, r, y, a, b); }
    }
  }

  lemma TwoParts(z: string, r: nat, y: string, a: char, b: char)
    requires r < |z| && TwoDigits(z[r..], y, a, b)
    ensures GoesToEnd(z, r + 1, y + ['\\', 'u', a, b]) && StringText(y) && IsHex(a) && IsHex(b)
  {
    var u, e := z[r..], ['\\', 'u', a, b];
    hide StringText;
    assert u == "\"" + (y + e);
    assert z[r + 1..] == u[1..] == y + e;
  }

  lemma EscapeAt(z: string, p: nat, e: string)
    requires GoesToEnd(z, p, e) && |e| == 4
    ensures p + 4 == |z| && z[p] == e[0] && z[p + 1] == e[1] && z[p + 2] == e[2] && z[p + 3] == e[3]
  {
    assert z[p..p + 4] == e;
  }

  lemma TwoIsInvalid(z: string, r: nat, y: string, a: char, b: char)
    requires r < |z| && TwoDigits(z[r..], y, a, b)
    ensures Lex(z, r + 1, 1, "").tok == Invalid
  {
    hide Lex, IsHex, GoesToEnd, StringText, TwoDigits;
    var e := ['\\', 'u', a, b];
    TwoParts(z, r, y, a, b);
    ToEnd(z, r + 1, y, e);
    Through(z, r + 1, y, "");
    EscapeAt(z, r + 1 + |y|, e);
    FourSteps(z, r + 1 + |y|, "" + y);
  }

  lemma FourSteps(z: string, p: nat, t: string)
    requires p + 4 == |z| && z[p] == '\\' && z[p + 1] == 'u' && IsHex(z[p + 2]) && IsHex(z[p + 3])
    ensures Lex(z, p, 1, t).tok == Invalid
  {
    hide Lex, IsHex;
    var t2 := t + [z[p]] + [z[p + 1]];
    LexStep(z, p, 1, t, 2, true);
    LexStep(z, p + 1, 2, t + [z[p]], 3, true);
    HexStep(z, p + 2, 3, t2);
    HexStep(z, p + 3, 4, t2 + [z[p + 2]]);
    FiveEnds(z, p + 4, t2 + [z[p + 2]] + [z[p + 3]]);
  }

  lemma FiveEnds(z: string, p: nat, text: string)
    requires p >= |z|
    ensures Lex(z, p, 5, text).tok == Invalid
  {}

  /** The text of a string is passed over. */
  lemma {:induction false} Through(z: string, p: nat, y: string, before: string)
    requires StringText(y) && Goes(z, p, y)
    ensures Lex(z, p, 1, before) == Lex(z, p + |y|, 1, before + y)
    decreases |y|
  {
    if y == "" {
      assert before + y == before;
    } else {
      assert y + "" == y;
      var n := if y[0] != '\\' then 1 else if y[1] == 'u' then 6 else 2;
      StringUnit(z, p, y, "", before, n);
      GoesTail(z, p, y, n);
      assert before + y[..n] + y[n..] == before + y;
      hide Lex, Goes, StringText;
      Through(z, p + n, y[n..], before + y[..n]);
    }
  }

  lemma NumberTokenBack(z: string, r: nat)
    requires r < |z| && (z[r] == '-' || IsDigit(z[r]))
    ensures TokenSays(z, r, Lex(z, r, 0, ""))
  {
    hide Lex, NumberSays, TokenSays;
    var s := if z[r] == '-' then 17 else if z[r] == '0' then 18 else 19;
    StartNumber(z[r]);
    LexStep(z, r, 0, "", s, true);
    assert "" + [z[r]] == [z[r]];
    var t := NumberBack(z, r + 1, s, [z[r]]);
    NumberFound(z, r, s, t, Lex(z, r + 1, s, [z[r]]));
  }

  lemma NumberFound(z: string, r: nat, s: nat, t: string, l: Lexed)
    requires r < |z| && (z[r] == '-' || IsDigit(z[r]))
    requires s == if z[r] == '-' then 17 else if z[r] == '0' then 18 else 19
    requires NumberSays(z, r + 1, s, [z[r]], t, l)
    ensures TokenSays(z, r, l)
  {
    hide NumberRest, NumberText, Unfinished;
    var n := [z[r]] + t;
    if l.tok != Invalid { WholeNumber(z[r], s, t); }
    if l.tok == More {
      assert n[..|z| - r] == [z[r]] + t[..|z| - r - 1];
      NumberOpen(z, r, n);
    } else if l.tok != Invalid {
      assert z[r..r + |n|] == [z[r]] + z[r + 1..r + 1 + |t|];
    }
  }

  lemma WholeNumber(c: char, s: nat, t: string)
    requires (c == '-' || IsDigit(c)) && s == (if c == '-' then 17 else if c == '0' then 18 else 19) && NumberRest(s, t)
    ensures NumberText([c] + t)
  {
    var n := [c] + t;
    assert n[0] == c && n[1..] == t;
    hide AfterInt, IntDigits;
  }

  lemma NumberOpen(z: string, r: nat, n: string)
    requires r < |z| && NumberText(n) && |n| >= |z| - r && n[..|z| - r] == z[r..]
    ensures Unfinished(z[r..])
  {
    var u, w := z[r..], n[|z| - r..];
    hide NumberText;
    assert u + w == n;
    assert Beginning(u, w, TNumber(n));
    forall y, a, b ensures !TwoDigits(u, y, a, b) {
      NumberFirst(n);
      assert u[0] == n[0];
      if TwoDigits(u, y, a, b) { QuoteFirst(u, y, a, b); }
    }
  }

  lemma QuoteFirst(u: string, y: string, a: char, b: char)
    requires TwoDigits(u, y, a, b)
    ensures u != "" && u[0] == '"'
  {}

  lemma LetterBack(z: string, r: nat, t: string, s: nat, word: Token)
    requires WordOf(t, s, word) && r < |z| && z[r] == t[0]
    ensures TokenSays(z, r, Lex(z, r, 0, ""))
  {
    hide Lex, TokenSays, WordSays;
    Starts();
    LexStep(z, r, 0, "", s, false);
    WordBack(z, r + 1, t, s, 1, word);
    WordFound(z, r, t, s, word, Lex(z, r + 1, s, ""));
  }

  lemma WordFound(z: string, r: nat, t: string, s: nat, word: Token, l: Lexed)
    requires WordOf(t, s, word) && r < |z| && z[r] == t[0] && WordSays(z, r + 1, t, 1, word, l)
    ensures TokenSays(z, r, l)
  {
    hide Unfinished;
    if l.tok == More {
      var u := z[r..];
      assert u == [z[r]] + z[r + 1..];
      assert [t[0]] + t[1..1 + |z| - r - 1] == t[..|z| - r];
      WordOpen(u, t, s, word);
    } else if l.tok != Invalid {
      assert z[r..l.p] == [z[r]] + z[r + 1..l.p];
      assert t == [t[0]] + t[1..];
    }
  }

  lemma WordOpen(u: string, t: string, s: nat, word: Token)
    requires WordOf(t, s, word) && 0 < |u| < |t| && u == t[..|u|]
    ensures Unfinished(u)
  {
    assert t == u + t[|u|..];
    assert Beginning(u, t[|u|..], word);
    forall y, a, b ensures !TwoDigits(u, y, a, b) {
      if TwoDigits(u, y, a, b) { QuoteFirst(u, y, a, b); }
    }
  }

  lemma MarkBack(z: string, r: nat)
    requires r < |z| && (z[r] == '{' || z[r] == '}' || z[r] == '[' || z[r] == ']' || z[r] == ':' || z[r] == ',')
    ensures TokenSays(z, r, Lex(z, r, 0, ""))
  {
    LexMark(z, r);
    assert z[r..r + 1] == [z[r]];
    hide Lex;
  }

  lemma NothingLeft(z: string)
    ensures Unfinished(z[|z|..])
  {
    var u := z[|z|..];
    assert u == "" && CommentBeginning(u, "//\n", Line("", '\n'));
  }

  /** What the lexer gives where no gap is left. */
  lemma TokenBack(z: string, r: nat)
    requires '\0' !in z && r <= |z| && NoGap(z, r)
    ensures TokenSays(z, r, Lex(z, r, 0, ""))
  {
    hide TokenSays;
    if r == |z| {
      NothingBack(z);
    } else if z[r] == '"' {
      QuoteBack(z, r);
    } else if z[r] == '-' || IsDigit(z[r]) {
      NumberTokenBack(z, r);
    } else if z[r] == 't' {
      LetterBack(z, r, "true", 7, TTrue);
    } else if z[r] == 'f' {
      LetterBack(z, r, "false", 10, TFalse);
    } else if z[r] == 'n' {
      LetterBack(z, r, "null", 14, TNull);
    } else if z[r] == '{' || z[r] == '}' || z[r] == '[' || z[r] == ']' || z[r] == ':' || z[r] == ',' {
      MarkBack(z, r);
    } else {
      OtherBack(z, r);
    }
  }

  lemma NothingBack(z: string)
    ensures TokenSays(z, |z|, Lex(z, |z|, 0, ""))
  {
    NothingLeft(z);
    hide Unfinished;
  }

  /** No token starts with this character. */
  lemma OtherBack(z: string, r: nat)
    requires r < |z| && NoGap(z, r) && z[r] !in "\"-tfn{}[]:," && !IsDigit(z[r])
    ensures TokenSays(z, r, Lex(z, r, 0, ""))
  {
    if z[r] != '/' { LexGive(z, r, 0, "", Invalid, true); }
  }

  // ---------- a text that is read is spelled ----------

  lemma EmptyRest()
    ensures Rest("")
  {
    NothingLeft("");
    hide Unfinished;
    assert "" == GapsText([]) + "";
    assert LegalGaps([]);
  }

  lemma StopsApart(z: string, e: nat)
    requires e < |z| && Stops(z[e])
    ensures Apart(z[e..])
  {}

  lemma ProperMore(gs: seq<Gap>, tok: Token, toks: seq<Token>, gaps: seq<seq<Gap>>, tail: string)
    requires LegalGaps(gs) && LegalToken(tok) && Proper(toks, gaps, tail)
    requires tok.TNumber? ==> Apart(Spell(toks, gaps) + tail)
    ensures Proper([tok] + toks, [gs] + gaps, tail)
    ensures Spell([tok] + toks, [gs] + gaps) == GapsText(gs) + TokenText(tok) + Spell(toks, gaps)
  {
    var ts, hs := [tok] + toks, [gs] + gaps;
    assert ts[1..] == toks && hs[1..] == gaps;
    hide LegalGaps, LegalToken, GapsText, TokenText, Apart;
  }

  /** What the tokens of a text are spelled with. */
  lemma {:induction false} StreamBack(z: string, p: nat) returns (gaps: seq<seq<Gap>>, tail: string)
    requires '\0' !in z && p <= |z| && Stream(z, p).last == More
    ensures Proper(Stream(z, p).toks, gaps, tail) && Rest(tail) && z[p..] == Spell(Stream(z, p).toks, gaps) + tail
    decreases |z| - p
  {
    hide Lex, Stream, Rest, Proper, Spell, LegalGaps, GapsText, TokenSays, NoGap;
    gaps, tail := [], z[p..];
    var gs, r := SkipBack(z, p);
    TokenBack(z, r);
    assert z[p..] == z[p..r] + z[r..];
    var l := Lex(z, p, 0, "");
    StreamFirst(z, p);
    if p == |z| {
      EmptyRest();
      NoTokens(tail);
    } else if l.tok == More {
      RestIs(z, r, gs, l);
      NoTokens(tail);
    } else {
      var e := TokenPlace(z, p, r, l);
      gaps, tail := StreamBack(z, e);
      assert z[r..] == TokenText(l.tok) + z[e..];
      ProperMore(gs, l.tok, Stream(z, e).toks, gaps, tail);
      gaps := [gs] + gaps;
    }
  }

  lemma NoTokens(tail: string)
    ensures Proper([], [], tail) && Spell([], []) + tail == tail
  {}

  lemma RestIs(z: string, r: nat, gs: seq<Gap>, l: Lexed)
    requires r <= |z| && LegalGaps(gs) && TokenSays(z, r, l) && l.tok == More
    ensures Rest(GapsText(gs) + z[r..])
  {
    hide Unfinished, LegalGaps, GapsText;
  }

  lemma StreamFirst(z: string, p: nat)
    requires Stream(z, p).last == More && p <= |z|
    ensures p == |z| ==> Stream(z, p).toks == []
    ensures p < |z| ==> var l := Lex(z, p, 0, "");
      l.tok != Invalid && (l.tok == More ==> Stream(z, p).toks == [])
    ensures p < |z| && Lex(z, p, 0, "").tok != More ==> var l := Lex(z, p, 0, "");
      l.p > p && Stream(z, p).toks == [l.tok] + Stream(z, l.p).toks && Stream(z, l.p).last == More
  {
    LexAhead(z, p, 0, "");
    hide Lex;
  }

  lemma TokenPlace(z: string, p: nat, r: nat, l: Lexed) returns (e: nat)
    requires p <= r <= |z| && TokenSays(z, r, l) && l.tok != More && l.tok != Invalid
    ensures p < e <= |z| && LegalToken(l.tok) && e == r + |TokenText(l.tok)| && z[r..] == TokenText(l.tok) + z[e..]
    ensures Stream(z, l.p) == Stream(z, e) && (l.tok.TNumber? ==> Apart(z[e..]))
  {
    hide Stream, Unfinished, LegalToken, TokenText;
    e := r + |TokenText(l.tok)|;
    SomeText(l.tok);
    assert z[r..] == z[r..e] + z[e..];
    if l.tok.TNumber? {
      StreamPast(z, e);
      StopsApart(z, e);
    }
  }

  // ---------- the texts of a tree ----------

  /** The text spells the tree, with gaps before its tokens, a comma more in some of its arrays, and
      something unfinished at the end. */
  ghost predicate TextOf(z: string, l: Loose, gaps: seq<seq<Gap>>, tail: string) {
    Whole(l, false) && Container(l.kind) && Proper(Tokens(l), gaps, tail) && Rest(tail)
        && z == Spell(Tokens(l), gaps) + tail
  }

  lemma DocumentIsRun(z: string, t: Tree)
    ensures ParseDocument(z) == Root(t) <==>
      (Stream(z, 0).last == More && Finished(Run(Machine(0, []), Stream(z, 0).toks))
       && Run(Machine(0, []), Stream(z, 0).toks).stack != []
       && Closed(Run(Machine(0, []), Stream(z, 0).toks).stack[0]) == t)
  {
    hide Parse, Stream, Run;
    ParseIsRun(z, 0, Machine(0, []));
  }

  /** The text of a tree is read as that tree. */
  lemma TextIsRead(z: string, l: Loose, gaps: seq<seq<Gap>>, tail: string)
    requires TextOf(z, l, gaps, tail)
    ensures ParseDocument(z) == Root(Strip(l))
  {
    hide Stream, Spell, Rest, Proper, Whole, Tokens, Run, ParseDocument;
    var toks := Tokens(l);
    assert z[0..0 + |z|] == z;
    ProperLength(toks, gaps, tail);
    SpelledIsRead(z, 0, toks, gaps, tail);
    RestIsRead(z, 0 + |Spell(toks, gaps)|, tail);
    assert toks + [] == toks;
    TokensAccepted(l);
    WholeKids(l, false);
    DocumentIsRun(z, Strip(l));
  }

  lemma ProperLength(toks: seq<Token>, gaps: seq<seq<Gap>>, tail: string)
    requires Proper(toks, gaps, tail)
    ensures |gaps| == |toks|
  {}

  /** Every text that is read as a tree is a text of that tree. */
  lemma ReadIsText(z: string, t: Tree) returns (l: Loose, gaps: seq<seq<Gap>>, tail: string)
    requires '\0' !in z && ParseDocument(z) == Root(t)
    ensures Strip(l) == t && TextOf(z, l, gaps, tail)
  {
    hide Stream, Spell, Rest, Proper, Whole, Tokens, Run, ParseDocument, Apply, LegalToken;
    DocumentIsRun(z, t);
    gaps, tail := StreamBack(z, 0);
    assert z[0..] == z;
    var toks := Stream(z, 0).toks;
    ProperTokens(toks, gaps, tail);
    var ls, state := Lifted(toks);
    FitStates(ls, state);
    var m := Run(Machine(0, []), toks);
    assert m.stack == [m.stack[0]];
    l := AcceptedIsTokens(toks, m.stack[0]);
  }

  lemma ProperTokens(toks: seq<Token>, gaps: seq<seq<Gap>>, tail: string)
    requires Proper(toks, gaps, tail)
    ensures forall tok | tok in toks :: LegalToken(tok)
  {}

  /** A C string is read as a tree if and only if it is a text of it. */
  lemma ReadExactly(z: string, t: Tree)
    requires '\0' !in z
    ensures ParseDocument(z) == Root(t) <==> exists l, gaps, tail :: Strip(l) == t && TextOf(z, l, gaps, tail)
  {
    hide TextOf, ParseDocument, Strip;
    if ParseDocument(z) == Root(t) {
      var l, gaps, tail := ReadIsText(z, t);
    }
    if l, gaps, tail :| Strip(l) == t && TextOf(z, l, gaps, tail) { TextIsRead(z, l, gaps, tail); }
  }
}
