/** Which texts the parser finds incomplete, and which malformed. */
module JsonErrors {
  import opened JsonText
  import opened JsonLexer
  import opened JsonParse
  import opened JsonTokens
  import opened JsonSpell
  import opened JsonEvery
  import JsonSpaces

  // ---------- every state can be completed ----------

  /** How far it is to the end. */
  function Left(n: nat, state: nat): nat {
    4 * n + match state case 0 => 20 case 4 => 7 case 5 => 2 case 6 => 1 case _ => 0
  }

  /** A token that leads on to the end. */
  function Onward(state: nat): Token {
    match state
    case 0 => BeginArray
    case 2 => EndObject
    case 3 => EndObject
    case 4 => TString("")
    case 5 => Colon
    case 6 => TNull
    case _ => EndArray
  }

  predicate Running(state: nat) { state <= 9 && state != 1 && state != 7 }

  lemma OnwardTaken(state: nat)
    requires Running(state)
    ensures Taken(state, Onward(state)) && LegalToken(Onward(state))
  {}

  lemma FitRange(ls: seq<Loose>, state: nat)
    requires Fit(ls, state) && state != 99
    ensures Running(state)
    ensures state == 0 <==> ls == []
    ensures state == 6 ==> ls[|ls| - 1].kind == KString
    ensures state == 2 || state == 3 ==> ls[|ls| - 1].kind == KObject
    ensures state == 8 || state == 9 ==> ls[|ls| - 1].kind == KArray
    ensures state == 5 || state == 6 ==> ls[|ls| - 1].kind == KString
  {
    if ls != [] { LastBegun(ls); }
    hide AllBegun, Nested;
  }

  lemma AttachShort(stack: seq<Open>, t: Tree)
    ensures var m := Attach(stack, t); m.Machine? ==> (m.state == 3 || m.state == 9) && |m.stack| <= |stack|
    ensures var m := Attach(stack, t); m.Machine? && stack[|stack| - 1].kind == KString ==> |m.stack| < |stack|
  {}

  lemma CloseShort(stack: seq<Open>)
    ensures var m := Close(stack);
      m.Machine? ==> m.state == 99 || ((m.state == 3 || m.state == 9) && |m.stack| < |stack|)
  {
    if |stack| > 1 { AttachShort(stack[..|stack| - 1], Closed(stack[|stack| - 1])); }
    hide Attach;
  }

  /** The next token leads on. */
  lemma OnwardShort(m: Machine)
    requires m.Machine? && Enter(Apply(m, Onward(m.state))).Machine?
    requires Running(m.state)
    requires (m.state == 0 <==> m.stack == []) && (m.state == 6 ==> m.stack[|m.stack| - 1].kind == KString)
    ensures var n := Enter(Apply(m, Onward(m.state)));
      n.state == 99 || Left(|n.stack|, n.state) < Left(|m.stack|, m.state)
  {
    CloseShort(m.stack);
    AttachShort(m.stack, Tree(KNull, "", []));
    hide Attach, Close;
  }

  /** From every state that fits, some tokens lead to the end. */
  lemma {:induction false} Completed(ls: seq<Loose>, state: nat) returns (rest: seq<Token>, ks: seq<Loose>)
    requires Fit(ls, state)
    ensures Run(Machine(state, OpensOf(ls)), rest) == Machine(99, OpensOf(ks)) && Fit(ks, 99)
    ensures state != 99 ==> rest != []
    ensures forall tok | tok in rest :: LegalToken(tok)
    decreases if state == 99 then 0 else 1 + Left(|ls|, state)
  {
    hide Fit, Run, Apply, Enter, LegalToken, Taken, Left, OpensOf;
    var m := Machine(state, OpensOf(ls));
    rest, ks := [], ls;
    if state == 99 {
      RunNone(m);
    } else {
      FitRange(ls, state);
      OnwardTaken(state);
      var tok := Onward(state);
      var next, st := Stepped(ls, state, tok);
      if state == 6 { TopKind(ls, state); }
      OnwardShort(m);
      OpensLength(ls);
      OpensLength(next);
      var more;
      more, ks := Completed(next, st);
      rest := [tok] + more;
      RunParts(m, [tok], more);
      RunOne(m, tok);
    }
  }

  lemma OpensLength(ls: seq<Loose>)
    ensures |OpensOf(ls)| == |ls|
  {}

  lemma TopKind(ls: seq<Loose>, state: nat)
    requires Fit(ls, state) && state == 6
    ensures ls != [] && OpensOf(ls) != [] && OpensOf(ls)[|ls| - 1].kind == KString
  {
    FitRange(ls, state);
    hide AllBegun, Nested;
  }

  // ---------- how a parse ends ----------

  lemma NotTaken(state: nat, tok: Token, stack: seq<Open>)
    requires LegalToken(tok) && !Taken(state, tok) && state <= 9 && state != 1 && state != 7
    ensures Apply(Machine(state, stack), tok) == Stop(Malformed)
  {
    hide Attach, Close;
  }

  lemma NothingTaken(tok: Token, stack: seq<Open>)
    requires LegalToken(tok)
    ensures Apply(Machine(99, stack), tok) == Stop(Malformed)
  {
    hide Attach, Close;
  }

  /** The parser is not at the end, and the input stops. */
  lemma StopsHere(state: nat, tok: Token, stack: seq<Open>)
    requires (tok == More || tok == Invalid) && (state <= 9 || state == 99) && state != 1 && state != 7
    ensures Apply(Machine(state, stack), tok) ==
      if tok == Invalid then Stop(Malformed)
      else if state == 99 then Machine(99, stack) else Stop(if state == 0 then Malformed else Incomplete)
  {
    hide Attach, Close;
  }

  lemma TokenIsLegal(z: string, p: nat)
    requires '\0' !in z && p <= |z|
    ensures var l := Lex(z, p, 0, ""); l.tok == More || l.tok == Invalid || LegalToken(l.tok)
  {
    hide Lex, NoGap, GapsText, LegalGaps, Unfinished, LegalToken;
    var gs, r := SkipBack(z, p);
    TokenBack(z, r);
  }

  /** Opening a value changes nothing. */
  lemma EnterSame(z: string, p: nat, m: Machine)
    ensures Parse(z, p, m).Stop? || Parse(z, p, Enter(m)).Stop? ==> Parse(z, p, m) == Parse(z, p, Enter(m))
  {
    hide Lex, Apply;
  }

  /** The values go on, and the input has ended. */
  ghost predicate Underway(m: Machine, r: Read) {
    Run(m, r.toks).Machine? && Run(m, r.toks).state != 99 && r.last == More
  }

  ghost predicate EndsAs(m: Machine, r: Read, end: Machine) {
    && (end.Stop? ==> end.err == Incomplete || end.err == Malformed)
    && (end == Stop(Incomplete) <==> Underway(m, r))
  }

  lemma EndsNow(m: Machine, last: Token, end: Machine)
    requires m.Machine? && (last == More || last == Invalid)
    requires end == if last == Invalid then Stop(Malformed) else if m.state == 99 then m else Stop(Incomplete)
    ensures EndsAs(m, Read([], last), end)
  {
    RunNone(m);
    hide Run;
  }

  lemma EndsLater(m: Machine, tok: Token, r: Read, end: Machine)
    requires m.Machine? && EndsAs(Enter(Apply(m, tok)), r, end)
    ensures EndsAs(m, Read([tok] + r.toks, r.last), end)
  {
    RunParts(m, [tok], r.toks);
    RunOne(m, tok);
    hide Run, Apply;
  }

  lemma EndsBad(m: Machine, tok: Token, r: Read)
    requires m.Machine? && Apply(m, tok) == Stop(Malformed)
    ensures EndsAs(m, Read([tok] + r.toks, r.last), Stop(Malformed))
  {
    RunParts(m, [tok], r.toks);
    RunOne(m, tok);
    Stopped(r.toks, Malformed);
    hide Run, Apply;
  }

  lemma StreamIs(z: string, p: nat)
    ensures p >= |z| ==> Stream(z, p) == Read([], More)
    ensures p < |z| ==> var l := Lex(z, p, 0, "");
      if l.tok == More || l.tok == Invalid then Stream(z, p) == Read([], l.tok)
      else l.p > p && l.p <= |z| && Stream(z, p) == Read([l.tok] + Stream(z, l.p).toks, Stream(z, l.p).last)
  {
    LexAhead(z, p, 0, "");
    hide Lex;
  }

  lemma ParseOne(z: string, p: nat, m: Machine)
    requires m.Machine? && m.state != 1 && m.state != 7
    ensures p >= |z| ==> Parse(z, p, m) == if m.state == 99 then m else Stop(Incomplete)
    ensures p < |z| ==> var l := Lex(z, p, 0, "");
      Parse(z, p, m) == if l.tok == More || l.tok == Invalid then Apply(m, l.tok) else Parse(z, l.p, Apply(m, l.tok))
  {
    LexAhead(z, p, 0, "");
    hide Lex, Apply;
  }

  lemma {:induction false} ParseEnds(z: string, p: nat, ls: seq<Loose>, state: nat)
    requires '\0' !in z && p <= |z| && Fit(ls, state) && state != 0
    ensures EndsAs(Machine(state, OpensOf(ls)), Stream(z, p), Parse(z, p, Machine(state, OpensOf(ls))))
    decreases |z| - p
  {
    hide Lex, Stream, Parse, Apply, Enter, Fit, OpensOf, EndsAs, Run, Taken, LegalToken;
    var m := Machine(state, OpensOf(ls));
    FitStates(ls, state);
    if state != 99 { FitRange(ls, state); }
    StreamIs(z, p);
    ParseOne(z, p, m);
    if p == |z| {
      EndsNow(m, More, Parse(z, p, m));
    } else {
      var l := Lex(z, p, 0, "");
      if l.tok == More || l.tok == Invalid {
        StopsHere(state, l.tok, m.stack);
        EndsNow(m, l.tok, Parse(z, p, m));
      } else {
        TokenIsLegal(z, p);
        if state != 99 && Taken(state, l.tok) {
          var ks, next := Stepped(ls, state, l.tok);
          NextState(m, l.tok, next);
          ParseEnds(z, l.p, ks, next);
          EnterSame(z, l.p, Apply(m, l.tok));
          EndsSame(Machine(next, OpensOf(ks)), Stream(z, l.p), Parse(z, l.p, Machine(next, OpensOf(ks))),
                   Parse(z, l.p, Apply(m, l.tok)));
          EndsLater(m, l.tok, Stream(z, l.p), Parse(z, p, m));
        } else {
          if state == 99 { NothingTaken(l.tok, m.stack); } else { NotTaken(state, l.tok, m.stack); }
          ParseStopped(z, l.p, Malformed);
          EndsBad(m, l.tok, Stream(z, l.p));
        }
      }
    }
  }

  lemma EndsSame(m: Machine, r: Read, a: Machine, b: Machine)
    requires EndsAs(m, r, a) && (a.Stop? || b.Stop? ==> a == b)
    ensures EndsAs(m, r, b)
  {
    hide Underway;
  }

  lemma ParseStopped(z: string, p: nat, err: Error)
    ensures Parse(z, p, Stop(err)) == Stop(err)
  {}

  lemma NextState(m: Machine, tok: Token, next: nat)
    requires m.Machine? && Enter(Apply(m, tok)).Machine? && Enter(Apply(m, tok)).state == next
    requires LegalToken(tok) && Taken(m.state, tok)
    ensures next != 0
  {
    hide Attach, Close;
    AttachStates(m.stack, tok);
  }

  lemma AttachStates(stack: seq<Open>, tok: Token)
    ensures Close(stack).Machine? ==> Close(stack).state != 0
    ensures Leaf(tok).Some? ==> var n := Attach(stack, Leaf(tok).value); n.Machine? ==> n.state != 0
  {
    CloseShort(stack);
    if Leaf(tok).Some? { AttachShort(stack, Leaf(tok).value); }
    hide Attach, Close;
  }

  // ---------- the errors of a document ----------

  lemma OtherStart(tok: Token)
    requires tok != BeginObject && tok != BeginArray
    ensures Apply(Machine(0, []), tok) == Stop(Malformed)
  {}

  /** How the parser ends: it is incomplete when a value has been begun and the input stops, and for the
      empty text. */
  lemma StartEnds(z: string)
    requires '\0' !in z
    ensures var end := Parse(z, 0, Machine(0, []));
      && (end.Stop? ==> end.err == Incomplete || end.err == Malformed)
      && (end == Stop(Incomplete) <==> z == "" || (Stream(z, 0).toks != [] && Underway(Machine(0, []), Stream(z, 0))))
  {
    hide Lex, Stream, Parse, Apply, Enter, Fit, OpensOf, Run;
    var m := Machine(0, []);
    StreamIs(z, 0);
    ParseOne(z, 0, m);
    if z != "" {
      var l := Lex(z, 0, 0, "");
      if l.tok == More || l.tok == Invalid {
        StopsHere(0, l.tok, []);
      } else if l.tok == BeginObject || l.tok == BeginArray {
        NothingYet();
        var ls, state := Stepped([], 0, l.tok);
        NextState(m, l.tok, state);
        var n := Machine(state, OpensOf(ls));
        ParseEnds(z, l.p, ls, state);
        EnterSame(z, l.p, Apply(m, l.tok));
        EndsSame(n, Stream(z, l.p), Parse(z, l.p, n), Parse(z, l.p, Apply(m, l.tok)));
        EndsLater(m, l.tok, Stream(z, l.p), Parse(z, 0, m));
      } else {
        OtherStart(l.tok);
        ParseStopped(z, l.p, Malformed);
        EndsBad(m, l.tok, Stream(z, l.p));
      }
    }
  }

  /** A text that the parser takes to its end has a root. */
  lemma HasRoot(z: string)
    requires '\0' !in z && Parse(z, 0, Machine(0, [])).Machine?
    ensures Parse(z, 0, Machine(0, [])).stack != []
  {
    hide Stream, Parse, Fit, OpensOf, Run, Proper, Rest, LegalToken;
    ParseIsRun(z, 0, Machine(0, []));
    var gaps, tail := StreamBack(z, 0);
    ProperTokens(Stream(z, 0).toks, gaps, tail);
    var ls, state := Lifted(Stream(z, 0).toks);
    FitStates(ls, state);
    OpensLength(ls);
  }

  /** No text has another answer than these. */
  lemma AnswerIs(z: string)
    requires '\0' !in z
    ensures var r := ParseDocument(z); r.Root? || r == Failed(Incomplete) || r == Failed(Malformed)
    ensures ParseDocument(z) == Failed(Incomplete) <==> Parse(z, 0, Machine(0, [])) == Stop(Incomplete)
  {
    hide Parse, Stream;
    StartEnds(z);
    if Parse(z, 0, Machine(0, [])).Machine? { HasRoot(z); }
  }

  /** The text spells the first tokens of a tree, but not all of them; a blank text is no beginning. */
  ghost predicate BeginningOf(z: string, l: Loose, k: nat, gaps: seq<seq<Gap>>, tail: string) {
    && Whole(l, false) && Container(l.kind) && k < |Tokens(l)| && (k > 0 || z == "")
    && Proper(Tokens(l)[..k], gaps, tail) && Rest(tail) && z == Spell(Tokens(l)[..k], gaps) + tail
  }

  lemma EmptyBegins()
    ensures exists l, gaps, tail :: BeginningOf("", l, 0, gaps, tail)
  {
    var l := Loose(KArray, "", [], false);
    EmptyRest();
    NoTokens("");
    assert Tokens(l)[..0] == [];
    assert Tokens(l) != [];
    hide Rest;
    assert BeginningOf("", l, 0, [], "");
  }

  lemma UnderwayBegins(z: string) returns (l: Loose, k: nat, gaps: seq<seq<Gap>>, tail: string)
    requires '\0' !in z && Stream(z, 0).toks != [] && Underway(Machine(0, []), Stream(z, 0))
    ensures BeginningOf(z, l, k, gaps, tail)
  {
    hide Stream, Fit, OpensOf, Run, Proper, Rest, LegalToken, Tokens, Whole, Spell;
    var toks := Stream(z, 0).toks;
    gaps, tail := StreamBack(z, 0);
    assert z[0..] == z;
    ProperTokens(toks, gaps, tail);
    var ls, state := Lifted(toks);
    var rest, ks := Completed(ls, state);
    RunParts(Machine(0, []), toks, rest);
    FitStates(ks, 99);
    OpensLength(ks);
    l := AcceptedIsTokens(toks + rest, OpensOf(ks)[0]);
    k := |toks|;
    assert (toks + rest)[..k] == toks;
  }

  lemma BeginsUnderway(z: string, l: Loose, k: nat, gaps: seq<seq<Gap>>, tail: string)
    requires BeginningOf(z, l, k, gaps, tail)
    ensures Stream(z, 0) == Read(Tokens(l)[..k], More) && Underway(Machine(0, []), Stream(z, 0))
  {
    hide Stream, Run, Proper, Rest, LegalToken, Tokens, Whole, Spell, Apply;
    var u, v := Tokens(l)[..k], Tokens(l)[k..];
    assert z[0..0 + |z|] == z;
    ProperLength(u, gaps, tail);
    SpelledIsRead(z, 0, u, gaps, tail);
    RestIsRead(z, 0 + |Spell(u, gaps)|, tail);
    assert u + [] == u && u + v == Tokens(l);
    TokensAccepted(l);
    RunParts(Machine(0, []), u, v);
    var m := Run(Machine(0, []), u);
    if m.Stop? {
      Stopped(v, m.err);
    } else if m.state == 99 {
      JsonSpaces.TokensLegal(l, false);
      assert v[0] in Tokens(l) && v == [v[0]] + v[1..];
      RunParts(m, [v[0]], v[1..]);
      RunOne(m, v[0]);
      NothingTaken(v[0], m.stack);
      Stopped(v[1..], Malformed);
    }
  }

  /** A C string is found incomplete if and only if it is the beginning of a text of a tree, up to before
      some token: what is behind it may be unfinished. Every other text that is not read as a tree is
      malformed; so is a blank text that is not empty. */
  lemma IncompleteExactly(z: string)
    requires '\0' !in z
    ensures ParseDocument(z) == Failed(Incomplete) <==> exists l, k, gaps, tail :: BeginningOf(z, l, k, gaps, tail)
    ensures var r := ParseDocument(z); r.Root? || r == Failed(Incomplete) || r == Failed(Malformed)
  {
    hide BeginningOf, ParseDocument, Stream, Parse, Underway;
    AnswerIs(z);
    StartEnds(z);
    if z == "" {
      EmptyBegins();
    } else {
      if Stream(z, 0).toks != [] && Underway(Machine(0, []), Stream(z, 0)) {
        var l, k, gaps, tail := UnderwayBegins(z);
      }
      if l, k, gaps, tail :| BeginningOf(z, l, k, gaps, tail) {
        BeginsUnderway(z, l, k, gaps, tail);
        SomeTokens(z, l, k, gaps, tail);
      }
    }
  }

  lemma SomeTokens(z: string, l: Loose, k: nat, gaps: seq<seq<Gap>>, tail: string)
    requires BeginningOf(z, l, k, gaps, tail) && z != ""
    ensures Tokens(l)[..k] != []
  {
    hide Proper, Rest, Tokens, Whole, Spell;
  }
}
