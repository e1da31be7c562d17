/** The lexer (`json.c`): one state and one character at a time. */
module JsonLexer {
  import opened JsonText

  datatype Token =
    | BeginObject | EndObject | BeginArray | EndArray | Colon | Comma
    | TString(text: string) | TNumber(text: string) | TTrue | TFalse | TNull
    | More | Invalid

  predicate IsSpace(c: char) { c == ' ' || c == '\t' || c == '\n' || c == '\r' }

  /** What the lexer does with a character: go on in another state, with the character added to the
      text or not; or give a token, with the character read or not. */
  datatype Act = Go(state: nat, keep: bool) | Give(tok: Token, read: bool)

  /** The states 17 to 24, inside a number with the text `n`. */
  function NumberAct(state: nat, n: string, c: char): Act {
    if state == 17 then
      if c == '0' then Go(18, true) else if IsDigit(c) then Go(19, true) else Give(Invalid, false)
    else if (state == 18 || state == 19 || state == 21 || state == 24)
        && (IsSpace(c) || c == ']' || c == '}' || c == ',') then Give(TNumber(n), IsSpace(c))
    else if (state == 18 || state == 19) && c == '.' then Go(20, true)
    else if (state == 18 || state == 19 || state == 21) && (c == 'e' || c == 'E') then Go(22, true)
    else if (state == 19 || state == 21) && IsDigit(c) then Go(state, true)
    else if state == 20 && IsDigit(c) then Go(21, true)
    else if state == 22 && (c == '-' || c == '+') then Go(23, true)
    else if (state == 22 || state == 23 || state == 24) && IsDigit(c) then Go(24, true)
    else Give(Invalid, false)
  }

  function StartAct(c: char): Act {
    if IsSpace(c) then Go(0, false)
    else match c
      case '{' => Give(BeginObject, true) case '}' => Give(EndObject, true)
      case '[' => Give(BeginArray, true) case ']' => Give(EndArray, true)
      case ':' => Give(Colon, true) case ',' => Give(Comma, true)
      case '"' => Go(1, false)
      case 't' => Go(7, false) case 'f' => Go(10, false) case 'n' => Go(14, false)
      case '-' => Go(17, true) case '0' => Go(18, true)
      case '/' => Go(60, false)
      case _ => if IsDigit(c) then Go(19, true) else Give(Invalid, true)
  }

  /** The letters of `true`, `false` and `null` after the first one. */
  function WordAct(state: nat, c: char): Act {
    match state
    case 7 => if c == 'r' then Go(8, false) else Give(Invalid, true)
    case 8 => if c == 'u' then Go(9, false) else Give(Invalid, true)
    case 9 => Give(if c == 'e' then TTrue else Invalid, true)
    case 10 => if c == 'a' then Go(11, false) else Give(Invalid, true)
    case 11 => if c == 'l' then Go(12, false) else Give(Invalid, true)
    case 12 => if c == 's' then Go(13, false) else Give(Invalid, true)
    case 13 => Give(if c == 'e' then TFalse else Invalid, true)
    case 14 => if c == 'u' then Go(15, false) else Give(Invalid, true)
    case 15 => if c == 'l' then Go(16, false) else Give(Invalid, true)
    case _ => Give(if c == 'l' then TNull else Invalid, true)
  }

  /** Inside a string with the text `s`. */
  function StringAct(state: nat, s: string, c: char): Act {
    match state
    case 1 => if c == '"' then Give(TString(s), true) else Go(if c == '\\' then 2 else 1, true)
    case 2 => if IsEscape(c) then Go(1, true) else if c == 'u' then Go(3, true) else Give(Invalid, false)
    case _ => if IsHex(c) then Go(if state == 6 then 1 else state + 1, true) else Give(Invalid, false)
  }

  /** Comments, which the lexer skips. */
  function CommentAct(state: nat, c: char): Act {
    match state
    case 60 => if c == '/' then Go(61, false) else if c == '*' then Go(62, false) else Give(Invalid, false)
    case 61 => Go(if c == '\n' || c == '\r' then 0 else 61, false)
    case 62 => Go(if c == '*' then 63 else 62, false)
    case _ => Go(if c == '/' then 0 else 62, false)
  }

  function Act1(state: nat, text: string, c: char): Act {
    if state == 0 then StartAct(c)
    else if state <= 6 then StringAct(state, text, c)
    else if state <= 16 then WordAct(state, c)
    else if state <= 24 then NumberAct(state, text, c)
    else CommentAct(state, c)
  }

  /** A token, and the input behind it. */
  datatype Lexed = Lexed(tok: Token, p: nat)

  /** The characters of a token, from position `p` and the given state on. The state behind the second
      hexadecimal digit is entered without looking whether the input ends there. */
  function Lex(z: string, p: nat, state: nat, text: string): Lexed
    decreases |z| - p
  {
    if p >= |z| then Lexed(if state == 5 then Invalid else More, p) else
      match Act1(state, text, z[p])
      case Give(tok, read) => Lexed(tok, if read then p + 1 else p)
      case Go(next, keep) => Lex(z, p + 1, next, if keep then text + [z[p]] else text)
  }

  // ---------- the lexer as it runs ----------

  class Lexer {
    const z: string
    var p: nat
    var state: nat
    var text: string

    constructor (z: string)
      ensures this.z == z && p == 0 && state == 0
    {
      this.z, p, state, text := z, 0, 0, "";
    }

    /** `lexer`, when it starts a token */
    method Next() returns (tok: Token)
      requires state == 0
      modifies this
      ensures Lexed(tok, p) == Lex(z, old(p), 0, "")
      ensures tok != More && tok != Invalid ==> state == 0 && p > old(p)
      ensures p >= old(p)
    {
      text := "";
      while p < |z|
        invariant p >= old(p) && (p == old(p) ==> state == 0) && Lex(z, p, state, text) == Lex(z, old(p), 0, "")
        decreases |z| - p
      {
        match Act1(state, text, z[p]) {
          case Give(t, read) =>
            tok := t;
            GiveReads(state, text, z[p]);
            state := 0;
            if read { p := p + 1; }
            return;
          case Go(next, keep) =>
            if keep { text := text + [z[p]]; }
            state := next;
            p := p + 1;
        }
      }
      tok := if state == 5 then Invalid else More;
    }
  }

  /** Every token but a number has been read when it is given. */
  lemma GiveReads(state: nat, text: string, c: char)
    ensures var a := Act1(state, text, c); a.Give? && a.tok != Invalid && state == 0 ==> a.read
  {}

  // ---------- reading what is written ----------

  /** One character, which goes to another state. */
  lemma LexStep(z: string, p: nat, state: nat, text: string, next: nat, keep: bool)
    requires p < |z| && Act1(state, text, z[p]) == Go(next, keep)
    ensures Lex(z, p, state, text) == Lex(z, p + 1, next, if keep then text + [z[p]] else text)
  {}

  /** One character, which ends a token. */
  lemma LexGive(z: string, p: nat, state: nat, text: string, tok: Token, read: bool)
    requires p < |z| && Act1(state, text, z[p]) == Give(tok, read)
    ensures Lex(z, p, state, text) == Lexed(tok, if read then p + 1 else p)
  {}

  /** At `p` the input goes on with `t`. */
  predicate Goes(z: string, p: nat, t: string) { p + |t| <= |z| && z[p..p + |t|] == t }

  lemma GoesParts(z: string, p: nat, a: string, b: string)
    requires Goes(z, p, a + b)
    ensures Goes(z, p, a) && Goes(z, p + |a|, b)
  {
    assert z[p..p + |a| + |b|][..|a|] == a && z[p..p + |a| + |b|][|a|..] == b;
  }

  lemma GoesAt(z: string, p: nat, t: string, i: nat)
    requires Goes(z, p, t) && i < |t|
    ensures p + i < |z| && z[p + i] == t[i]
  {
    assert z[p..p + |t|][i] == t[i];
  }

  lemma GoesTail(z: string, p: nat, t: string, n: nat)
    requires Goes(z, p, t) && n <= |t|
    ensures Goes(z, p + n, t[n..])
  {
    assert t == t[..n] + t[n..];
    GoesParts(z, p, t[..n], t[n..]);
  }

  /** A text of a string, up to its closing quote. */
  lemma {:induction false} LexText(z: string, p: nat, s: string, before: string)
    requires StringText(s) && Goes(z, p, s + "\"")
    ensures Lex(z, p, 1, before) == Lexed(TString(before + s), p + |s| + 1)
    decreases |s|
  {
    GoesAt(z, p, s + "\"", 0);
    if s == "" {
      assert before + s == before;
    } else {
      assert (s + "\"")[0] == s[0];
      var n := if s[0] != '\\' then 1 else if s[1] == 'u' then 6 else 2;
      GoesTail(z, p, s + "\"", n);
      assert (s + "\"")[n..] == s[n..] + "\"";
      assert before + s == before + s[..n] + s[n..];
      if n == 1 {
        assert s[..1] == [s[0]];
      } else if n == 2 {
        GoesAt(z, p, s + "\"", 1);
        assert before + [s[0]] + [s[1]] == before + s[..2];
        assert Lex(z, p, 1, before) == Lex(z, p + 1, 2, before + [s[0]]);
      } else {
        LexUnicode(z, p, s, before);
      }
      LexText(z, p + n, s[n..], before + s[..n]);
    }
  }

  lemma HexStep(z: string, p: nat, state: nat, text: string)
    requires p < |z| && 3 <= state <= 6 && IsHex(z[p])
    ensures Lex(z, p, state, text) == Lex(z, p + 1, if state == 6 then 1 else state + 1, text + [z[p]])
  {}

  /** What a token can start with. */
  lemma Starts()
    ensures Act1(0, "", 't') == Go(7, false) && Act1(0, "", 'f') == Go(10, false) && Act1(0, "", 'n') == Go(14, false)
    ensures Act1(0, "", '"') == Go(1, false)
  {}

  lemma LexUnicode(z: string, p: nat, s: string, before: string)
    requires |s| >= 6 && s[0] == '\\' && s[1] == 'u' && IsHex(s[2]) && IsHex(s[3]) && IsHex(s[4]) && IsHex(s[5])
        && Goes(z, p, s + "\"")
    ensures Lex(z, p, 1, before) == Lex(z, p + 6, 1, before + s[..6])
  {
    forall i | 0 <= i < 6 ensures p + i < |z| && z[p + i] == s[i] { GoesAt(z, p, s + "\"", i); }
    hide Goes, Lex, IsHex;
    var b2 := before + [s[0]] + [s[1]];
    var b5 := b2 + [s[2]] + [s[3]] + [s[4]];
    LexStep(z, p, 1, before, 2, true);
    LexStep(z, p + 1, 2, before + [s[0]], 3, true);
    HexStep(z, p + 2, 3, b2);
    HexStep(z, p + 3, 4, b2 + [s[2]]);
    HexStep(z, p + 4, 5, b2 + [s[2]] + [s[3]]);
    HexStep(z, p + 5, 6, b5);
    assert b5 + [s[5]] == before + s[..6];
  }

  /** A mark that ends a number. */
  predicate Ends(c: char) { c == ']' || c == '}' || c == ',' }

  predicate Stops(c: char) { Ends(c) || IsSpace(c) }

  /** The input goes on with `t`, and then with a character that ends a number. */
  predicate Rests(z: string, p: nat, t: string) { Goes(z, p, t) && p + |t| < |z| && Stops(z[p + |t|]) }

  /** White space behind a number is read with it. */
  function Past(z: string, p: nat): nat { if p < |z| && IsSpace(z[p]) then p + 1 else p }

  lemma RestsTail(z: string, p: nat, t: string)
    requires Rests(z, p, t)
    ensures t != "" ==> p < |z| && z[p] == t[0] && Rests(z, p + 1, t[1..])
    ensures t == "" ==> p < |z| && Stops(z[p])
  {
    if t != "" {
      GoesAt(z, p, t, 0);
      GoesTail(z, p, t, 1);
    }
  }

  /** Digits that go on to the end, in the states of an exponent and of a fraction. */
  lemma {:induction false} LexDigits(z: string, p: nat, t: string, before: string)
    requires Digits(t) && Rests(z, p, t)
    ensures Lex(z, p, 24, before) == Lexed(TNumber(before + t), Past(z, p + |t|))
    decreases |t|
  {
    RestsTail(z, p, t);
    if t == "" {
      assert before + t == before;
    } else {
      LexDigits(z, p + 1, t[1..], before + [t[0]]);
      assert before + [t[0]] + t[1..] == before + t;
    }
  }

  /** The exponent behind its letter, with and without a sign. */
  lemma LexSigned(z: string, p: nat, t: string, b: string)
    requires |t| >= 2 && (t[0] == '+' || t[0] == '-') && Digits(t[1..]) && Rests(z, p, t)
    ensures Lex(z, p, 22, b) == Lexed(TNumber(b + t), Past(z, p + |t|))
  {
    var s := t[1..];
    assert IsDigit(s[0]) && Digits(s[1..]);
    RestsTail(z, p, t);
    RestsTail(z, p + 1, s);
    hide Lex, Rests, Digits;
    LexStep(z, p, 22, b, 23, true);
    LexStep(z, p + 1, 23, b + [t[0]], 24, true);
    LexDigits(z, p + 2, s[1..], b + [t[0]] + [s[0]]);
    assert b + [t[0]] + [s[0]] + s[1..] == b + t;
  }

  lemma LexUnsigned(z: string, p: nat, t: string, b: string)
    requires t != "" && Digits(t) && Rests(z, p, t)
    ensures Lex(z, p, 22, b) == Lexed(TNumber(b + t), Past(z, p + |t|))
  {
    assert IsDigit(t[0]) && Digits(t[1..]);
    RestsTail(z, p, t);
    hide Lex, Rests, Digits;
    LexStep(z, p, 22, b, 24, true);
    LexDigits(z, p + 1, t[1..], b + [t[0]]);
    assert b + [t[0]] + t[1..] == b + t;
  }

  lemma LexExponent(z: string, p: nat, t: string, before: string, state: nat)
    requires Exponent(t) && Rests(z, p, t) && (state == 18 || state == 19 || state == 21)
    ensures Lex(z, p, state, before) == Lexed(TNumber(before + t), Past(z, p + |t|))
  {
    var b, s := before + [t[0]], t[1..];
    RestsTail(z, p, t);
    assert s[0] == t[1] && s[1..] == t[2..] && b + s == before + t;
    hide Lex, Rests, Digits;
    LexStep(z, p, state, before, 22, true);
    if t[1] == '+' || t[1] == '-' { LexSigned(z, p + 1, s, b); } else { LexUnsigned(z, p + 1, s, b); }
  }

  lemma {:induction false} LexFraction(z: string, p: nat, t: string, before: string)
    requires FractionDigits(t) && Rests(z, p, t)
    ensures Lex(z, p, 21, before) == Lexed(TNumber(before + t), Past(z, p + |t|))
    decreases |t|
  {
    RestsTail(z, p, t);
    if t == "" {
      assert before + t == before;
    } else if Exponent(t) {
      LexExponent(z, p, t, before, 21);
    } else {
      LexFraction(z, p + 1, t[1..], before + [t[0]]);
      assert before + [t[0]] + t[1..] == before + t;
    }
  }

  lemma LexAfterInt(z: string, p: nat, t: string, before: string, state: nat)
    requires AfterInt(t) && Rests(z, p, t) && (state == 18 || state == 19)
    ensures Lex(z, p, state, before) == Lexed(TNumber(before + t), Past(z, p + |t|))
  {
    RestsTail(z, p, t);
    if t == "" {
      assert before + t == before;
    } else if Exponent(t) {
      LexExponent(z, p, t, before, state);
    } else {
      RestsTail(z, p + 1, t[1..]);
      assert t[1..][0] == t[1] && t[1..][1..] == t[2..];
      hide Lex, Rests;
      LexStep(z, p, state, before, 20, true);
      LexStep(z, p + 1, 20, before + [t[0]], 21, true);
      LexFraction(z, p + 2, t[2..], before + [t[0]] + [t[1]]);
      assert before + [t[0]] + [t[1]] + t[2..] == before + t;
    }
  }

  lemma {:induction false} LexInt(z: string, p: nat, t: string, before: string)
    requires IntDigits(t) && Rests(z, p, t)
    ensures Lex(z, p, 19, before) == Lexed(TNumber(before + t), Past(z, p + |t|))
    decreases |t|
  {
    RestsTail(z, p, t);
    if AfterInt(t) {
      LexAfterInt(z, p, t, before, 19);
    } else {
      LexInt(z, p + 1, t[1..], before + [t[0]]);
      assert before + [t[0]] + t[1..] == before + t;
    }
  }

  lemma StartNumber(c: char)
    requires c == '-' || IsDigit(c)
    ensures Act1(0, "", c) == Go(if c == '-' then 17 else if c == '0' then 18 else 19, true)
  {}

  /** A number of the grammar is read as one token, with the same text. */
  lemma LexNumber(z: string, p: nat, t: string)
    requires NumberText(t) && Rests(z, p, t)
    ensures Lex(z, p, 0, "") == Lexed(TNumber(t), Past(z, p + |t|))
  {
    hide Lex, Rests, AfterInt, IntDigits;
    RestsTail(z, p, t);
    assert "" + [t[0]] == [t[0]] && [t[0]] + t[1..] == t;
    StartNumber(t[0]);
    if t[0] == '-' {
      var n := t[1..];
      RestsTail(z, p + 1, n);
      assert [t[0]] + [n[0]] + n[1..] == t;
      LexStep(z, p, 0, "", 17, true);
      LexStep(z, p + 1, 17, [t[0]], if n[0] == '0' then 18 else 19, true);
      if n[0] == '0' { LexAfterInt(z, p + 2, n[1..], [t[0]] + [n[0]], 18); }
          else { LexInt(z, p + 2, n[1..], [t[0]] + [n[0]]); }
    } else {
      LexStep(z, p, 0, "", if t[0] == '0' then 18 else 19, true);
      if t[0] == '0' { LexAfterInt(z, p + 1, t[1..], [t[0]], 18); } else { LexInt(z, p + 1, t[1..], [t[0]]); }
    }
  }

  lemma Quoted(s: string)
    ensures var q := "\"" + s + "\""; |q| == |s| + 2 && q[0] == '"' && q[1..] == s + "\""
  {}

  lemma LexString(z: string, p: nat, s: string)
    requires StringText(s) && Goes(z, p, "\"" + s + "\"")
    ensures Lex(z, p, 0, "") == Lexed(TString(s), p + |s| + 2)
  {
    hide Lex, Goes, StringText;
    Starts();
    var q := "\"" + s + "\"";
    Quoted(s);
    assert "" + s == s;
    GoesAt(z, p, q, 0);
    GoesTail(z, p, q, 1);
    LexStep(z, p, 0, "", 1, false);
    LexText(z, p + 1, s, "");
  }

  lemma LexTrue(z: string, p: nat)
    requires p + 4 <= |z| && z[p] == 't' && z[p + 1] == 'r' && z[p + 2] == 'u' && z[p + 3] == 'e'
    ensures Lex(z, p, 0, "") == Lexed(TTrue, p + 4)
  {
    hide Lex;
    Starts();
    LexStep(z, p, 0, "", 7, false);
    LexStep(z, p + 1, 7, "", 8, false);
    LexStep(z, p + 2, 8, "", 9, false);
    LexGive(z, p + 3, 9, "", TTrue, true);
  }

  lemma LexFalse(z: string, p: nat)
    requires p + 5 <= |z| && z[p] == 'f' && z[p + 1] == 'a' && z[p + 2] == 'l' && z[p + 3] == 's' && z[p + 4] == 'e'
    ensures Lex(z, p, 0, "") == Lexed(TFalse, p + 5)
  {
    hide Lex;
    Starts();
    LexStep(z, p, 0, "", 10, false);
    LexStep(z, p + 1, 10, "", 11, false);
    LexStep(z, p + 2, 11, "", 12, false);
    LexStep(z, p + 3, 12, "", 13, false);
    LexGive(z, p + 4, 13, "", TFalse, true);
  }

  lemma LexNull(z: string, p: nat)
    requires p + 4 <= |z| && z[p] == 'n' && z[p + 1] == 'u' && z[p + 2] == 'l' && z[p + 3] == 'l'
    ensures Lex(z, p, 0, "") == Lexed(TNull, p + 4)
  {
    hide Lex;
    Starts();
    LexStep(z, p, 0, "", 14, false);
    LexStep(z, p + 1, 14, "", 15, false);
    LexStep(z, p + 2, 15, "", 16, false);
    LexGive(z, p + 3, 16, "", TNull, true);
  }

  lemma LexWord(z: string, p: nat, w: string)
    requires (w == "true" || w == "false" || w == "null") && Goes(z, p, w)
    ensures Lex(z, p, 0, "") == Lexed(if w == "true" then TTrue else if w == "false" then TFalse else TNull, p + |w|)
  {
    forall i | 0 <= i < |w| ensures p + i < |z| && z[p + i] == w[i] { GoesAt(z, p, w, i); }
    hide Goes, Lex;
    if w == "true" { LexTrue(z, p); } else if w == "false" { LexFalse(z, p); } else { LexNull(z, p); }
  }

  /** A token takes at least one character. */
  lemma {:induction false} LexAhead(z: string, p: nat, state: nat, text: string)
    ensures var l := Lex(z, p, state, text); l.p >= p && (state == 0 && l.tok != More && l.tok != Invalid ==> l.p > p)
    ensures Lex(z, p, state, text).p <= if p <= |z| then |z| else p
    decreases |z| - p
  {
    if p < |z| {
      GiveReads(state, text, z[p]);
      match Act1(state, text, z[p])
      case Give(_, _) =>
      case Go(next, keep) => LexAhead(z, p + 1, next, if keep then text + [z[p]] else text);
    }
  }

  lemma LexMark(z: string, p: nat)
    requires p < |z| && (z[p] == '{' || z[p] == '}' || z[p] == '[' || z[p] == ']' || z[p] == ':' || z[p] == ',')
    ensures Lex(z, p, 0, "") == Lexed(StartAct(z[p]).tok, p + 1)
  {}
}
