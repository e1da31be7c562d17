/** The parser (`json.c`): tokens build a tree around a cursor. */
module JsonParse {
  import opened JsonText
  import opened JsonLexer

  /** A value that is being read, and what has been read below it. */
  datatype Open = Open(kind: Kind, text: string, done: seq<Tree>)

  datatype Error = Malformed | Incomplete | BadTree

  /** The parser's state number, and the values from the root to the cursor. */
  datatype Machine = Machine(state: nat, stack: seq<Open>) | Stop(err: Error)

  function Closed(o: Open): Tree { Tree(o.kind, o.text, o.done) }

  function Add(o: Open, t: Tree): Open { o.(done := o.done + [t]) }

  /** A value has been read below the cursor: a label is complete with it, and the cursor goes up to
      its object; an array goes on. */
  function Attach(stack: seq<Open>, t: Tree): Machine {
    if stack == [] then Stop(BadTree) else
      var top, below := stack[|stack| - 1], stack[..|stack| - 1];
      if top.kind == KArray then Machine(9, below + [Add(top, t)])
      else if top.kind == KString && below != [] && below[|below| - 1].kind == KObject then
        Machine(3, below[..|below| - 1] + [Add(below[|below| - 1], Closed(Add(top, t)))])
      else Stop(BadTree)
  }

  /** The end of an object or an array; the root stays under the cursor. */
  function Close(stack: seq<Open>): Machine {
    if stack == [] then Stop(BadTree)
    else if |stack| == 1 then Machine(99, stack)
    else Attach(stack[..|stack| - 1], Closed(stack[|stack| - 1]))
  }

  function Leaf(tok: Token): Option<Tree> {
    match tok
    case TString(s) => Some(Tree(KString, s, []))
    case TNumber(n) => Some(Tree(KNumber, n, []))
    case TTrue => Some(Tree(KTrue, "", []))
    case TFalse => Some(Tree(KFalse, "", []))
    case TNull => Some(Tree(KNull, "", []))
    case _ => None
  }

  /** The error for a token that does not fit. */
  function Unfit(tok: Token): Machine { Stop(if tok == More then Incomplete else Malformed) }

  /** One token (the cases of `json_parse_fragment` that read one). */
  function Apply(m: Machine, tok: Token): Machine
    requires m.Machine?
  {
    var s := m.stack;
    match m.state
    case 0 => if tok == BeginObject then m.(state := 1) else if tok == BeginArray then m.(state := 7)
        else Stop(Malformed)
    case 2 => if tok.TString? then Machine(5, s + [Open(KString, tok.text, [])]) else if tok == EndObject then Close(s)
        else Unfit(tok)
    case 3 => if tok == Comma then m.(state := 4) else if tok == EndObject then Close(s) else Unfit(tok)
    case 4 => if tok.TString? then Machine(5, s + [Open(KString, tok.text, [])]) else Unfit(tok)
    case 5 => if tok == Colon then m.(state := 6) else Unfit(tok)
    case 6 => if Leaf(tok).Some? then Attach(s, Leaf(tok).value) else if tok == BeginObject then m.(state := 1)
              else if tok == BeginArray then m.(state := 7) else Unfit(tok)
    case 8 => if Leaf(tok).Some? then Attach(s, Leaf(tok).value) else if tok == BeginObject then m.(state := 1)
              else if tok == BeginArray then m.(state := 7) else if tok == EndArray then Close(s) else Unfit(tok)
    case 9 => if tok == Comma then m.(state := 8) else if tok == EndArray then Close(s) else Unfit(tok)
    case 99 => if tok == More then m else Stop(Malformed)
    case _ => Stop(BadTree)
  }

  /** The loop of `json_parse_fragment` from position `p` on. */
  function Parse(z: string, p: nat, m: Machine): Machine
    decreases |z| - p, if m.Machine? && (m.state == 1 || m.state == 7) then 1 else 0
  {
    if m.Stop? then m
    else if p >= |z| then if m.state == 99 then m else Stop(Incomplete)
    else if m.state == 1 then Parse(z, p, Machine(2, m.stack + [Open(KObject, "", [])]))
    else if m.state == 7 then Parse(z, p, Machine(8, m.stack + [Open(KArray, "", [])]))
    else
      var l := Lex(z, p, 0, "");
      LexAhead(z, p, 0, "");
      if l.tok == More || l.tok == Invalid then Apply(m, l.tok) else Parse(z, l.p, Apply(m, l.tok))
  }

  /** `json_parse_document`: the root, or an error */
  datatype Parsed = Root(t: Tree) | Failed(err: Error)

  function ParseDocument(z: string): Parsed {
    var m := Parse(z, 0, Machine(0, []));
    if m.Machine? && m.stack != [] then Root(Closed(m.stack[0])) else Failed(if m.Stop? then m.err else BadTree)
  }

  // ---------- reading what was written ----------

  lemma ParseToken(z: string, p: nat, m: Machine, tok: Token, q: nat)
    requires m.Machine? && m.state != 1 && m.state != 7 && p < |z| && Lex(z, p, 0, "") == Lexed(tok, q) && tok != More
        && tok != Invalid
    ensures Parse(z, p, m) == Parse(z, q, Apply(m, tok))
  {}

  /** The state in which a value is expected, and the cursor fits. */
  predicate Expects(m: Machine) {
    && m.Machine? && m.stack != []
    && var n := |m.stack|;
       || (m.state == 8 && m.stack[n - 1].kind == KArray)
       || (m.state == 6 && m.stack[n - 1].kind == KString && n >= 2 && m.stack[n - 2].kind == KObject)
  }

  /** The input goes on with `t` and then with `c`, which ends numbers. */
  predicate Before(z: string, p: nat, t: string) { Goes(z, p, t) && p + |t| < |z| && Ends(z[p + |t|]) }

  /** A value is read where one is expected. */
  lemma {:induction false} ValueRead(z: string, p: nat, m: Machine, t: Tree)
    requires Expects(m) && WellFormed(t, false) && Before(z, p, Print(t))
    ensures Parse(z, p, m) == Parse(z, p + |Print(t)|, Attach(m.stack, t))
    decreases t, 2
  {
    PrintHas(t);
    if t.kind == KObject || t.kind == KArray {
      ContainerRead(z, p, m, t);
    } else {
      LeafRead(z, p, t);
      LeafFits(m, t);
      hide Lex, Print, Attach, Apply, Before;
      LeafStarts(z, p, t);
      ParseToken(z, p, m, LeafToken(t), p + |Print(t)|);
    }
  }

  function LeafToken(t: Tree): Token {
    match t.kind
    case KString => TString(t.text) case KNumber => TNumber(t.text)
    case KTrue => TTrue case KFalse => TFalse case _ => TNull
  }

  lemma PrintHas(t: Tree)
    requires WellFormed(t, false)
    ensures t.kids == [] && t.kind != KObject && t.kind != KArray ==> Print(t) == OpenText(t)
    ensures Print(t) != ""
  {
    if t.kids == [] { assert PrintAll(t.kids, false) == ""; }
  }

  lemma LeafRead(z: string, p: nat, t: Tree)
    requires WellFormed(t, false) && t.kind != KObject && t.kind != KArray && Before(z, p, Print(t))
    ensures Lex(z, p, 0, "") == Lexed(LeafToken(t), p + |Print(t)|)
  {
    PrintHas(t);
    hide Lex, Goes, StringText, NumberText, Print;
    match t.kind
    case KString =>
      assert OpenText(t) == "\"" + t.text + "\"";
      LexString(z, p, t.text);
    case KNumber => LexNumber(z, p, t.text);
    case _ => LexWord(z, p, OpenText(t));
  }

  lemma LeafFits(m: Machine, t: Tree)
    requires Expects(m) && WellFormed(t, false) && t.kind != KObject && t.kind != KArray
    ensures Apply(m, LeafToken(t)) == Attach(m.stack, t)
  {
    hide Attach, StringText, NumberText;
    assert t == Tree(t.kind, t.text, []);
  }

  lemma LeafStarts(z: string, p: nat, t: Tree)
    requires Before(z, p, Print(t))
    ensures p < |z|
  {}

  // ---------- objects and arrays ----------

  function CloseChar(kind: Kind): string { if kind == KObject then "}" else "]" }

  /** The state after some members (`more`) or none. */
  function Inside(kind: Kind, more: bool): nat {
    if kind == KObject then if more then 3 else 2 else if more then 9 else 8
  }

  lemma PrintParts(t: Tree)
    requires t.kind == KObject || t.kind == KArray
    ensures Print(t) == (if t.kind == KObject then "{" else "[") + (PrintAll(t.kids, false) + CloseChar(t.kind))
  {}

  /** What follows a member ends numbers. */
  lemma ThenEnds(ts: seq<Tree>, kind: Kind)
    ensures var r := PrintAll(ts, true) + CloseChar(kind); r != "" && Ends(r[0])
  {}

  lemma BeforeParts(z: string, p: nat, a: string, b: string)
    requires Goes(z, p, a + b) && b != "" && Ends(b[0])
    ensures Before(z, p, a) && Goes(z, p + |a|, b)
  {
    GoesParts(z, p, a, b);
    GoesAt(z, p + |a|, b, 0);
  }

  lemma {:induction false} ContainerRead(z: string, p: nat, m: Machine, t: Tree)
    requires Expects(m) && WellFormed(t, false) && (t.kind == KObject || t.kind == KArray) && Goes(z, p, Print(t))
    ensures Parse(z, p, m) == Parse(z, p + |Print(t)|, Attach(m.stack, t))
    decreases t, 1
  {
    hide Parse, Lex, Goes, Print, Attach, WellFormed, PrintAll, Expects, Close, CloseChar, Inside, Apply;
    AllKids(t);
    ContainerStart(z, p, m, t);
    assert t == Tree(t.kind, "", t.kids) && [] + t.kids == t.kids;
    KidsRead(z, p + 1, m.stack, t.kind, [], t.kids, false);
    ClosesTo(m.stack, t);
  }

  lemma ContainerStart(z: string, p: nat, m: Machine, t: Tree)
    requires Expects(m) && (t.kind == KObject || t.kind == KArray) && Goes(z, p, Print(t))
    ensures Parse(z, p, m) == Parse(z, p + 1, Machine(Inside(t.kind, false), m.stack + [Open(t.kind, "", [])]))
    ensures Goes(z, p + 1, PrintAll(t.kids, false) + CloseChar(t.kind)) && |Print(t)| == |PrintAll(t.kids, false)| + 2
    ensures m.Machine? && m.stack != []
  {
    var o := if t.kind == KObject then "{" else "[";
    var r := PrintAll(t.kids, false) + CloseChar(t.kind);
    assert m.Machine? && m.stack != [];
    hide Parse, Lex, Goes, Print, PrintAll, Expects, Apply;
    PrintParts(t);
    GoesParts(z, p, o, r);
    GoesAt(z, p, o, 0);
    GoesAt(z, p + 1, r, 0);
    LexMark(z, p);
    OpenContainer(z, p, m, t.kind);
  }

  lemma AllKids(t: Tree)
    requires WellFormed(t, false) && (t.kind == KObject || t.kind == KArray)
    ensures t.text == ""
    ensures forall i | 0 <= i < |t.kids| :: WellFormed(t.kids[i], t.kind == KObject)
  {}

  lemma OpenContainer(z: string, p: nat, m: Machine, kind: Kind)
    requires Expects(m) && (kind == KObject || kind == KArray)
    requires p < |z| && Lex(z, p, 0, "") == Lexed(if kind == KObject then BeginObject else BeginArray, p + 1)
        && p + 1 < |z|
    ensures Parse(z, p, m) == Parse(z, p + 1, Machine(Inside(kind, false), m.stack + [Open(kind, "", [])]))
  {
    hide Lex;
    ParseToken(z, p, m, if kind == KObject then BeginObject else BeginArray, p + 1);
  }

  lemma ClosesTo(stack: seq<Open>, t: Tree)
    requires stack != []
    ensures Close(stack + [Open(t.kind, t.text, t.kids)]) == Attach(stack, t)
  {
    hide Attach;
    assert (stack + [Open(t.kind, t.text, t.kids)])[..|stack|] == stack;
  }

  /** All members that are left, and the closing character. */
  lemma {:induction false} KidsRead(z: string, p: nat, stack: seq<Open>, kind: Kind, done: seq<Tree>, ts: seq<Tree>,
                                    more: bool)
    requires (kind == KObject || kind == KArray) && (forall i | 0 <= i < |ts| :: WellFormed(ts[i], kind == KObject))
    requires Goes(z, p, PrintAll(ts, more) + CloseChar(kind))
    ensures Parse(z, p, Machine(Inside(kind, more), stack + [Open(kind, "", done)]))
      == Parse(z, p + |PrintAll(ts, more)| + 1, Close(stack + [Open(kind, "", done + ts)]))
    decreases ts, 2
  {
    hide Parse, Goes, Print, PrintAll, WellFormed, Close, Before, CloseChar;
    if ts == [] {
      assert done + ts == done;
      LastRead(z, p, stack, kind, done, more);
    } else {
      var c := if more then 1 else 0;
      KidsParts(z, p, kind, ts, more);
      assert done + [ts[0]] + ts[1..] == done + ts;
      assert WellFormed(ts[0], kind == KObject);
      if more { CommaRead(z, p, stack, kind, done); }
      MemberRead(z, p + c, stack, kind, done, ts[0], more);
      KidsRead(z, p + c + |Print(ts[0])|, stack, kind, done + [ts[0]], ts[1..], true);
    }
  }

  lemma PrintAllParts(ts: seq<Tree>, more: bool, end: string)
    requires ts != []
    ensures PrintAll(ts, more) + end == (if more then "," else "") + (Print(ts[0]) + (PrintAll(ts[1..], true) + end))
    ensures |PrintAll(ts, more)| == (if more then 1 else 0) + |Print(ts[0])| + |PrintAll(ts[1..], true)|
  {
    var a, b, c := if more then "," else "", Print(ts[0]), PrintAll(ts[1..], true);
    assert PrintAll(ts, more) == a + b + c;
    Regroup(a, b, c, end);
  }

  lemma Regroup(a: string, b: string, c: string, d: string)
    ensures a + b + c + d == a + (b + (c + d)) && |a + b + c| == |a| + |b| + |c|
  {}

  lemma KidsParts(z: string, p: nat, kind: Kind, ts: seq<Tree>, more: bool)
    requires (kind == KObject || kind == KArray) && ts != [] && Goes(z, p, PrintAll(ts, more) + CloseChar(kind))
    ensures var c := if more then 1 else 0;
      && (more ==> p < |z| && z[p] == ',') && Before(z, p + c, Print(ts[0]))
      && Goes(z, p + c + |Print(ts[0])|, PrintAll(ts[1..], true) + CloseChar(kind))
      && |PrintAll(ts, more)| == c + |Print(ts[0])| + |PrintAll(ts[1..], true)|
  {
    var rest := PrintAll(ts[1..], true) + CloseChar(kind);
    var c := if more then "," else "";
    hide Goes, Print, PrintAll, Before, CloseChar;
    PrintAllParts(ts, more, CloseChar(kind));
    ThenEnds(ts[1..], kind);
    SplitMember(z, p, PrintAll(ts, more) + CloseChar(kind), c, Print(ts[0]), rest);
  }

  lemma SplitMember(z: string, p: nat, all: string, c: string, x: string, rest: string)
    requires Goes(z, p, all) && all == c + (x + rest) && rest != "" && Ends(rest[0])
    ensures (c != "" ==> p < |z| && z[p] == c[0]) && Before(z, p + |c|, x) && Goes(z, p + |c| + |x|, rest)
  {
    GoesParts(z, p, c, x + rest);
    if c != "" { GoesAt(z, p, c, 0); }
    BeforeParts(z, p + |c|, x, rest);
  }

  lemma LastRead(z: string, p: nat, stack: seq<Open>, kind: Kind, done: seq<Tree>, more: bool)
    requires (kind == KObject || kind == KArray) && Goes(z, p, PrintAll([], more) + CloseChar(kind))
    ensures PrintAll([], more) == ""
    ensures Parse(z, p, Machine(Inside(kind, more), stack + [Open(kind, "", done)]))
        == Parse(z, p + 1, Close(stack + [Open(kind, "", done)]))
  {
    assert PrintAll([], more) + CloseChar(kind) == CloseChar(kind);
    GoesAt(z, p, CloseChar(kind), 0);
    LexMark(z, p);
    hide Lex, Close, Goes;
    ParseToken(z, p, Machine(Inside(kind, more), stack + [Open(kind, "", done)]), if kind == KObject then EndObject
        else EndArray, p + 1);
  }

  lemma CommaRead(z: string, p: nat, stack: seq<Open>, kind: Kind, done: seq<Tree>)
    requires (kind == KObject || kind == KArray) && p < |z| && z[p] == ','
    ensures Parse(z, p, Machine(Inside(kind, true), stack + [Open(kind, "", done)]))
      == Parse(z, p + 1, Machine(if kind == KObject then 4 else 8, stack + [Open(kind, "", done)]))
  {
    LexMark(z, p);
    hide Lex, Close;
    ParseToken(z, p, Machine(Inside(kind, true), stack + [Open(kind, "", done)]), Comma, p + 1);
  }

  /** One member: a value of an array, or a label of an object with its value. */
  lemma {:induction false} MemberRead(z: string, p: nat, stack: seq<Open>, kind: Kind, done: seq<Tree>, t: Tree,
                                      more: bool)
    requires (kind == KObject || kind == KArray) && WellFormed(t, kind == KObject) && Before(z, p, Print(t))
    ensures Parse(z, p, Machine(if kind == KArray then 8 else if more then 4 else 2, stack + [Open(kind, "", done)]))
      == Parse(z, p + |Print(t)|, Machine(Inside(kind, true), stack + [Open(kind, "", done + [t])]))
    decreases t, 4
  {
    var top := stack + [Open(kind, "", done)];
    assert top[..|stack|] == stack && top[|stack|] == Open(kind, "", done);
    hide Parse, Print, WellFormed, Before, Lex;
    if kind == KArray {
      ValueRead(z, p, Machine(8, top), t);
    } else {
      LabelRead(z, p, stack, done, t, more);
    }
  }

  lemma {:induction false} LabelRead(z: string, p: nat, stack: seq<Open>, done: seq<Tree>, t: Tree, more: bool)
    requires WellFormed(t, true) && Before(z, p, Print(t))
    ensures Parse(z, p, Machine(if more then 4 else 2, stack + [Open(KObject, "", done)]))
      == Parse(z, p + |Print(t)|, Machine(3, stack + [Open(KObject, "", done + [t])]))
    decreases t, 3
  {
    hide Lex, Goes, Print, Attach, WellFormed, Before, Parse, Apply;
    var top := stack + [Open(KObject, "", done)];
    var named := top + [Open(KString, t.text, [])];
    LabelParts(t);
    var v := t.kids[0];
    LabelStart(z, p, top, t, more);
    assert named[|named| - 1].kind == KString && named[|named| - 2].kind == KObject;
    LabelAttach(stack, done, t);
    ValueRead(z, p + |t.text| + 3, Machine(6, named), v);
  }

  lemma LabelStart(z: string, p: nat, top: seq<Open>, t: Tree, more: bool)
    requires WellFormed(t, true) && Before(z, p, Print(t))
    ensures |t.kids| == 1 && Before(z, p + |t.text| + 3, Print(t.kids[0]))
        && |Print(t)| == |t.text| + 3 + |Print(t.kids[0])|
    ensures Parse(z, p, Machine(if more then 4 else 2, top))
        == Parse(z, p + |t.text| + 3, Machine(6, top + [Open(KString, t.text, [])]))
  {
    hide Lex, Goes, Print, WellFormed, Before, StringText, Parse, Close;
    var q := "\"" + t.text + "\"";
    LabelParts(t);
    LabelGoes(z, p, q, Print(t.kids[0]), Print(t));
    LexString(z, p, t.text);
    LexMark(z, p + |q|);
    ParseToken(z, p, Machine(if more then 4 else 2, top), TString(t.text), p + |q|);
    ParseToken(z, p + |q|, Machine(5, top + [Open(KString, t.text, [])]), Colon, p + |q| + 1);
  }

  lemma LabelParts(t: Tree)
    requires WellFormed(t, true)
    ensures |t.kids| == 1 && StringText(t.text) && t.kind == KString && t == Tree(KString, t.text, [t.kids[0]])
        && WellFormed(t.kids[0], false)
    ensures Print(t) == "\"" + t.text + "\"" + (":" + Print(t.kids[0]))
  {
    assert t.kids == [t.kids[0]];
    OneKid(t.kids);
    hide PrintAll, StringText;
  }

  lemma OneKid(ts: seq<Tree>)
    requires |ts| == 1
    ensures PrintAll(ts, false) == Print(ts[0])
  {
    assert PrintAll(ts[1..], true) == "";
    hide Print;
  }

  lemma LabelGoes(z: string, p: nat, q: string, v: string, all: string)
    requires all == q + (":" + v) && q != "" && Before(z, p, all)
    ensures Goes(z, p, q) && p < |z| && p + |q| < |z| && z[p + |q|] == ':' && Before(z, p + |q| + 1, v)
  {
    GoesParts(z, p, q, ":" + v);
    GoesAt(z, p + |q|, ":" + v, 0);
    GoesParts(z, p + |q|, ":", v);
  }

  lemma LabelAttach(stack: seq<Open>, done: seq<Tree>, t: Tree)
    requires |t.kids| == 1 && t == Tree(KString, t.text, [t.kids[0]])
    ensures Attach(stack + [Open(KObject, "", done)] + [Open(KString, t.text, [])], t.kids[0])
        == Machine(3, stack + [Open(KObject, "", done + [t])])
  {
    var top := stack + [Open(KObject, "", done)];
    var named := top + [Open(KString, t.text, [])];
    assert named[..|named| - 1] == top && top[..|top| - 1] == stack;
    assert [] + [t.kids[0]] == [t.kids[0]];
  }

  /** Every well-formed tree with an object or an array at its root is read back as it was written. */
  lemma RoundTrip(t: Tree)
    requires WellFormed(t, false) && (t.kind == KObject || t.kind == KArray)
    ensures ParseDocument(Print(t)) == Root(t)
  {
    hide Parse, Lex, Goes, Print, Attach, WellFormed, PrintAll, Close, CloseChar, Inside;
    AllKids(t);
    RootStart(t);
    assert t == Tree(t.kind, "", t.kids) && [] + t.kids == t.kids
        && [] + [Open(t.kind, "", t.kids)] == [Open(t.kind, "", t.kids)];
    assert [] + [Open(t.kind, "", [])] == [Open(t.kind, "", [])];
    RootClosed(Print(t), t);
    KidsRead(Print(t), 1, [], t.kind, [], t.kids, false);
  }

  lemma RootStart(t: Tree)
    requires t.kind == KObject || t.kind == KArray
    ensures Parse(Print(t), 0, Machine(0, []))
        == Parse(Print(t), 1, Machine(Inside(t.kind, false), [Open(t.kind, "", [])]))
    ensures Goes(Print(t), 1, PrintAll(t.kids, false) + CloseChar(t.kind))
        && |Print(t)| == |PrintAll(t.kids, false)| + 2
  {
    var z := Print(t);
    var o := if t.kind == KObject then "{" else "[";
    var r := PrintAll(t.kids, false) + CloseChar(t.kind);
    assert Goes(z, 0, z) by { assert z[0..0 + |z|] == z; }
    hide Parse, Lex, Goes, Print, PrintAll;
    PrintParts(t);
    GoesParts(z, 0, o, r);
    GoesAt(z, 0, o, 0);
    LexMark(z, 0);
    RootOpen(z, t.kind);
  }

  lemma RootOpen(z: string, kind: Kind)
    requires (kind == KObject || kind == KArray) && 1 < |z|
        && Lex(z, 0, 0, "") == Lexed(if kind == KObject then BeginObject else BeginArray, 1)
    ensures Parse(z, 0, Machine(0, [])) == Parse(z, 1, Machine(Inside(kind, false), [Open(kind, "", [])]))
  {
    hide Lex;
    ParseToken(z, 0, Machine(0, []), if kind == KObject then BeginObject else BeginArray, 1);
    assert [] + [Open(kind, "", [])] == [Open(kind, "", [])];
  }

  lemma RootClosed(z: string, t: Tree)
    ensures Parse(z, |z|, Close([Open(t.kind, "", t.kids)])) == Machine(99, [Open(t.kind, "", t.kids)])
  {}
}
