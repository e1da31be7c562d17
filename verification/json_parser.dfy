/** The parser as it runs: a lexer, a document and a cursor in it. */
module JsonParser {
  import opened JsonText
  import opened JsonLexer
  import opened JsonDoc
  import opened JsonParse
  import opened JsonBuild

  /** In which states the parser can be, with the cursor where it is. */
  predicate Fits(state: nat, stack: seq<Open>) {
    var n := |stack|;
    match state
    case 0 => n == 0
    case 1 => n == 0 || stack[n - 1].kind == KArray || InLabel(stack)
    case 2 => n > 0 && stack[n - 1].kind == KObject
    case 3 => n > 0 && stack[n - 1].kind == KObject
    case 4 => n > 0 && stack[n - 1].kind == KObject
    case 5 => InLabel(stack)
    case 6 => InLabel(stack)
    case 7 => n == 0 || stack[n - 1].kind == KArray || InLabel(stack)
    case 8 => n > 0 && stack[n - 1].kind == KArray
    case 9 => n > 0 && stack[n - 1].kind == KArray
    case 99 => n == 1
    case _ => false
  }

  predicate InLabel(stack: seq<Open>) {
    |stack| >= 2 && stack[|stack| - 1].kind == KString && stack[|stack| - 2].kind == KObject
  }

  /** A value inside is in an array or in a label of an object, and a label is in an object. */
  predicate Nested(stack: seq<Open>) {
    forall k | 1 <= k < |stack| :: NestedAt(stack, k)
  }

  predicate NestedAt(stack: seq<Open>, k: nat)
    requires 1 <= k < |stack|
  {
    if stack[k].kind == KString then stack[k - 1].kind == KObject
    else stack[k - 1].kind == KArray || (stack[k - 1].kind == KString && k >= 2)
  }

  lemma InsertedIsLinked(nodes: seq<Node>, ids: seq<nat>, stack: seq<Open>, kind: Kind, text: string)
    requires Spine(nodes, ids, stack) && stack != []
    ensures var n := |stack|; var id := ids[n - 1];
      && id < |nodes| && (stack[n - 1].done != [] ==> LastOf(id + 1, stack[n - 1].done) < |nodes|)
      && var all := nodes + [Node(kind, text, NONE, NONE, NONE, NONE, NONE)];
      && (all[id].child != NONE ==> At(all, all[id].childEnd)) && nodes[id].kind == stack[n - 1].kind
      && Inserted(all, id, |nodes|) == Linked(nodes, id, stack[n - 1].done, kind, text)
  {
    var n := |stack|;
    assert HalfAt(nodes, ids, stack, n - 1);
    HalfLast(nodes, ids[n - 1], stack[n - 1]);
    hide Row;
    var all := nodes + [Node(kind, text, NONE, NONE, NONE, NONE, NONE)];
    assert Inserted(all, ids[n - 1], |nodes|) == Linked(nodes, ids[n - 1], stack[n - 1].done, kind, text);
  }

  /** Where the innermost value and the one around it are. */
  lemma SpineTop(nodes: seq<Node>, ids: seq<nat>, stack: seq<Open>)
    requires Spine(nodes, ids, stack) && stack != []
    ensures var n := |stack|;
      && |ids| == n && ids[n - 1] < |nodes| && nodes[ids[n - 1]].kind == stack[n - 1].kind
      && nodes[ids[n - 1]].parent == (if n == 1 then NONE else ids[n - 2]) && (n > 1 ==> ids[n - 2] < |nodes|)
  {
    var n := |stack|;
    assert HalfAt(nodes, ids, stack, n - 1) && LinkedUp(nodes, ids, stack, n - 1);
    if n > 1 { assert LinkedUp(nodes, ids, stack, n - 2); }
    hide Row;
  }

  class Parser {
    const lexer: Lexer
    const doc: Document
    var state: nat
    var cursor: int
    ghost var stack: seq<Open>
    ghost var ids: seq<nat>

    ghost predicate Placed()
      reads this, doc
    {
      Spine(doc.nodes, ids, stack) && cursor == (if ids == [] then NONE else ids[|ids| - 1])
    }

    /** `json_jpi_init` */
    constructor (z: string)
      ensures Placed() && state == 0 && stack == [] && fresh(lexer) && fresh(doc) && lexer.z == z && lexer.p == 0
          && lexer.state == 0
    {
      lexer := new Lexer(z);
      doc := new Document();
      state, cursor, stack, ids := 0, NONE, [], [];
    }

    /** A new value becomes the last child of the cursor, and the cursor goes there. */
    method Enter(kind: Kind, text: string)
      requires Placed() && stack != [] && Takes1(stack[|stack| - 1].kind, kind)
      modifies `cursor, `stack, `ids, doc
      ensures Placed() && stack == old(stack) + [Open(kind, text, [])]
    {
      hide Spine, Linked, Inserted;
      SpineTop(doc.nodes, ids, stack);
      InsertedIsLinked(doc.nodes, ids, stack, kind, text);
      SpinePush(doc.nodes, ids, stack, kind, text);
      var temp := doc.NewValue(kind, text);
      var ok := doc.InsertChild(cursor, temp);
      // anything else would be JSON_UNKNOWN_PROBLEM
      assert ok;
      ids := ids + [temp];
      stack := stack + [Open(kind, text, [])];
      cursor := temp;
    }

    /** The cursor goes to the parent. */
    method Up()
      requires Placed() && |stack| >= 2
      modifies `cursor, `stack, `ids
      ensures Placed() && var n := |old(stack)|;
          stack == old(stack)[..n - 2] + [Add(old(stack)[n - 2], Closed(old(stack)[n - 1]))]
    {
      hide Spine;
      SpineTop(doc.nodes, ids, stack);
      SpineFold(doc.nodes, ids, stack);
      cursor := doc.nodes[cursor].parent;
      ghost var n := |stack|;
      stack := stack[..n - 2] + [Add(stack[n - 2], Closed(stack[n - 1]))];
      ids := ids[..n - 1];
    }

    /** A value without children below the cursor, as in the states 6 and 8: below a label, the cursor
        goes on to the object. */
    method AddLeaf(kind: Kind, text: string)
      requires Placed() && stack != [] && (state == 6 || state == 8) && Fits(state, stack)
      modifies `cursor, `stack, `ids, `state, doc
      ensures Placed() && Machine(state, stack) == Attach(old(stack), Tree(kind, text, []))
    {
      hide Spine;
      ghost var s := stack;
      ghost var n := |s|;
      Enter(kind, text);
      AddedBelow(s, Open(kind, text, []));
      Up();
      if state == 6 {
        AddedLabel(s, Tree(kind, text, []));
        Up();
        state := 3;
      } else {
        state := 9;
      }
    }

    /** The end of an object or an array. */
    method CloseValue()
      requires Placed() && stack != [] && Nested(stack)
      requires stack[|stack| - 1].kind == KObject || stack[|stack| - 1].kind == KArray
      modifies `cursor, `stack, `ids, `state
      ensures Placed() && Machine(state, stack) == Close(old(stack))
    {
      hide Spine;
      ghost var s := stack;
      SpineTop(doc.nodes, ids, stack);
      if doc.nodes[cursor].parent == NONE {
        state := 99;
        return;
      }
      ClosedBelow(s);
      Up();
      SpineTop(doc.nodes, ids, stack);
      if doc.nodes[cursor].kind == KString {
        AddedLabel(s[..|s| - 1], Closed(s[|s| - 1]));
        Up();
        state := 3;
      } else {
        state := 9;
      }
    }

    ghost predicate Ready()
      reads this, doc
    {
      Placed() && Fits(state, stack) && Nested(stack)
    }

    // ---------- one token ----------

    /** The states 1 and 7: an object or an array is opened. */
    method OpenValue(kind: Kind)
      requires Ready() && ((kind == KObject && state == 1) || (kind == KArray && state == 7))
      modifies `cursor, `stack, `ids, `state, doc
      ensures Placed() && Machine(state, stack) == Machine(if kind == KObject then 2
          else 8, old(stack) + [Open(kind, "", [])])
    {
      hide Spine;
      EmptySpine(doc.nodes, ids, stack);
      if cursor == NONE {
        SpineStart(kind);
        assert stack == [] && stack + [Open(kind, "", [])] == [Open(kind, "", [])];
        cursor := doc.NewValue(kind, "");
        assert doc.nodes == [Node(kind, "", NONE, NONE, NONE, NONE, NONE)];
        ids, stack := [0], [Open(kind, "", [])];
      } else {
        Enter(kind, "");
      }
      state := if kind == KObject then 2 else 8;
    }

    /** The states 2, 3 and 4, in an object */
    method InObject(tok: Token) returns (err: Option<Error>)
      requires Ready() && (state == 2 || state == 3 || state == 4)
      modifies `cursor, `stack, `ids, `state, doc
      ensures match err
        case None => Placed() && Machine(state, stack) == Apply(Machine(old(state), old(stack)), tok)
        case Some(e) => Apply(Machine(old(state), old(stack)), tok) == Stop(e)
    {
      hide Spine, Close;
      if state != 3 && tok.TString? {
        Enter(KString, tok.text);
        state := 5;
      } else if state != 4 && tok == EndObject {
        CloseValue();
      } else if state == 3 && tok == Comma {
        state := 4;
      } else {
        return Some(if tok == More then Incomplete else Malformed);
      }
      return None;
    }

    /** The states 6 and 8, where a value is expected */
    method AtValue(tok: Token) returns (err: Option<Error>)
      requires Ready() && (state == 6 || state == 8)
      modifies `cursor, `stack, `ids, `state, doc
      ensures match err
        case None => Placed() && Machine(state, stack) == Apply(Machine(old(state), old(stack)), tok)
        case Some(e) => Apply(Machine(old(state), old(stack)), tok) == Stop(e)
    {
      hide Spine, Close, Attach;
      match tok
      case TString(text) => AddLeaf(KString, text); return None;
      case TNumber(text) => AddLeaf(KNumber, text); return None;
      case TTrue => AddLeaf(KTrue, ""); return None;
      case TFalse => AddLeaf(KFalse, ""); return None;
      case TNull => AddLeaf(KNull, ""); return None;
      case BeginObject => state := 1; return None;
      case BeginArray => state := 7; return None;
      case EndArray =>
        if state == 8 {
          CloseValue();
          return None;
        }
        return Some(Malformed);
      case More => return Some(Incomplete);
      case _ => return Some(Malformed);
    }

    /** The states 0, 5, 9 and 99 */
    method Elsewhere(tok: Token) returns (err: Option<Error>)
      requires Ready() && (state == 0 || state == 5 || state == 9 || state == 99)
      modifies `cursor, `stack, `ids, `state, doc
      ensures match err
        case None => Placed() && Machine(state, stack) == Apply(Machine(old(state), old(stack)), tok)
        case Some(e) => Apply(Machine(old(state), old(stack)), tok) == Stop(e)
    {
      hide Spine, Close;
      err := None;
      if state == 0 {
        if tok == BeginObject { state := 1; } else if tok == BeginArray { state := 7; } else { return Some(Malformed); }
      } else if state == 5 {
        if tok == Colon { state := 6; } else { return Some(if tok == More then Incomplete else Malformed); }
      } else if state == 9 {
        if tok == Comma { state := 8; } else if tok == EndArray { CloseValue(); }
            else { return Some(if tok == More then Incomplete else Malformed); }
      } else if tok != More {
        return Some(Malformed);
      }
    }

    /** One round of the loop. */
    method Step() returns (r: Round)
      requires Ready() && lexer.state == 0 && lexer.p < |lexer.z|
      modifies this, doc, lexer
      ensures match r
        case GoOn =>
          && Ready() && lexer.state == 0 && Parse(lexer.z, old(lexer.p), Machine(old(state), old(stack)))
              == Parse(lexer.z, lexer.p, Machine(state, stack))
          && (lexer.p > old(lexer.p) || (lexer.p == old(lexer.p) && (old(state) == 1 || old(state) == 7) && state != 1
              && state != 7))
        case Ended => Ready() && Parse(lexer.z, old(lexer.p), Machine(old(state), old(stack))) == Machine(state, stack)
            && state == 99
        case Failure(e) => Parse(lexer.z, old(lexer.p), Machine(old(state), old(stack))) == Stop(e)
    {
      hide Spine, Close, Attach, Parse, Lex, Apply, Nested, Fits;
      ghost var m := Machine(state, stack);
      ParseStep(lexer.z, lexer.p, m);
      if state == 1 || state == 7 {
        OpenOk(m);
        OpenValue(if state == 1 then KObject else KArray);
        return GoOn;
      }
      var tok := lexer.Next();
      var err;
      ApplyOk(m, tok);
      if state == 2 || state == 3 || state == 4 { err := InObject(tok); }
      else if state == 6 || state == 8 { err := AtValue(tok); }
      else { err := Elsewhere(tok); }
      if err.Some? {
        StopParsed(lexer.z, lexer.p, err.value);
        return Failure(err.value);
      }
      return if tok == More then Ended else GoOn;
    }
  }

  datatype Round = GoOn | Ended | Failure(err: Error)

  lemma EmptySpine(nodes: seq<Node>, ids: seq<nat>, stack: seq<Open>)
    requires Spine(nodes, ids, stack)
    ensures |ids| == |stack| && (stack == [] ==> nodes == [])
  {}

  lemma StopParsed(z: string, p: nat, e: Error)
    ensures Parse(z, p, Stop(e)) == Stop(e)
  {}

  /** What one round makes of the machine. */
  lemma ParseStep(z: string, p: nat, m: Machine)
    requires m.Machine? && p < |z|
    ensures m.state == 1 ==> Parse(z, p, m) == Parse(z, p, Machine(2, m.stack + [Open(KObject, "", [])]))
    ensures m.state == 7 ==> Parse(z, p, m) == Parse(z, p, Machine(8, m.stack + [Open(KArray, "", [])]))
    ensures m.state != 1 && m.state != 7 ==>
      var l := Lex(z, p, 0, "");
      Parse(z, p, m) == if l.tok == More || l.tok == Invalid then Apply(m, l.tok) else Parse(z, l.p, Apply(m, l.tok))
  {}

  lemma OpenOk(m: Machine)
    requires m.Machine? && Fits(m.state, m.stack) && Nested(m.stack) && (m.state == 1 || m.state == 7)
    ensures var o := Open(if m.state == 1 then KObject else KArray, "", []);
      Fits(if m.state == 1 then 2 else 8, m.stack + [o]) && Nested(m.stack + [o])
  {
    var s := m.stack + [Open(if m.state == 1 then KObject else KArray, "", [])];
    forall k | 1 <= k < |s| ensures NestedAt(s, k) {
      if k < |m.stack| { assert NestedAt(m.stack, k); }
    }
  }

  lemma AttachOk(s: seq<Open>, t: Tree)
    requires Nested(s) && Attach(s, t).Machine?
    ensures Fits(Attach(s, t).state, Attach(s, t).stack) && Nested(Attach(s, t).stack)
  {
    var r := Attach(s, t).stack;
    forall k | 1 <= k < |r| ensures NestedAt(r, k) { assert NestedAt(s, k); }
  }

  lemma CloseOk(s: seq<Open>)
    requires Nested(s) && Close(s).Machine?
    ensures Fits(Close(s).state, Close(s).stack) && Nested(Close(s).stack)
  {
    if |s| > 1 {
      var below := s[..|s| - 1];
      forall k | 1 <= k < |below| ensures NestedAt(below, k) { assert NestedAt(s, k); }
      AttachOk(below, Closed(s[|s| - 1]));
    }
  }

  lemma LabelOk(s: seq<Open>, text: string)
    requires Nested(s) && s != [] && s[|s| - 1].kind == KObject
    ensures var r := s + [Open(KString, text, [])]; InLabel(r) && Nested(r)
  {
    var r := s + [Open(KString, text, [])];
    forall k | 1 <= k < |r| ensures NestedAt(r, k) {
      if k < |s| { assert NestedAt(s, k); }
    }
  }

  /** The parser never leaves the states it can be in. */
  lemma ApplyOk(m: Machine, tok: Token)
    requires m.Machine? && Fits(m.state, m.stack) && Nested(m.stack) && m.state != 1 && m.state != 7
    ensures var a := Apply(m, tok); a.Machine? ==> Fits(a.state, a.stack) && Nested(a.stack)
    ensures Apply(m, More).Machine? ==> Apply(m, More) == m && m.state == 99
    ensures Apply(m, Invalid).Stop? && (m.state == 0 || m.state == 5 || m.state == 9 || m.state == 99 || m.state == 2
        || m.state == 3 || m.state == 4 || m.state == 6 || m.state == 8)
  {
    hide Close, Attach, Nested;
    if (m.state == 2 || m.state == 4) && tok.TString? { LabelOk(m.stack, tok.text); }
    if (tok == EndObject || tok == EndArray) && Close(m.stack).Machine? { CloseOk(m.stack); }
    if Leaf(tok).Some? && Attach(m.stack, Leaf(tok).value).Machine? { AttachOk(m.stack, Leaf(tok).value); }
  }

  /** The result of `json_parse_document` */
  datatype Answer = Document(root: int) | Problem(err: Error)

  /** `json_parse_document`: the nodes form the tree that was read, or the error is returned. */
  method ParseText(z: string) returns (r: Answer, doc: Document)
    ensures match ParseDocument(z)
      case Root(t) => r == Answer.Document(0) && Rep(doc.nodes, 0, t)
      case Failed(e) => r == Problem(e)
  {
    hide Parse, Spine, Rep;
    var parser := new Parser(z);
    doc := parser.doc;
    assert parser.Ready();
    while parser.lexer.p < |z|
      invariant parser.doc == doc && parser.lexer.z == z && parser.lexer.state == 0 && parser.Ready()
      invariant fresh(parser) && fresh(parser.lexer) && fresh(doc)
      invariant Parse(z, parser.lexer.p, Machine(parser.state, parser.stack)) == Parse(z, 0, Machine(0, []))
      decreases |z| - parser.lexer.p, if parser.state == 1 || parser.state == 7 then 1 else 0
    {
      var round := parser.Step();
      if round.Failure? { return Problem(round.err), doc; }
      if round.Ended? {
        SpineRoot(doc.nodes, parser.ids, parser.stack);
        return Answer.Document(0), doc;
      }
    }
    ParseEnd(z, parser.lexer.p, Machine(parser.state, parser.stack));
    if parser.state == 99 {
      SpineRoot(doc.nodes, parser.ids, parser.stack);
      return Answer.Document(0), doc;
    }
    return Problem(Incomplete), doc;
  }

  lemma ParseEnd(z: string, p: nat, m: Machine)
    requires m.Machine? && p >= |z|
    ensures Parse(z, p, m) == if m.state == 99 then m else Stop(Incomplete)
  {}

  // ---------- the round trip ----------

  lemma {:induction false} WellFormedIsShaped(t: Tree, isLabel: bool)
    requires WellFormed(t, isLabel)
    ensures Shaped(t, isLabel) && Printable(t, isLabel)
    decreases t
  {
    AllWellFormed(t.kids, t.kind == KObject, t, isLabel);
  }

  /** An object or an array may stand anywhere. */
  lemma RootIsShaped(t: Tree, top: bool)
    requires WellFormed(t, false) && (t.kind == KObject || t.kind == KArray)
    ensures Shaped(t, top) && Printable(t, top)
  {
    WellFormedIsShaped(t, false);
  }

  lemma {:induction false} AllWellFormed(ts: seq<Tree>, inObject: bool, t: Tree, isLabel: bool)
    requires WellFormed(t, isLabel) && (forall k | k in ts :: k in t.kids) && inObject == (t.kind == KObject)
    ensures AllShaped(ts, inObject) && AllPrintable(ts, inObject)
    decreases ts
  {
    if ts != [] {
      KidWellFormed(t, isLabel, ts[0]);
      WellFormedIsShaped(ts[0], inObject);
      AllWellFormed(ts[1..], inObject, t, isLabel);
    }
  }

  lemma KidWellFormed(t: Tree, isLabel: bool, k: Tree)
    requires WellFormed(t, isLabel) && k in t.kids
    ensures WellFormed(k, t.kind == KObject)
  {}

  /** Writing a document and reading it back gives a document that forms the same tree. */
  method WriteAndRead(doc: Document, root: int, ghost t: Tree) returns (text: string, r: Answer, copy: Document)
    requires Rep(doc.nodes, root, t) && doc.RootOk(root) && WellFormed(t, false)
        && (t.kind == KObject || t.kind == KArray)
    ensures text == Print(t) && r == Answer.Document(0) && Rep(copy.nodes, 0, t)
  {
    hide Rep, WellFormed, Print, Parse;
    RootIsShaped(t, doc.IsLabel(root));
    RoundTrip(t);
    var s := doc.ToString(root, t);
    text := s.value;
    r, copy := ParseText(text);
  }

  /** Which kinds may stand below a value of the given kind when they have no children yet. */
  predicate Takes1(parent: Kind, child: Kind) {
    match parent
    case KString => true
    case KObject => child == KString
    case KArray => true
    case _ => false
  }

  lemma AddedBelow(s: seq<Open>, x: Open)
    requires s != []
    ensures var all := s + [x]; var n := |all|;
      all[..n - 2] + [Add(all[n - 2], Closed(all[n - 1]))] == s[..|s| - 1] + [Add(s[|s| - 1], Closed(x))]
  {}

  /** A label with its value, closed. */
  lemma AddedLabel(s: seq<Open>, t: Tree)
    requires InLabel(s)
    ensures var all := s[..|s| - 1] + [Add(s[|s| - 1], t)]; var n := |all|;
      && n >= 2 && Attach(s, t) == Machine(3, all[..n - 2] + [Add(all[n - 2], Closed(all[n - 1]))])
  {
    var all := s[..|s| - 1] + [Add(s[|s| - 1], t)];
    var n := |all|;
    assert all[..n - 2] == s[..|s| - 1][..|s| - 2] && all[n - 2] == s[..|s| - 1][|s| - 2];
  }

  lemma ClosedBelow(s: seq<Open>)
    requires |s| >= 2 && Nested(s) && s[|s| - 1].kind != KString
    ensures var t := Closed(s[|s| - 1]); var below := s[..|s| - 1];
      && Close(s) == Attach(below, t) && s[..|s| - 2] + [Add(s[|s| - 2], t)] == below[..|below| - 1]
          + [Add(below[|below| - 1], t)]
      && (below[|below| - 1].kind == KArray || InLabel(below))
  {
    var below := s[..|s| - 1];
    assert below[..|below| - 1] == s[..|s| - 2];
    var n := |s|;
    assert NestedAt(s, n - 1);
    if s[n - 2].kind == KString { assert NestedAt(s, n - 2); }
  }
}
