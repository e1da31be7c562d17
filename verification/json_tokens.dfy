/** Which lists of tokens the parser accepts, and which tree they stand for. */
module JsonTokens {
  import opened JsonText
  import opened JsonLexer
  import opened JsonParse

  // ---------- trees as lists of tokens ----------

  /** A tree, with one comma more behind the last element of an array or not. */
  datatype Loose = Loose(kind: Kind, text: string, kids: seq<Loose>, extra: bool)

  function Strip(l: Loose): Tree
    decreases l
  {
    Tree(l.kind, l.text, StripAll(l.kids))
  }

  function StripAll(ls: seq<Loose>): (ts: seq<Tree>)
    ensures |ts| == |ls| && forall i | 0 <= i < |ls| :: ts[i] == Strip(ls[i])
    decreases ls
  {
    if ls == [] then [] else [Strip(ls[0])] + StripAll(ls[1..])
  }

  /** Only an array with elements may have the comma. */
  predicate Commas(l: Loose)
    decreases l
  {
    (l.extra ==> l.kind == KArray && l.kids != []) && forall k | k in l.kids :: Commas(k)
  }

  predicate Whole(l: Loose, isLabel: bool) { WellFormed(Strip(l), isLabel) && Commas(l) }

  /** The tokens of a tree. */
  function Tokens(l: Loose): seq<Token>
    decreases l, 0
  {
    match l.kind
    case KString => [TString(l.text)] + if l.kids == [] then [] else [Colon] + TokensAll(l.kids, false)
    case KNumber => [TNumber(l.text)]
    case KObject => [BeginObject] + TokensAll(l.kids, false) + [EndObject]
    case KArray => [BeginArray] + TokensAll(l.kids, false) + (if l.extra then [Comma] else []) + [EndArray]
    case KTrue => [TTrue]
    case KFalse => [TFalse]
    case KNull => [TNull]
  }

  function TokensAll(ls: seq<Loose>, more: bool): seq<Token>
    decreases ls
  {
    if ls == [] then [] else (if more then [Comma] else []) + Tokens(ls[0]) + TokensAll(ls[1..], true)
  }

  lemma {:induction false} TokensMore(ls: seq<Loose>, l: Loose, more: bool)
    ensures TokensAll(ls + [l], more)
      == TokensAll(ls, more) + (if more || ls != [] then [Comma] else []) + Tokens(l)
    decreases |ls|
  {
    hide Tokens;
    if ls == [] {
      assert ls + [l] == [l] && [l][1..] == [];
    } else {
      assert (ls + [l])[0] == ls[0] && (ls + [l])[1..] == ls[1..] + [l];
      TokensMore(ls[1..], l, true);
    }
  }

  // ---------- the parser on a list of tokens ----------

  /** The states that open a value without reading. */
  function Enter(m: Machine): Machine {
    if m.Machine? && m.state == 1 then Machine(2, m.stack + [Open(KObject, "", [])])
    else if m.Machine? && m.state == 7 then Machine(8, m.stack + [Open(KArray, "", [])])
    else m
  }

  function Run(m: Machine, toks: seq<Token>): Machine
    decreases |toks|
  {
    if toks == [] || m.Stop? then m else Run(Enter(Apply(m, toks[0])), toks[1..])
  }

  lemma {:induction false} RunParts(m: Machine, a: seq<Token>, b: seq<Token>)
    ensures Run(m, a + b) == Run(Run(m, a), b)
    decreases |a|
  {
    if a == [] {
      assert a + b == b;
    } else if m.Machine? {
      assert (a + b)[0] == a[0] && (a + b)[1..] == a[1..] + b;
      RunParts(Enter(Apply(m, a[0])), a[1..], b);
    }
  }

  lemma RunOne(m: Machine, tok: Token)
    requires m.Machine?
    ensures Run(m, [tok]) == Enter(Apply(m, tok))
  {
    assert [tok][1..] == [];
    hide Apply;
  }

  // ---------- the tokens of a tree are accepted ----------

  function LooseToken(l: Loose): Token {
    match l.kind
    case KString => TString(l.text) case KNumber => TNumber(l.text)
    case KTrue => TTrue case KFalse => TFalse case _ => TNull
  }

  predicate Container(kind: Kind) { kind == KObject || kind == KArray }

  lemma AttachState(m: Machine, t: Tree)
    requires Expects(m)
    ensures Attach(m.stack, t).Machine? && Enter(Attach(m.stack, t)) == Attach(m.stack, t)
  {}

  lemma LeafRun(m: Machine, l: Loose)
    requires Expects(m) && Whole(l, false) && !Container(l.kind)
    ensures Tokens(l) == [LooseToken(l)] && Run(m, Tokens(l)) == Attach(m.stack, Strip(l))
  {
    var t := Strip(l);
    assert StripAll(l.kids) == [] ==> l.kids == [];
    LeafFits(m, t);
    AttachState(m, t);
    RunOne(m, LooseToken(l));
    hide Attach, Apply, StringText, NumberText, Run;
  }

  /** A value is read where one is expected. */
  lemma {:induction false} ValueRun(m: Machine, l: Loose)
    requires Expects(m) && Whole(l, false)
    ensures Run(m, Tokens(l)) == Attach(m.stack, Strip(l))
    decreases l, 1
  {
    if Container(l.kind) { ContainerRun(m, l); } else { LeafRun(m, l); }
  }

  lemma WholeKids(l: Loose, isLabel: bool)
    requires Whole(l, isLabel) && Container(l.kind)
    ensures l.text == "" && forall i | 0 <= i < |l.kids| :: Whole(l.kids[i], l.kind == KObject)
    ensures l.extra ==> l.kind == KArray && l.kids != []
  {
    var t := Strip(l);
    forall i | 0 <= i < |l.kids| ensures Whole(l.kids[i], l.kind == KObject) {
      assert t.kids[i] == Strip(l.kids[i]);
      assert t.kids[i] in t.kids && l.kids[i] in l.kids;
    }
  }

  function BeginToken(kind: Kind): Token { if kind == KObject then BeginObject else BeginArray }
  function EndToken(kind: Kind): Token { if kind == KObject then EndObject else EndArray }

  lemma ContainerTokens(l: Loose)
    requires Container(l.kind) && (l.extra ==> l.kind == KArray)
    ensures Tokens(l) == [BeginToken(l.kind)]
      + (TokensAll(l.kids, false) + ((if l.extra then [Comma] else []) + [EndToken(l.kind)]))
  {
    hide TokensAll;
  }

  lemma BeginRun(m: Machine, kind: Kind)
    requires Expects(m) && Container(kind)
    ensures Run(m, [BeginToken(kind)]) == Machine(Inside(kind, false), m.stack + [Open(kind, "", [])])
  {
    hide Run, Expects, Apply;
    ExpectsState(m);
    RunOne(m, BeginToken(kind));
    BeginApply(m, kind);
  }

  lemma ExpectsState(m: Machine)
    requires Expects(m)
    ensures m.Machine? && (m.state == 6 || m.state == 8)
  {}

  lemma BeginApply(m: Machine, kind: Kind)
    requires m.Machine? && (m.state == 0 || m.state == 6 || m.state == 8) && Container(kind)
    ensures Apply(m, BeginToken(kind)) == m.(state := if kind == KObject then 1 else 7)
  {
    hide Attach, Close;
  }

  lemma EndRun(stack: seq<Open>, o: Open, extra: bool)
    requires Container(o.kind) && stack != [] && (extra ==> o.kind == KArray && o.done != [])
    requires Attach(stack, Closed(o)).Machine?
    ensures Run(Machine(Inside(o.kind, o.done != []), stack + [o]),
      (if extra then [Comma] else []) + [EndToken(o.kind)]) == Attach(stack, Closed(o))
  {
    var m := Machine(Inside(o.kind, o.done != []), stack + [o]);
    assert (stack + [o])[..|stack|] == stack;
    assert Close(stack + [o]) == Attach(stack, Closed(o)) by { hide Attach; }
    AttachEnters(stack, Closed(o));
    if extra {
      RunOne(m, Comma);
      RunOne(Machine(8, stack + [o]), EndArray);
      RunParts(m, [Comma], [EndArray]);
    } else {
      assert [] + [EndToken(o.kind)] == [EndToken(o.kind)];
      RunOne(m, EndToken(o.kind));
    }
    hide Attach, Run, Close;
  }

  lemma AttachEnters(stack: seq<Open>, t: Tree)
    ensures Enter(Attach(stack, t)) == Attach(stack, t)
  {}

  lemma {:induction false} ContainerRun(m: Machine, l: Loose)
    requires Expects(m) && Whole(l, false) && Container(l.kind)
    ensures Run(m, Tokens(l)) == Attach(m.stack, Strip(l))
    decreases l, 0
  {
    hide Run, Apply, Attach, Tokens, TokensAll, Whole;
    WholeKids(l, false);
    ContainerTokens(l);
    var last := (if l.extra then [Comma] else []) + [EndToken(l.kind)];
    RunParts(m, [BeginToken(l.kind)], TokensAll(l.kids, false) + last);
    BeginRun(m, l.kind);
    var m1 := Machine(Inside(l.kind, false), m.stack + [Open(l.kind, "", [])]);
    RunParts(m1, TokensAll(l.kids, false), last);
    KidsRun(m.stack, l.kind, [], l.kids, false);
    var o := Open(l.kind, "", StripAll(l.kids));
    assert [] + StripAll(l.kids) == StripAll(l.kids);
    assert Closed(o) == Strip(l);
    AttachState(m, Strip(l));
    EndRun(m.stack, o, l.extra);
  }

  /** All members that are left. */
  lemma {:induction false} KidsRun(stack: seq<Open>, kind: Kind, done: seq<Tree>, ls: seq<Loose>, more: bool)
    requires Container(kind) && forall i | 0 <= i < |ls| :: Whole(ls[i], kind == KObject)
    requires more <==> done != []
    ensures Run(Machine(Inside(kind, more), stack + [Open(kind, "", done)]), TokensAll(ls, more))
      == Machine(Inside(kind, done + StripAll(ls) != []), stack + [Open(kind, "", done + StripAll(ls))])
    decreases ls
  {
    hide Run, Apply, Attach, Tokens, Whole, TokensAll, StripAll, Strip, Inside;
    var m := Machine(Inside(kind, more), stack + [Open(kind, "", done)]);
    if ls == [] {
      NoKids();
      assert done + StripAll(ls) == done;
      RunNone(m);
    } else {
      var t := Strip(ls[0]);
      var c := if more then [Comma] else [];
      KidsStep(ls, more);
      assert done + ([t] + StripAll(ls[1..])) == (done + [t]) + StripAll(ls[1..]);
      RunParts(m, c, Tokens(ls[0]) + TokensAll(ls[1..], true));
      var m1 := Machine(if kind == KArray then 8 else if more then 4 else 2, stack + [Open(kind, "", done)]);
      CommaRun(stack, kind, done, more);
      RunParts(m1, Tokens(ls[0]), TokensAll(ls[1..], true));
      MemberRun(stack, kind, done, ls[0], more);
      KidsRun(stack, kind, done + [t], ls[1..], true);
    }
  }

  lemma NoKids()
    ensures StripAll([]) == [] && TokensAll([], true) == TokensAll([], false) == []
  {}

  lemma KidsStep(ls: seq<Loose>, more: bool)
    requires ls != []
    ensures StripAll(ls) == [Strip(ls[0])] + StripAll(ls[1..])
    ensures TokensAll(ls, more) == (if more then [Comma] else []) + (Tokens(ls[0]) + TokensAll(ls[1..], true))
  {
    hide Strip, Tokens;
  }

  lemma RunNone(m: Machine)
    ensures Run(m, []) == m
  {}

  lemma CommaRun(stack: seq<Open>, kind: Kind, done: seq<Tree>, more: bool)
    requires Container(kind)
    ensures Run(Machine(Inside(kind, more), stack + [Open(kind, "", done)]), if more then [Comma] else [])
      == Machine(if kind == KArray then 8 else if more then 4 else 2, stack + [Open(kind, "", done)])
  {
    var m := Machine(Inside(kind, more), stack + [Open(kind, "", done)]);
    RunNone(m);
    RunOne(m, Comma);
    hide Run;
  }

  lemma {:induction false} MemberRun(stack: seq<Open>, kind: Kind, done: seq<Tree>, l: Loose, more: bool)
    requires Container(kind) && Whole(l, kind == KObject)
    ensures Run(Machine(if kind == KArray then 8 else if more then 4 else 2, stack + [Open(kind, "", done)]), Tokens(l))
      == Machine(Inside(kind, true), stack + [Open(kind, "", done + [Strip(l)])])
    decreases l, 3
  {
    var top := stack + [Open(kind, "", done)];
    assert top[..|stack|] == stack && top[|stack|] == Open(kind, "", done);
    if kind == KArray {
      hide Run, Tokens, Whole;
      ValueRun(Machine(8, top), l);
    } else {
      LabelRun(stack, done, l, more);
    }
  }

  lemma LabelTokens(l: Loose)
    requires Whole(l, true)
    ensures |l.kids| == 1 && Whole(l.kids[0], false) && l.kind == KString
    ensures Tokens(l) == [TString(l.text)] + ([Colon] + Tokens(l.kids[0]))
    ensures Strip(l) == Tree(KString, l.text, [Strip(l.kids[0])])
  {
    assert l.kids[0] in l.kids;
    assert l.kids == [l.kids[0]];
    assert TokensAll(l.kids, false) == [] + Tokens(l.kids[0]) + [] by { OneKidTokens(l.kids[0]); }
    assert Strip(l).kids[0] == Strip(l.kids[0]);
    hide StringText, TokensAll;
  }

  lemma OneKidTokens(l: Loose)
    ensures TokensAll([l], false) == Tokens(l)
  {
    assert [l][1..] == [];
    hide Tokens;
  }

  lemma {:induction false} LabelRun(stack: seq<Open>, done: seq<Tree>, l: Loose, more: bool)
    requires Whole(l, true)
    ensures Run(Machine(if more then 4 else 2, stack + [Open(KObject, "", done)]), Tokens(l))
      == Machine(3, stack + [Open(KObject, "", done + [Strip(l)])])
    decreases l, 2
  {
    hide Run, Tokens, Whole, Attach;
    LabelTokens(l);
    var top := stack + [Open(KObject, "", done)];
    var named := top + [Open(KString, l.text, [])];
    var m := Machine(if more then 4 else 2, top);
    RunParts(m, [TString(l.text)], [Colon] + Tokens(l.kids[0]));
    RunOne(m, TString(l.text));
    RunParts(Machine(5, named), [Colon], Tokens(l.kids[0]));
    RunOne(Machine(5, named), Colon);
    assert named[|named| - 1].kind == KString && named[|named| - 2].kind == KObject;
    ValueRun(Machine(6, named), l.kids[0]);
    LabelAttach(stack, done, Strip(l));
  }

  /** The tokens of an object or an array are accepted, and give its tree. */
  lemma TokensAccepted(l: Loose)
    requires Whole(l, false) && Container(l.kind)
    ensures Run(Machine(0, []), Tokens(l)) == Machine(99, [Open(l.kind, "", StripAll(l.kids))])
  {
    hide Run, Apply, Tokens, TokensAll, Whole;
    WholeKids(l, false);
    ContainerTokens(l);
    var last := (if l.extra then [Comma] else []) + [EndToken(l.kind)];
    var m0 := Machine(0, []);
    RunParts(m0, [BeginToken(l.kind)], TokensAll(l.kids, false) + last);
    RootBegin(l.kind);
    var m1 := Machine(Inside(l.kind, false), [Open(l.kind, "", [])]);
    RunParts(m1, TokensAll(l.kids, false), last);
    KidsRun([], l.kind, [], l.kids, false);
    var o := Open(l.kind, "", StripAll(l.kids));
    assert [] + [Open(l.kind, "", [])] == [Open(l.kind, "", [])] && [] + [o] == [o];
    assert [] + StripAll(l.kids) == StripAll(l.kids);
    RootEnd(o, l.extra);
  }

  lemma RootBegin(kind: Kind)
    requires Container(kind)
    ensures Run(Machine(0, []), [BeginToken(kind)]) == Machine(Inside(kind, false), [Open(kind, "", [])])
  {
    RunOne(Machine(0, []), BeginToken(kind));
    hide Run;
    assert [] + [Open(kind, "", [])] == [Open(kind, "", [])];
  }

  lemma RootEnd(o: Open, extra: bool)
    requires Container(o.kind) && (extra ==> o.kind == KArray && o.done != [])
    ensures Run(Machine(Inside(o.kind, o.done != []), [o]), (if extra then [Comma] else []) + [EndToken(o.kind)])
      == Machine(99, [o])
  {
    var m := Machine(Inside(o.kind, o.done != []), [o]);
    if extra {
      RunOne(m, Comma);
      RunOne(Machine(8, [o]), EndArray);
      RunParts(m, [Comma], [EndArray]);
    } else {
      assert [] + [EndToken(o.kind)] == [EndToken(o.kind)];
      RunOne(m, EndToken(o.kind));
    }
    hide Run;
  }

  // ---------- what is accepted is the tokens of a tree ----------

  /** The value as far as it has been read; `under` says that something is to follow in it. */
  function Part(l: Loose, under: bool): seq<Token> {
    match l.kind
    case KString => [TString(l.text)] + if under then [Colon] else []
    case _ => [BeginToken(l.kind)] + TokensAll(l.kids, false) + if under && l.kids != [] then [Comma] else []
  }

  function Parts(ls: seq<Loose>): seq<Token> {
    if ls == [] then [] else Parts(ls[..|ls| - 1]) + Part(ls[|ls| - 1], true)
  }

  /** The tokens that led to a state, with these values from the root to the cursor. */
  function Written(ls: seq<Loose>, state: nat): seq<Token> {
    if ls == [] then []
    else if state == 99 then Tokens(ls[0])
    else Parts(ls[..|ls| - 1]) + Part(ls[|ls| - 1], state == 4 || state == 6 || state == 8)
  }

  function OpenOf(l: Loose): Open { Open(l.kind, l.text, StripAll(l.kids)) }

  function OpensOf(ls: seq<Loose>): (s: seq<Open>)
    ensures |s| == |ls| && forall i | 0 <= i < |ls| :: s[i] == OpenOf(ls[i])
  {
    if ls == [] then [] else [OpenOf(ls[0])] + OpensOf(ls[1..])
  }

  /** An object or an array that is being read, or a label without its value. */
  predicate Begun(l: Loose) {
    && !l.extra
    && (l.kind == KString || Container(l.kind))
    && (if l.kind == KString then l.kids == [] && StringText(l.text) else l.text == "")
    && (forall k | k in l.kids :: Whole(k, l.kind == KObject))
  }

  /** A label stands in an object, and nothing else does. */
  predicate Nested(ls: seq<Loose>) { forall i | 0 <= i < |ls| :: NestedAt(ls, i) }

  predicate NestedAt(ls: seq<Loose>, i: nat)
    requires i < |ls|
  {
    ls[i].kind == KString <==> i > 0 && ls[i - 1].kind == KObject
  }

  predicate AllBegun(ls: seq<Loose>) { forall l | l in ls :: Begun(l) }

  /** The state fits the value at the cursor. */
  predicate TopFits(l: Loose, state: nat) {
    match l.kind
    case KObject => (state == 2 && l.kids == []) || ((state == 3 || state == 4) && l.kids != [])
    case KArray => state == 8 || (state == 9 && l.kids != [])
    case _ => state == 5 || state == 6
  }

  /** The values from the root to the cursor fit each other and the state. */
  predicate Fit(ls: seq<Loose>, state: nat) {
    if state == 99 then |ls| == 1 && Whole(ls[0], false) && Container(ls[0].kind)
    else AllBegun(ls) && Nested(ls) && if ls == [] then state == 0 else TopFits(ls[|ls| - 1], state)
  }

  /** A token as the lexer gives it. */
  predicate LegalToken(tok: Token) {
    && (tok.TString? ==> StringText(tok.text)) && (tok.TNumber? ==> NumberText(tok.text))
    && tok != More && tok != Invalid
  }

  lemma OpensParts(a: seq<Loose>, l: Loose)
    ensures OpensOf(a + [l]) == OpensOf(a) + [OpenOf(l)]
  {}

  lemma PartsMore(a: seq<Loose>, l: Loose)
    ensures Parts(a + [l]) == Parts(a) + Part(l, true)
  {
    assert (a + [l])[..|a|] == a;
    hide Part;
  }

  lemma NestedMore(ls: seq<Loose>, l: Loose)
    ensures Nested(ls + [l]) <==> Nested(ls) && (l.kind == KString <==> ls != [] && ls[|ls| - 1].kind == KObject)
  {
    var m := ls + [l];
    forall i | 0 <= i < |ls| ensures NestedAt(m, i) == NestedAt(ls, i) {}
    assert NestedAt(m, |ls|) <==> (l.kind == KString <==> ls != [] && ls[|ls| - 1].kind == KObject);
    hide NestedAt;
    if Nested(m) {
      forall i | 0 <= i < |ls| ensures NestedAt(ls, i) { assert NestedAt(m, i); }
    }
  }

  lemma BegunMore(ls: seq<Loose>, l: Loose)
    ensures AllBegun(ls + [l]) <==> AllBegun(ls) && Begun(l)
  {
    hide Begun;
    if AllBegun(ls + [l]) {
      assert l in ls + [l];
      forall k | k in ls ensures Begun(k) { assert k in ls + [l]; }
    }
  }

  /** The value fits below the others. */
  predicate Under(ls: seq<Loose>, l: Loose) {
    AllBegun(ls) && Nested(ls) && Begun(l) && (l.kind == KString <==> ls != [] && ls[|ls| - 1].kind == KObject)
  }

  lemma FitIs(ls: seq<Loose>, state: nat)
    requires Fit(ls, state) && state != 99
    ensures AllBegun(ls) && Nested(ls) && if ls == [] then state == 0 else TopFits(ls[|ls| - 1], state)
  {}

  /** One value more below the cursor. */
  lemma TopIs(ls: seq<Loose>, l: Loose, state: nat)
    requires state != 99
    ensures Fit(ls + [l], state) <==> Under(ls, l) && TopFits(l, state)
    ensures Written(ls + [l], state) == Parts(ls) + Part(l, state == 4 || state == 6 || state == 8)
    ensures OpensOf(ls + [l]) == OpensOf(ls) + [OpenOf(l)]
  {
    NestedMore(ls, l);
    BegunMore(ls, l);
    OpensParts(ls, l);
    assert (ls + [l])[..|ls|] == ls && (ls + [l])[|ls|] == l;
    hide Begun, Part, Nested, AllBegun, TopFits;
  }

  /** The values from the root to the cursor, the last one apart. */
  lemma Split(ls: seq<Loose>)
    requires ls != []
    ensures ls == ls[..|ls| - 1] + [ls[|ls| - 1]]
  {}

  lemma EmptyPart(l: Loose)
    requires l.kids == [] && (l.kind == KString || Container(l.kind))
    ensures Part(l, false) == if l.kind == KString then [TString(l.text)] else [BeginToken(l.kind)]
  {
    assert TokensAll([], false) == [];
  }

  function FirstState(kind: Kind): nat { if kind == KObject then 2 else if kind == KArray then 8 else 5 }

  /** A value is opened below the cursor. */
  lemma Pushed(ls: seq<Loose>, l: Loose)
    requires Under(ls, l) && l.kids == []
    ensures Fit(ls + [l], FirstState(l.kind)) && OpensOf(ls + [l]) == OpensOf(ls) + [OpenOf(l)]
    ensures Written(ls + [l], FirstState(l.kind))
      == Parts(ls) + if l.kind == KString then [TString(l.text)] else [BeginToken(l.kind)]
  {
    TopIs(ls, l, FirstState(l.kind));
    StartFits(ls, l);
    hide Nested, AllBegun, Written, Parts, Fit, OpensOf, Part, TokensAll, TopFits, Under;
    EmptyPart(l);
    if l.kind == KArray { PartSame(l); }
  }

  lemma StartFits(ls: seq<Loose>, l: Loose)
    requires Under(ls, l) && l.kids == []
    ensures TopFits(l, FirstState(l.kind)) && (l.kind == KString || Container(l.kind))
  {
    hide AllBegun, Nested, TokensAll;
  }

  /** Nothing is written for what is to follow in an empty array. */
  lemma PartSame(l: Loose)
    requires l.kids == [] && Container(l.kind)
    ensures Part(l, true) == Part(l, false)
  {}

  /** One more has been read below a value. */
  function With(l: Loose, k: Loose): Loose { l.(kids := l.kids + [k]) }

  lemma WithPart(l: Loose, k: Loose)
    requires Container(l.kind)
    ensures Part(With(l, k), false) == Part(l, true) + Tokens(k)
  {
    hide TokensAll, Tokens;
    TokensMore(l.kids, k, false);
  }

  lemma {:induction false} StripMore(ls: seq<Loose>, l: Loose)
    ensures StripAll(ls + [l]) == StripAll(ls) + [Strip(l)]
  {}

  lemma WithOpen(l: Loose, k: Loose)
    ensures OpenOf(With(l, k)) == Add(OpenOf(l), Strip(k))
  {
    StripMore(l.kids, k);
  }

  lemma WithUnder(ls: seq<Loose>, l: Loose, k: Loose)
    requires Under(ls, l) && Container(l.kind) && Whole(k, l.kind == KObject)
    ensures Under(ls, With(l, k)) && TopFits(With(l, k), if l.kind == KObject then 3 else 9)
  {
    hide Whole, AllBegun, Nested;
    forall x | x in With(l, k).kids ensures Whole(x, l.kind == KObject) { assert x in l.kids || x == k; }
  }

  lemma AttachArray(s: seq<Open>, o: Open, t: Tree)
    requires o.kind == KArray
    ensures Attach(s + [o], t) == Machine(9, s + [Add(o, t)])
  {
    assert (s + [o])[..|s|] == s;
  }

  lemma AttachNamed(s: seq<Open>, o: Open, n: Open, t: Tree)
    requires o.kind == KObject && n.kind == KString
    ensures Attach(s + [o] + [n], t) == Machine(3, s + [Add(o, Closed(Add(n, t)))])
  {
    var a := s + [o] + [n];
    assert a[..|a| - 1] == s + [o] && (s + [o])[..|s|] == s;
  }

  /** A value in an array. */
  lemma Appended(ls: seq<Loose>, l: Loose, k: Loose)
    requires Under(ls, l) && l.kind == KArray && Whole(k, false)
    ensures Attach(OpensOf(ls + [l]), Strip(k)) == Machine(9, OpensOf(ls + [With(l, k)]))
    ensures Fit(ls + [With(l, k)], 9) && Written(ls + [With(l, k)], 9) == Parts(ls + [l]) + Tokens(k)
  {
    hide OpensOf, Parts, Part, Under, Fit, Written, Tokens, StripAll, Strip, TopFits, Whole, Attach, OpenOf, With;
    OpensParts(ls, l);
    OpensParts(ls, With(l, k));
    PartsMore(ls, l);
    WithPart(l, k);
    WithOpen(l, k);
    WithUnder(ls, l, k);
    WithKind(l, k);
    TopIs(ls, With(l, k), 9);
    OpenKind(l);
    AttachArray(OpensOf(ls), OpenOf(l), Strip(k));
  }

  lemma WithKind(l: Loose, k: Loose)
    ensures With(l, k).kind == l.kind
  {}

  lemma OpenKind(l: Loose)
    ensures OpenOf(l).kind == l.kind
  {}

  function Label(l: Loose, v: Loose): Loose { Loose(KString, l.text, [v], false) }

  lemma LabelIs(l: Loose, v: Loose)
    requires Begun(l) && l.kind == KString && Whole(v, false)
    ensures Whole(Label(l, v), true) && Tokens(Label(l, v)) == Part(l, true) + Tokens(v)
    ensures Strip(Label(l, v)) == Closed(Add(OpenOf(l), Strip(v)))
  {
    hide Whole, TokensAll, StringText, Strip, Tokens;
    LabelStrip(l, v);
    LabelWhole(l, v);
    LabelWritten(l, v);
    LabelClosed(l, v);
  }

  lemma LabelWritten(l: Loose, v: Loose)
    requires l.kind == KString
    ensures Tokens(Label(l, v)) == Part(l, true) + Tokens(v)
  {
    OneKidTokens(v);
    hide TokensAll;
    assert Tokens(Label(l, v)) == [TString(l.text)] + ([Colon] + TokensAll([v], false));
  }

  lemma LabelClosed(l: Loose, v: Loose)
    requires l.kind == KString && l.kids == []
    ensures Closed(Add(OpenOf(l), Strip(v))) == Tree(KString, l.text, [Strip(v)])
  {
    hide Strip;
    assert StripAll(l.kids) == [];
  }

  lemma LabelStrip(l: Loose, v: Loose)
    ensures Strip(Label(l, v)) == Tree(KString, l.text, [Strip(v)])
  {
    assert StripAll([v]) == [Strip(v)];
  }

  lemma LabelWhole(l: Loose, v: Loose)
    requires Begun(l) && l.kind == KString && Whole(v, false)
    ensures Whole(Label(l, v), true)
  {
    LabelStrip(l, v);
    hide StringText;
  }

  /** The value of a label. */
  lemma Named(ls: seq<Loose>, o: Loose, l: Loose, v: Loose)
    requires Under(ls, o) && o.kind == KObject && Begun(l) && l.kind == KString && Whole(v, false)
    ensures var k := With(o, Label(l, v));
      && Attach(OpensOf(ls + [o] + [l]), Strip(v)) == Machine(3, OpensOf(ls + [k]))
      && Fit(ls + [k], 3) && Written(ls + [k], 3) == Parts(ls + [o] + [l]) + Tokens(v)
  {
    hide OpensOf, Parts, Part, Under, Fit, Written, Tokens, StripAll, Strip, TopFits, Whole, Attach, OpenOf, With,
        Label, Begun;
    var n := Label(l, v);
    LabelIs(l, v);
    OpensParts(ls, o);
    OpensParts(ls + [o], l);
    OpensParts(ls, With(o, n));
    PartsMore(ls, o);
    PartsMore(ls + [o], l);
    WithPart(o, n);
    WithOpen(o, n);
    WithUnder(ls, o, n);
    WithKind(o, n);
    TopIs(ls, With(o, n), 3);
    OpenKind(o);
    OpenKind(l);
    AttachNamed(OpensOf(ls), OpenOf(o), OpenOf(l), Strip(v));
  }

  /** A value has been read below the cursor. */
  lemma Attached(ls: seq<Loose>, v: Loose) returns (ks: seq<Loose>, state: nat)
    requires ls != [] && AllBegun(ls) && Nested(ls) && ls[|ls| - 1].kind != KObject && Whole(v, false)
    ensures Attach(OpensOf(ls), Strip(v)) == Machine(state, OpensOf(ks))
    ensures Fit(ks, state) && Written(ks, state) == Parts(ls) + Tokens(v) && (state == 3 || state == 9)
  {
    hide OpensOf, Parts, Part, Fit, Written, Tokens, StripAll, Strip, TopFits, Whole, Attach, Begun, Nested, AllBegun;
    var a, l := ls[..|ls| - 1], ls[|ls| - 1];
    Split(ls);
    UnderSplit(a, l);
    if l.kind == KArray {
      Appended(a, l, v);
      return a + [With(l, v)], 9;
    }
    var b, o := a[..|a| - 1], a[|a| - 1];
    Split(a);
    UnderSplit(b, o);
    Named(b, o, l, v);
    return b + [With(o, Label(l, v))], 3;
  }

  lemma UnderSplit(a: seq<Loose>, l: Loose)
    requires AllBegun(a + [l]) && Nested(a + [l])
    ensures Under(a, l) && (l.kind == KString || Container(l.kind)) && Begun(l)
    ensures AllBegun(a) && Nested(a) && (l.kind == KString ==> a != [] && a[|a| - 1].kind == KObject)
  {
    NestedMore(a, l);
    BegunMore(a, l);
    hide Nested, AllBegun;
  }

  /** The cursor stands where a value is expected. */
  lemma ValueExpected(ls: seq<Loose>, state: nat)
    requires Fit(ls, state) && (state == 6 || state == 8)
    ensures ls != [] && AllBegun(ls) && Nested(ls) && ls[|ls| - 1].kind != KObject
    ensures Written(ls, state) == Parts(ls)
  {
    hide AllBegun, Nested, Part, Parts, Written, Fit, Under, Begun, TokensAll;
    FitIs(ls, state);
    Split(ls);
    TopIs(ls[..|ls| - 1], ls[|ls| - 1], state);
    PartsMore(ls[..|ls| - 1], ls[|ls| - 1]);
  }

  /** A token that opens an object or an array. */
  lemma BeginStep(ls: seq<Loose>, state: nat, kind: Kind) returns (ks: seq<Loose>, next: nat)
    requires Fit(ls, state) && Container(kind) && (state == 0 || state == 6 || state == 8)
    ensures Enter(Apply(Machine(state, OpensOf(ls)), BeginToken(kind))) == Machine(next, OpensOf(ks))
    ensures Fit(ks, next) && Written(ks, next) == Written(ls, state) + [BeginToken(kind)]
  {
    hide AllBegun, Nested, Parts, OpensOf, Written, Part, TokensAll;
    var l := Loose(kind, "", [], false);
    if state == 0 { StartIs(ls); } else { ValueExpected(ls, state); }
    BegunEmpty(kind, "");
    assert OpenOf(l) == Open(kind, "", []);
    hide Fit, Begun;
    Pushed(ls, l);
    ks, next := ls + [l], FirstState(kind);
  }

  lemma BegunEmpty(kind: Kind, text: string)
    requires if kind == KString then StringText(text) else Container(kind) && text == ""
    ensures Begun(Loose(kind, text, [], false))
  {
    hide StringText;
  }

  lemma StartIs(ls: seq<Loose>)
    requires Fit(ls, 0)
    ensures ls == [] && AllBegun(ls) && Nested(ls) && Written(ls, 0) == Parts(ls) == []
  {}

  /** A string that is a label. */
  lemma LabelStep(ls: seq<Loose>, state: nat, text: string) returns (ks: seq<Loose>, next: nat)
    requires Fit(ls, state) && StringText(text) && (state == 2 || state == 4)
    ensures Enter(Apply(Machine(state, OpensOf(ls)), TString(text))) == Machine(next, OpensOf(ks))
    ensures Fit(ks, next) && Written(ks, next) == Written(ls, state) + [TString(text)]
  {
    hide AllBegun, Nested, Parts, OpensOf, Written, Part, TokensAll, StringText;
    var l := Loose(KString, text, [], false);
    ObjectIs(ls, state);
    BegunEmpty(KString, text);
    assert OpenOf(l) == Open(KString, text, []);
    hide Fit, Begun;
    Pushed(ls, l);
    ks, next := ls + [l], 5;
  }

  lemma ObjectIs(ls: seq<Loose>, state: nat)
    requires Fit(ls, state) && (state == 2 || state == 3 || state == 4)
    ensures ls != [] && ls[|ls| - 1].kind == KObject && AllBegun(ls) && Nested(ls)
    ensures state != 3 ==> Written(ls, state) == Parts(ls)
    ensures ls == ls[..|ls| - 1] + [ls[|ls| - 1]] && Under(ls[..|ls| - 1], ls[|ls| - 1])
  {
    hide Nested, TokensAll, AllBegun, Parts, Part, Written, Under, Fit, Begun;
    FitIs(ls, state);
    Split(ls);
    var a, l := ls[..|ls| - 1], ls[|ls| - 1];
    TopIs(a, l, state);
    PartsMore(a, l);
    if state == 2 { PartSame(l); }
  }

  function LeafOf(tok: Token): Loose
    requires Leaf(tok).Some?
  {
    match tok
    case TString(s) => Loose(KString, s, [], false)
    case TNumber(n) => Loose(KNumber, n, [], false)
    case TTrue => Loose(KTrue, "", [], false)
    case TFalse => Loose(KFalse, "", [], false)
    case _ => Loose(KNull, "", [], false)
  }

  lemma LeafIs(tok: Token)
    requires LegalToken(tok) && Leaf(tok).Some?
    ensures Whole(LeafOf(tok), false) && Strip(LeafOf(tok)) == Leaf(tok).value && Tokens(LeafOf(tok)) == [tok]
  {
    hide StringText, NumberText;
  }

  lemma LeafStep(ls: seq<Loose>, state: nat, tok: Token) returns (ks: seq<Loose>, next: nat)
    requires Fit(ls, state) && LegalToken(tok) && Leaf(tok).Some? && (state == 6 || state == 8)
    ensures Enter(Apply(Machine(state, OpensOf(ls)), tok)) == Machine(next, OpensOf(ks))
    ensures Fit(ks, next) && Written(ks, next) == Written(ls, state) + [tok]
  {
    hide AllBegun, Nested, Parts, OpensOf, Written, Attach, LeafOf, Fit, LegalToken, Leaf, Whole, Strip, Tokens;
    ValueExpected(ls, state);
    LeafIs(tok);
    ks, next := Attached(ls, LeafOf(tok));
    LeafApplies(Machine(state, OpensOf(ls)), tok);
    AttachEnters(OpensOf(ls), Leaf(tok).value);
  }

  lemma LeafApplies(m: Machine, tok: Token)
    requires m.Machine? && (m.state == 6 || m.state == 8) && Leaf(tok).Some?
    ensures Apply(m, tok) == Attach(m.stack, Leaf(tok).value)
  {
    hide Attach;
  }

  /** The same values, in another state. */
  lemma MarkStep(ls: seq<Loose>, state: nat, tok: Token, next: nat)
    requires Fit(ls, state)
    requires (state == 5 && tok == Colon && next == 6) || (state == 3 && tok == Comma && next == 4)
      || (state == 9 && tok == Comma && next == 8)
    ensures Enter(Apply(Machine(state, OpensOf(ls)), tok)) == Machine(next, OpensOf(ls))
    ensures Fit(ls, next) && Written(ls, next) == Written(ls, state) + [tok]
  {
    hide Nested, Parts, OpensOf, TokensAll, AllBegun;
    var l := ls[|ls| - 1];
    assert Begun(l) by { LastBegun(ls); }
    MarkPart(l, state, tok, next);
    hide Part;
  }

  lemma LastBegun(ls: seq<Loose>)
    requires ls != [] && AllBegun(ls)
    ensures Begun(ls[|ls| - 1])
  {}

  lemma MarkPart(l: Loose, state: nat, tok: Token, next: nat)
    requires Begun(l) && TopFits(l, state)
    requires (state == 5 && tok == Colon && next == 6) || (state == 3 && tok == Comma && next == 4)
      || (state == 9 && tok == Comma && next == 8)
    ensures TopFits(l, next) && Part(l, true) == Part(l, false) + [tok]
  {
    hide TokensAll, StringText;
  }

  // ---------- the end of a value ----------

  /** An object or an array is complete. */
  function Ended(l: Loose, extra: bool): Loose { l.(extra := extra) }

  lemma EndedIs(l: Loose, extra: bool)
    requires Begun(l) && Container(l.kind) && (extra ==> l.kind == KArray && l.kids != [])
    ensures Whole(Ended(l, extra), false) && Strip(Ended(l, extra)) == Closed(OpenOf(l))
    ensures OpenOf(Ended(l, extra)) == OpenOf(l)
    ensures Tokens(Ended(l, extra)) == Part(l, extra) + [EndToken(l.kind)]
  {
    EndedTokens(l, extra);
    var e := Ended(l, extra);
    hide Tokens, Part;
    forall t | t in Strip(e).kids ensures WellFormed(t, l.kind == KObject) {
      var i :| 0 <= i < |e.kids| && Strip(e).kids[i] == t;
      assert e.kids[i] in l.kids && Whole(e.kids[i], l.kind == KObject);
    }
    forall k | k in e.kids ensures Commas(k) { assert Whole(k, l.kind == KObject); }
  }

  lemma EndedTokens(l: Loose, extra: bool)
    requires Container(l.kind) && (extra ==> l.kind == KArray && l.kids != [])
    ensures Tokens(Ended(l, extra)) == Part(l, extra) + [EndToken(l.kind)]
  {
    hide TokensAll;
  }

  lemma Closes(s: seq<Open>, o: Open)
    ensures Close(s + [o]) == if s == [] then Machine(99, [o]) else Attach(s, Closed(o))
  {
    assert (s + [o])[..|s|] == s;
    hide Attach;
  }

  lemma EndStep(ls: seq<Loose>, l: Loose, extra: bool) returns (ks: seq<Loose>, next: nat)
    requires Under(ls, l) && Container(l.kind) && (extra ==> l.kind == KArray && l.kids != [])
    ensures Enter(Close(OpensOf(ls + [l]))) == Machine(next, OpensOf(ks))
    ensures Fit(ks, next) && Written(ks, next) == Parts(ls) + Part(l, extra) + [EndToken(l.kind)]
  {
    hide OpensOf, Parts, Part, Fit, Written, Tokens, Strip, Whole, Attach, Begun, Nested, AllBegun, OpenOf, Ended,
        Close;
    EndedIs(l, extra);
    OpensParts(ls, l);
    Closes(OpensOf(ls), OpenOf(l));
    var e := Ended(l, extra);
    if ls == [] {
      ks, next := [e], 99;
      RootFits(l, extra);
    } else {
      ks, next := Attached(ls, e);
      AttachEnters(OpensOf(ls), Closed(OpenOf(l)));
      assert OpensOf(ls) != [];
    }
  }

  lemma RootFits(l: Loose, extra: bool)
    requires Container(l.kind) && Whole(Ended(l, extra), false) && OpenOf(Ended(l, extra)) == OpenOf(l)
    ensures Fit([Ended(l, extra)], 99) && Written([Ended(l, extra)], 99) == Tokens(Ended(l, extra))
    ensures OpensOf([]) == [] && OpensOf([Ended(l, extra)]) == [OpenOf(l)] && Parts([]) == []
  {
    hide Whole, Tokens, OpenOf;
  }

  lemma CloseStep(ls: seq<Loose>, state: nat, tok: Token) returns (ks: seq<Loose>, next: nat)
    requires Fit(ls, state)
    requires ((state == 2 || state == 3) && tok == EndObject) || ((state == 8 || state == 9) && tok == EndArray)
    ensures Enter(Apply(Machine(state, OpensOf(ls)), tok)) == Machine(next, OpensOf(ks))
    ensures Fit(ks, next) && Written(ks, next) == Written(ls, state) + [tok]
  {
    hide Nested, AllBegun, Parts, Part, Written, Under, Fit, Begun, OpensOf, Close, TokensAll;
    FitIs(ls, state);
    Split(ls);
    var a, l := ls[..|ls| - 1], ls[|ls| - 1];
    TopIs(a, l, state);
    assert l.kind == if tok == EndObject then KObject else KArray;
    var extra := state == 8 && l.kids != [];
    if l.kids == [] { PartSame(l); }
    ks, next := EndStep(a, l, extra);
  }

  /** A token that the parser takes in a state. */
  predicate Taken(state: nat, tok: Token) {
    match tok
    case BeginObject => state == 0 || state == 6 || state == 8
    case BeginArray => state == 0 || state == 6 || state == 8
    case EndObject => state == 2 || state == 3
    case EndArray => state == 8 || state == 9
    case Colon => state == 5
    case Comma => state == 3 || state == 9
    case TString(_) => state == 2 || state == 4 || state == 6 || state == 8
    case _ => state == 6 || state == 8
  }

  lemma OnlyTaken(m: Machine, tok: Token)
    requires m.Machine? && LegalToken(tok) && Enter(Apply(m, tok)).Machine? && m.state != 1 && m.state != 7
    ensures Taken(m.state, tok)
  {
    hide Attach, Close;
  }

  lemma Stepped(ls: seq<Loose>, state: nat, tok: Token) returns (ks: seq<Loose>, next: nat)
    requires Fit(ls, state) && LegalToken(tok) && Taken(state, tok)
    ensures Enter(Apply(Machine(state, OpensOf(ls)), tok)) == Machine(next, OpensOf(ks))
    ensures Fit(ks, next) && Written(ks, next) == Written(ls, state) + [tok]
  {
    hide Written, Fit, OpensOf, Apply, StringText, NumberText;
    match tok
    case BeginObject => ks, next := BeginStep(ls, state, KObject);
    case BeginArray => ks, next := BeginStep(ls, state, KArray);
    case EndObject => ks, next := CloseStep(ls, state, tok);
    case EndArray => ks, next := CloseStep(ls, state, tok);
    case Colon => MarkStep(ls, state, tok, 6); ks, next := ls, 6;
    case Comma => next := if state == 3 then 4 else 8; MarkStep(ls, state, tok, next); ks := ls;
    case TString(text) =>
      if state == 2 || state == 4 { ks, next := LabelStep(ls, state, text); }
          else { ks, next := LeafStep(ls, state, tok); }
    case _ => ks, next := LeafStep(ls, state, tok);
  }

  lemma FitStates(ls: seq<Loose>, state: nat)
    requires Fit(ls, state)
    ensures state != 1 && state != 7 && (state == 99 ==> |ls| == 1 && Whole(ls[0], false) && Container(ls[0].kind))
  {
    hide Whole, AllBegun, Nested;
  }

  lemma Stopped(toks: seq<Token>, err: Error)
    ensures Run(Stop(err), toks) == Stop(err)
  {}

  /** A run is one over trees with commas, and has read their tokens. */
  lemma {:induction false} Lifted(toks: seq<Token>) returns (ls: seq<Loose>, state: nat)
    requires forall tok | tok in toks :: LegalToken(tok)
    requires Run(Machine(0, []), toks).Machine?
    ensures Run(Machine(0, []), toks) == Machine(state, OpensOf(ls))
    ensures Fit(ls, state) && Written(ls, state) == toks
    decreases |toks|
  {
    hide Written, Fit, OpensOf, Apply, LegalToken, Run, Enter, Taken;
    var m0 := Machine(0, []);
    if toks == [] {
      RunNone(m0);
      ls, state := [], 0;
      NothingYet();
    } else {
      var u, x := toks[..|toks| - 1], toks[|toks| - 1];
      assert toks == u + [x];
      RunParts(m0, u, [x]);
      var m := Run(m0, u);
      if m.Stop? {
        Stopped([x], m.err);
        assert false;
      }
      var ks, st := Lifted(u);
      RunOne(m, x);
      FitStates(ks, st);
      OnlyTaken(m, x);
      ls, state := Stepped(ks, st, x);
    }
  }

  lemma NothingYet()
    ensures OpensOf([]) == [] && Fit([], 0) && Written([], 0) == []
  {}

  /** Exactly the tokens of objects and arrays are accepted; each of them gives its own tree. */
  lemma AcceptedIsTokens(toks: seq<Token>, o: Open) returns (l: Loose)
    requires forall tok | tok in toks :: LegalToken(tok)
    requires Run(Machine(0, []), toks) == Machine(99, [o])
    ensures toks == Tokens(l) && Strip(l) == Closed(o) && Whole(l, false) && Container(l.kind)
  {
    hide Fit, LegalToken, Run, Tokens, Whole;
    var ls, state := Lifted(toks);
    FitStates(ls, state);
    l := ls[0];
    assert OpensOf(ls)[0] == OpenOf(l);
  }
}
