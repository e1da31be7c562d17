/** The matcher reads a pattern text as the tree that it is written from. */
module StrReading {
  import opened StrPattern
  import opened StrMatch
  import opened StrLaws
  import opened StrText

  // ---------- kinds of characters ----------

  lemma InRange(t: string, lo: char, c: char)
    requires forall i | 0 <= i < |t| :: t[i] as int == lo as int + i
    ensures c in t <==> lo as int <= c as int < lo as int + |t|
  {
    if lo as int <= c as int < lo as int + |t| { assert t[c as int - lo as int] == c; }
  }

  lemma Digits(c: char)
    ensures Digit(c) == IsDigit(c)
  {
    InRange("0123456789", '0', c);
  }

  lemma SmallLetters(c: char)
    ensures Small(c) == IsLower(c)
  {
    InRange("abcdefghijklmnopqrstuvwxyz", 'a', c);
  }

  lemma CapitalLetters(c: char)
    ensures Capital(c) == IsUpper(c)
  {
    InRange("ABCDEFGHIJKLMNOPQRSTUVWXYZ", 'A', c);
  }

  lemma Letters(c: char)
    ensures Small(c) == IsLower(c) && Capital(c) == IsUpper(c) && Digit(c) == IsDigit(c)
  {
    SmallLetters(c);
    CapitalLetters(c);
    Digits(c);
  }

  lemma Hex(c: char)
    ensures HexDigit(c) == IsXdigit(c)
  {
    Digits(c);
    InRange("abcdef", 'a', c);
    InRange("ABCDEF", 'A', c);
  }

  lemma FirstMarks(c: char)
    ensures c in "!\"#$%&'()*+,-./" <==> '!' <= c <= '/'
    ensures c in ":;<=>?@" <==> ':' <= c <= '@'
  {
    InRange("!\"#$%&'()*+,-./", '!', c);
    InRange(":;<=>?@", ':', c);
  }

  lemma LastMarks(c: char)
    ensures c in "[\\]^_`" <==> '[' <= c <= '`'
    ensures c in "{|}~" <==> '{' <= c <= '~'
  {
    InRange("[\\]^_`", '[', c);
    InRange("{|}~", '{', c);
  }

  lemma Marks(c: char)
    ensures Mark(c) == IsPunct(c)
  {
    FirstMarks(c);
    LastMarks(c);
  }

  lemma Blanks(c: char)
    ensures Blank(c) == IsSpace(c) && Control(c) == IsCntrl(c)
  {}

  lemma Kinds(c: char)
    ensures Small(c) == IsLower(c) && Capital(c) == IsUpper(c) && Digit(c) == IsDigit(c)
    ensures HexDigit(c) == IsXdigit(c) && Mark(c) == IsPunct(c) && Blank(c) == IsSpace(c) && Control(c) == IsCntrl(c)
  {
    hide IsLower, IsUpper, IsDigit, IsXdigit, IsPunct, IsSpace, IsCntrl;
    hide Digit, Small, Capital, HexDigit, Mark, Blank, Control;
    Letters(c);
    Hex(c);
    Marks(c);
    Blanks(c);
  }

  lemma KindIs(letter: char, c: char)
    ensures InEscape(letter, c) == OfKind(letter, c)
  {
    Kinds(c);
    hide IsLower, IsUpper, IsDigit, IsXdigit, IsPunct, IsSpace, IsCntrl;
    hide Digit, Small, Capital, HexDigit, Mark, Blank, Control;
  }

  // ---------- sets ----------

  /** The text stands at `p`. */
  ghost predicate Held(pat: string, p: nat, t: string) { p + |t| <= |pat| && pat[p..p + |t|] == t }

  lemma HeldParts(pat: string, p: nat, a: string, b: string)
    ensures Held(pat, p, a + b) <==> Held(pat, p, a) && Held(pat, p + |a|, b)
  {
    if p + |a + b| <= |pat| {
      var t := pat[p..p + |a + b|];
      assert t[..|a|] == pat[p..p + |a|] && t[|a|..] == pat[p + |a|..p + |a| + |b|];
      assert (a + b)[..|a|] == a && (a + b)[|a|..] == b;
      assert t == t[..|a|] + t[|a|..];
    }
  }

  lemma HeldAt(pat: string, p: nat, t: string)
    requires Held(pat, p, t)
    ensures forall i | 0 <= i < |t| :: At(pat, p + i) == t[i] && p + i < |pat|
  {
    forall i | 0 <= i < |t| ensures At(pat, p + i) == t[i] && p + i < |pat| {
      assert t[i] == pat[p..p + |t|][i];
    }
  }

  function MemberOf(m: Part): Member {
    match m case Char(c) => One(c) case Chars(lo, hi) => Range(lo, hi) case Kind(letter) => Escape(letter)
  }

  function MembersOf(ms: seq<Part>): seq<Member> {
    if ms == [] then [] else [MemberOf(ms[0])] + MembersOf(ms[1..])
  }

  lemma OfSomeCons(ms: seq<Part>, c: char)
    requires ms != []
    ensures OfSome(ms, c) == (OfPart(ms[0], c) || OfSome(ms[1..], c))
  {
    if OfSome(ms[1..], c) {
      var i :| 0 <= i < |ms[1..]| && OfPart(ms[1..][i], c);
      assert OfPart(ms[i + 1], c);
    }
    if OfSome(ms, c) && !OfPart(ms[0], c) {
      var i :| 0 <= i < |ms| && OfPart(ms[i], c);
      assert OfPart(ms[1..][i - 1], c);
    }
  }

  lemma {:induction false} MembersMean(ms: seq<Part>, c: char)
    ensures InSome(MembersOf(ms), c) == OfSome(ms, c)
  {
    hide InEscape, OfKind;
    if ms != [] {
      OfSomeCons(ms, c);
      InSomeCons(MemberOf(ms[0]), MembersOf(ms[1..]), c);
      MembersMean(ms[1..], c);
      if ms[0].Kind? { KindIs(ms[0].letter, c); }
      hide InSome, OfSome;
    }
  }

  /** The text of the first part, and what follows it. */
  lemma FirstPart(pat: string, q: nat, ms: seq<Part>, tail: string)
    requires ms != [] && Held(pat, q, PartsText(ms) + tail)
    ensures Held(pat, q, PartText(ms[0])) && Held(pat, q + |PartText(ms[0])|, PartsText(ms[1..]) + tail)
  {
    hide PartText;
    assert PartsText(ms) + tail == PartText(ms[0]) + (PartsText(ms[1..]) + tail);
    HeldParts(pat, q, PartText(ms[0]), PartsText(ms[1..]) + tail);
    hide Held;
  }

  /** A bracket follows a part, or the next part does, which does not start with one. */
  lemma Follows(pat: string, n: nat, ms: seq<Part>)
    requires LegalParts(ms, false) && Held(pat, n, PartsText(ms) + "]")
    ensures n < |pat| && (pat[n] == ']' <==> ms == [])
  {
    HeldAt(pat, n, PartsText(ms) + "]");
    assert (PartsText(ms) + "]")[0] == At(pat, n + 0);
  }

  lemma PartsStep(ms: seq<Part>, first: bool)
    requires ms != [] && LegalParts(ms, first)
    ensures |PartsText(ms)| == |PartText(ms[0])| + |PartsText(ms[1..])|
    ensures LegalParts(ms[1..], false) && (LegalParts(ms, false) || first)
    ensures match ms[0]
      case Char(c) => c != '%' && (|PartsText(ms[1..])| < 2 || PartsText(ms[1..])[0] != '-')
      case Chars(lo, hi) => lo != '%' && hi != '%' && hi != ']'
      case Kind(_) => true
  {
    hide PartText;
  }

  lemma {:induction false} SetEndAt(pat: string, q: nat, ms: seq<Part>, first: bool)
    requires ms != [] && LegalParts(ms, first) && Held(pat, q, PartsText(ms) + "]")
    ensures SetEnd(pat, q) == Some(q + |PartsText(ms)| + 1)
    decreases |ms|
  {
    hide Held, LegalParts, SetEnd, PartText, PartsText;
    FirstPart(pat, q, ms, "]");
    PartsStep(ms, first);
    var n := q + |PartText(ms[0])|;
    Follows(pat, n, ms[1..]);
    PartEnd(pat, q, ms[0]);
    if ms[1..] == [] { assert PartsText(ms[1..]) == "" by { NoParts(); } }
        else { SetEndAt(pat, n, ms[1..], false); }
  }

  lemma NoParts()
    ensures PartsText([]) == ""
  {}

  /** The walk to the end of a set passes over one part. */
  lemma PartEnd(pat: string, q: nat, m: Part)
    requires Held(pat, q, PartText(m)) && q + |PartText(m)| < |pat|
    requires match m
      case Char(c) => c != '%'
      case Chars(lo, hi) => lo != '%' && hi != '%' && hi != ']'
      case Kind(_) => true
    ensures var n := q + |PartText(m)|;
      SetEnd(pat, q) == if pat[n] == ']' then Some(n + 1) else SetEnd(pat, n)
  {
    HeldAt(pat, q, PartText(m));
    assert At(pat, q + 0) == PartText(m)[0];
    assert m.Chars? ==> At(pat, q + 1) == '-' && At(pat, q + 2) == m.hi;
    if m.Chars? { assert SetEnd(pat, q) == SetEnd(pat, q + 1) == SetEnd(pat, q + 2); }
  }

  lemma {:induction false} MembersAt(pat: string, q: nat, ms: seq<Part>, first: bool)
    requires LegalParts(ms, first) && Held(pat, q, PartsText(ms) + "]")
    ensures Members(pat, q, q + |PartsText(ms)|) == MembersOf(ms)
    decreases |ms|
  {
    hide Members, LegalParts, Held, PartText, PartsText, MemberOf;
    if ms == [] {
      NoMembers(pat, q);
    } else {
      FirstPart(pat, q, ms, "]");
      PartsStep(ms, first);
      MembersAt(pat, q + |PartText(ms[0])|, ms[1..], false);
      OneMember(pat, q, ms, first);
    }
  }

  lemma NoMembers(pat: string, q: nat)
    ensures Members(pat, q, q + |PartsText([])|) == MembersOf([])
  {}

  lemma OneMember(pat: string, q: nat, ms: seq<Part>, first: bool)
    requires ms != [] && LegalParts(ms, first) && Held(pat, q, PartsText(ms) + "]")
    ensures var ec := q + |PartsText(ms)|;
      Members(pat, q, ec) == [MemberOf(ms[0])] + Members(pat, q + |PartText(ms[0])|, ec)
  {
    hide LegalParts, Held, PartsText, Members;
    FirstPart(pat, q, ms, "]");
    PartsStep(ms, first);
    var rest := PartsText(ms[1..]) + "]";
    HeldAt(pat, q, PartText(ms[0]));
    HeldAt(pat, q + |PartText(ms[0])|, rest);
    MemberIs(pat, q, ms[0], rest, q + |PartsText(ms)|);
  }

  /** A part whose text stands at `q`, with `rest` behind it, is the first member. */
  lemma MemberIs(pat: string, q: nat, m: Part, rest: string, ec: nat)
    requires rest != "" && ec == q + |PartText(m)| + |rest| - 1
    requires forall i | 0 <= i < |PartText(m)| :: At(pat, q + i) == PartText(m)[i]
    requires forall i | 0 <= i < |rest| :: At(pat, q + |PartText(m)| + i) == rest[i]
    requires match m
      case Char(c) => c != '%' && (|rest| < 3 || rest[0] != '-')
      case Chars(lo, hi) => lo != '%'
      case Kind(_) => true
    ensures Members(pat, q, ec) == [MemberOf(m)] + Members(pat, q + |PartText(m)|, ec)
  {
    assert At(pat, q + 0) == PartText(m)[0];
    assert At(pat, q + |PartText(m)| + 0) == rest[0];
    match m
    case Char(_) =>
    case Chars(_, _) => assert At(pat, q + 1) == PartText(m)[1] && At(pat, q + 2) == PartText(m)[2];
    case Kind(_) => assert At(pat, q + 1) == PartText(m)[1];
  }

  lemma SetTextAt(pat: string, p: nat, negated: bool, ms: seq<Part>)
    requires LegalSet(negated, ms) && Held(pat, p, SetText(negated, ms))
    ensures var ep := p + |SetText(negated, ms)|;
      && p < |pat| && pat[p] == '[' && ClassEnd(pat, p) == Some(ep)
      && SetAt(pat, p, ep - 1) == Set(negated, MembersOf(ms))
  {
    hide Members, LegalParts, PartsText, SetEnd;
    var head := if negated then "[^" else "[";
    assert SetText(negated, ms) == head + (PartsText(ms) + "]");
    HeldParts(pat, p, head, PartsText(ms) + "]");
    HeldAt(pat, p, head);
    assert At(pat, p + 0) == '[' && (negated ==> At(pat, p + 1) == '^');
    var q := p + |head|;
    HeldAt(pat, q, PartsText(ms) + "]");
    SomePart(ms);
    assert At(pat, q + 0) == PartsText(ms)[0];
    SetEndAt(pat, q, ms, true);
    MembersAt(pat, q, ms, true);
    hide Held;
  }

  lemma SomePart(ms: seq<Part>)
    requires ms != []
    ensures PartsText(ms) != ""
  {}

  // ---------- single characters ----------

  function ClassFor(one: Single): Class {
    match one
    case Dot => Any
    case Itself(c) => Literal(c)
    case Percent(c) => Named(c)
    case OneOf(ms) => Set(false, MembersOf(ms))
    case NoneOf(ms) => Set(true, MembersOf(ms))
  }

  lemma ClassFits(one: Single, c: char)
    ensures InClass(ClassFor(one), c) == Fits(one, c)
  {
    hide InEscape, OfKind, InSome, OfSome, MembersOf;
    match one
    case Percent(x) => KindIs(x, c);
    case OneOf(ms) => MembersMean(ms, c);
    case NoneOf(ms) => MembersMean(ms, c);
    case _ =>
  }

  lemma SingleTextAt(pat: string, p: nat, one: Single)
    requires LegalSingle(one) && Held(pat, p, SingleText(one))
    ensures var ep := p + |SingleText(one)|;
      p < ep <= |pat| && ClassEnd(pat, p) == Some(ep) && ClassAt(pat, p, ep) == ClassFor(one)
          && At(pat, p) == SingleText(one)[0] && (one.Percent? ==> At(pat, p + 1) == one.c)
  {
    HeldAt(pat, p, SingleText(one));
    assert SingleText(one) != "" && (one.Percent? ==> |SingleText(one)| == 2);
    hide SetEnd, SetAt, MembersOf, LegalSet, SetText;
    assert At(pat, p + 0) == SingleText(one)[0] && (one.Percent? ==> At(pat, p + 1) == SingleText(one)[1]);
    match one
    case OneOf(ms) => SetTextAt(pat, p, false, ms);
    case NoneOf(ms) => SetTextAt(pat, p, true, ms);
    case _ =>
  }

  function RepFor(t: Times): Repeat {
    match t case Exactly => Once case Maybe => Optional case Many => Star case OneOrMore => Plus case Least => Lazy
  }

  lemma TimesAt(pat: string, ep: nat, t: Times, rest: string)
    requires Held(pat, ep, TimesText(t) + rest) && ep + |TimesText(t)| + |rest| == |pat|
    requires t == Exactly ==> !StartsWith(rest, "?*+-")
    ensures RepeatOf(At(pat, ep)) == RepFor(t) && Held(pat, ep + |TimesText(t)|, rest)
  {
    HeldParts(pat, ep, TimesText(t), rest);
    HeldAt(pat, ep, TimesText(t) + rest);
    if TimesText(t) + rest != "" { assert At(pat, ep + 0) == (TimesText(t) + rest)[0]; }
  }

  // ---------- the items of a pattern ----------

  function Flat(p: Pattern): seq<Item> {
    match p
    case Nothing => []
    case Take(one, times, rest) => [Single(ClassFor(one), RepFor(times))] + Flat(rest)
    case Group(inner, rest) => [Open] + (Flat(inner) + ([Close] + Flat(rest)))
    case Here(rest) => [Position] + Flat(rest)
    case Again(digit, rest) => [BackRef(digit)] + Flat(rest)
    case Between(x, y, rest) => [Balance(x, y)] + Flat(rest)
    case Edge(negated, ms, rest) => [Frontier(Set(negated, MembersOf(ms)))] + Flat(rest)
  }

  /** The text stands at `p` and goes to the end. */
  ghost predicate HeldToEnd(pat: string, p: nat, t: string) { Held(pat, p, t) && p + |t| == |pat| }

  lemma ToEndParts(pat: string, p: nat, a: string, b: string)
    requires HeldToEnd(pat, p, a + b)
    ensures Held(pat, p, a) && HeldToEnd(pat, p + |a|, b)
  {
    HeldParts(pat, p, a, b);
  }

  lemma OneItem(pat: string, p: nat, item: Item, next: nat)
    requires p < |pat| && ItemAt(pat, p) == Parsed(item, next) && !item.Malformed?
    ensures Items(pat, p) == [item] + Items(pat, next)
  {
    ItemsStep(pat, p);
    hide Items, ItemAt;
    assert Items(pat, p) == [Items(pat, p)[0]] + Items(pat, p)[1..];
  }

  lemma TakeItem(pat: string, p: nat, one: Single, times: Times, rest: string)
    requires LegalSingle(one) && HeldToEnd(pat, p, SingleText(one) + (TimesText(times) + rest))
    requires times == Exactly ==> !StartsWith(rest, "?*+-")
    requires one == Itself('$') ==> TimesText(times) + rest != ""
    ensures p < |pat| && ItemAt(pat, p)
        == Parsed(Single(ClassFor(one), RepFor(times)), p + |SingleText(one)| + |TimesText(times)|)
    ensures HeldToEnd(pat, p + |SingleText(one)| + |TimesText(times)|, rest)
  {
    ToEndParts(pat, p, SingleText(one), TimesText(times) + rest);
    SingleTextAt(pat, p, one);
    TimesAt(pat, p + |SingleText(one)|, times, rest);
    hide ClassFor, ClassAt, ClassEnd, Held, LegalSingle, SingleText, TimesText, SetText;
    SingleStarts(pat, p, one);
  }

  /** The item that starts with a single character is that character, unless it is a final dollar. */
  lemma SingleStarts(pat: string, p: nat, one: Single)
    requires LegalSingle(one) && p < |pat| && At(pat, p) == SingleText(one)[0]
    requires one.Percent? ==> At(pat, p + 1) == one.c
    requires one == Itself('$') ==> p + 1 < |pat|
    ensures ItemAt(pat, p) == SingleAt(pat, p)
  {
    if one.Percent? { Letters(one.c); }
    hide SingleAt, LegalSet, PartsText;
  }

  /** A pattern that stands in parentheses does not start with the closing one. */
  lemma NoBracket(p: Pattern, tail: string)
    requires p != Nothing && Legal(p, tail)
    ensures Text(p) != "" && Text(p)[0] != ')'
  {
    hide PartsText, LegalSet;
  }

  lemma OpenItem(pat: string, pos: nat, rest: string)
    requires HeldToEnd(pat, pos, "(" + rest) && rest != "" && rest[0] != ')'
    ensures Items(pat, pos) == [Open] + Items(pat, pos + 1) && HeldToEnd(pat, pos + 1, rest)
  {
    ToEndParts(pat, pos, "(", rest);
    HeldAt(pat, pos + 1, rest);
    assert At(pat, pos + 1 + 0) == rest[0];
    HeldAt(pat, pos, "(");
    assert At(pat, pos + 0) == '(';
    OneItem(pat, pos, Open, pos + 1);
  }

  lemma CloseItem(pat: string, pos: nat, rest: string)
    requires HeldToEnd(pat, pos, ")" + rest)
    ensures Items(pat, pos) == [Close] + Items(pat, pos + 1) && HeldToEnd(pat, pos + 1, rest)
  {
    ToEndParts(pat, pos, ")", rest);
    HeldAt(pat, pos, ")");
    assert At(pat, pos + 0) == ')';
    OneItem(pat, pos, Close, pos + 1);
  }

  lemma HereItem(pat: string, pos: nat, rest: string)
    requires HeldToEnd(pat, pos, "()" + rest)
    ensures Items(pat, pos) == [Position] + Items(pat, pos + 2) && HeldToEnd(pat, pos + 2, rest)
  {
    ToEndParts(pat, pos, "()", rest);
    HeldAt(pat, pos, "()");
    assert At(pat, pos + 0) == '(' && At(pat, pos + 1) == ')';
    OneItem(pat, pos, Position, pos + 2);
  }

  lemma AgainItem(pat: string, pos: nat, digit: char, rest: string)
    requires digit in "0123456789" && HeldToEnd(pat, pos, ['%', digit] + rest)
    ensures Items(pat, pos) == [BackRef(digit)] + Items(pat, pos + 2) && HeldToEnd(pat, pos + 2, rest)
  {
    ToEndParts(pat, pos, ['%', digit], rest);
    HeldAt(pat, pos, ['%', digit]);
    assert At(pat, pos + 0) == '%' && At(pat, pos + 1) == digit;
    Digits(digit);
    assert IsDigit(digit);
    OneItem(pat, pos, BackRef(digit), pos + 2);
  }

  lemma BetweenItem(pat: string, pos: nat, x: char, y: char, rest: string)
    requires HeldToEnd(pat, pos, ['%', 'b', x, y] + rest)
    ensures Items(pat, pos) == [Balance(x, y)] + Items(pat, pos + 4) && HeldToEnd(pat, pos + 4, rest)
  {
    ToEndParts(pat, pos, ['%', 'b', x, y], rest);
    HeldAt(pat, pos, ['%', 'b', x, y]);
    assert At(pat, pos + 0) == '%' && At(pat, pos + 1) == 'b' && At(pat, pos + 2) == x && At(pat, pos + 3) == y;
    OneItem(pat, pos, Balance(x, y), pos + 4);
  }

  lemma EdgeItem(pat: string, pos: nat, negated: bool, ms: seq<Part>, rest: string)
    requires LegalSet(negated, ms) && HeldToEnd(pat, pos, "%f" + (SetText(negated, ms) + rest))
    ensures var next := pos + 2 + |SetText(negated, ms)|;
      && Items(pat, pos) == [Frontier(Set(negated, MembersOf(ms)))] + Items(pat, next)
      && HeldToEnd(pat, next, rest)
  {
    hide SetText, LegalSet, SetAt, MembersOf, SetEnd;
    ToEndParts(pat, pos, "%f", SetText(negated, ms) + rest);
    ToEndParts(pat, pos + 2, SetText(negated, ms), rest);
    HeldAt(pat, pos, "%f");
    assert At(pat, pos + 0) == '%' && At(pat, pos + 1) == 'f';
    SetTextAt(pat, pos + 2, negated, ms);
    OneItem(pat, pos, Frontier(Set(negated, MembersOf(ms))), pos + 2 + |SetText(negated, ms)|);
  }

  // ---------- one item and the pattern behind it ----------

  predicate Simple(p: Pattern) { !p.Nothing? && !p.Group? }

  function FirstText(p: Pattern): string
    requires Simple(p)
  {
    match p
    case Take(one, times, _) => SingleText(one) + TimesText(times)
    case Here(_) => "()"
    case Again(digit, _) => ['%', digit]
    case Between(x, y, _) => ['%', 'b', x, y]
    case Edge(negated, ms, _) => "%f" + SetText(negated, ms)
  }

  function FirstItem(p: Pattern): Item
    requires Simple(p)
  {
    match p
    case Take(one, times, _) => Single(ClassFor(one), RepFor(times))
    case Here(_) => Position
    case Again(digit, _) => BackRef(digit)
    case Between(x, y, _) => Balance(x, y)
    case Edge(negated, ms, _) => Frontier(Set(negated, MembersOf(ms)))
  }

  lemma Step(p: Pattern, tail: string)
    requires Simple(p)
    ensures Text(p) == FirstText(p) + Text(p.rest) && Flat(p) == [FirstItem(p)] + Flat(p.rest)
    ensures Legal(p, tail) ==> Legal(p.rest, tail)
  {
    hide SingleText, TimesText, SetText, LegalSet, LegalSingle, ClassFor, RepFor, MembersOf;
  }

  lemma FirstIs(pat: string, pos: nat, p: Pattern, tail: string)
    requires Simple(p) && Legal(p, tail) && HeldToEnd(pat, pos, FirstText(p) + (Text(p.rest) + tail))
    ensures var next := pos + |FirstText(p)|;
      Items(pat, pos) == [FirstItem(p)] + Items(pat, next) && HeldToEnd(pat, next, Text(p.rest) + tail)
  {
    hide Items, HeldToEnd, ItemAt, SetText, LegalSet, SingleText, TimesText, ClassFor, RepFor, Text, MembersOf;
    var after := Text(p.rest) + tail;
    match p
    case Take(one, times, rest) =>
      assert FirstText(p) + after == SingleText(one) + (TimesText(times) + after);
      assert TimesText(times) + Text(rest) + tail == TimesText(times) + after;
      TakeItem(pat, pos, one, times, after);
      OneItem(pat, pos, FirstItem(p), pos + |SingleText(one)| + |TimesText(times)|);
    case Here(_) => HereItem(pat, pos, after);
    case Again(digit, _) => AgainItem(pat, pos, digit, after);
    case Between(x, y, _) => BetweenItem(pat, pos, x, y, after);
    case Edge(negated, ms, _) =>
      assert FirstText(p) + after == "%f" + (SetText(negated, ms) + after);
      EdgeItem(pat, pos, negated, ms, after);
  }

  /** The text of a pattern, `tail` behind it, is read as its items, and then those of `tail`. */
  lemma {:induction false} FlatItems(pat: string, pos: nat, p: Pattern, tail: string)
    requires Legal(p, tail) && HeldToEnd(pat, pos, Text(p) + tail)
    ensures Items(pat, pos) == Flat(p) + Items(pat, pos + |Text(p)|)
    ensures HeldToEnd(pat, pos + |Text(p)|, tail)
    decreases p, 1
  {
    hide Items, HeldToEnd, Text, Flat, Legal, FirstText, FirstItem;
    if p == Nothing {
      NothingRead(pat, pos, tail);
    } else if p.Group? {
      GroupItems(pat, pos, p, tail);
    } else {
      Step(p, tail);
      assert Text(p) + tail == FirstText(p) + (Text(p.rest) + tail);
      FirstIs(pat, pos, p, tail);
      FlatItems(pat, pos + |FirstText(p)|, p.rest, tail);
      assert Items(pat, pos) == ([FirstItem(p)] + Flat(p.rest)) + Items(pat, pos + |Text(p)|);
    }
  }

  lemma NothingRead(pat: string, pos: nat, tail: string)
    requires HeldToEnd(pat, pos, Text(Nothing) + tail)
    ensures Items(pat, pos) == Flat(Nothing) + Items(pat, pos + |Text(Nothing)|)
    ensures HeldToEnd(pat, pos + |Text(Nothing)|, tail)
  {
    assert Text(Nothing) + tail == tail;
  }

  lemma GroupParts(inner: Pattern, rest: Pattern, tail: string)
    requires Legal(Group(inner, rest), tail)
    ensures var after := ")" + (Text(rest) + tail);
      && Text(Group(inner, rest)) + tail == "(" + (Text(inner) + after)
      && |Text(Group(inner, rest))| == 2 + |Text(inner)| + |Text(rest)|
      && Flat(Group(inner, rest)) == [Open] + (Flat(inner) + ([Close] + Flat(rest)))
      && inner != Nothing && Legal(inner, after) && Legal(rest, tail)
  {
    hide LegalSingle, SingleText, TimesText, SetText, LegalSet;
  }

  lemma {:induction false} GroupItems(pat: string, pos: nat, p: Pattern, tail: string)
    requires p.Group? && Legal(p, tail) && HeldToEnd(pat, pos, Text(p) + tail)
    ensures Items(pat, pos) == Flat(p) + Items(pat, pos + |Text(p)|) && HeldToEnd(pat, pos + |Text(p)|, tail)
    decreases p, 0
  {
    hide Items, HeldToEnd, Legal, Text, Flat;
    var inner, rest := p.inner, p.rest;
    var after := ")" + (Text(rest) + tail);
    GroupParts(inner, rest, tail);
    NoBracket(inner, after);
    OpenItem(pat, pos, Text(inner) + after);
    FlatItems(pat, pos + 1, inner, after);
    var q := pos + 1 + |Text(inner)|;
    CloseItem(pat, q, Text(rest) + tail);
    FlatItems(pat, q + 1, rest, tail);
    GroupJoined([Open], Flat(inner), [Close], Flat(rest), Items(pat, pos + |Text(p)|));
  }

  lemma GroupJoined<T>(a: seq<T>, b: seq<T>, c: seq<T>, d: seq<T>, e: seq<T>)
    ensures a + (b + (c + (d + e))) == (a + (b + (c + d))) + e
  {}
}
