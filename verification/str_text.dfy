/** What a pattern text means. A pattern is a tree of parts, each written with its own characters;
    the meaning of the tree is given on the characters of the subject. */
module StrText {
  import opened StrPattern
  import opened StrMatch
  import StrLaws

  // ---------- patterns and their texts ----------

  /** A member of a set: one character, all from one to another, or those of a named kind. */
  datatype Part = Char(c: char) | Chars(lo: char, hi: char) | Kind(letter: char)

  /** What one character may be. */
  datatype Single = Dot | Itself(c: char) | Percent(c: char) | OneOf(parts: seq<Part>) | NoneOf(parts: seq<Part>)

  datatype Times = Exactly | Maybe | Many | OneOrMore | Least

  datatype Pattern =
    | Nothing
    | Take(one: Single, times: Times, rest: Pattern)
    | Group(inner: Pattern, rest: Pattern)
    | Here(rest: Pattern)
    | Again(digit: char, rest: Pattern)
    | Between(x: char, y: char, rest: Pattern)
    | Edge(negated: bool, parts: seq<Part>, rest: Pattern)

  function PartText(m: Part): string {
    match m case Char(c) => [c] case Chars(lo, hi) => [lo, '-', hi] case Kind(letter) => ['%', letter]
  }

  function PartsText(ms: seq<Part>): string { if ms == [] then "" else PartText(ms[0]) + PartsText(ms[1..]) }

  function SetText(negated: bool, ms: seq<Part>): string {
    (if negated then "[^" else "[") + PartsText(ms) + "]"
  }

  function SingleText(one: Single): string {
    match one
    case Dot => "."
    case Itself(c) => [c]
    case Percent(c) => ['%', c]
    case OneOf(ms) => SetText(false, ms)
    case NoneOf(ms) => SetText(true, ms)
  }

  function TimesText(t: Times): string {
    match t case Exactly => "" case Maybe => "?" case Many => "*" case OneOrMore => "+" case Least => "-"
  }

  function Text(p: Pattern): string {
    match p
    case Nothing => ""
    case Take(one, times, rest) => SingleText(one) + TimesText(times) + Text(rest)
    case Group(inner, rest) => "(" + Text(inner) + ")" + Text(rest)
    case Here(rest) => "()" + Text(rest)
    case Again(digit, rest) => ['%', digit] + Text(rest)
    case Between(x, y, rest) => ['%', 'b', x, y] + Text(rest)
    case Edge(negated, ms, rest) => "%f" + SetText(negated, ms) + Text(rest)
  }

  function WholeText(p: Pattern, toEnd: bool): string { Text(p) + if toEnd then "$" else "" }

  // ---------- the trees that their texts are read as ----------

  predicate StartsWith(t: string, cs: string) { t != "" && t[0] in cs }

  /** A bracket closes the set unless it comes first; a character in front of a hyphen starts a range
      unless the hyphen is the last one. */
  predicate LegalParts(ms: seq<Part>, first: bool) {
    ms == [] ||
    (LegalParts(ms[1..], false) &&
     match ms[0]
     case Char(c) => c != NUL && c != '%' && (c != ']' || first)
         && (|PartsText(ms[1..])| < 2 || PartsText(ms[1..])[0] != '-')
     case Chars(lo, hi) => lo != NUL && lo != '%' && (lo != ']' || first) && hi != NUL && hi != ']' && hi != '%'
     case Kind(letter) => letter != NUL)
  }

  predicate LegalSet(negated: bool, ms: seq<Part>) {
    ms != [] && LegalParts(ms, true) && (negated || !StartsWith(PartsText(ms), "^"))
  }

  predicate LegalSingle(one: Single) {
    match one
    case Dot => true
    case Itself(c) => c !in "%.[()" && c != NUL
    case Percent(c) => c !in "bf0123456789" && c != NUL
    case OneOf(ms) => LegalSet(false, ms)
    case NoneOf(ms) => LegalSet(true, ms)
  }

  /** With `tail` behind it, the text is read as this pattern. */
  predicate Legal(p: Pattern, tail: string) {
    match p
    case Nothing => true
    case Take(one, times, rest) =>
      && LegalSingle(one) && Legal(rest, tail)
      && (times == Exactly ==> !StartsWith(Text(rest) + tail, "?*+-"))
      && (one == Itself('$') ==> TimesText(times) + Text(rest) + tail != "")
    case Group(inner, rest) => inner != Nothing && Legal(inner, ")" + (Text(rest) + tail)) && Legal(rest, tail)
    case Here(rest) => Legal(rest, tail)
    case Again(digit, rest) => digit in "0123456789" && Legal(rest, tail)
    case Between(x, y, rest) => Legal(rest, tail)
    case Edge(negated, ms, rest) => LegalSet(negated, ms) && Legal(rest, tail)
  }

  /** Which captures are open behind the pattern. */
  function OpenAfter(p: Pattern, open: seq<bool>): (r: seq<bool>)
    ensures |r| >= |open|
  {
    match p
    case Nothing => open
    case Take(_, _, rest) => OpenAfter(rest, open)
    case Group(inner, rest) => OpenAfter(rest, OpenAfter(inner, open + [true])[|open| := false])
    case Here(rest) => OpenAfter(rest, open + [false])
    case Again(_, rest) => OpenAfter(rest, open)
    case Between(_, _, rest) => OpenAfter(rest, open)
    case Edge(_, _, rest) => OpenAfter(rest, open)
  }

  /** There are at most 32 captures, and each `%1` to `%9` stands behind the end of its capture. */
  predicate Sound(p: Pattern, open: seq<bool>) {
    match p
    case Nothing => true
    case Take(_, _, rest) => Sound(rest, open)
    case Group(inner, rest) =>
      |open| < 32 && Sound(inner, open + [true]) && Sound(rest, OpenAfter(inner, open + [true])[|open| := false])
    case Here(rest) => |open| < 32 && Sound(rest, open + [false])
    case Again(digit, rest) =>
      '1' <= digit <= '9' && digit as int - '1' as int < |open| && !open[digit as int - '1' as int]
          && Sound(rest, open)
    case Between(_, _, rest) => Sound(rest, open)
    case Edge(_, _, rest) => Sound(rest, open)
  }

  predicate WellWritten(p: Pattern, toEnd: bool) { Legal(p, if toEnd then "$" else "") && Sound(p, []) }

  // ---------- what a pattern matches ----------

  predicate Digit(c: char) { c in "0123456789" }
  predicate HexDigit(c: char) { Digit(c) || c in "abcdef" || c in "ABCDEF" }
  predicate Small(c: char) { c in "abcdefghijklmnopqrstuvwxyz" }
  predicate Capital(c: char) { c in "ABCDEFGHIJKLMNOPQRSTUVWXYZ" }
  predicate Mark(c: char) { c in "!\"#$%&'()*+,-./" || c in ":;<=>?@" || c in "[\\]^_`" || c in "{|}~" }
  predicate Blank(c: char) { c in " \t\n\r" || c as int == 11 || c as int == 12 }
  predicate Control(c: char) { c as int < 32 || c as int == 127 }

  /** The characters of a kind; a capital letter means all others, and any other character itself. */
  predicate OfKind(letter: char, c: char) {
    match letter
    case 'a' => Small(c) || Capital(c) case 'A' => !Small(c) && !Capital(c)
    case 'c' => Control(c) case 'C' => !Control(c)
    case 'd' => Digit(c) case 'D' => !Digit(c)
    case 'l' => Small(c) case 'L' => !Small(c)
    case 'p' => Mark(c) case 'P' => !Mark(c)
    case 's' => Blank(c) case 'S' => !Blank(c)
    case 'u' => Capital(c) case 'U' => !Capital(c)
    case 'w' => Small(c) || Capital(c) || Digit(c) case 'W' => !Small(c) && !Capital(c) && !Digit(c)
    case 'x' => HexDigit(c) case 'X' => !HexDigit(c)
    case 'z' => c == '\0' case 'Z' => c != '\0'
    case _ => c == letter
  }

  predicate OfPart(m: Part, c: char) {
    match m case Char(x) => c == x case Chars(lo, hi) => lo <= c <= hi case Kind(letter) => OfKind(letter, c)
  }

  predicate OfSome(ms: seq<Part>, c: char) { exists i | 0 <= i < |ms| :: OfPart(ms[i], c) }

  predicate Fits(one: Single, c: char) {
    match one
    case Dot => true
    case Itself(x) => c == x
    case Percent(x) => OfKind(x, c)
    case OneOf(ms) => OfSome(ms, c)
    case NoneOf(ms) => !OfSome(ms, c)
  }

  predicate FitsAt(src: string, one: Single, i: nat) { i < |src| && Fits(one, src[i]) }

  /** From `s` on, `k` characters fit. */
  predicate Run(src: string, one: Single, s: nat, k: nat) { forall i | s <= i < s + k :: FitsAt(src, one, i) }

  predicate Often(t: Times, k: nat) {
    match t case Exactly => k == 1 case Maybe => k <= 1 case Many => true case OneOrMore => k >= 1 case Least => true
  }

  /** A part that starts with `x` and ends with the `y` that is its partner. */
  ghost predicate Balanced(src: string, s: nat, e: nat, x: char, y: char) {
    && s < e <= |src| && src[s] == x
    && if x == y then s + 1 < e && src[e - 1] == x && forall k | s < k < e - 1 :: src[k] != x
       else StrLaws.Even(src, s, e, x, y) && forall k | s < k < e :: !StrLaws.Even(src, s, k, x, y)
  }

  ghost function BalancedEnd(src: string, s: nat, x: char, y: char): (r: Option<nat>)
    ensures r.Some? ==> s <= r.value
  {
    if exists e: nat :: Balanced(src, s, e, x, y) then
      var e: nat :| Balanced(src, s, e, x, y);
      Some(e)
    else None
  }

  /** The character before `s`, and the one at `s`; NUL outside the subject. */
  function Earlier(src: string, s: nat): char { if 0 < s <= |src| then src[s - 1] else '\0' }
  function Current(src: string, s: nat): char { if s < |src| then src[s] else '\0' }

  predicate OnEdge(src: string, s: nat, negated: bool, ms: seq<Part>) {
    OfSome(ms, Earlier(src, s)) == negated && OfSome(ms, Current(src, s)) != negated
  }

  /** The text of the capture stands at `s` once more. */
  predicate SameText(src: string, s: nat, c: Capture) {
    c.len.Length? && c.init + c.len.n <= |src| && s + c.len.n <= |src|
        && src[s..s + c.len.n] == src[c.init..c.init + c.len.n]
  }

  function Width(p: Pattern): nat {
    match p
    case Nothing => 0
    case Take(_, _, rest) => 1 + Width(rest)
    case Group(inner, rest) => Width(inner) + Width(rest)
    case Here(rest) => Width(rest)
    case Again(_, rest) => Width(rest)
    case Between(_, _, rest) => Width(rest)
    case Edge(_, _, rest) => Width(rest)
  }

  datatype Way = Way(e: nat, caps: seq<Capture>)

  /** Where the pattern ends and what it captures when its characters are taken as often as `ks` says;
      none when it does not match in this way. */
  ghost function Go(src: string, p: Pattern, s: nat, caps: seq<Capture>, ks: seq<nat>): (r: Option<Way>)
    requires |ks| == Width(p)
    ensures r.Some? ==> s <= r.value.e && |caps| <= |r.value.caps|
    decreases p
  {
    match p
    case Nothing => Some(Way(s, caps))
    case Take(one, times, rest) =>
      if Often(times, ks[0]) && Run(src, one, s, ks[0]) then Go(src, rest, s + ks[0], caps, ks[1..]) else None
    case Group(inner, rest) =>
      (match Go(src, inner, s, caps + [Capture(s, Unfinished)], ks[..Width(inner)])
       case None => None
       case Some(w) =>
         Go(src, rest, w.e, w.caps[|caps| := Capture(s, Length(w.e - s))], ks[Width(inner)..]))
    case Here(rest) => Go(src, rest, s, caps + [Capture(s, AtPosition)], ks)
    case Again(digit, rest) =>
      var l := digit as int - '1' as int;
      if 0 <= l < |caps| && SameText(src, s, caps[l]) then Go(src, rest, s + caps[l].len.n, caps, ks) else None
    case Between(x, y, rest) =>
      (match BalancedEnd(src, s, x, y)
       case None => None
       case Some(e) => Go(src, rest, e, caps, ks))
    case Edge(negated, ms, rest) => if OnEdge(src, s, negated, ms) then Go(src, rest, s, caps, ks) else None
  }

  /** The subject matches from `s` on in the way `ks`. */
  ghost predicate Matching(src: string, p: Pattern, toEnd: bool, s: nat, ks: seq<nat>, w: Way) {
    |ks| == Width(p) && Go(src, p, s, [], ks) == Some(w) && (toEnd ==> w.e == |src|)
  }

  function TimesOf(p: Pattern): seq<Times> {
    match p
    case Nothing => []
    case Take(_, times, rest) => [times] + TimesOf(rest)
    case Group(inner, rest) => TimesOf(inner) + TimesOf(rest)
    case Here(rest) => TimesOf(rest)
    case Again(_, rest) => TimesOf(rest)
    case Between(_, _, rest) => TimesOf(rest)
    case Edge(_, _, rest) => TimesOf(rest)
  }

  /** At the first place where two ways differ, the preferred one takes more, or fewer if a hyphen
      stands there. */
  ghost predicate Preferred(ts: seq<Times>, ks: seq<nat>, other: seq<nat>) {
    exists i: nat | i < |ts| && i < |ks| && i < |other| :: PreferredAt(ts, ks, other, i)
  }

  ghost predicate PreferredAt(ts: seq<Times>, ks: seq<nat>, other: seq<nat>, i: nat)
    requires i < |ts| && i < |ks| && i < |other|
  {
    ks[..i] == other[..i] && if ts[i] == Least then ks[i] < other[i] else ks[i] > other[i]
  }

  /** The subject matches in the way `ks`, and every other way to match is less preferred. */
  ghost predicate Preferably(src: string, p: Pattern, toEnd: bool, s: nat, ks: seq<nat>, w: Way) {
    && Matching(src, p, toEnd, s, ks, w)
    && forall other, v | Matching(src, p, toEnd, s, other, v) :: other == ks || Preferred(TimesOf(p), ks, other)
  }

  ghost predicate Unmatched(src: string, p: Pattern, toEnd: bool, s: nat) {
    forall ks, w :: !Matching(src, p, toEnd, s, ks, w)
  }

  /** The answer to a pattern: the end and the captures of the preferred way, or that there is none. */
  ghost predicate Means(r: Result, caps: seq<Capture>, src: string, p: Pattern, toEnd: bool, s: nat) {
    match r
    case NoMatch => Unmatched(src, p, toEnd, s)
    case End(e) => exists ks :: Preferably(src, p, toEnd, s, ks, Way(e, caps))
    case Raise(_) => false
  }
}
