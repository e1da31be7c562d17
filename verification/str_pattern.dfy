/** Lua patterns (`lstrlib.c`): their syntax, and the ordered enumeration of all ways to match.

    Characters are bytes; a pattern is a C string, so it holds no NUL, and reading at its end gives
    NUL. */
module StrPattern {

  const NUL: char := '\0'
  const MAX_CAPTURES: nat := 32

  datatype Option<T> = None | Some(value: T)

  datatype Error =
    | MalformedEnd | MalformedSet | MissingSet | UnbalancedPattern
    | TooManyCaptures | InvalidCapture | InvalidIndex

  function At(p: string, i: nat): char { if i < |p| then p[i] else NUL }

  // ---------- character classes ----------

  predicate IsDigit(c: char) { '0' <= c <= '9' }
  predicate IsLower(c: char) { 'a' <= c <= 'z' }
  predicate IsUpper(c: char) { 'A' <= c <= 'Z' }
  predicate IsAlpha(c: char) { IsLower(c) || IsUpper(c) }
  predicate IsAlnum(c: char) { IsAlpha(c) || IsDigit(c) }
  predicate IsXdigit(c: char) { IsDigit(c) || 'a' <= c <= 'f' || 'A' <= c <= 'F' }
  predicate IsSpace(c: char) { c == ' ' || 9 <= c as int <= 13 }
  predicate IsCntrl(c: char) { c as int < 32 || c as int == 127 }
  predicate IsPunct(c: char) { 33 <= c as int <= 126 && !IsAlnum(c) }

  /** The class that the escape `%cl` names, in lower case; none for other characters. */
  function ClassOf(cl: char, c: char): Option<bool> {
    match cl
    case 'a' => Some(IsAlpha(c)) case 'A' => Some(!IsAlpha(c))
    case 'c' => Some(IsCntrl(c)) case 'C' => Some(!IsCntrl(c))
    case 'd' => Some(IsDigit(c)) case 'D' => Some(!IsDigit(c))
    case 'l' => Some(IsLower(c)) case 'L' => Some(!IsLower(c))
    case 'p' => Some(IsPunct(c)) case 'P' => Some(!IsPunct(c))
    case 's' => Some(IsSpace(c)) case 'S' => Some(!IsSpace(c))
    case 'u' => Some(IsUpper(c)) case 'U' => Some(!IsUpper(c))
    case 'w' => Some(IsAlnum(c)) case 'W' => Some(!IsAlnum(c))
    case 'x' => Some(IsXdigit(c)) case 'X' => Some(!IsXdigit(c))
    case 'z' => Some(c == NUL) case 'Z' => Some(c != NUL)
    case _ => None
  }

  predicate InEscape(cl: char, c: char) {
    match ClassOf(cl, c) case Some(b) => b case None => c == cl
  }

  datatype Member = Escape(cl: char) | Range(lo: char, hi: char) | One(c: char)

  datatype Class = Any | Named(cl: char) | Literal(c: char) | Set(negated: bool, members: seq<Member>)

  predicate InMember(m: Member, c: char) {
    match m case Escape(cl) => InEscape(cl, c) case Range(lo, hi) => lo <= c <= hi case One(x) => c == x
  }

  predicate InSome(members: seq<Member>, c: char) { exists i :: 0 <= i < |members| && InMember(members[i], c) }

  predicate InClass(cls: Class, c: char) {
    match cls
    case Any => true
    case Named(cl) => InEscape(cl, c)
    case Literal(x) => c == x
    case Set(negated, members) => InSome(members, c) != negated
  }

  // ---------- syntax ----------

  /** Behind the `]` that ends the set whose text goes on at `q`; the first character never ends it. */
  function SetEnd(pat: string, q: nat): (r: Option<nat>)
    ensures r.Some? ==> q + 2 <= r.value <= |pat| && pat[r.value - 1] == ']'
    decreases |pat| - q
  {
    if q >= |pat| then None else
      var n := if pat[q] == '%' && q + 1 < |pat| then q + 2 else q + 1;
      if At(pat, n) == ']' && n < |pat| then Some(n + 1) else SetEnd(pat, n)
  }

  /** Where the text of a set starts. */
  function SetStart(pat: string, p: nat): nat { if At(pat, p + 1) == '^' then p + 2 else p + 1 }

  /** The end of the single-character class at `p`. */
  function ClassEnd(pat: string, p: nat): (r: Option<nat>)
    requires p < |pat|
    ensures r.Some? ==> p < r.value <= |pat|
  {
    match pat[p]
    case '%' => if p + 1 < |pat| then Some(p + 2) else None
    case '[' => SetEnd(pat, SetStart(pat, p))
    case _ => Some(p + 1)
  }

  function ClassError(c: char): Error { if c == '%' then MalformedEnd else MalformedSet }

  /** The members of a set whose text ends before `ec`. */
  function Members(pat: string, q: nat, ec: nat): seq<Member>
    decreases ec - q
  {
    if q >= ec then []
    else if At(pat, q) == '%' then [Escape(At(pat, q + 1))] + Members(pat, q + 2, ec)
    else if At(pat, q + 1) == '-' && q + 2 < ec then [Range(At(pat, q), At(pat, q + 2))] + Members(pat, q + 3, ec)
    else [One(At(pat, q))] + Members(pat, q + 1, ec)
  }

  function SetAt(pat: string, p: nat, ec: nat): Class {
    Set(At(pat, p + 1) == '^', Members(pat, SetStart(pat, p), ec))
  }

  /** The class whose text is between `p` and `ep`. */
  function ClassAt(pat: string, p: nat, ep: nat): Class
    requires p < |pat| && ep > 0
  {
    match pat[p]
    case '.' => Any
    case '%' => Named(At(pat, p + 1))
    case '[' => SetAt(pat, p, ep - 1)
    case c => Literal(c)
  }

  datatype Repeat = Once | Optional | Star | Plus | Lazy

  function RepeatOf(c: char): Repeat {
    match c case '?' => Optional case '*' => Star case '+' => Plus case '-' => Lazy case _ => Once
  }

  datatype Item =
    | Open | Position | Close
    | Balance(x: char, y: char) | Frontier(cls: Class) | BackRef(digit: char) | AtEnd
    | Single(cls: Class, rep: Repeat)
    | Malformed(err: Error)

  /** One pattern item, and what follows it. */
  datatype Parsed = Parsed(item: Item, next: nat)

  function SingleAt(pat: string, p: nat): Parsed
    requires p < |pat|
  {
    match ClassEnd(pat, p)
    case None => Parsed(Malformed(ClassError(pat[p])), |pat|)
    case Some(ep) =>
      var rep := RepeatOf(At(pat, ep));
      Parsed(Single(ClassAt(pat, p, ep), rep), if rep == Once then ep else ep + 1)
  }

  function ItemAt(pat: string, p: nat): Parsed
    requires p < |pat|
  {
    match pat[p]
    case '(' => if At(pat, p + 1) == ')' then Parsed(Position, p + 2) else Parsed(Open, p + 1)
    case ')' => Parsed(Close, p + 1)
    case '$' => if p + 1 == |pat| then Parsed(AtEnd, p + 1) else SingleAt(pat, p)
    case '%' =>
      if At(pat, p + 1) == 'b' then
        if p + 3 < |pat| then Parsed(Balance(pat[p + 2], pat[p + 3]), p + 4)
            else Parsed(Malformed(UnbalancedPattern), |pat|)
      else if At(pat, p + 1) == 'f' then
        if At(pat, p + 2) != '[' then Parsed(Malformed(MissingSet), |pat|) else
          (match ClassEnd(pat, p + 2)
           case None => Parsed(Malformed(MalformedSet), |pat|)
           case Some(ep) => Parsed(Frontier(SetAt(pat, p + 2, ep - 1)), ep))
      else if IsDigit(At(pat, p + 1)) then Parsed(BackRef(pat[p + 1]), p + 2)
      else SingleAt(pat, p)
    case _ => SingleAt(pat, p)
  }

  /** The items of the pattern from `p` on. */
  function Items(pat: string, p: nat): seq<Item>
    decreases |pat| - p
  {
    if p >= |pat| then [] else
      var i := ItemAt(pat, p);
      [i.item] + if i.item.Malformed? || i.next <= p then [] else Items(pat, i.next)
  }

  // ---------- all matches, in order ----------

  datatype Span = Unfinished | AtPosition | Length(n: nat)

  datatype Capture = Capture(init: nat, len: Span)

  /** A match that ends at `e`, with its captures, or an error. */
  datatype Outcome = Hit(e: nat, caps: seq<Capture>) | Fault(err: Error)

  /** Captures are parts of the subject up to `s`. */
  ghost predicate CapsOk(s: nat, caps: seq<Capture>) {
    && |caps| <= MAX_CAPTURES
    && forall i | 0 <= i < |caps| ::
         caps[i].init <= s && (caps[i].len.Length? ==> caps[i].init + caps[i].len.n <= s)
  }

  /** The innermost capture without an end. */
  function LastOpen(caps: seq<Capture>): (r: Option<nat>)
    ensures r.Some? ==>
      && r.value < |caps| && caps[r.value].len.Unfinished?
      && forall i | r.value < i < |caps| :: !caps[i].len.Unfinished?
    ensures r.None? ==> forall i | 0 <= i < |caps| :: !caps[i].len.Unfinished?
    decreases |caps|
  {
    if caps == [] then None
    else if caps[|caps| - 1].len.Unfinished? then Some(|caps| - 1)
    else LastOpen(caps[..|caps| - 1])
  }

  /** The end of the balanced part when `depth` openings are not closed before `s`. */
  function CloseOf(src: string, s: nat, x: char, y: char, depth: nat): (r: Option<nat>)
    ensures r.Some? ==> s < r.value <= |src|
    decreases |src| - s
  {
    if s >= |src| || depth == 0 then None
    else if src[s] == y then if depth == 1 then Some(s + 1) else CloseOf(src, s + 1, x, y, depth - 1)
    else CloseOf(src, s + 1, x, y, if src[s] == x then depth + 1 else depth)
  }

  function BalanceEnd(src: string, s: nat, x: char, y: char): (r: Option<nat>)
    ensures r.Some? ==> s < r.value <= |src|
  {
    if At(src, s) == x && s < |src| then CloseOf(src, s + 1, x, y, 1) else None
  }

  predicate AtFrontier(src: string, s: nat, cls: Class) {
    !InClass(cls, if 0 < s <= |src| then src[s - 1] else NUL) && InClass(cls, At(src, s))
  }

  /** The number of the capture that a digit refers to, if it is complete. */
  function RefOf(digit: char, caps: seq<Capture>): (r: Option<nat>)
    ensures r.Some? ==> r.value < |caps|
  {
    var l := digit as int - '1' as int;
    if l < 0 || l >= |caps| || caps[l].len.Unfinished? then None else Some(l)
  }

  /** The subject at `s` goes on with the text of the capture. */
  predicate Repeats(src: string, s: nat, c: Capture) {
    c.len.Length? && s + c.len.n <= |src| && c.init + c.len.n <= |src|
        && src[s..s + c.len.n] == src[c.init..c.init + c.len.n]
  }

  /** A capture that started at or before `s` ends there. */
  function Closed(c: Capture, s: nat): Capture { Capture(c.init, Length(if c.init <= s then s - c.init else 0)) }

  predicate Takes(src: string, s: nat, cls: Class) { s < |src| && InClass(cls, src[s]) }

  /** All matches of the items at `s`, in the order of preference. */
  function Matches(src: string, items: seq<Item>, s: nat, caps: seq<Capture>): seq<Outcome>
    decreases |items|, |src| - s, 1
  {
    if items == [] then [Hit(s, caps)] else
      var rest := items[1..];
      match items[0]
      case Open => if |caps| >= MAX_CAPTURES then [Fault(TooManyCaptures)]
          else Matches(src, rest, s, caps + [Capture(s, Unfinished)])
      case Position => if |caps| >= MAX_CAPTURES then [Fault(TooManyCaptures)]
          else Matches(src, rest, s, caps + [Capture(s, AtPosition)])
      case Close =>
        (match LastOpen(caps)
         case None => [Fault(InvalidCapture)]
         case Some(l) => Matches(src, rest, s, caps[l := Closed(caps[l], s)]))
      case Balance(x, y) => (match BalanceEnd(src, s, x, y) case None => [] case Some(e) => Matches(src, rest, e, caps))
      case Frontier(cls) => if AtFrontier(src, s, cls) then Matches(src, rest, s, caps) else []
      case BackRef(digit) =>
        (match RefOf(digit, caps)
         case None => [Fault(InvalidIndex)]
         case Some(l) => if Repeats(src, s, caps[l]) then Matches(src, rest, s + caps[l].len.n, caps) else [])
      case AtEnd => if s == |src| then Matches(src, rest, s, caps) else []
      case Malformed(err) => [Fault(err)]
      case Single(cls, rep) =>
        match rep
        case Once => if Takes(src, s, cls) then Matches(src, rest, s + 1, caps) else []
        case Optional => (if Takes(src, s, cls) then Matches(src, rest, s + 1, caps) else [])
            + Matches(src, rest, s, caps)
        case Star => Most(src, cls, rest, s, caps)
        case Plus => if Takes(src, s, cls) then Most(src, cls, rest, s + 1, caps) else []
        case Lazy => Fewest(src, cls, rest, s, caps)
  }

  /** Any number of characters of the class, the most first. */
  function Most(src: string, cls: Class, rest: seq<Item>, s: nat, caps: seq<Capture>): seq<Outcome>
    decreases |rest| + 1, |src| - s, 0
  {
    (if Takes(src, s, cls) then Most(src, cls, rest, s + 1, caps) else []) + Matches(src, rest, s, caps)
  }

  /** Any number of characters of the class, the fewest first. */
  function Fewest(src: string, cls: Class, rest: seq<Item>, s: nat, caps: seq<Capture>): seq<Outcome>
    decreases |rest| + 1, |src| - s, 0
  {
    Matches(src, rest, s, caps) + if Takes(src, s, cls) then Fewest(src, cls, rest, s + 1, caps) else []
  }
}
