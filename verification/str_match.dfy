/** The matcher as it runs: one array of captures, undone in place when a choice fails. */
module StrMatch {
  import opened StrPattern

  /** Where the match ends, or that there is none, or the error that is raised. */
  datatype Result = End(e: nat) | NoMatch | Raise(err: Error)

  /** The result tells the first outcome, and the captures are those of that match, or as before. */
  ghost predicate Answers(r: Result, all: seq<Outcome>, before: seq<Capture>, after: seq<Capture>) {
    match r
    case NoMatch => all == [] && after == before
    case End(e) => all != [] && all[0] == Hit(e, after)
    case Raise(err) => all != [] && all[0] == Fault(err)
  }

  /** Both enumerations have the same first outcome. */
  ghost predicate SameFirst(a: seq<Outcome>, b: seq<Outcome>) {
    (a == [] <==> b == []) && (a != [] ==> a[0] == b[0])
  }

  lemma InSomeCons(m: Member, ms: seq<Member>, c: char)
    ensures InSome([m] + ms, c) == (InMember(m, c) || InSome(ms, c))
  {
    if InMember(m, c) { assert InMember(([m] + ms)[0], c); }
    if InSome(ms, c) {
      var i :| 0 <= i < |ms| && InMember(ms[i], c);
      assert InMember(([m] + ms)[i + 1], c);
    }
  }

  /** The first member of a set whose text starts at `q`, and the others. */
  lemma SetStep(pat: string, q: nat, ec: nat, c: char)
    requires q < ec
    ensures InSome(Members(pat, q, ec), c) ==
      if At(pat, q) == '%' then InEscape(At(pat, q + 1), c) || InSome(Members(pat, q + 2, ec), c)
      else if At(pat, q + 1) == '-' && q + 2 < ec then At(pat, q) <= c <= At(pat, q + 2)
          || InSome(Members(pat, q + 3, ec), c)
      else c == At(pat, q) || InSome(Members(pat, q + 1, ec), c)
  {
    if At(pat, q) == '%' {
      InSomeCons(Escape(At(pat, q + 1)), Members(pat, q + 2, ec), c);
    } else if At(pat, q + 1) == '-' && q + 2 < ec {
      InSomeCons(Range(At(pat, q), At(pat, q + 2)), Members(pat, q + 3, ec), c);
    } else {
      InSomeCons(One(At(pat, q)), Members(pat, q + 1, ec), c);
    }
    hide InSome, InEscape;
  }

  lemma SetDone(pat: string, q: nat, ec: nat, c: char)
    requires q >= ec
    ensures !InSome(Members(pat, q, ec), c)
  {}

  lemma ItemsStep(pat: string, p: nat)
    requires p < |pat|
    ensures var i := ItemAt(pat, p);
      && Items(pat, p) != [] && Items(pat, p)[0] == i.item
      && (!i.item.Malformed? ==> p < i.next <= |pat| && Items(pat, p)[1..] == Items(pat, i.next))
  {}

  lemma CapsGrow(s: nat, caps: seq<Capture>, t: nat)
    requires CapsOk(s, caps) && s <= t
    ensures CapsOk(t, caps)
  {}

  // ---------- what the items at `p` enumerate ----------

  /** All matches of the pattern from `p` on. */
  function From(src: string, pat: string, p: nat, s: nat, caps: seq<Capture>): seq<Outcome> {
    Matches(src, Items(pat, p), s, caps)
  }

  lemma FromEnd(src: string, pat: string, p: nat, s: nat, caps: seq<Capture>)
    requires p == |pat|
    ensures From(src, pat, p, s, caps) == [Hit(s, caps)]
  {}

  lemma FromOpen(src: string, pat: string, p: nat, s: nat, caps: seq<Capture>)
    requires p < |pat| && pat[p] == '('
    ensures var pos := At(pat, p + 1) == ')';
      From(src, pat, p, s, caps) == if |caps| >= MAX_CAPTURES then [Fault(TooManyCaptures)]
        else From(src, pat, if pos then p + 2 else p + 1, s,
            caps + [Capture(s, if pos then AtPosition else Unfinished)])
  {
    ItemsStep(pat, p);
    hide Items;
  }

  lemma FromClose(src: string, pat: string, p: nat, s: nat, caps: seq<Capture>)
    requires p < |pat| && pat[p] == ')'
    ensures From(src, pat, p, s, caps) == match LastOpen(caps)
      case None => [Fault(InvalidCapture)]
      case Some(l) => From(src, pat, p + 1, s, caps[l := Closed(caps[l], s)])
  {
    ItemsStep(pat, p);
    hide Items, Closed;
  }

  lemma FromDollar(src: string, pat: string, p: nat, s: nat, caps: seq<Capture>)
    requires p + 1 == |pat| && pat[p] == '$'
    ensures From(src, pat, p, s, caps) == if s == |src| then [Hit(s, caps)] else []
  {
    ItemsStep(pat, p);
    FromEnd(src, pat, p + 1, s, caps);
    hide Items;
  }

  lemma FromBalance(src: string, pat: string, p: nat, s: nat, caps: seq<Capture>)
    requires p < |pat| && pat[p] == '%' && At(pat, p + 1) == 'b'
    ensures From(src, pat, p, s, caps) == if p + 3 >= |pat| then [Fault(UnbalancedPattern)] else
      match BalanceEnd(src, s, pat[p + 2], pat[p + 3])
      case None => []
      case Some(e) => From(src, pat, p + 4, e, caps)
  {
    ItemsStep(pat, p);
    hide Items, BalanceEnd;
  }

  lemma FromFrontier(src: string, pat: string, p: nat, s: nat, caps: seq<Capture>)
    requires p < |pat| && pat[p] == '%' && At(pat, p + 1) == 'f'
    ensures From(src, pat, p, s, caps) == if At(pat, p + 2) != '[' then [Fault(MissingSet)] else
      match ClassEnd(pat, p + 2)
      case None => [Fault(MalformedSet)]
      case Some(ep) => if AtFrontier(src, s, SetAt(pat, p + 2, ep - 1)) then From(src, pat, ep, s, caps) else []
  {
    ItemsStep(pat, p);
    hide Items, AtFrontier, SetAt, ClassEnd;
  }

  lemma FromRef(src: string, pat: string, p: nat, s: nat, caps: seq<Capture>)
    requires p < |pat| && pat[p] == '%' && IsDigit(At(pat, p + 1))
    ensures From(src, pat, p, s, caps) == match RefOf(pat[p + 1], caps)
      case None => [Fault(InvalidIndex)]
      case Some(l) => if Repeats(src, s, caps[l]) then From(src, pat, p + 2, s + caps[l].len.n, caps) else []
  {
    ItemsStep(pat, p);
    assert ItemAt(pat, p) == Parsed(BackRef(pat[p + 1]), p + 2);
    hide Items, ItemAt, RefOf, Repeats, BalanceEnd, AtFrontier, LastOpen, Most, Fewest;
  }

  /** All matches of a single character with its repetitions. */
  function Repeated(src: string, cls: Class, rep: Repeat, rest: seq<Item>, s: nat, caps: seq<Capture>): seq<Outcome> {
    match rep
    case Once => if Takes(src, s, cls) then Matches(src, rest, s + 1, caps) else []
    case Optional => (if Takes(src, s, cls) then Matches(src, rest, s + 1, caps) else []) + Matches(src, rest, s, caps)
    case Star => Most(src, cls, rest, s, caps)
    case Plus => if Takes(src, s, cls) then Most(src, cls, rest, s + 1, caps) else []
    case Lazy => Fewest(src, cls, rest, s, caps)
  }

  lemma MatchesSingle(src: string, items: seq<Item>, s: nat, caps: seq<Capture>)
    requires items != []
    ensures items[0].Single? ==>
      Matches(src, items, s, caps) == Repeated(src, items[0].cls, items[0].rep, items[1..], s, caps)
    ensures items[0].Malformed? ==> Matches(src, items, s, caps) == [Fault(items[0].err)]
  {
    hide Most, Fewest, Takes;
  }

  lemma FromSingle(src: string, pat: string, p: nat, s: nat, caps: seq<Capture>)
    requires p < |pat| && ItemAt(pat, p) == SingleAt(pat, p)
    ensures From(src, pat, p, s, caps) == match ClassEnd(pat, p)
      case None => [Fault(ClassError(pat[p]))]
      case Some(ep) =>
        var rep := RepeatOf(At(pat, ep));
        Repeated(src, ClassAt(pat, p, ep), rep, Items(pat, if rep == Once then ep else ep + 1), s, caps)
    ensures match ClassEnd(pat, p)
      case None => true
      case Some(ep) => p < ep <= |pat| && (RepeatOf(At(pat, ep)) != Once ==> ep < |pat|)
  {
    ItemsStep(pat, p);
    MatchesSingle(src, Items(pat, p), s, caps);
    hide Items, ClassAt, ClassEnd, Takes, ItemAt, Repeated, Matches;
  }

  // ---------- repetitions ----------

  ghost predicate AllTaken(src: string, s: nat, t: nat, cls: Class) { forall k | s <= k < t :: Takes(src, k, cls) }

  /** The loop of `max_expand` before it tries `s`: nothing matches after more characters. */
  ghost predicate NoneAfter(src: string, cls: Class, rest: seq<Item>, s: nat, caps: seq<Capture>) {
    Most(src, cls, rest, s, caps) == Matches(src, rest, s, caps)
  }

  lemma MostEnds(src: string, cls: Class, rest: seq<Item>, s: nat, caps: seq<Capture>)
    requires !Takes(src, s, cls)
    ensures NoneAfter(src, cls, rest, s, caps)
  {}

  lemma MostStep(src: string, cls: Class, rest: seq<Item>, s: nat, caps: seq<Capture>)
    requires Takes(src, s, cls) && NoneAfter(src, cls, rest, s + 1, caps) && Matches(src, rest, s + 1, caps) == []
    ensures NoneAfter(src, cls, rest, s, caps)
  {}

  /** The first outcome after more characters is the first one after fewer. */
  lemma {:induction false} MostFirst(src: string, cls: Class, rest: seq<Item>, s: nat, t: nat, caps: seq<Capture>)
    requires s <= t && AllTaken(src, s, t, cls) && Most(src, cls, rest, t, caps) != []
    ensures Most(src, cls, rest, s, caps) != [] && Most(src, cls, rest, s, caps)[0] == Most(src, cls, rest, t, caps)[0]
    decreases t - s
  {
    hide Takes, Matches;
    if s < t {
      MostFirst(src, cls, rest, s + 1, t, caps);
      assert Takes(src, s, cls);
    }
  }

  lemma TakesInside(src: string, s: nat, cls: Class)
    requires Takes(src, s, cls)
    ensures s < |src|
  {}

  lemma FewestStep(src: string, cls: Class, rest: seq<Item>, s: nat, caps: seq<Capture>)
    ensures Matches(src, rest, s, caps) != [] ==>
      && Fewest(src, cls, rest, s, caps) != []
      && Fewest(src, cls, rest, s, caps)[0] == Matches(src, rest, s, caps)[0]
    ensures Matches(src, rest, s, caps) == []
        ==> Fewest(src, cls, rest, s, caps) == if Takes(src, s, cls) then Fewest(src, cls, rest, s + 1, caps) else []
  {
    hide Takes, Matches;
  }

  class MatchState {
    const src: string
    const pat: string
    var level: nat
    const capture: array<Capture>

    ghost predicate Valid()
      reads this, capture
    {
      capture.Length == MAX_CAPTURES && level <= MAX_CAPTURES
    }

    ghost function Caps(): seq<Capture>
      requires Valid()
      reads this, capture
    {
      capture[..level]
    }

    constructor (src: string, pat: string)
      ensures this.src == src && this.pat == pat && Valid() && level == 0 && fresh(capture)
    {
      this.src, this.pat, level := src, pat, 0;
      capture := new Capture[MAX_CAPTURES](_ => Capture(0, AtPosition));
    }

    // ---------- one character ----------

    /** The loop of `classend` over the text of a set. */
    method FindSetEnd(q0: nat) returns (r: Option<nat>)
      ensures r == SetEnd(pat, q0)
    {
      var q := q0;
      while q < |pat|
        invariant SetEnd(pat, q) == SetEnd(pat, q0)
      {
        var esc := pat[q] == '%';
        q := q + 1;
        if esc && q < |pat| { q := q + 1; }
        if q < |pat| && pat[q] == ']' { return Some(q + 1); }
      }
      return None;
    }

    /** `classend` */
    method FindClassEnd(p: nat) returns (r: Option<nat>)
      requires p < |pat|
      ensures r == ClassEnd(pat, p)
    {
      if pat[p] == '%' { return if p + 1 < |pat| then Some(p + 2) else None; }
      if pat[p] == '[' { r := FindSetEnd(if At(pat, p + 1) == '^' then p + 2 else p + 1); return; }
      return Some(p + 1);
    }

    /** `matchbracketclass` */
    method MatchBracketClass(c: char, p0: nat, ec: nat) returns (r: bool)
      ensures r == InClass(SetAt(pat, p0, ec), c)
    {
      hide Members, InSome, InEscape;
      var sig, p := true, p0;
      if At(pat, p + 1) == '^' { sig, p := false, p + 1; }
      p := p + 1;
      while p < ec
        invariant InSome(Members(pat, p, ec), c) == InSome(Members(pat, SetStart(pat, p0), ec), c)
      {
        SetStep(pat, p, ec, c);
        if At(pat, p) == '%' {
          p := p + 1;
          if InEscape(At(pat, p), c) { return sig; }
        } else if At(pat, p + 1) == '-' && p + 2 < ec {
          p := p + 2;
          if At(pat, p - 2) <= c <= At(pat, p) { return sig; }
        } else if At(pat, p) == c {
          return sig;
        }
        p := p + 1;
      }
      SetDone(pat, p, ec, c);
      return !sig;
    }

    /** `singlematch`, when the subject has not ended */
    method SingleMatch(s: nat, p: nat, ep: nat) returns (m: bool)
      requires p < |pat| && ep > 0
      ensures m == Takes(src, s, ClassAt(pat, p, ep))
    {
      if s >= |src| { return false; }
      match pat[p]
      case '.' => return true;
      case '%' => return InEscape(At(pat, p + 1), src[s]);
      case '[' => m := MatchBracketClass(src[s], p, ep - 1);
      case c => return src[s] == c;
    }

    // ---------- items that look further ----------

    /** `matchbalance`, on a complete item */
    method MatchBalance(s0: nat, x: char, y: char) returns (r: Option<nat>)
      ensures r == BalanceEnd(src, s0, x, y)
    {
      if s0 >= |src| || src[s0] != x { return None; }
      var s, cont := s0 + 1, 1;
      while s < |src|
        invariant cont > 0 && CloseOf(src, s, x, y, cont) == CloseOf(src, s0 + 1, x, y, 1)
      {
        if src[s] == y {
          cont := cont - 1;
          if cont == 0 { return Some(s + 1); }
        } else if src[s] == x {
          cont := cont + 1;
        }
        s := s + 1;
      }
      return None;
    }

    /** `capture_to_close` */
    method CaptureToClose() returns (r: Option<nat>)
      requires Valid()
      ensures r == LastOpen(Caps())
    {
      var l: nat := level;
      while l > 0
        invariant l <= level && LastOpen(capture[..l]) == LastOpen(Caps())
      {
        assert capture[..l][..l - 1] == capture[..l - 1];
        l := l - 1;
        if capture[l].len.Unfinished? { return Some(l); }
      }
      return None;
    }

    /** `match_capture`, with `check_capture` */
    method MatchCapture(s: nat, digit: char) returns (r: Result)
      requires Valid() && s <= |src| && CapsOk(s, Caps())
      ensures match RefOf(digit, Caps())
        case None => r == Raise(InvalidIndex)
        case Some(l) => r == if Repeats(src, s, Caps()[l]) then End(s + Caps()[l].len.n) else NoMatch
    {
      var l := digit as int - '1' as int;
      if l < 0 || l >= level || capture[l].len.Unfinished? { return Raise(InvalidIndex); }
      var c := capture[l];
      if c.len.Length? && |src| - s >= c.len.n && src[c.init..c.init + c.len.n] == src[s..s + c.len.n] {
        return End(s + c.len.n);
      }
      return NoMatch;
    }

    // ---------- matching ----------

    /** `start_capture` */
    method StartCapture(s: nat, p: nat, what: Span) returns (r: Result)
      requires Valid() && s <= |src| && p <= |pat| && CapsOk(s, Caps()) && !what.Length?
      modifies this`level, capture
      ensures Valid()
      ensures Answers(r, if |old(Caps())| >= MAX_CAPTURES then [Fault(TooManyCaptures)]
                         else From(src, pat, p, s, old(Caps()) + [Capture(s, what)]), old(Caps()), Caps())
      decreases |pat| - p, 3
    {
      hide From;
      if level >= MAX_CAPTURES { return Raise(TooManyCaptures); }
      capture[level] := Capture(s, what);
      level := level + 1;
      assert Caps() == old(Caps()) + [Capture(s, what)];
      r := Match(s, p);
      if r.NoMatch? { level := level - 1; }
    }

    /** `end_capture` */
    method EndCapture(s: nat, p: nat) returns (r: Result)
      requires Valid() && s <= |src| && p <= |pat| && CapsOk(s, Caps())
      modifies this`level, capture
      ensures Valid()
      ensures Answers(r, match LastOpen(old(Caps()))
        case None => [Fault(InvalidCapture)]
        case Some(l) => From(src, pat, p, s, old(Caps())[l := Closed(old(Caps())[l], s)]), old(Caps()), Caps())
      decreases |pat| - p, 3
    {
      hide From, LastOpen;
      var l := CaptureToClose();
      if l.None? { return Raise(InvalidCapture); }
      ghost var was := Caps();
      capture[l.value] := Closed(capture[l.value], s);
      assert Caps() == was[l.value := Closed(was[l.value], s)];
      r := Match(s, p);
      if r.NoMatch? {
        capture[l.value] := capture[l.value].(len := Unfinished);
        assert Caps() == was;
      }
    }

    /** `max_expand` */
    method MaxExpand(s: nat, p: nat, ep: nat) returns (r: Result)
      requires Valid() && s <= |src| && p < ep < |pat| && CapsOk(s, Caps())
      modifies this`level, capture
      ensures Valid() && Answers(r, Most(src, ClassAt(pat, p, ep), Items(pat, ep + 1), s, old(Caps())), old(Caps()),
          Caps())
      decreases |pat| - ep, 0
    {
      hide Matches, Most, Items, ClassAt, Takes;
      ghost var cls, rest, caps := ClassAt(pat, p, ep), Items(pat, ep + 1), Caps();
      var top: nat := 0;
      var m := SingleMatch(s, p, ep);
      while m
        invariant Valid() && Caps() == caps
        invariant top <= |src| - s && m == Takes(src, s + top, cls) && AllTaken(src, s, s + top, cls)
        decreases |src| - s - top
      {
        assert s + top < |src| by { TakesInside(src, s + top, cls); }
        top := top + 1;
        m := SingleMatch(s + top, p, ep);
      }
      MostEnds(src, cls, rest, s + top, caps);
      r := Shrink(s, top, ep, cls);
    }

    /** The second loop of `max_expand`: one repetition less, as long as nothing matches. */
    method Shrink(s: nat, top: nat, ep: nat, ghost cls: Class) returns (r: Result)
      requires Valid() && s + top <= |src| && ep < |pat| && CapsOk(s, Caps())
      requires AllTaken(src, s, s + top, cls) && NoneAfter(src, cls, Items(pat, ep + 1), s + top, Caps())
      modifies this`level, capture
      ensures Valid() && Answers(r, Most(src, cls, Items(pat, ep + 1), s, old(Caps())), old(Caps()), Caps())
      decreases |pat| - ep - 1, 4
    {
      hide Matches, Most, Items, Takes;
      ghost var rest, caps := Items(pat, ep + 1), Caps();
      var i: nat := top;
      while true
        invariant i <= top && Valid() && Caps() == caps && NoneAfter(src, cls, rest, s + i, caps)
        decreases i
      {
        CapsGrow(s, caps, s + i);
        r := Match(s + i, ep + 1);
        if !r.NoMatch? {
          MostFirst(src, cls, rest, s, s + i, caps);
          return;
        }
        if i == 0 { return; }
        i := i - 1;
        MostStep(src, cls, rest, s + i, caps);
      }
    }

    /** `min_expand` */
    method MinExpand(s0: nat, p: nat, ep: nat) returns (r: Result)
      requires Valid() && s0 <= |src| && p < ep < |pat| && CapsOk(s0, Caps())
      modifies this`level, capture
      ensures Valid() && Answers(r, Fewest(src, ClassAt(pat, p, ep), Items(pat, ep + 1), s0, old(Caps())), old(Caps()),
          Caps())
      decreases |pat| - ep, 0
    {
      hide Matches, Fewest, Items, ClassAt, Takes;
      ghost var cls, rest, caps := ClassAt(pat, p, ep), Items(pat, ep + 1), Caps();
      var s := s0;
      while true
        invariant s0 <= s <= |src| && Valid() && Caps() == caps
        invariant Fewest(src, cls, rest, s, caps) == Fewest(src, cls, rest, s0, caps)
        decreases |src| - s
      {
        CapsGrow(s0, caps, s);
        FewestStep(src, cls, rest, s, caps);
        r := Match(s, ep + 1);
        if !r.NoMatch? { return; }
        var m := SingleMatch(s, p, ep);
        if !m { return; }
        TakesInside(src, s, cls);
        s := s + 1;
      }
    }

    /** `match` */
    method Match(s0: nat, p0: nat) returns (r: Result)
      requires Valid() && s0 <= |src| && p0 <= |pat| && CapsOk(s0, Caps())
      modifies this`level, capture
      ensures Valid() && Answers(r, From(src, pat, p0, s0, old(Caps())), old(Caps()), Caps())
      decreases |pat| - p0, 2
    {
      hide From;
      var s, p := s0, p0;
      while true
        invariant s0 <= s <= |src| && p0 <= p <= |pat| && Valid() && Caps() == old(Caps())
        invariant SameFirst(From(src, pat, p, s, Caps()), From(src, pat, p0, s0, old(Caps())))
        decreases |pat| - p
      {
        CapsGrow(s0, Caps(), s);
        if p == |pat| {
          FromEnd(src, pat, p, s, Caps());
          return End(s);
        }
        var d := Step(s, p);
        if d.Stop? { return d.r; }
        s, p := d.s, d.p;
      }
    }

    /** One item: the answer, or where the matching goes on (`goto init`). */
    method Step(s: nat, p: nat) returns (d: Decision)
      requires Valid() && s <= |src| && p < |pat| && CapsOk(s, Caps())
      modifies this`level, capture
      ensures Valid() && Decides(d, s, p, old(Caps()), Caps())
      decreases |pat| - p, 1
    {
      hide From;
      var r: Result;
      match pat[p] {
        case '(' =>
          FromOpen(src, pat, p, s, Caps());
          if At(pat, p + 1) == ')' { r := StartCapture(s, p + 2, AtPosition); }
              else { r := StartCapture(s, p + 1, Unfinished); }
          return Stop(r);
        case ')' =>
          FromClose(src, pat, p, s, Caps());
          r := EndCapture(s, p + 1);
          return Stop(r);
        case '%' =>
          if At(pat, p + 1) == 'b' || At(pat, p + 1) == 'f' || IsDigit(At(pat, p + 1)) { d := Escaped(s, p); return; }
        case '$' =>
          if p + 1 == |pat| {
            FromDollar(src, pat, p, s, Caps());
            return Stop(if s == |src| then End(s) else NoMatch);
          }
        case _ =>
      }
      d := Plain(s, p);
    }

    /** The items `%b`, `%f` and `%1` to `%9`. */
    method Escaped(s: nat, p: nat) returns (d: Decision)
      requires Valid() && s <= |src| && p < |pat| && CapsOk(s, Caps()) && pat[p] == '%'
      requires At(pat, p + 1) == 'b' || At(pat, p + 1) == 'f' || IsDigit(At(pat, p + 1))
      ensures Decides(d, s, p, Caps(), Caps())
    {
      hide From, RefOf;
      if pat[p + 1] == 'b' {
        d := Balanced(s, p);
      } else if pat[p + 1] == 'f' {
        d := AtEdge(s, p);
      } else {
        FromRef(src, pat, p, s, Caps());
        var r := MatchCapture(s, pat[p + 1]);
        return if r.End? then GoOn(r.e, p + 2) else Stop(r);
      }
    }

    method Balanced(s: nat, p: nat) returns (d: Decision)
      requires Valid() && s <= |src| && p + 1 < |pat| && CapsOk(s, Caps()) && pat[p] == '%' && pat[p + 1] == 'b'
      ensures Decides(d, s, p, Caps(), Caps())
    {
      hide From, BalanceEnd;
      FromBalance(src, pat, p, s, Caps());
      if p + 3 >= |pat| { return Stop(Raise(UnbalancedPattern)); }
      var e := MatchBalance(s, pat[p + 2], pat[p + 3]);
      return if e.None? then Stop(NoMatch) else GoOn(e.value, p + 4);
    }

    method AtEdge(s: nat, p: nat) returns (d: Decision)
      requires Valid() && s <= |src| && p + 1 < |pat| && CapsOk(s, Caps()) && pat[p] == '%' && pat[p + 1] == 'f'
      ensures Decides(d, s, p, Caps(), Caps())
    {
      hide From, InClass, SetEnd, SetAt;
      FromFrontier(src, pat, p, s, Caps());
      if At(pat, p + 2) != '[' { return Stop(Raise(MissingSet)); }
      var ep := FindClassEnd(p + 2);
      if ep.None? { return Stop(Raise(MalformedSet)); }
      var previous := if s == 0 then NUL else src[s - 1];
      var before := MatchBracketClass(previous, p + 2, ep.value - 1);
      var here := MatchBracketClass(At(src, s), p + 2, ep.value - 1);
      return if before || !here then Stop(NoMatch) else GoOn(s, ep.value);
    }

    /** A single character, with its repetitions (`dflt`). */
    method Plain(s: nat, p: nat) returns (d: Decision)
      requires Valid() && s <= |src| && p < |pat| && CapsOk(s, Caps()) && ItemAt(pat, p) == SingleAt(pat, p)
      modifies this`level, capture
      ensures Valid() && Decides(d, s, p, old(Caps()), Caps())
      decreases |pat| - p, 0
    {
      hide Matches, Most, Fewest, Items, ClassAt, ClassEnd, Takes;
      FromSingle(src, pat, p, s, Caps());
      var end := FindClassEnd(p);
      if end.None? { return Stop(Raise(ClassError(pat[p]))); }
      var ep := end.value;
      var m := SingleMatch(s, p, ep);
      if m { TakesInside(src, s, ClassAt(pat, p, ep)); }
      var r: Result;
      match At(pat, ep) {
        case '?' =>
          if m {
            CapsGrow(s, Caps(), s + 1);
            r := Match(s + 1, ep + 1);
            if !r.NoMatch? { return Stop(r); }
          }
          return GoOn(s, ep + 1);
        case '*' =>
          r := MaxExpand(s, p, ep);
          return Stop(r);
        case '+' =>
          if !m { return Stop(NoMatch); }
          CapsGrow(s, Caps(), s + 1);
          r := MaxExpand(s + 1, p, ep);
          return Stop(r);
        case '-' =>
          r := MinExpand(s, p, ep);
          return Stop(r);
        case _ =>
          return if m then GoOn(s + 1, ep) else Stop(NoMatch);
      }
    }

    /** The loop of `str_find_aux`: the first start at which there is an outcome; only `init` when
        the pattern is anchored. */
    method Find(init: nat, p: nat, anchor: bool) returns (start: nat, r: Result)
      requires Valid() && init <= |src| && p <= |pat|
      modifies this`level, capture
      ensures Valid() && init <= start <= |src| && (anchor ==> start == init)
      ensures forall k | init <= k < start :: From(src, pat, p, k, []) == []
      ensures match r
        case NoMatch => From(src, pat, p, start, []) == [] && (start == |src| || anchor)
        case End(e) => From(src, pat, p, start, []) != [] && From(src, pat, p, start, [])[0] == Hit(e, Caps())
        case Raise(err) => From(src, pat, p, start, []) != [] && From(src, pat, p, start, [])[0] == Fault(err)
    {
      hide From;
      start := init;
      while true
        invariant Valid() && init <= start <= |src| && (anchor ==> start == init)
        invariant forall k | init <= k < start :: From(src, pat, p, k, []) == []
        decreases |src| - start
      {
        level := 0;
        assert Caps() == [];
        r := Match(start, p);
        if !r.NoMatch? || start >= |src| || anchor { return; }
        start := start + 1;
      }
    }

    ghost predicate Decides(d: Decision, s: nat, p: nat, before: seq<Capture>, after: seq<Capture>) {
      match d
      case Stop(r) => Answers(r, From(src, pat, p, s, before), before, after)
      case GoOn(t, q) =>
        && after == before && s <= t <= |src| && p < q <= |pat|
        && SameFirst(From(src, pat, q, t, before), From(src, pat, p, s, before))
    }
  }

  datatype Decision = Stop(r: Result) | GoOn(s: nat, p: nat)
}
