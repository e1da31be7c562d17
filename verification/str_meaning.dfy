/** What the matcher answers on a pattern text is what the text means. */
module StrMeaning {
  import opened StrPattern
  import opened StrMatch
  import opened StrLaws
  import opened StrText
  import opened StrReading

  // ---------- one part ----------

  lemma FitIsTaken(src: string, one: Single, i: nat)
    ensures Takes(src, i, ClassFor(one)) == FitsAt(src, one, i)
  {
    if i < |src| { ClassFits(one, src[i]); }
  }

  lemma RunIsTaken(src: string, one: Single, s: nat, k: nat)
    ensures Run(src, one, s, k) == AllTaken(src, s, s + k, ClassFor(one))
  {
    forall i: nat ensures Takes(src, i, ClassFor(one)) == FitsAt(src, one, i) { FitIsTaken(src, one, i); }
    hide Takes, FitsAt, ClassFor;
  }

  lemma OftenIsAllowed(t: Times, k: nat)
    ensures Often(t, k) == Allowed(RepFor(t), k)
  {}

  lemma BalancedOnce(src: string, s: nat, e: nat, f: nat, x: char, y: char)
    requires Balanced(src, s, e, x, y) && Balanced(src, s, f, x, y)
    ensures e == f
  {}

  lemma {:induction false} NextSame(src: string, s: nat, x: char)
    ensures match CloseOf(src, s, x, x, 1)
      case Some(e) => s < e && src[e - 1] == x && forall k | s <= k < e - 1 :: src[k] != x
      case None => forall k | s <= k < |src| :: src[k] != x
    decreases |src| - s
  {
    if s < |src| && src[s] != x { NextSame(src, s + 1, x); }
  }

  lemma FoundIsBalanced(src: string, s: nat, x: char, y: char)
    ensures match BalanceEnd(src, s, x, y)
      case Some(e) => Balanced(src, s, e, x, y)
      case None => forall e: nat :: !Balanced(src, s, e, x, y)
  {
    if x == y { NextSame(src, s + 1, x); } else if s <= |src| { BalanceIsFirstEven(src, s, x, y); }
    hide Even, CloseOf;
    if BalanceEnd(src, s, x, y).None? {
      forall e: nat ensures !Balanced(src, s, e, x, y) {}
    }
  }

  lemma BalancedEndIs(src: string, s: nat, x: char, y: char)
    ensures BalancedEnd(src, s, x, y) == BalanceEnd(src, s, x, y)
  {
    FoundIsBalanced(src, s, x, y);
    forall e: nat, f: nat | Balanced(src, s, e, x, y) && Balanced(src, s, f, x, y) ensures e == f {
      BalancedOnce(src, s, e, f, x, y);
    }
    hide Balanced, BalanceEnd;
  }

  lemma EdgeIs(src: string, s: nat, negated: bool, ms: seq<Part>)
    ensures OnEdge(src, s, negated, ms) == AtFrontier(src, s, Set(negated, MembersOf(ms)))
  {
    MembersMean(ms, Earlier(src, s));
    MembersMean(ms, Current(src, s));
    hide InSome, OfSome, MembersOf;
  }

  lemma SameTextIs(src: string, s: nat, c: Capture)
    ensures SameText(src, s, c) == Repeats(src, s, c)
  {}

  // ---------- captures ----------

  /** Behind the older captures all are ended. */
  ghost predicate Keeps(before: seq<Capture>, after: seq<Capture>) {
    && |before| <= |after| && after[..|before|] == before
    && forall i | |before| <= i < |after| :: !after[i].len.Unfinished?
  }

  lemma KeepsMore(a: seq<Capture>, b: seq<Capture>, c: seq<Capture>)
    requires Keeps(a, b) && Keeps(b, c)
    ensures Keeps(a, c)
  {
    assert c[..|a|] == c[..|b|][..|a|];
    forall i | |a| <= i < |c| ensures !c[i].len.Unfinished? {
      if i < |b| { assert c[i] == c[..|b|][i] == b[i]; }
    }
  }

  /** A group that is read ends its own capture. */
  lemma GroupKeeps(caps: seq<Capture>, c: Capture, inner: seq<Capture>, n: nat)
    requires c.len.Unfinished? && Keeps(caps + [c], inner)
    ensures Keeps(caps, inner[|caps| := Capture(c.init, Length(n))])
    ensures LastOpen(inner) == Some(|caps|) && inner[|caps|] == c
  {
    assert inner[|caps|] == inner[..|caps| + 1][|caps|] == c;
    var now := inner[|caps| := Capture(c.init, Length(n))];
    assert now[..|caps|] == inner[..|caps| + 1][..|caps|] == caps;
  }

  // ---------- a part and the pattern behind it ----------

  /** How many choices a part has. */
  function Choices(p: Pattern): nat { if p.Take? then 1 else 0 }

  /** What `Go` does on the first part. */
  ghost function Advance(src: string, p: Pattern, s: nat, caps: seq<Capture>, ks: seq<nat>): (r: Option<Way>)
    requires Simple(p) && |ks| >= Choices(p)
  {
    match p
    case Take(one, times, _) =>
      if Often(times, ks[0]) && Run(src, one, s, ks[0]) then Some(Way(s + ks[0], caps)) else None
    case Here(_) => Some(Way(s, caps + [Capture(s, AtPosition)]))
    case Again(digit, _) =>
      var l := digit as int - '1' as int;
      if 0 <= l < |caps| && SameText(src, s, caps[l]) then Some(Way(s + caps[l].len.n, caps)) else None
    case Between(x, y, _) =>
      var e := BalancedEnd(src, s, x, y);
      if e.Some? then Some(Way(e.value, caps)) else None
    case Edge(negated, ms, _) => if OnEdge(src, s, negated, ms) then Some(Way(s, caps)) else None
  }

  lemma GoFirst(src: string, p: Pattern, s: nat, caps: seq<Capture>, ks: seq<nat>)
    requires Simple(p) && |ks| == Width(p)
    ensures Width(p) == Choices(p) + Width(p.rest)
    ensures var w := Advance(src, p, s, caps, ks);
      Go(src, p, s, caps, ks) == if w.None? then None else Go(src, p.rest, w.value.e, w.value.caps, ks[Choices(p)..])
  {
    hide BalancedEnd, OnEdge, SameText, Run, Often;
    assert ks[0..] == ks;
  }

  lemma AdvanceKeeps(src: string, p: Pattern, s: nat, caps: seq<Capture>, ks: seq<nat>)
    requires Simple(p) && |ks| >= Choices(p)
    ensures var w := Advance(src, p, s, caps, ks); w.Some? ==> Keeps(caps, w.value.caps)
  {
    hide BalancedEnd, OnEdge, SameText, Run, Often;
  }

  lemma {:induction false} GoKeeps(src: string, p: Pattern, s: nat, caps: seq<Capture>, ks: seq<nat>)
    requires |ks| == Width(p)
    ensures var r := Go(src, p, s, caps, ks); r.Some? ==> Keeps(caps, r.value.caps)
    decreases p, 1
  {
    if p == Nothing {
    } else if p.Group? {
      GroupGoKeeps(src, p, s, caps, ks);
    } else {
      hide Go, Advance, Keeps;
      GoFirst(src, p, s, caps, ks);
      AdvanceKeeps(src, p, s, caps, ks);
      var w := Advance(src, p, s, caps, ks);
      if w.Some? {
        GoKeeps(src, p.rest, w.value.e, w.value.caps, ks[Choices(p)..]);
        var r := Go(src, p, s, caps, ks);
        if r.Some? { KeepsMore(caps, w.value.caps, r.value.caps); }
      }
    }
  }

  /** The captures behind the group. */
  function Ended(caps: seq<Capture>, at: nat, s: nat, e: nat): seq<Capture>
    requires at < |caps| && s <= e
  {
    caps[at := Capture(s, Length(e - s))]
  }

  lemma GroupGo(src: string, p: Pattern, s: nat, caps: seq<Capture>, ks: seq<nat>)
    requires p.Group? && |ks| == Width(p)
    ensures Width(p) == Width(p.inner) + Width(p.rest)
    ensures var w := Go(src, p.inner, s, caps + [Capture(s, Unfinished)], ks[..Width(p.inner)]);
      Go(src, p, s, caps, ks) == if w.None? then None
        else Go(src, p.rest, w.value.e, Ended(w.value.caps, |caps|, s, w.value.e), ks[Width(p.inner)..])
  {
    hide Run, Often, BalancedEnd, OnEdge, SameText;
  }

  lemma {:induction false} GroupGoKeeps(src: string, p: Pattern, s: nat, caps: seq<Capture>, ks: seq<nat>)
    requires p.Group? && |ks| == Width(p)
    ensures var r := Go(src, p, s, caps, ks); r.Some? ==> Keeps(caps, r.value.caps)
    decreases p, 0
  {
    hide Go, Keeps, Width;
    GroupGo(src, p, s, caps, ks);
    var c := Capture(s, Unfinished);
    var w := Go(src, p.inner, s, caps + [c], ks[..Width(p.inner)]);
    GoKeeps(src, p.inner, s, caps + [c], ks[..Width(p.inner)]);
    if w.Some? {
      GroupKeeps(caps, c, w.value.caps, w.value.e - s);
      var now := Ended(w.value.caps, |caps|, s, w.value.e);
      assert now == w.value.caps[|caps| := Capture(c.init, Length(w.value.e - s))];
      GoKeeps(src, p.rest, w.value.e, now, ks[Width(p.inner)..]);
      var r := Go(src, p, s, caps, ks);
      if r.Some? { KeepsMore(caps, now, r.value.caps); }
    }
  }

  // ---------- ways to match a pattern and what follows ----------

  /** The first part matches, and the items behind it go on. */
  ghost predicate AdvancePath(src: string, p: Pattern, more: seq<Item>, s: nat, caps: seq<Capture>, ks: seq<nat>,
                              o: Outcome)
    requires Simple(p)
  {
    |ks| >= Choices(p) && Advance(src, p, s, caps, ks).Some?
        && var w := Advance(src, p, s, caps, ks).value; Path(src, more, w.e, w.caps, ks[Choices(p)..], o)
  }

  lemma TakePath(src: string, p: Pattern, more: seq<Item>, s: nat, caps: seq<Capture>, ks: seq<nat>, o: Outcome)
    requires p.Take?
    ensures Path(src, [FirstItem(p)] + more, s, caps, ks, o) == AdvancePath(src, p, more, s, caps, ks, o)
  {
    if ks != [] {
      RunIsTaken(src, p.one, s, ks[0]);
      OftenIsAllowed(p.times, ks[0]);
    }
    assert ([FirstItem(p)] + more)[1..] == more;
    hide AllTaken, Run, Allowed, Often, ClassFor, RepFor;
  }

  lemma FirstPath(src: string, p: Pattern, more: seq<Item>, s: nat, caps: seq<Capture>, ks: seq<nat>, o: Outcome)
    requires Simple(p) && Sound(p, Opens(caps))
    ensures Path(src, [FirstItem(p)] + more, s, caps, ks, o) == AdvancePath(src, p, more, s, caps, ks, o)
  {
    hide AllTaken, Run, Balanced, BalancedEnd, BalanceEnd, OnEdge, AtFrontier, SameText, Repeats, Opens, MembersOf;
    assert ([FirstItem(p)] + more)[1..] == more && ks[0..] == ks;
    match p
    case Take(_, _, _) => TakePath(src, p, more, s, caps, ks, o);
    case Here(_) =>
    case Again(digit, _) =>
      OpensAt(caps);
      var l := digit as int - '1' as int;
      SameTextIs(src, s, caps[l]);
    case Between(x, y, _) => BalancedEndIs(src, s, x, y);
    case Edge(negated, ms, _) => EdgeIs(src, s, negated, ms);
  }

  /** The pattern matches, and the items behind it go on. */
  ghost predicate GoPath(src: string, p: Pattern, more: seq<Item>, s: nat, caps: seq<Capture>, ks: seq<nat>,
                         o: Outcome)
  {
    |ks| >= Width(p) && Go(src, p, s, caps, ks[..Width(p)]).Some?
        && var w := Go(src, p, s, caps, ks[..Width(p)]).value; Path(src, more, w.e, w.caps, ks[Width(p)..], o)
  }

  lemma NothingPath(src: string, more: seq<Item>, s: nat, caps: seq<Capture>, ks: seq<nat>, o: Outcome)
    ensures Path(src, Flat(Nothing) + more, s, caps, ks, o) == GoPath(src, Nothing, more, s, caps, ks, o)
    ensures OpenAfter(Nothing, Opens(caps)) == Opens(caps)
  {
    assert Flat(Nothing) + more == more && ks[0..] == ks;
    hide Path;
  }

  lemma GoPathFirst(src: string, p: Pattern, more: seq<Item>, s: nat, caps: seq<Capture>, ks: seq<nat>, o: Outcome)
    requires Simple(p) && |ks| >= Choices(p)
    ensures GoPath(src, p, more, s, caps, ks, o) ==
      (Advance(src, p, s, caps, ks).Some?
       && var w := Advance(src, p, s, caps, ks).value; GoPath(src, p.rest, more, w.e, w.caps, ks[Choices(p)..], o))
  {
    hide Path, Go, BalancedEnd, OnEdge, SameText, Run, Often;
    var n := Choices(p);
    WidthIs(p);
    if |ks| >= Width(p) {
      GoFirst(src, p, s, caps, ks[..Width(p)]);
      assert Advance(src, p, s, caps, ks[..Width(p)]) == Advance(src, p, s, caps, ks);
      assert ks[..Width(p)][n..] == ks[n..][..Width(p.rest)];
      assert ks[Width(p)..] == ks[n..][Width(p.rest)..];
    }
  }

  lemma WidthIs(p: Pattern)
    requires Simple(p)
    ensures Width(p) == Choices(p) + Width(p.rest)
  {}

  /** The flags of open captures after the first part. */
  lemma AdvanceOpens(src: string, p: Pattern, s: nat, caps: seq<Capture>, ks: seq<nat>)
    requires Simple(p) && |ks| >= Choices(p) && Sound(p, Opens(caps))
    ensures var w := Advance(src, p, s, caps, ks);
      w.Some? ==>
        Sound(p.rest, Opens(w.value.caps)) && OpenAfter(p, Opens(caps)) == OpenAfter(p.rest, Opens(w.value.caps))
  {
    hide BalancedEnd, OnEdge, SameText, Run, Often, Opens;
    if p.Here? { OpensMore(caps, Capture(s, AtPosition)); }
  }

  lemma OpensMore(caps: seq<Capture>, c: Capture)
    ensures Opens(caps + [c]) == Opens(caps) + [c.len.Unfinished?] && |Opens(caps)| == |caps|
  {}

  lemma OpensEnded(caps: seq<Capture>, at: nat, s: nat, e: nat)
    requires at < |caps| && s <= e
    ensures Opens(Ended(caps, at, s, e)) == Opens(caps)[at := false]
  {}

  lemma OpenPath(src: string, items: seq<Item>, s: nat, caps: seq<Capture>, ks: seq<nat>, o: Outcome)
    requires |caps| < 32
    ensures Path(src, [Open] + items, s, caps, ks, o) == Path(src, items, s, caps + [Capture(s, Unfinished)], ks, o)
  {
    assert ([Open] + items)[1..] == items;
  }

  lemma ClosePath(src: string, items: seq<Item>, s: nat, caps: seq<Capture>, ks: seq<nat>, o: Outcome, l: nat, i: nat)
    requires LastOpen(caps) == Some(l) && caps[l].init == i && i <= s
    ensures Path(src, [Close] + items, s, caps, ks, o) == Path(src, items, s, Ended(caps, l, i, s), ks, o)
  {
    assert ([Close] + items)[1..] == items;
  }

  /** The captures of the group and the pattern behind it. */
  lemma GroupOpens(p: Pattern, s: nat, e: nat, caps: seq<Capture>, inner: seq<Capture>)
    requires p.Group? && Sound(p, Opens(caps)) && s <= e
    requires |caps| < |inner| && Opens(inner) == OpenAfter(p.inner, Opens(caps + [Capture(s, Unfinished)]))
    ensures var now := Ended(inner, |caps|, s, e);
      Sound(p.rest, Opens(now)) && OpenAfter(p, Opens(caps)) == OpenAfter(p.rest, Opens(now))
  {
    OpensMore(caps, Capture(s, Unfinished));
    OpensEnded(inner, |caps|, s, e);
    hide Opens, Ended;
  }

  lemma GroupStarts(p: Pattern, s: nat, caps: seq<Capture>)
    requires p.Group? && Sound(p, Opens(caps))
    ensures |caps| < 32 && Sound(p.inner, Opens(caps + [Capture(s, Unfinished)]))
  {
    OpensMore(caps, Capture(s, Unfinished));
    hide Opens;
  }

  lemma {:induction false} GoOpens(src: string, p: Pattern, s: nat, caps: seq<Capture>, ks: seq<nat>)
    requires |ks| == Width(p) && Sound(p, Opens(caps))
    ensures var r := Go(src, p, s, caps, ks); r.Some? ==> Opens(r.value.caps) == OpenAfter(p, Opens(caps))
    decreases p
  {
    hide Go, Opens, Sound, OpenAfter, Advance, Width, Ended;
    if p == Nothing {
      NothingGo(src, s, caps);
      assert ks == [] by { NoWidth(); }
    } else if p.Group? {
      GroupGo(src, p, s, caps, ks);
      GroupStarts(p, s, caps);
      var c := caps + [Capture(s, Unfinished)];
      var w := Go(src, p.inner, s, c, ks[..Width(p.inner)]);
      GoOpens(src, p.inner, s, c, ks[..Width(p.inner)]);
      if w.Some? {
        GroupOpens(p, s, w.value.e, caps, w.value.caps);
        GoOpens(src, p.rest, w.value.e, Ended(w.value.caps, |caps|, s, w.value.e), ks[Width(p.inner)..]);
      }
    } else {
      GoFirst(src, p, s, caps, ks);
      AdvanceOpens(src, p, s, caps, ks);
      var w := Advance(src, p, s, caps, ks);
      if w.Some? { GoOpens(src, p.rest, w.value.e, w.value.caps, ks[Choices(p)..]); }
    }
  }

  lemma NoWidth()
    ensures Width(Nothing) == 0
  {}

  lemma NothingGo(src: string, s: nat, caps: seq<Capture>)
    ensures Width(Nothing) == 0 && Go(src, Nothing, s, caps, []) == Some(Way(s, caps))
    ensures OpenAfter(Nothing, Opens(caps)) == Opens(caps)
  {}

  /** The items of a pattern match in exactly the ways that the pattern does. */
  lemma {:induction false} PathIsGo(src: string, p: Pattern, more: seq<Item>, s: nat, caps: seq<Capture>,
                                    ks: seq<nat>, o: Outcome)
    requires Sound(p, Opens(caps))
    ensures Path(src, Flat(p) + more, s, caps, ks, o) == GoPath(src, p, more, s, caps, ks, o)
    decreases p, 1
  {
    hide Path, GoPath, Opens, Sound, Advance, Width, Flat, FirstItem;
    if p == Nothing {
      NothingPath(src, more, s, caps, ks, o);
    } else if p.Group? {
      GroupPath(src, p, more, s, caps, ks, o);
    } else {
      Step(p, "");
      assert Flat(p) + more == [FirstItem(p)] + (Flat(p.rest) + more);
      FirstPath(src, p, Flat(p.rest) + more, s, caps, ks, o);
      if |ks| >= Choices(p) {
        GoPathFirst(src, p, more, s, caps, ks, o);
        AdvanceOpens(src, p, s, caps, ks);
        var w := Advance(src, p, s, caps, ks);
        if w.Some? { PathIsGo(src, p.rest, more, w.value.e, w.value.caps, ks[Choices(p)..], o); }
      } else {
        TooShort(src, p, more, s, caps, ks, o);
      }
    }
  }

  lemma TooShort(src: string, p: Pattern, more: seq<Item>, s: nat, caps: seq<Capture>, ks: seq<nat>, o: Outcome)
    requires Simple(p) && |ks| < Choices(p)
    ensures !GoPath(src, p, more, s, caps, ks, o)
  {}

  lemma GroupFlat(p: Pattern, more: seq<Item>)
    requires p.Group?
    ensures Flat(p) + more == [Open] + (Flat(p.inner) + ([Close] + (Flat(p.rest) + more)))
  {
    hide Flat;
    assert Flat(p) == [Open] + (Flat(p.inner) + ([Close] + Flat(p.rest))) by { GroupFlatIs(p); }
    GroupJoined([Open], Flat(p.inner), [Close], Flat(p.rest), more);
  }

  lemma GroupFlatIs(p: Pattern)
    requires p.Group?
    ensures Flat(p) == [Open] + (Flat(p.inner) + ([Close] + Flat(p.rest)))
  {}

  /** The group and what follows it, in terms of its inside. */
  lemma GroupGoPath(src: string, p: Pattern, more: seq<Item>, s: nat, caps: seq<Capture>, ks: seq<nat>, o: Outcome)
    requires p.Group?
    ensures Width(p) == Width(p.inner) + Width(p.rest)
    ensures |ks| >= Width(p.inner) ==>
      var w := Go(src, p.inner, s, caps + [Capture(s, Unfinished)], ks[..Width(p.inner)]);
      GoPath(src, p, more, s, caps, ks, o) == (w.Some?
        && GoPath(src, p.rest, more, w.value.e, Ended(w.value.caps, |caps|, s, w.value.e), ks[Width(p.inner)..], o))
    ensures |ks| < Width(p.inner) ==> !GoPath(src, p, more, s, caps, ks, o)
  {
    hide Go, Path, Ended, Width;
    var n := Width(p.inner);
    GroupWidth(p);
    if |ks| >= Width(p) {
      GroupGo(src, p, s, caps, ks[..Width(p)]);
      assert ks[..Width(p)][..n] == ks[..n];
      assert ks[..Width(p)][n..] == ks[n..][..Width(p.rest)];
      assert ks[Width(p)..] == ks[n..][Width(p.rest)..];
    }
  }

  lemma GroupWidth(p: Pattern)
    requires p.Group?
    ensures Width(p) == Width(p.inner) + Width(p.rest)
  {}

  lemma {:induction false} GroupPath(src: string, p: Pattern, more: seq<Item>, s: nat, caps: seq<Capture>,
                                     ks: seq<nat>, o: Outcome)
    requires p.Group? && Sound(p, Opens(caps))
    ensures Path(src, Flat(p) + more, s, caps, ks, o) == GoPath(src, p, more, s, caps, ks, o)
    decreases p, 0
  {
    hide Path, Opens, Sound, Width, Flat, Go, GoPath, Ended, LastOpen, OpenAfter;
    var c, rest, n := Capture(s, Unfinished), Flat(p.rest) + more, Width(p.inner);
    GroupFlat(p, more);
    GroupStarts(p, s, caps);
    OpenPath(src, Flat(p.inner) + ([Close] + rest), s, caps, ks, o);
    PathIsGo(src, p.inner, [Close] + rest, s, caps + [c], ks, o);
    GroupGoPath(src, p, more, s, caps, ks, o);
    GoPathIs(src, p.inner, [Close] + rest, s, caps + [c], ks, o);
    if |ks| >= n {
      var w := Go(src, p.inner, s, caps + [c], ks[..n]);
      if w.Some? {
        GoKeeps(src, p.inner, s, caps + [c], ks[..n]);
        GoOpens(src, p.inner, s, caps + [c], ks[..n]);
        GroupKeeps(caps, c, w.value.caps, 0);
        GroupOpens(p, s, w.value.e, caps, w.value.caps);
        ClosePath(src, rest, w.value.e, w.value.caps, ks[n..], o, |caps|, s);
        PathIsGo(src, p.rest, more, w.value.e, Ended(w.value.caps, |caps|, s, w.value.e), ks[n..], o);
      }
    }
  }

  lemma GoPathIs(src: string, p: Pattern, more: seq<Item>, s: nat, caps: seq<Capture>, ks: seq<nat>, o: Outcome)
    ensures GoPath(src, p, more, s, caps, ks, o) == (|ks| >= Width(p)
      && Go(src, p, s, caps, ks[..Width(p)]).Some?
      && var w := Go(src, p, s, caps, ks[..Width(p)]).value; Path(src, more, w.e, w.caps, ks[Width(p)..], o))
  {}

  // ---------- preference ----------

  /** The repetitions of the single characters. */
  function Reps(items: seq<Item>): seq<Repeat> {
    if items == [] then [] else (if items[0].Single? then [items[0].rep] else []) + Reps(items[1..])
  }

  lemma {:induction false} RepsParts(a: seq<Item>, b: seq<Item>)
    ensures Reps(a + b) == Reps(a) + Reps(b)
  {
    if a == [] {
      assert a + b == b;
    } else {
      assert (a + b)[0] == a[0] && (a + b)[1..] == a[1..] + b;
      RepsParts(a[1..], b);
    }
  }

  function RepsFor(ts: seq<Times>): seq<Repeat> { if ts == [] then [] else [RepFor(ts[0])] + RepsFor(ts[1..]) }

  lemma {:induction false} RepsForParts(a: seq<Times>, b: seq<Times>)
    ensures RepsFor(a + b) == RepsFor(a) + RepsFor(b)
  {
    hide RepFor;
    if a == [] {
      assert a + b == b;
    } else {
      assert (a + b)[0] == a[0] && (a + b)[1..] == a[1..] + b;
      RepsForParts(a[1..], b);
    }
  }

  lemma {:induction false} RepsForAt(ts: seq<Times>, i: nat)
    requires i < |ts|
    ensures |RepsFor(ts)| == |ts| && RepsFor(ts)[i] == RepFor(ts[i])
  {
    hide RepFor;
    if |ts| > 1 { RepsForAt(ts[1..], if i > 0 then i - 1 else 0); }
  }

  lemma {:induction false} RepsForLength(ts: seq<Times>)
    ensures |RepsFor(ts)| == |ts|
  {
    if ts != [] { RepsForLength(ts[1..]); }
  }

  lemma OneRep(item: Item)
    ensures Reps([item]) == if item.Single? then [item.rep] else []
  {}

  lemma {:induction false} RepsOfFlat(p: Pattern)
    ensures Reps(Flat(p)) == RepsFor(TimesOf(p))
    decreases p
  {
    if p == Nothing {
    } else if p.Group? {
      RepsOfFlat(p.inner);
      RepsOfFlat(p.rest);
      GroupReps(p);
    } else {
      RepsOfFlat(p.rest);
      SimpleReps(p);
    }
  }

  lemma GroupReps(p: Pattern)
    requires p.Group?
    ensures Reps(Flat(p)) == Reps(Flat(p.inner)) + Reps(Flat(p.rest))
    ensures RepsFor(TimesOf(p)) == RepsFor(TimesOf(p.inner)) + RepsFor(TimesOf(p.rest))
  {
    hide Flat, Reps, RepsFor, TimesOf;
    GroupFlatIs(p);
    GroupTimes(p);
    RepsForParts(TimesOf(p.inner), TimesOf(p.rest));
    var b, d := Flat(p.inner), Flat(p.rest);
    OneRep(Open);
    OneRep(Close);
    RepsParts([Open], b + ([Close] + d));
    RepsParts(b, [Close] + d);
    RepsParts([Close], d);
  }

  lemma GroupTimes(p: Pattern)
    requires p.Group?
    ensures TimesOf(p) == TimesOf(p.inner) + TimesOf(p.rest)
  {}

  lemma SimpleReps(p: Pattern)
    requires Simple(p)
    ensures Reps(Flat(p)) == (if p.Take? then [RepFor(p.times)] else []) + Reps(Flat(p.rest))
    ensures TimesOf(p) == (if p.Take? then [p.times] else []) + TimesOf(p.rest)
  {
    Step(p, "");
    hide Flat, RepFor, ClassFor, MembersOf, Reps;
    RepsParts([FirstItem(p)], Flat(p.rest));
    OneRep(FirstItem(p));
  }

  /** Where the first difference is. */
  lemma {:induction false} Differs(items: seq<Item>, ks: seq<nat>, other: seq<nat>) returns (i: nat)
    requires Before(items, ks, other)
    ensures i < |Reps(items)| && i < |ks| && i < |other| && ks[..i] == other[..i]
    ensures Prefers(Reps(items)[i], ks[i], other[i])
    decreases |items|
  {
    i := 0;
    if items[0].Single? {
      if ks[0] == other[0] {
        i := Differs(items[1..], ks[1..], other[1..]);
        assert ks[..i + 1] == [ks[0]] + ks[1..][..i] && other[..i + 1] == [other[0]] + other[1..][..i];
        i := i + 1;
      }
    } else {
      i := Differs(items[1..], ks, other);
    }
  }

  lemma BeforeIsPreferred(p: Pattern, toEnd: bool, ks: seq<nat>, other: seq<nat>)
    requires Before(Flat(p) + LastItems(toEnd), ks, other)
    ensures Preferred(TimesOf(p), ks, other)
  {
    var i := Differs(Flat(p) + LastItems(toEnd), ks, other);
    RepsParts(Flat(p), LastItems(toEnd));
    if toEnd { OneRep(AtEnd); }
    assert Reps(LastItems(toEnd)) == [];
    RepsOfFlat(p);
    RepsForLength(TimesOf(p));
    RepsForAt(TimesOf(p), i);
    hide Reps, RepsFor, TimesOf, Flat, Before;
    assert PreferredAt(TimesOf(p), ks, other, i);
  }

  // ---------- the whole pattern ----------

  /** The item of the final dollar. */
  function LastItems(toEnd: bool): seq<Item> { if toEnd then [AtEnd] else [] }

  lemma DollarItem(pat: string, p: nat)
    requires HeldToEnd(pat, p, "$")
    ensures Items(pat, p) == [AtEnd]
  {
    HeldAt(pat, p, "$");
    assert At(pat, p + 0) == '$';
    OneItem(pat, p, AtEnd, p + 1);
  }

  lemma WholeItems(p: Pattern, toEnd: bool)
    requires WellWritten(p, toEnd)
    ensures Items(WholeText(p, toEnd), 0) == Flat(p) + LastItems(toEnd)
  {
    hide Items, Flat, Text, Legal;
    var pat, tail := WholeText(p, toEnd), if toEnd then "$" else "";
    assert pat[0..0 + |pat|] == pat;
    FlatItems(pat, 0, p, tail);
    if toEnd { DollarItem(pat, |Text(p)|); } else { NoItems(pat, |Text(p)|); }
  }

  lemma NoItems(pat: string, p: nat)
    requires p >= |pat|
    ensures Items(pat, p) == []
  {}

  lemma LastPath(src: string, toEnd: bool, s: nat, caps: seq<Capture>, ks: seq<nat>, o: Outcome)
    ensures Path(src, LastItems(toEnd), s, caps, ks, o)
        == (ks == [] && o == Hit(s, caps) && (toEnd ==> s == |src|))
  {
    if toEnd { assert [AtEnd][1..] == []; }
  }

  lemma PathIsMatching(src: string, p: Pattern, toEnd: bool, s: nat, ks: seq<nat>, o: Outcome)
    requires Sound(p, [])
    ensures Path(src, Flat(p) + LastItems(toEnd), s, [], ks, o)
        == (o.Hit? && Matching(src, p, toEnd, s, ks, Way(o.e, o.caps)))
  {
    assert Opens([]) == [];
    hide Path, Flat, Go, Width, Sound;
    PathIsGo(src, p, LastItems(toEnd), s, [], ks, o);
    if |ks| >= Width(p) {
      var w := Go(src, p, s, [], ks[..Width(p)]);
      if w.Some? { LastPath(src, toEnd, w.value.e, w.value.caps, ks[Width(p)..], o); }
      if |ks| == Width(p) { assert ks[..Width(p)] == ks; }
    }
  }

  /** What a pattern text means: the first outcome is that of the preferred way to match, and there is
      none if and only if nothing matches. */
  lemma TextMeans(src: string, p: Pattern, toEnd: bool, s: nat) returns (ks: seq<nat>)
    requires WellWritten(p, toEnd)
    ensures var all := From(src, WholeText(p, toEnd), 0, s, []);
      if all == [] then Unmatched(src, p, toEnd, s)
      else all[0].Hit? && Preferably(src, p, toEnd, s, ks, Way(all[0].e, all[0].caps))
  {
    hide Items, Flat, Path, Matching, Before, Preferred, Legal, Sound, WholeText;
    var items := Flat(p) + LastItems(toEnd);
    WholeItems(p, toEnd);
    ks := MatchesLead(src, items, s, []);
    forall ls, o ensures Path(src, items, s, [], ls, o)
        == (o.Hit? && Matching(src, p, toEnd, s, ls, Way(o.e, o.caps))) {
      PathIsMatching(src, p, toEnd, s, ls, o);
    }
    var all := From(src, WholeText(p, toEnd), 0, s, []);
    if all == [] {
      forall ls, w ensures !Matching(src, p, toEnd, s, ls, w) { assert !Path(src, items, s, [], ls, Hit(w.e, w.caps)); }
    } else {
      forall other, v | Matching(src, p, toEnd, s, other, v) ensures other == ks || Preferred(TimesOf(p), ks, other) {
        assert Path(src, items, s, [], other, Hit(v.e, v.caps));
        if other != ks { BeforeIsPreferred(p, toEnd, ks, other); }
      }
    }
  }

  // ---------- the methods ----------

  /** Matching a pattern text at `s`. */
  method MatchText(src: string, p: Pattern, toEnd: bool, s: nat) returns (r: Result, caps: seq<Capture>)
    requires WellWritten(p, toEnd) && s <= |src|
    ensures Means(r, caps, src, p, toEnd, s)
  {
    hide From, WholeText, WellWritten, Preferably, Unmatched;
    var m := new MatchState(src, WholeText(p, toEnd));
    assert m.Caps() == [];
    r := m.Match(s, 0);
    caps := m.capture[..m.level];
    ghost var ks := TextMeans(src, p, toEnd, s);
  }

  /** Searching for a pattern text: the first place from `init` on where it matches, or `init` alone
      when the pattern is anchored. */
  method FindText(src: string, p: Pattern, toEnd: bool, init: nat, anchor: bool)
      returns (start: nat, r: Result, caps: seq<Capture>)
    requires WellWritten(p, toEnd) && init <= |src|
    ensures init <= start <= |src| && Means(r, caps, src, p, toEnd, start)
    ensures forall k | init <= k < start :: Unmatched(src, p, toEnd, k)
    ensures anchor ==> start == init
    ensures r.NoMatch? && !anchor ==> start == |src|
  {
    hide From, WholeText, WellWritten, Preferably, Unmatched;
    var m := new MatchState(src, WholeText(p, toEnd));
    start, r := m.Find(init, 0, anchor);
    caps := m.capture[..m.level];
    ghost var best := TextMeans(src, p, toEnd, start);
    forall k | init <= k < start ensures Unmatched(src, p, toEnd, k) {
      var ks := TextMeans(src, p, toEnd, k);
    }
  }

  // ---------- repetitions of one character ----------

  /** A first item takes as many characters as any way to match allows, or as few if it is lazy. */
  lemma FirstTakesMost(src: string, p: Pattern, toEnd: bool, s: nat, ks: seq<nat>, w: Way, other: seq<nat>, v: Way)
    requires p.Take? && Preferably(src, p, toEnd, s, ks, w) && Matching(src, p, toEnd, s, other, v)
    ensures |ks| > 0 && |other| > 0 && if p.times == Least then ks[0] <= other[0] else ks[0] >= other[0]
  {
    if other != ks {
      var i: nat :| i < |TimesOf(p)| && i < |ks| && i < |other| && PreferredAt(TimesOf(p), ks, other, i);
      if i > 0 { assert ks[..i][0] == other[..i][0]; }
    }
    hide Go;
  }

  /** A character that stands for itself. */
  predicate Ordinary(x: char) { x !in "%.[()" && x != NUL }

  /** The run of `x` that starts at `s` ends at `e`. */
  predicate RunEnds(src: string, x: char, s: nat, e: nat) {
    s <= e <= |src| && (forall i | s <= i < e :: src[i] == x) && (e < |src| ==> src[e] != x)
  }

  lemma OneCharacter(src: string, x: char, times: Times, s: nat, k: nat)
    ensures var p := Take(Itself(x), times, Nothing);
      Matching(src, p, false, s, [k], Way(s + k, [])) == (Often(times, k) && Run(src, Itself(x), s, k))
  {
    var p := Take(Itself(x), times, Nothing);
    WidthIs(p);
    NothingGo(src, s + k, []);
    GoFirst(src, p, s, [], [k]);
    assert [k][1..] == [];
    hide Run, Go, Width;
  }

  lemma OnlyCharacter(src: string, x: char, times: Times, s: nat, ks: seq<nat>, w: Way)
    requires Matching(src, Take(Itself(x), times, Nothing), false, s, ks, w)
    ensures |ks| == 1 && w == Way(s + ks[0], []) && Often(times, ks[0]) && Run(src, Itself(x), s, ks[0])
  {
    var p := Take(Itself(x), times, Nothing);
    WidthIs(p);
    NothingGo(src, s + ks[0], []);
    GoFirst(src, p, s, [], ks);
    assert ks[1..] == [];
    hide Run, Go, Width;
  }

  lemma RunOf(src: string, x: char, s: nat, e: nat, k: nat)
    requires RunEnds(src, x, s, e)
    ensures Run(src, Itself(x), s, k) <==> s + k <= e
  {
    assert !FitsAt(src, Itself(x), e);
  }

  lemma {:induction false} HasRun(src: string, x: char, s: nat) returns (e: nat)
    requires s <= |src|
    ensures RunEnds(src, x, s, e)
    decreases |src| - s
  {
    e := s;
    if s < |src| && src[s] == x { e := HasRun(src, x, s + 1); }
  }

  /** A repeated character: `*` and `+` end behind the run of it, `-` ends at once and `?` takes one. */
  lemma RepeatedCharacter(src: string, x: char, s: nat, e: nat)
    requires Ordinary(x) && RunEnds(src, x, s, e)
    ensures var all := From(src, [x, '*'], 0, s, []); all != [] && all[0] == Hit(e, [])
    ensures var all := From(src, [x, '-'], 0, s, []); all != [] && all[0] == Hit(s, [])
    ensures var all := From(src, [x, '+'], 0, s, []); if s == e then all == [] else all != [] && all[0] == Hit(e, [])
    ensures var all := From(src, [x, '?'], 0, s, []); all != [] && all[0] == Hit(if s == e then s else s + 1, [])
  {
    hide From;
    assert [x] + "*" == [x, '*'] && [x] + "-" == [x, '-'] && [x] + "+" == [x, '+'] && [x] + "?" == [x, '?'];
    RepeatedTakes(src, x, Many, s, e, e - s);
    RepeatedTakes(src, x, Least, s, e, 0);
    if s < e { RepeatedTakes(src, x, OneOrMore, s, e, e - s); } else { NoneTaken(src, x, s); }
    RepeatedTakes(src, x, Maybe, s, e, if s == e then 0 else 1);
  }

  lemma CharacterText(x: char, times: Times)
    requires times != Exactly && Ordinary(x)
    ensures WholeText(Take(Itself(x), times, Nothing), false) == [x] + TimesText(times)
    ensures WellWritten(Take(Itself(x), times, Nothing), false)
  {}

  lemma RepeatedTakes(src: string, x: char, times: Times, s: nat, e: nat, k: nat)
    requires times != Exactly && Ordinary(x) && RunEnds(src, x, s, e) && s + k <= e && Often(times, k)
    requires forall j | 0 <= j <= e - s && Often(times, j) :: if times == Least then k <= j else k >= j
    ensures var all := From(src, [x] + TimesText(times), 0, s, []); all != [] && all[0] == Hit(s + k, [])
  {
    hide From, Matching, Preferably, Run, WellWritten, RunEnds, WholeText, Ordinary, Often;
    var p := Take(Itself(x), times, Nothing);
    CharacterText(x, times);
    RunOf(src, x, s, e, k);
    OneCharacter(src, x, times, s, k);
    var ks := TextMeans(src, p, false, s);
    var all := From(src, [x] + TimesText(times), 0, s, []);
    if all != [] {
      var w := Way(all[0].e, all[0].caps);
      BestMatches(src, p, false, s, ks, w);
      OnlyCharacter(src, x, times, s, ks, w);
      RunOf(src, x, s, e, ks[0]);
      FirstTakesMost(src, p, false, s, ks, w, [k], Way(s + k, []));
    }
  }

  lemma BestMatches(src: string, p: Pattern, toEnd: bool, s: nat, ks: seq<nat>, w: Way)
    requires Preferably(src, p, toEnd, s, ks, w)
    ensures Matching(src, p, toEnd, s, ks, w)
  {}

  lemma NoneTaken(src: string, x: char, s: nat)
    requires Ordinary(x) && RunEnds(src, x, s, s)
    ensures From(src, [x, '+'], 0, s, []) == []
  {
    hide From, Matching, Run, WellWritten, WholeText;
    var p := Take(Itself(x), OneOrMore, Nothing);
    CharacterText(x, OneOrMore);
    var ks := TextMeans(src, p, false, s);
    var all := From(src, [x, '+'], 0, s, []);
    assert [x] + "+" == [x, '+'];
    if all != [] {
      OnlyCharacter(src, x, OneOrMore, s, ks, Way(all[0].e, all[0].caps));
      RunOf(src, x, s, s, ks[0]);
      assert false;
    }
  }

  // ---------- texts that are no pattern ----------

  ghost predicate Fails(src: string, pat: string, p: nat, s: nat, caps: seq<Capture>, err: Error) {
    From(src, pat, p, s, caps) == [Fault(err)]
  }

  lemma {:induction false} OpenSet(pat: string, q: nat)
    requires forall i | q < i < |pat| :: pat[i] != ']'
    ensures SetEnd(pat, q) == None
    decreases |pat| - q
  {
    if q < |pat| { OpenSet(pat, if pat[q] == '%' && q + 1 < |pat| then q + 2 else q + 1); }
  }

  /** A percent sign at the end, and a set without an end. */
  lemma BrokenCharacter(src: string, pat: string, p: nat, s: nat, caps: seq<Capture>, t: string)
    ensures HeldToEnd(pat, p, "%") ==> Fails(src, pat, p, s, caps, MalformedEnd)
    ensures HeldToEnd(pat, p, "[" + t) && ']' !in t ==> Fails(src, pat, p, s, caps, MalformedSet)
    ensures HeldToEnd(pat, p, "%f[" + t) && ']' !in t ==> Fails(src, pat, p, s, caps, MalformedSet)
  {
    if HeldToEnd(pat, p, "%") {
      HeldAt(pat, p, "%");
      assert At(pat, p + 0) == '%';
      FromSingle(src, pat, p, s, caps);
    }
    if HeldToEnd(pat, p, "[" + t) && ']' !in t {
      UnendedSet(pat, p, t);
      FromSingle(src, pat, p, s, caps);
    }
    if HeldToEnd(pat, p, "%f[" + t) && ']' !in t {
      assert "%f[" + t == "%f" + ("[" + t);
      ToEndParts(pat, p, "%f", "[" + t);
      HeldAt(pat, p, "%f");
      assert At(pat, p + 0) == '%' && At(pat, p + 1) == 'f';
      UnendedSet(pat, p + 2, t);
      FromFrontier(src, pat, p, s, caps);
    }
  }

  lemma UnendedSet(pat: string, p: nat, t: string)
    requires HeldToEnd(pat, p, "[" + t) && ']' !in t
    ensures p < |pat| && pat[p] == '[' && ClassEnd(pat, p) == None
  {
    HeldAt(pat, p, "[" + t);
    assert At(pat, p + 0) == '[';
    forall i | p < i < |pat| ensures pat[i] != ']' {
      assert At(pat, p + (i - p)) == ("[" + t)[i - p] == t[i - p - 1];
    }
    OpenSet(pat, SetStart(pat, p));
  }

  /** `%b` without two characters, and `%f` without a set. */
  lemma BrokenItem(src: string, pat: string, p: nat, s: nat, caps: seq<Capture>, t: string)
    ensures HeldToEnd(pat, p, "%b" + t) && |t| < 2 ==> Fails(src, pat, p, s, caps, UnbalancedPattern)
    ensures HeldToEnd(pat, p, "%f" + t) && !StartsWith(t, "[") ==> Fails(src, pat, p, s, caps, MissingSet)
  {
    if HeldToEnd(pat, p, "%b" + t) && |t| < 2 {
      ToEndParts(pat, p, "%b", t);
      HeldAt(pat, p, "%b");
      assert At(pat, p + 0) == '%' && At(pat, p + 1) == 'b';
      FromBalance(src, pat, p, s, caps);
    }
    if HeldToEnd(pat, p, "%f" + t) && !StartsWith(t, "[") {
      ToEndParts(pat, p, "%f", t);
      HeldAt(pat, p, "%f");
      HeldAt(pat, p + 2, t);
      assert At(pat, p + 0) == '%' && At(pat, p + 1) == 'f';
      if t != "" { assert At(pat, p + 2 + 0) == t[0]; }
      FromFrontier(src, pat, p, s, caps);
    }
  }

  /** A `)` without an open capture, a `(` when there are 32 captures, and a `%0` to `%9` that refers
      to no ended capture. */
  lemma BrokenCapture(src: string, pat: string, p: nat, s: nat, caps: seq<Capture>, digit: char)
    ensures Held(pat, p, ")") && (forall i | 0 <= i < |caps| :: !caps[i].len.Unfinished?)
      ==> Fails(src, pat, p, s, caps, InvalidCapture)
    ensures Held(pat, p, "(") && |caps| >= 32 ==> Fails(src, pat, p, s, caps, TooManyCaptures)
    ensures Held(pat, p, ['%', digit]) && '0' <= digit <= '9'
      && (digit == '0' || digit as int - '0' as int > |caps| || caps[digit as int - '1' as int].len.Unfinished?)
      ==> Fails(src, pat, p, s, caps, InvalidIndex)
  {
    hide From, LastOpen;
    if Held(pat, p, ")") && forall i | 0 <= i < |caps| :: !caps[i].len.Unfinished? {
      HeldAt(pat, p, ")");
      assert At(pat, p + 0) == ')';
      FromClose(src, pat, p, s, caps);
    }
    if Held(pat, p, "(") && |caps| >= 32 {
      HeldAt(pat, p, "(");
      assert At(pat, p + 0) == '(';
      FromOpen(src, pat, p, s, caps);
    }
    if Held(pat, p, ['%', digit]) && '0' <= digit <= '9'
      && (digit == '0' || digit as int - '0' as int > |caps| || caps[digit as int - '1' as int].len.Unfinished?) {
      HeldAt(pat, p, ['%', digit]);
      assert At(pat, p + 0) == '%' && At(pat, p + 1) == digit;
      FromRef(src, pat, p, s, caps);
    }
  }
}
