/** What the enumeration of matches means: the first match is the preferred one, and well-formed
    patterns raise no error. */
module StrLaws {
  import opened StrPattern
  import opened StrMatch

  // ---------- matches as choices ----------

  /** How often a repetition may take its character. */
  predicate Allowed(rep: Repeat, k: nat) {
    match rep case Once => k == 1 case Optional => k <= 1 case Star => true case Plus => k >= 1 case Lazy => true
  }

  /** A way to match: `ks` holds the number of characters that each single-character item takes. */
  ghost predicate Path(src: string, items: seq<Item>, s: nat, caps: seq<Capture>, ks: seq<nat>, o: Outcome)
    decreases |items|
  {
    if items == [] then ks == [] && o == Hit(s, caps) else
      var rest := items[1..];
      match items[0]
      case Open => if |caps| >= MAX_CAPTURES then ks == [] && o == Fault(TooManyCaptures)
          else Path(src, rest, s, caps + [Capture(s, Unfinished)], ks, o)
      case Position => if |caps| >= MAX_CAPTURES then ks == [] && o == Fault(TooManyCaptures)
          else Path(src, rest, s, caps + [Capture(s, AtPosition)], ks, o)
      case Close =>
        (match LastOpen(caps)
         case None => ks == [] && o == Fault(InvalidCapture)
         case Some(l) => Path(src, rest, s, caps[l := Closed(caps[l], s)], ks, o))
      case Balance(x, y) => BalanceEnd(src, s, x, y).Some?
          && Path(src, rest, BalanceEnd(src, s, x, y).value, caps, ks, o)
      case Frontier(cls) => AtFrontier(src, s, cls) && Path(src, rest, s, caps, ks, o)
      case BackRef(digit) =>
        (match RefOf(digit, caps)
         case None => ks == [] && o == Fault(InvalidIndex)
         case Some(l) => Repeats(src, s, caps[l]) && Path(src, rest, s + caps[l].len.n, caps, ks, o))
      case AtEnd => s == |src| && Path(src, rest, s, caps, ks, o)
      case Malformed(err) => ks == [] && o == Fault(err)
      case Single(cls, rep) =>
        ks != [] && Allowed(rep, ks[0]) && AllTaken(src, s, s + ks[0], cls)
            && Path(src, rest, s + ks[0], caps, ks[1..], o)
  }

  /** A lazy item prefers fewer characters, every other one more. */
  predicate Prefers(rep: Repeat, k: nat, other: nat) { if rep == Lazy then k < other else k > other }

  /** The first item at which the choices differ prefers `ks`. */
  predicate Before(items: seq<Item>, ks: seq<nat>, other: seq<nat>)
    decreases |items|
  {
    items != [] &&
    if items[0].Single? then
      ks != [] && other != [] &&
      if ks[0] == other[0] then Before(items[1..], ks[1..], other[1..]) else Prefers(items[0].rep, ks[0], other[0])
    else Before(items[1..], ks, other)
  }

  /** There is no better way to match than `ks`. */
  ghost predicate Best(src: string, items: seq<Item>, s: nat, caps: seq<Capture>, ks: seq<nat>, o: Outcome) {
    && Path(src, items, s, caps, ks, o)
    && forall other, p | Path(src, items, s, caps, other, p) :: (other == ks && p == o) || Before(items, ks, other)
  }

  /** One item takes `k` characters, and the others go on with `ks`. */
  ghost predicate Taken(src: string, cls: Class, rest: seq<Item>, s: nat, caps: seq<Capture>, k: nat, ks: seq<nat>,
                        o: Outcome) {
    AllTaken(src, s, s + k, cls) && Path(src, rest, s + k, caps, ks, o)
  }

  lemma TakenMore(src: string, cls: Class, rest: seq<Item>, s: nat, caps: seq<Capture>, k: nat, ks: seq<nat>,
                  o: Outcome)
    requires Takes(src, s, cls)
    ensures Taken(src, cls, rest, s, caps, k + 1, ks, o) == Taken(src, cls, rest, s + 1, caps, k, ks, o)
  {
    hide Takes, Path;
    assert s + (k + 1) == (s + 1) + k;
    if Taken(src, cls, rest, s + 1, caps, k, ks, o) {
      assert AllTaken(src, s, s + (k + 1), cls);
    }
  }

  lemma TakenNone(src: string, cls: Class, rest: seq<Item>, s: nat, caps: seq<Capture>, k: nat, ks: seq<nat>,
                  o: Outcome)
    requires Taken(src, cls, rest, s, caps, k, ks, o) && k > 0
    ensures Takes(src, s, cls)
  {}

  /** Of two choices for an item and the items after it, the first is the same or better. */
  ghost predicate Better(rep: Repeat, rest: seq<Item>, k: nat, ks: seq<nat>, o: Outcome, k2: nat, ks2: seq<nat>,
                         o2: Outcome) {
    (k2 == k && ks2 == ks && o2 == o) || (k2 != k && Prefers(rep, k, k2)) || (k2 == k && Before(rest, ks, ks2))
  }

  /** The best choice for an item and the items after it. */
  ghost predicate Top(src: string, cls: Class, rep: Repeat, rest: seq<Item>, s: nat, caps: seq<Capture>, k: nat,
                      ks: seq<nat>, o: Outcome) {
    && Allowed(rep, k) && Taken(src, cls, rest, s, caps, k, ks, o)
    && forall k2: nat, ks2, o2 | Allowed(rep, k2) && Taken(src, cls, rest, s, caps, k2, ks2, o2) ::
        Better(rep, rest, k, ks, o, k2, ks2, o2)
  }

  ghost predicate Untaken(src: string, cls: Class, rep: Repeat, rest: seq<Item>, s: nat, caps: seq<Capture>) {
    forall k: nat, ks, o | Allowed(rep, k) :: !Taken(src, cls, rest, s, caps, k, ks, o)
  }

  ghost predicate Pathless(src: string, items: seq<Item>, s: nat, caps: seq<Capture>) {
    forall ks, o :: !Path(src, items, s, caps, ks, o)
  }

  lemma TopIsBest(src: string, items: seq<Item>, s: nat, caps: seq<Capture>, k: nat, ks: seq<nat>, o: Outcome)
    requires items != [] && items[0].Single? && Top(src, items[0].cls, items[0].rep, items[1..], s, caps, k, ks, o)
    ensures Best(src, items, s, caps, [k] + ks, o)
  {
    var cls, rep, rest := items[0].cls, items[0].rep, items[1..];
    hide Takes, Allowed, AllTaken;
    assert ([k] + ks)[0] == k && ([k] + ks)[1..] == ks;
    assert Path(src, items, s, caps, [k] + ks, o);
    forall other, p | Path(src, items, s, caps, other, p)
      ensures (other == [k] + ks && p == o) || Before(items, [k] + ks, other)
    {
      assert Allowed(rep, other[0]) && Taken(src, cls, rest, s, caps, other[0], other[1..], p);
      assert Better(rep, rest, k, ks, o, other[0], other[1..], p);
      assert other == [other[0]] + other[1..];
    }
  }

  lemma PathTaken(src: string, items: seq<Item>, s: nat, caps: seq<Capture>, ks: seq<nat>, o: Outcome)
    requires items != [] && items[0].Single? && Path(src, items, s, caps, ks, o)
    ensures ks != [] && Allowed(items[0].rep, ks[0]) && Taken(src, items[0].cls, items[1..], s, caps, ks[0], ks[1..], o)
  {}

  lemma UntakenIsPathless(src: string, items: seq<Item>, s: nat, caps: seq<Capture>)
    requires items != [] && items[0].Single? && Untaken(src, items[0].cls, items[0].rep, items[1..], s, caps)
    ensures Pathless(src, items, s, caps)
  {
    hide Takes, Allowed, AllTaken;
    forall ks, o ensures !Path(src, items, s, caps, ks, o) {
      if Path(src, items, s, caps, ks, o) { PathTaken(src, items, s, caps, ks, o); }
    }
  }

  /** The best choice takes `k` characters, when the preferred counts are impossible. */
  lemma TopFrom(src: string, cls: Class, rep: Repeat, rest: seq<Item>, s: nat, caps: seq<Capture>, k: nat,
                ks: seq<nat>, o: Outcome)
    requires Allowed(rep, k) && AllTaken(src, s, s + k, cls) && Best(src, rest, s + k, caps, ks, o)
    requires forall k2: nat, ks2, o2 | Allowed(rep, k2) && k2 != k && Taken(src, cls, rest, s, caps, k2, ks2, o2) ::
        Prefers(rep, k, k2)
    ensures Top(src, cls, rep, rest, s, caps, k, ks, o)
  {
    hide Takes, Allowed, Prefers, Path, AllTaken;
  }

  lemma NotTaken(src: string, cls: Class, rest: seq<Item>, s: nat, caps: seq<Capture>, k: nat)
    requires Pathless(src, rest, s + k, caps)
    ensures forall ks, o :: !Taken(src, cls, rest, s, caps, k, ks, o)
  {
    hide Path;
  }

  /** Nothing takes more than no character when the first one cannot be taken. */
  lemma NotMore(src: string, cls: Class, rest: seq<Item>, s: nat, caps: seq<Capture>)
    requires !Takes(src, s, cls)
    ensures forall k: nat, ks, o | k > 0 :: !Taken(src, cls, rest, s, caps, k, ks, o)
  {
    forall k: nat, ks, o | k > 0 ensures !Taken(src, cls, rest, s, caps, k, ks, o) {
      if Taken(src, cls, rest, s, caps, k, ks, o) { TakenNone(src, cls, rest, s, caps, k, ks, o); }
    }
  }

  /** The first character taken, a choice is one behind it. */
  lemma Shifted(src: string, cls: Class, rest: seq<Item>, s: nat, caps: seq<Capture>)
    requires Takes(src, s, cls)
    ensures forall k: nat, ks, o | k > 0 :: Taken(src, cls, rest, s, caps, k, ks, o)
                                            == Taken(src, cls, rest, s + 1, caps, k - 1, ks, o)
  {
    forall k: nat, ks, o | k > 0 ensures Taken(src, cls, rest, s, caps, k, ks, o)
        == Taken(src, cls, rest, s + 1, caps, k - 1, ks, o) {
      TakenMore(src, cls, rest, s, caps, k - 1, ks, o);
    }
  }

  // ---------- the first match is the preferred one ----------

  /** The enumeration starts with the best choice, and is empty only when there is no choice. */
  ghost predicate Leads(src: string, items: seq<Item>, s: nat, caps: seq<Capture>, all: seq<Outcome>, ks: seq<nat>) {
    if all == [] then Pathless(src, items, s, caps) else Best(src, items, s, caps, ks, all[0])
  }

  ghost predicate LeadsItem(src: string, cls: Class, rep: Repeat, rest: seq<Item>, s: nat, caps: seq<Capture>,
                            all: seq<Outcome>, k: nat, ks: seq<nat>) {
    if all == [] then Untaken(src, cls, rep, rest, s, caps) else Top(src, cls, rep, rest, s, caps, k, ks, all[0])
  }

  lemma OnceLeads(src: string, cls: Class, rest: seq<Item>, s: nat, caps: seq<Capture>, ks: seq<nat>)
    requires Takes(src, s, cls) ==> Leads(src, rest, s + 1, caps, Matches(src, rest, s + 1, caps), ks)
    ensures LeadsItem(src, cls, Once, rest, s, caps, if Takes(src, s, cls) then Matches(src, rest, s + 1, caps)
        else [], 1, ks)
  {
    hide Matches, Path, Takes, Before;
    if !Takes(src, s, cls) {
      NotMore(src, cls, rest, s, caps);
    } else if Matches(src, rest, s + 1, caps) == [] {
      NotTaken(src, cls, rest, s, caps, 1);
    } else {
      TopFrom(src, cls, Once, rest, s, caps, 1, ks, Matches(src, rest, s + 1, caps)[0]);
    }
  }

  lemma OptionalLeads(src: string, cls: Class, rest: seq<Item>, s: nat, caps: seq<Capture>, ks1: seq<nat>,
                      ks0: seq<nat>) returns (k: nat)
    requires Takes(src, s, cls) ==> Leads(src, rest, s + 1, caps, Matches(src, rest, s + 1, caps), ks1)
    requires Leads(src, rest, s, caps, Matches(src, rest, s, caps), ks0)
    ensures LeadsItem(src, cls, Optional, rest, s, caps,
      (if Takes(src, s, cls) then Matches(src, rest, s + 1, caps) else []) + Matches(src, rest, s, caps), k,
          if k == 0 then ks0 else ks1)
  {
    hide Matches, Path, Takes, Before;
    var m1 := if Takes(src, s, cls) then Matches(src, rest, s + 1, caps) else [];
    var m0 := Matches(src, rest, s, caps);
    if m1 != [] {
      k := 1;
      TopFrom(src, cls, Optional, rest, s, caps, 1, ks1, m1[0]);
    } else {
      k := 0;
      if Takes(src, s, cls) { NotTaken(src, cls, rest, s, caps, 1); } else { NotMore(src, cls, rest, s, caps); }
      assert m1 + m0 == m0;
      if m0 == [] { NotTaken(src, cls, rest, s, caps, 0); }
          else { TopFrom(src, cls, Optional, rest, s, caps, 0, ks0, m0[0]); }
    }
  }

  /** One character more, when the choice behind it is known. */
  lemma MoreLeads(src: string, cls: Class, rep: Repeat, rest: seq<Item>, s: nat, caps: seq<Capture>, k: nat,
                  ks: seq<nat>, o: Outcome)
    requires rep != Once && rep != Optional
    requires Takes(src, s, cls) && Top(src, cls, if rep == Plus then Star else rep, rest, s + 1, caps, k, ks, o)
    requires rep == Lazy ==> Pathless(src, rest, s, caps)
    ensures Top(src, cls, rep, rest, s, caps, k + 1, ks, o)
  {
    Shifted(src, cls, rest, s, caps);
    if rep == Lazy { NotTaken(src, cls, rest, s, caps, 0); }
    hide Taken, Before;
    forall k2: nat, ks2, o2 | Allowed(rep, k2) && Taken(src, cls, rest, s, caps, k2, ks2, o2)
      ensures Better(rep, rest, k + 1, ks, o, k2, ks2, o2)
    {
      if k2 > 0 { assert Better(if rep == Plus then Star else rep, rest, k, ks, o, k2 - 1, ks2, o2); }
    }
  }

  lemma {:induction false} MostLeads(src: string, cls: Class, rest: seq<Item>, s: nat, caps: seq<Capture>)
      returns (k: nat, ks: seq<nat>)
    ensures LeadsItem(src, cls, Star, rest, s, caps, Most(src, cls, rest, s, caps), k, ks)
    decreases |rest| + 1, |src| - s, 0
  {
    hide Matches, Path, Before, Taken, Best;
    var m0 := Matches(src, rest, s, caps);
    k := 0;
    if Takes(src, s, cls) {
      var all := Most(src, cls, rest, s + 1, caps);
      k, ks := MostLeads(src, cls, rest, s + 1, caps);
      if all != [] {
        MoreLeads(src, cls, Star, rest, s, caps, k, ks, all[0]);
        k := k + 1;
        return;
      }
      Shifted(src, cls, rest, s, caps);
      k := 0;
    } else {
      NotMore(src, cls, rest, s, caps);
    }
    assert Most(src, cls, rest, s, caps) == m0;
    ks := MatchesLead(src, rest, s, caps);
    if m0 == [] { NotTaken(src, cls, rest, s, caps, 0); } else { TopFrom(src, cls, Star, rest, s, caps, 0, ks, m0[0]); }
  }

  lemma {:induction false} FewestLeads(src: string, cls: Class, rest: seq<Item>, s: nat, caps: seq<Capture>)
      returns (k: nat, ks: seq<nat>)
    ensures LeadsItem(src, cls, Lazy, rest, s, caps, Fewest(src, cls, rest, s, caps), k, ks)
    decreases |rest| + 1, |src| - s, 0
  {
    hide Matches, Path, Before, Taken, Best;
    var m0 := Matches(src, rest, s, caps);
    k := 0;
    ks := MatchesLead(src, rest, s, caps);
    if m0 != [] {
      TopFrom(src, cls, Lazy, rest, s, caps, 0, ks, m0[0]);
    } else {
      NotTaken(src, cls, rest, s, caps, 0);
      if Takes(src, s, cls) {
        var all := Fewest(src, cls, rest, s + 1, caps);
        assert Fewest(src, cls, rest, s, caps) == all;
        k, ks := FewestLeads(src, cls, rest, s + 1, caps);
        if all != [] { MoreLeads(src, cls, Lazy, rest, s, caps, k, ks, all[0]); k := k + 1; }
            else { Shifted(src, cls, rest, s, caps); }
      } else {
        NotMore(src, cls, rest, s, caps);
      }
    }
  }

  /** All ways to match a repeated character. */
  lemma {:induction false} RepeatedLeads(src: string, cls: Class, rep: Repeat, rest: seq<Item>, s: nat,
                                         caps: seq<Capture>) returns (k: nat, ks: seq<nat>)
    ensures LeadsItem(src, cls, rep, rest, s, caps, Repeated(src, cls, rep, rest, s, caps), k, ks)
    decreases |rest| + 1, |src| - s, 1
  {
    hide Matches, Most, Fewest, Path, Before, Taken, Best, Leads, Top, Untaken;
    k, ks := 0, [];
    match rep
    case Once =>
      k := 1;
      if Takes(src, s, cls) { ks := MatchesLead(src, rest, s + 1, caps); }
      OnceLeads(src, cls, rest, s, caps, ks);
    case Optional =>
      var ks1: seq<nat> := [];
      if Takes(src, s, cls) { ks1 := MatchesLead(src, rest, s + 1, caps); }
      ks := MatchesLead(src, rest, s, caps);
      k := OptionalLeads(src, cls, rest, s, caps, ks1, ks);
      if k != 0 { ks := ks1; }
    case Star => k, ks := MostLeads(src, cls, rest, s, caps);
    case Lazy => k, ks := FewestLeads(src, cls, rest, s, caps);
    case Plus =>
      if Takes(src, s, cls) {
        k, ks := MostLeads(src, cls, rest, s + 1, caps);
        var all := Most(src, cls, rest, s + 1, caps);
        PlusLeads(src, cls, rest, s, caps, all, k, ks);
        k := k + 1;
      } else {
        NoPlus(src, cls, rest, s, caps, k, ks);
      }
  }

  lemma PlusLeads(src: string, cls: Class, rest: seq<Item>, s: nat, caps: seq<Capture>, all: seq<Outcome>, k: nat,
                  ks: seq<nat>)
    requires Takes(src, s, cls) && LeadsItem(src, cls, Star, rest, s + 1, caps, all, k, ks)
    ensures LeadsItem(src, cls, Plus, rest, s, caps, all, k + 1, ks)
  {
    hide Taken, Takes, Before;
    if all != [] { MoreLeads(src, cls, Plus, rest, s, caps, k, ks, all[0]); } else { Shifted(src, cls, rest, s, caps); }
  }

  lemma NoPlus(src: string, cls: Class, rest: seq<Item>, s: nat, caps: seq<Capture>, k: nat, ks: seq<nat>)
    requires !Takes(src, s, cls)
    ensures LeadsItem(src, cls, Plus, rest, s, caps, [], k, ks)
  {
    NotMore(src, cls, rest, s, caps);
    hide Taken;
  }

  /** The first match is the one that the choices prefer; when there is none, nothing matches. */
  lemma {:induction false} MatchesLead(src: string, items: seq<Item>, s: nat, caps: seq<Capture>) returns (ks: seq<nat>)
    ensures Leads(src, items, s, caps, Matches(src, items, s, caps), ks)
    decreases |items|, |src| - s, 2
  {
    if items != [] && items[0].Single? {
      MatchesSingle(src, items, s, caps);
      var k, ks1 := RepeatedLeads(src, items[0].cls, items[0].rep, items[1..], s, caps);
      ks := [k] + ks1;
      SingleLeads(src, items, s, caps, Matches(src, items, s, caps), k, ks1);
    } else {
      ks := OtherLeads(src, items, s, caps);
    }
  }

  lemma SingleLeads(src: string, items: seq<Item>, s: nat, caps: seq<Capture>, all: seq<Outcome>, k: nat, ks: seq<nat>)
    requires items != [] && items[0].Single?
        && LeadsItem(src, items[0].cls, items[0].rep, items[1..], s, caps, all, k, ks)
    ensures Leads(src, items, s, caps, all, [k] + ks)
  {
    hide Top, Untaken, Pathless, Best;
    if all == [] { UntakenIsPathless(src, items, s, caps); } else { TopIsBest(src, items, s, caps, k, ks, all[0]); }
  }

  /** The items that leave no choice. */
  lemma {:induction false} OtherLeads(src: string, items: seq<Item>, s: nat, caps: seq<Capture>) returns (ks: seq<nat>)
    requires items != [] ==> !items[0].Single?
    ensures Leads(src, items, s, caps, Matches(src, items, s, caps), ks)
    decreases |items|, |src| - s, 0
  {
    ks := [];
    var n := NextState(src, items, s, caps);
    OtherMatches(src, items, s, caps);
    if n.Move? {
      ks := MatchesLead(src, items[1..], n.s, n.caps);
      MoveLeads(src, items, s, caps, ks);
    }
  }

  /** What an item without a choice does. */
  datatype Next = Answer(all: seq<Outcome>) | Move(s: nat, caps: seq<Capture>)

  function NextState(src: string, items: seq<Item>, s: nat, caps: seq<Capture>): Next {
    if items == [] then Answer([Hit(s, caps)]) else
      match items[0]
      case Open => if |caps| >= MAX_CAPTURES then Answer([Fault(TooManyCaptures)])
          else Move(s, caps + [Capture(s, Unfinished)])
      case Position => if |caps| >= MAX_CAPTURES then Answer([Fault(TooManyCaptures)])
          else Move(s, caps + [Capture(s, AtPosition)])
      case Close =>
        (match LastOpen(caps)
         case None => Answer([Fault(InvalidCapture)])
         case Some(l) => Move(s, caps[l := Closed(caps[l], s)]))
      case Balance(x, y) => if BalanceEnd(src, s, x, y).Some? then Move(BalanceEnd(src, s, x, y).value, caps)
          else Answer([])
      case Frontier(cls) => if AtFrontier(src, s, cls) then Move(s, caps) else Answer([])
      case BackRef(digit) =>
        (match RefOf(digit, caps)
         case None => Answer([Fault(InvalidIndex)])
         case Some(l) => if Repeats(src, s, caps[l]) then Move(s + caps[l].len.n, caps) else Answer([]))
      case AtEnd => if s == |src| then Move(s, caps) else Answer([])
      case Malformed(err) => Answer([Fault(err)])
      case Single(_, _) => Answer([])
  }

  lemma OtherMatches(src: string, items: seq<Item>, s: nat, caps: seq<Capture>)
    requires items != [] ==> !items[0].Single?
    ensures var n := NextState(src, items, s, caps);
      Matches(src, items, s, caps) == if n.Answer? then n.all else Matches(src, items[1..], n.s, n.caps)
    ensures var n := NextState(src, items, s, caps);
      n.Answer? ==> (if n.all == [] then Pathless(src, items, s, caps) else Best(src, items, s, caps, [], n.all[0]))
    ensures NextState(src, items, s, caps).Move? ==> items != []
  {
    hide BalanceEnd, AtFrontier, RefOf, Repeats, LastOpen, Closed, Most, Fewest;
  }

  lemma MoveLeads(src: string, items: seq<Item>, s: nat, caps: seq<Capture>, ks: seq<nat>)
    requires items != [] && !items[0].Single? && NextState(src, items, s, caps).Move?
    requires var n := NextState(src, items, s, caps);
        Leads(src, items[1..], n.s, n.caps, Matches(src, items[1..], n.s, n.caps), ks)
    ensures Leads(src, items, s, caps, Matches(src, items, s, caps), ks)
  {
    OtherMatches(src, items, s, caps);
    var n := NextState(src, items, s, caps);
    forall other, p ensures Path(src, items, s, caps, other, p) == Path(src, items[1..], n.s, n.caps, other, p) {
      MovePath(src, items, s, caps, other, p);
    }
    hide Matches, NextState, Path;
  }

  lemma MovePath(src: string, items: seq<Item>, s: nat, caps: seq<Capture>, ks: seq<nat>, o: Outcome)
    requires items != [] && !items[0].Single? && NextState(src, items, s, caps).Move?
    ensures var n := NextState(src, items, s, caps);
        Path(src, items, s, caps, ks, o) == Path(src, items[1..], n.s, n.caps, ks, o)
  {
    hide BalanceEnd, AtFrontier, RefOf, Repeats, LastOpen, Closed;
  }

  /** What the best choice says about two choices at a time: a greedy item takes as many characters
      as any match allows, and a lazy one as few. */
  lemma FirstItemIsExtreme(src: string, items: seq<Item>, s: nat, caps: seq<Capture>, ks: seq<nat>, o: Outcome,
                           other: seq<nat>, p: Outcome)
    requires items != [] && items[0].Single? && Best(src, items, s, caps, ks, o) && Path(src, items, s, caps, other, p)
    ensures if items[0].rep == Lazy then ks[0] <= other[0] else ks[0] >= other[0]
  {
    hide Takes;
  }

  // ---------- captures ----------

  /** Every match ends in the subject, at or behind its start, and its captures are parts of what
      was read. */
  lemma {:induction false} HitsInside(src: string, items: seq<Item>, s: nat, caps: seq<Capture>, ks: seq<nat>,
                                      o: Outcome)
    requires Path(src, items, s, caps, ks, o) && o.Hit? && s <= |src| && CapsOk(s, caps)
    ensures s <= o.e <= |src| && CapsOk(o.e, o.caps) && |caps| <= |o.caps|
    decreases |items|
  {
    if items != [] {
      if items[0].Single? {
        TakenInside(src, s, s + ks[0], items[0].cls);
        CapsGrow(s, caps, s + ks[0]);
        HitsInside(src, items[1..], s + ks[0], caps, ks[1..], o);
      } else {
        StateInside(src, items, s, caps, ks, o);
        var n := NextState(src, items, s, caps);
        HitsInside(src, items[1..], n.s, n.caps, ks, o);
      }
    }
  }

  lemma TakenInside(src: string, s: nat, t: nat, cls: Class)
    requires s <= t && s <= |src| && AllTaken(src, s, t, cls)
    ensures t <= |src|
  {
    if s < t { assert Takes(src, t - 1, cls); }
  }

  lemma StateInside(src: string, items: seq<Item>, s: nat, caps: seq<Capture>, ks: seq<nat>, o: Outcome)
    requires items != [] && !items[0].Single? && Path(src, items, s, caps, ks, o) && o.Hit? && s <= |src|
        && CapsOk(s, caps)
    ensures var n := NextState(src, items, s, caps);
      n.Move? && Path(src, items[1..], n.s, n.caps, ks, o) && s <= n.s <= |src| && CapsOk(n.s, n.caps)
          && |caps| <= |n.caps|
  {
    hide BalanceEnd, AtFrontier, RefOf;
  }

  // ---------- well-formed patterns ----------

  /** For each capture, whether it still has no end. */
  function Opens(caps: seq<Capture>): (r: seq<bool>)
    ensures |r| == |caps|
  {
    seq(|caps|, i requires 0 <= i < |caps| => caps[i].len.Unfinished?)
  }

  lemma OpensAt(caps: seq<Capture>)
    ensures forall i | 0 <= i < |caps| :: Opens(caps)[i] == caps[i].len.Unfinished?
  {}

  function LastTrue(open: seq<bool>): (r: Option<nat>)
    ensures r.Some? ==> r.value < |open| && open[r.value] && forall i | r.value < i < |open| :: !open[i]
    ensures r.None? ==> forall i | 0 <= i < |open| :: !open[i]
  {
    if open == [] then None else if open[|open| - 1] then Some(|open| - 1) else LastTrue(open[..|open| - 1])
  }

  /** Every `)` ends an open capture and every `%1` to `%9` refers to an ended one, there are not too
      many captures, all of them are ended, and every item is complete. */
  predicate WellFormed(items: seq<Item>, open: seq<bool>)
    decreases |items|
  {
    if items == [] then forall i | 0 <= i < |open| :: !open[i] else
      match items[0]
      case Open => |open| < MAX_CAPTURES && WellFormed(items[1..], open + [true])
      case Position => |open| < MAX_CAPTURES && WellFormed(items[1..], open + [false])
      case Close => LastTrue(open).Some? && WellFormed(items[1..], open[LastTrue(open).value := false])
      case BackRef(digit) =>
        var l := digit as int - '1' as int;
        0 <= l < |open| && !open[l] && WellFormed(items[1..], open)
      case Malformed(_) => false
      case _ => WellFormed(items[1..], open)
  }

  /** A match all of whose captures are ended. */
  predicate Complete(o: Outcome) { o.Hit? && forall i | 0 <= i < |o.caps| :: !o.caps[i].len.Unfinished? }

  /** Whether a pattern is well formed does not depend on the subject: if it is, every way to match
      it ends in a complete match; if it is not, none does. */
  lemma {:induction false} CompleteIfWellFormed(src: string, items: seq<Item>, s: nat, caps: seq<Capture>,
                                                ks: seq<nat>, o: Outcome)
    requires Path(src, items, s, caps, ks, o)
    ensures Complete(o) <==> WellFormed(items, Opens(caps))
    decreases |items|
  {
    if items == [] {
      OpensAt(caps);
    } else if items[0].Single? {
      CompleteIfWellFormed(src, items[1..], s + ks[0], caps, ks[1..], o);
    } else {
      WellFormedStep(src, items, s, caps, ks, o);
      var n := NextState(src, items, s, caps);
      if n.Move? { CompleteIfWellFormed(src, items[1..], n.s, n.caps, ks, o); }
    }
  }

  lemma SameLast(caps: seq<Capture>)
    ensures LastOpen(caps) == LastTrue(Opens(caps))
  {
    OpensAt(caps);
  }

  lemma WellFormedStep(src: string, items: seq<Item>, s: nat, caps: seq<Capture>, ks: seq<nat>, o: Outcome)
    requires items != [] && !items[0].Single? && Path(src, items, s, caps, ks, o)
    ensures var n := NextState(src, items, s, caps);
      if n.Move? then Path(src, items[1..], n.s, n.caps, ks, o)
          && (WellFormed(items, Opens(caps)) <==> WellFormed(items[1..], Opens(n.caps)))
      else o.Fault? && !WellFormed(items, Opens(caps))
  {
    SameLast(caps);
    match items[0]
    case Open => assert Opens(caps + [Capture(s, Unfinished)]) == Opens(caps) + [true];
    case Position => assert Opens(caps + [Capture(s, AtPosition)]) == Opens(caps) + [false];
    case Close =>
      if LastOpen(caps).Some? {
        var l := LastOpen(caps).value;
        assert Opens(caps[l := Closed(caps[l], s)]) == Opens(caps)[l := false];
      }
    case _ =>
  }

  // ---------- balanced parts ----------

  function Count(c: char, t: string): nat {
    if t == "" then 0 else Count(c, t[..|t| - 1]) + if t[|t| - 1] == c then 1 else 0
  }

  /** Between `from` and `e` as many `x` as `y` have been read. */
  ghost predicate Even(src: string, from: nat, e: nat, x: char, y: char)
  {
    from <= e <= |src| && Count(x, src[from..e]) == Count(y, src[from..e])
  }

  lemma CountMore(src: string, from: nat, s: nat, c: char)
    requires from <= s < |src|
    ensures Count(c, src[from..s + 1]) == Count(c, src[from..s]) + if src[s] == c then 1 else 0
  {
    assert src[from..s + 1][..|src[from..s + 1]| - 1] == src[from..s];
  }

  /** With `depth` more `x` than `y` read before `s`, the closing `y` is the first place where the
      counts are the same. */
  lemma {:induction false} CloseIsFirstEven(src: string, from: nat, s: nat, x: char, y: char, depth: nat)
    requires x != y && from <= s <= |src| && depth > 0 && Count(x, src[from..s]) == Count(y, src[from..s]) + depth
    ensures match CloseOf(src, s, x, y, depth)
      case Some(e) => Even(src, from, e, x, y) && forall k | s < k < e :: !Even(src, from, k, x, y)
      case None => forall k | s < k <= |src| :: !Even(src, from, k, x, y)
    decreases |src| - s
  {
    if s < |src| {
      CountMore(src, from, s, x);
      CountMore(src, from, s, y);
      var d := if src[s] == y then depth - 1 else if src[s] == x then depth + 1 else depth;
      if d > 0 { CloseIsFirstEven(src, from, s + 1, x, y, d); }
    }
  }

  /** `%bxy` matches from an `x` up to the first place where as many `x` as `y` have been read, and
      nothing if there is no such place. */
  lemma BalanceIsFirstEven(src: string, s: nat, x: char, y: char)
    requires x != y && s <= |src|
    ensures match BalanceEnd(src, s, x, y)
      case Some(e) => src[s] == x && s < e && Even(src, s, e, x, y) && forall k | s < k < e :: !Even(src, s, k, x, y)
      case None => s < |src| && src[s] == x ==> forall k | s < k <= |src| :: !Even(src, s, k, x, y)
  {
    if s < |src| && src[s] == x {
      CountMore(src, s, s, x);
      CountMore(src, s, s, y);
      assert src[s..s] == "";
      CloseIsFirstEven(src, s, s + 1, x, y, 1);
    }
  }
}
