/** Open upvalues (`lfunc.c`): a list per thread, sorted by stack level, and a ring through all of them. */
module FuncUpvals {

  const NONE: int := -1

  /** The head of the ring. */
  const UVHEAD: nat := 0

  /** Where an upvalue has its value: in a stack slot, or in itself. */
  datatype Place<V> = InStack(level: nat) | Own(v: V)

  ghost predicate NoDup(s: seq<nat>) { forall i, j | 0 <= i < j < |s| :: s[i] != s[j] }

  // ---------- the list of a thread ----------

  /** From `head` the `next` fields lead through the upvalues in `s` to `to`. */
  ghost predicate Segment(next: map<nat, int>, head: int, s: seq<nat>, to: int)
    decreases |s|
  {
    if s == [] then head == to else head == s[0] && s[0] in next && Segment(next, next[s[0]], s[1..], to)
  }

  lemma {:induction false} SegmentSame(next: map<nat, int>, other: map<nat, int>, head: int, s: seq<nat>, to: int)
    requires Segment(next, head, s, to) && forall x | x in s :: x in next ==> x in other && other[x] == next[x]
    ensures Segment(other, head, s, to)
    decreases |s|
  {
    if s != [] {
      assert s[0] in s && forall x | x in s[1..] :: x in s;
      SegmentSame(next, other, next[s[0]], s[1..], to);
    }
  }

  lemma {:induction false} SegmentParts(next: map<nat, int>, head: int, a: seq<nat>, b: seq<nat>, to: int)
    requires Segment(next, head, a + b, to)
    ensures var m := if b == [] then to else b[0]; Segment(next, head, a, m) && Segment(next, m, b, to)
    decreases |a|
  {
    if a == [] {
      assert a + b == b;
    } else {
      assert (a + b)[1..] == a[1..] + b && (a + b)[0] == a[0];
      SegmentParts(next, next[a[0]], a[1..], b, to);
    }
  }

  lemma {:induction false} SegmentJoin(next: map<nat, int>, head: int, a: seq<nat>, m: int, b: seq<nat>, to: int)
    requires Segment(next, head, a, m) && Segment(next, m, b, to)
    ensures Segment(next, head, a + b, to)
    decreases |a|
  {
    if a == [] {
      assert a + b == b;
    } else {
      assert (a + b)[1..] == a[1..] + b && (a + b)[0] == a[0];
      SegmentJoin(next, next[a[0]], a[1..], m, b, to);
    }
  }

  /** The last one gets another `next`. */
  lemma {:induction false} SegmentRelinked(next: map<nat, int>, head: int, s: seq<nat>, to: int, to2: int)
    requires Segment(next, head, s, to) && s != [] && NoDup(s)
    ensures Segment(next[s[|s| - 1] := to2], head, s, to2)
    decreases |s|
  {
    if |s| > 1 {
      assert s[1..][|s| - 2] == s[|s| - 1];
      forall i, j | 0 <= i < j < |s[1..]| ensures s[1..][i] != s[1..][j] {
        assert s[i + 1] == s[1..][i] && s[j + 1] == s[1..][j];
      }
      SegmentRelinked(next, next[s[0]], s[1..], to, to2);
    }
  }

  /** Strictly descending stack levels. */
  ghost predicate Descending<V>(place: map<nat, Place<V>>, s: seq<nat>) {
    && (forall i | 0 <= i < |s| :: s[i] in place && place[s[i]].InStack?)
    && (forall i, j | 0 <= i < j < |s| :: place[s[i]].level > place[s[j]].level)
  }

  // ---------- the ring ----------

  /** The members of the ring, with its head before and behind them. */
  function Member(r: seq<nat>, i: nat): nat { if 1 <= i <= |r| then r[i - 1] else UVHEAD }

  ghost predicate Ring(nextU: map<nat, nat>, prevU: map<nat, nat>, r: seq<nat>) {
    && NoDup(r) && UVHEAD !in r && UVHEAD in nextU && UVHEAD in prevU && (forall x | x in r :: x in nextU && x in prevU)
    && forall i | 0 <= i <= |r| :: Linked(nextU, prevU, Member(r, i), Member(r, i + 1))
  }

  predicate Linked(nextU: map<nat, nat>, prevU: map<nat, nat>, a: nat, b: nat) {
    a in nextU && nextU[a] == b && b in prevU && prevU[b] == a
  }

  /** A new upvalue comes right behind the head. */
  lemma RingAdd(nextU: map<nat, nat>, prevU: map<nat, nat>, r: seq<nat>, x: nat)
    requires Ring(nextU, prevU, r) && x !in r && x != UVHEAD
    ensures var first := nextU[UVHEAD]; Ring(nextU[x := first][UVHEAD := x], prevU[x := UVHEAD][first := x], [x] + r)
  {
    var first := nextU[UVHEAD];
    var n2, p2, r2 := nextU[x := first][UVHEAD := x], prevU[x := UVHEAD][first := x], [x] + r;
    assert Linked(nextU, prevU, Member(r, 0), Member(r, 1));
    forall i, j | 0 <= i < j < |r2| ensures r2[i] != r2[j] {
      if i == 0 { assert r2[j] in r; } else { assert r[i - 1] != r[j - 1]; }
    }
    forall i | 0 <= i <= |r2| ensures Linked(n2, p2, Member(r2, i), Member(r2, i + 1)) {
      if i >= 2 {
        assert Linked(nextU, prevU, Member(r, i - 1), Member(r, i));
        assert Member(r2, i) == Member(r, i - 1) && Member(r2, i + 1) == Member(r, i);
        RingApart(nextU, prevU, r, i - 1);
      }
    }
  }

  /** Only the head is before the first member. */
  lemma RingApart(nextU: map<nat, nat>, prevU: map<nat, nat>, r: seq<nat>, i: nat)
    requires Ring(nextU, prevU, r) && 1 <= i <= |r|
    ensures Member(r, i) != UVHEAD && Member(r, i) in r && Member(r, i + 1) != Member(r, 1)
  {
    assert r[i - 1] in r;
    if i < |r| { assert r[i] != r[0]; } else { assert r[0] in r; }
  }

  /** `unlinkupval` takes one out. */
  lemma RingRemove(nextU: map<nat, nat>, prevU: map<nat, nat>, r: seq<nat>, k: nat)
    requires Ring(nextU, prevU, r) && k < |r|
    ensures var x := r[k]; x in nextU && x in prevU && var r2 := r[..k] + r[k + 1..];
      && Ring(nextU[prevU[x] := nextU[x]], prevU[nextU[x] := prevU[x]], r2)
      && x !in r2 && forall y | y in r && y != x :: y in r2
  {
    var x, r2 := r[k], r[..k] + r[k + 1..];
    assert x in r;
    assert Linked(nextU, prevU, Member(r, k), Member(r, k + 1))
        && Linked(nextU, prevU, Member(r, k + 1), Member(r, k + 2));
    var n2, p2 := nextU[prevU[x] := nextU[x]], prevU[nextU[x] := prevU[x]];
    forall i, j | 0 <= i < j < |r2| ensures r2[i] != r2[j] {
      assert r2[i] == r[if i < k then i else i + 1] && r2[j] == r[if j < k then j else j + 1];
    }
    forall i | 0 <= i < |r2| ensures r2[i] != x && r2[i] in r { assert r2[i] == r[if i < k then i else i + 1]; }
    forall y | y in r && y != x ensures y in r2 {
      var i :| 0 <= i < |r| && r[i] == y;
      assert r2[if i < k then i else i - 1] == y;
    }
    forall i | 0 <= i <= |r2|
      ensures Linked(n2, p2, Member(r2, i), Member(r2, i + 1))
    {
      RingGap(nextU, prevU, r, k, i);
    }
  }

  lemma RingGap(nextU: map<nat, nat>, prevU: map<nat, nat>, r: seq<nat>, k: nat, i: nat)
    requires Ring(nextU, prevU, r) && k < |r| && i < |r| && r[k] in nextU && r[k] in prevU
    ensures var x := r[k]; var r2 := r[..k] + r[k + 1..];
      Linked(nextU[prevU[x] := nextU[x]], prevU[nextU[x] := prevU[x]], Member(r2, i), Member(r2, i + 1))
  {
    var r2 := r[..k] + r[k + 1..];
    assert Linked(nextU, prevU, Member(r, k), Member(r, k + 1))
        && Linked(nextU, prevU, Member(r, k + 1), Member(r, k + 2));
    if i < k {
      assert Linked(nextU, prevU, Member(r, i), Member(r, i + 1));
      assert Member(r2, i) == Member(r, i) && Member(r2, i + 1) == Member(r, i + 1);
      MembersApart(nextU, prevU, r, i, k);
      MembersApart(nextU, prevU, r, i + 1, k + 2);
    } else if i == k {
      assert Member(r2, i) == Member(r, k) && Member(r2, i + 1) == Member(r, k + 2);
    } else {
      assert Linked(nextU, prevU, Member(r, i + 1), Member(r, i + 2));
      assert Member(r2, i) == Member(r, i + 1) && Member(r2, i + 1) == Member(r, i + 2);
      MembersApart(nextU, prevU, r, k, i + 1);
      MembersApart(nextU, prevU, r, k + 2, i + 2);
    }
  }

  /** Different places of the ring have different members. */
  lemma MembersApart(nextU: map<nat, nat>, prevU: map<nat, nat>, r: seq<nat>, i: nat, j: nat)
    requires Ring(nextU, prevU, r) && i < j <= |r| + 1 && !(i == 0 && j == |r| + 1)
    ensures Member(r, i) != Member(r, j)
  {
    if i > 0 { assert r[i - 1] in r; }
    if j <= |r| { assert r[j - 1] in r; }
  }

  // ---------- a thread and its upvalues ----------

  /** The list of a thread with a stack of the given size. */
  ghost predicate ListIs<V>(next: map<nat, int>, head: int, list: seq<nat>, place: map<nat, Place<V>>, size: nat) {
    && Segment(next, head, list, NONE) && NoDup(list) && Descending(place, list)
    && forall x | x in list :: x in place && place[x].InStack? && place[x].level < size
  }

  /** The list and the ring. */
  ghost predicate Linking<V>(next: map<nat, int>, head: int, list: seq<nat>, nextU: map<nat, nat>, prevU: map<nat,
                             nat>, ring: seq<nat>,
                             place: map<nat, Place<V>>, size: nat) {
    && ListIs(next, head, list, place, size) && Ring(nextU, prevU, ring)
    && (forall x | x in list :: x in ring) && (forall x | x in ring :: x in place) && UVHEAD !in place
  }

  class Thread<V> {
    var stack: seq<V>
    var openupval: int
    var place: map<nat, Place<V>>
    var next: map<nat, int>
    var nextU: map<nat, nat>
    var prevU: map<nat, nat>
    /** Upvalues that the collector has found dead and not freed yet. */
    var dead: set<nat>
    /** The open upvalues of this thread, and those of all threads in the order of the ring. */
    ghost var list: seq<nat>
    ghost var ring: seq<nat>

    ghost predicate ListOk()
      reads this
    {
      ListIs(next, openupval, list, place, |stack|)
    }

    ghost predicate Valid()
      reads this
    {
      Linking(next, openupval, list, nextU, prevU, ring, place, |stack|)
    }

    /** A thread without upvalues, in a state that has none. */
    constructor (stack: seq<V>)
      ensures Valid() && this.stack == stack && list == [] && ring == [] && place == map[]
    {
      this.stack, openupval, place, next, dead := stack, NONE, map[], map[], {};
      nextU, prevU := map[UVHEAD := UVHEAD], map[UVHEAD := UVHEAD];
      list, ring := [], [];
    }

    /** What an upvalue of this thread holds. */
    ghost function Read(x: nat): V
      requires Valid() && x in place && (place[x].InStack? ==> x in list)
      reads this
    {
      match place[x] case InStack(level) => stack[level] case Own(v) => v
    }

    /** `luaF_findupval`: the one open upvalue for the slot. A dead one is alive again; a new one comes
        into its place in the list, and into the ring. */
    method FindUpval(level: nat, at: nat) returns (uv: nat)
      requires Valid() && level < |stack| && at !in place && at != UVHEAD
      modifies this
      ensures Valid() && uv in list && place[uv] == InStack(level) && uv !in dead && stack == old(stack)
      ensures forall x | x in old(place) :: x in place && place[x] == old(place)[x]
      ensures (exists x :: x in old(list) && old(place)[x] == InStack(level))
          ==> uv in old(list) && list == old(list) && ring == old(ring) && place == old(place)
      ensures (forall x | x in old(list) :: old(place)[x] != InStack(level)) ==>
        && uv == at && ring == [at] + old(ring)
        && exists k :: 0 <= k <= |old(list)| && list == old(list)[..k] + [at] + old(list)[k..]
    {
      hide Ring, Segment, NoDup, Descending;
      var found, pp, p, k := FindPlace(level);
      if found {
        uv := p;
        dead := dead - {uv};
      } else {
        uv := at;
        NewUpval(level, at, pp, p, k);
      }
    }

    /** Its loop: the upvalue for the slot, or the place where one belongs. */
    method FindPlace(level: nat) returns (found: bool, pp: int, p: int, ghost k: nat)
      requires Valid()
      ensures k <= |list| && p == (if k < |list| then list[k] else NONE) && pp == if k == 0 then NONE else list[k - 1]
      ensures if found then k < |list| && place[list[k]] == InStack(level) else
        && (forall i | 0 <= i < k :: place[list[i]].level > level)
            && (forall i | k <= i < |list| :: place[list[i]].level < level)
        && forall x | x in list :: place[x] != InStack(level)
    {
      hide Ring, Segment, NoDup;
      HeadIs(next, openupval, list);
      pp, p := NONE, openupval;
      k := 0;
      while p != NONE && place[p].level >= level
        invariant k <= |list| && p == (if k < |list| then list[k] else NONE) && pp == if k == 0 then NONE
            else list[k - 1]
        invariant forall i | 0 <= i < k :: place[list[i]].level > level
        decreases |list| - k
      {
        assert list[k] in list;
        if place[p].level == level { return true, pp, p, k; }
        NextIs(next, openupval, list, k);
        pp, p := p, next[p];
        k := k + 1;
      }
      Smaller(place, list, level, k);
      found := false;
    }

    /** A new upvalue, in its place behind `pp`. */
    method NewUpval(level: nat, at: nat, pp: int, p: int, ghost k: nat)
      requires Valid() && level < |stack| && at !in place && at != UVHEAD && k <= |list|
      requires p == (if k < |list| then list[k] else NONE) && pp == if k == 0 then NONE else list[k - 1]
      requires (forall i | 0 <= i < k :: place[list[i]].level > level)
      requires forall i | k <= i < |list| :: place[list[i]].level < level
      modifies this
      ensures Valid() && list == old(list)[..k] + [at] + old(list)[k..] && ring == [at] + old(ring)
          && stack == old(stack)
      ensures place == old(place)[at := InStack(level)] && dead == old(dead) - {at}
    {
      hide Ring, Segment, NoDup, Descending;
      assert at !in ring;
      Link(at);
      PutInList(level, at, pp, p, k);
    }

    method PutInList(level: nat, at: nat, pp: int, p: int, ghost k: nat)
      requires ListOk() && level < |stack| && at !in place && k <= |list|
      requires p == (if k < |list| then list[k] else NONE) && pp == if k == 0 then NONE else list[k - 1]
      requires (forall i | 0 <= i < k :: place[list[i]].level > level)
      requires forall i | k <= i < |list| :: place[list[i]].level < level
      modifies `next, `openupval, `place, `dead, `list
      ensures ListOk() && list == old(list)[..k] + [at] + old(list)[k..]
          && (forall x | x in list :: x == at || x in old(list))
      ensures place == old(place)[at := InStack(level)] && dead == old(dead) - {at}
    {
      hide Segment, NoDup, Descending;
      InsertedOrder(place, list, level, at, k);
      InsertedAt(next, openupval, list, at, k);
      next := next[at := p];
      if pp == NONE { openupval := at; } else { next := next[pp := at]; }
      place := place[at := InStack(level)];
      dead := dead - {at};
      list := list[..k] + [at] + list[k..];
    }

    /** A new upvalue goes into the ring. */
    method Link(uv: nat)
      requires Ring(nextU, prevU, ring) && uv !in ring && uv != UVHEAD
      modifies `nextU, `prevU, `ring
      ensures Ring(nextU, prevU, ring) && ring == [uv] + old(ring)
    {
      RingAdd(nextU, prevU, ring, uv);
      prevU := prevU[uv := UVHEAD];
      nextU := nextU[uv := nextU[UVHEAD]];
      prevU := prevU[nextU[uv] := uv];
      nextU := nextU[UVHEAD := uv];
      ring := [uv] + ring;
    }

    /** `unlinkupval` */
    method Unlink(uv: nat)
      requires Ring(nextU, prevU, ring) && uv in ring
      modifies `nextU, `prevU, `ring
      ensures Ring(nextU, prevU, ring) && uv !in ring && (forall x | x in ring :: x in old(ring))
          && forall x | x in old(ring) && x != uv :: x in ring
    {
      ghost var k :| 0 <= k < |ring| && ring[k] == uv;
      RingRemove(nextU, prevU, ring, k);
      hide Ring;
      ghost var r := ring;
      prevU := prevU[nextU[uv] := prevU[uv]];
      nextU := nextU[prevU[uv] := nextU[uv]];
      ring := ring[..k] + ring[k + 1..];
      forall x | x in ring ensures x in r { assert x in r[..k] || x in r[k + 1..]; }
    }

    /** `luaF_close`: exactly the upvalues at or above the level leave the list. Dead ones are freed; the
        others take their values with them. */
    method Close(level: nat)
      requires Valid()
      modifies this
      ensures Valid() && stack == old(stack) && (forall x | x in list :: place[x].level < level)
      ensures exists k ::
        && (0 <= k <= |old(list)| && list == old(list)[k..])
        && forall i | 0 <= i < k :: old(place)[old(list)[i]].level >= level
      ensures forall x | x in old(list) && x in place :: (x in list || place[x].Own?) && Read(x) == old(Read(x))
      ensures forall x | x in old(place) :: (x in place <==> !(x in old(dead) && x in old(list) && x !in list))
      ensures forall x | x in place :: x in old(place)
      ensures forall x | x in place :: place[x] == if x in old(list) && x !in list then Own(stack[old(place)[x].level])
          else old(place)[x]
    {
      ghost var list0, place0, dead0 := list, place, dead;
      ghost var k := CloseAll(level);
      hide Ring, Segment, NoDup, Left, Descending;
      AllBelow(place, list, level);
      SplitApart(list0, k);
      LeftIs(place0, place, dead0, stack, list0[..k]);
    }

    /** Its loop; it closes the first `k` upvalues of the list. */
    method CloseAll(level: nat) returns (ghost k: nat)
      requires Valid()
      modifies this
      ensures Valid() && stack == old(stack) && k <= |old(list)| && list == old(list)[k..]
          && Left(old(place), place, old(dead), stack, old(list)[..k])
      ensures (forall i | 0 <= i < k :: old(place)[old(list)[i]].level >= level)
          && (list != [] ==> place[list[0]].level < level)
      ensures forall x | x in list :: place[x] == old(place)[x]
    {
      hide Ring, Segment, NoDup, Left, Descending, Moved;
      k := 0;
      ghost var list0, place0, dead0 := list, place, dead;
      assert list[0..] == list && list[..0] == [];
      NothingLeft(place, dead, stack);
      HeadIs(next, openupval, list);
      while openupval != NONE && place[openupval].level >= level
        invariant Valid() && openupval == (if list == [] then NONE else list[0]) && k <= |list0| && list == list0[k..]
            && stack == old(stack)
        invariant Left(place0, place, dead0, stack, list0[..k]) && NoDup(list0)
        invariant forall x | x in list :: x in dead <==> x in dead0
        invariant forall i | 0 <= i < k :: place0[list0[i]].level >= level
        invariant forall x | x in list :: place[x] == place0[x]
        decreases |list|
      {
        assert list[0] == list0[k] && list0[..k + 1] == list0[..k] + [list0[k]] && list0[k..][1..] == list0[k + 1..];
        ghost var was, deadWas := place, dead;
        NotAgain(list0, k);
        assert list0[k] in list && forall x | x in list[1..] :: x in list;
        CloseFirst();
        MovedOthers(was, deadWas, stack, list0[k]);
        LeftMore(place0, was, dead0, stack, list0[..k], list0[k], deadWas, place);
        HeadIs(next, openupval, list);
        k := k + 1;
      }
    }

    /** The first open upvalue leaves the list and the ring. */
    method CloseFirst()
      requires Valid() && list != []
      modifies this
      ensures Valid() && stack == old(stack) && list == old(list)[1..]
      ensures Movable(old(place), old(stack), old(list)[0])
          && place == Moved(old(place), old(dead), stack, old(list)[0])
      ensures dead == old(dead) - {old(list)[0]}
    {
      hide Linking, ListIs, Ring, Segment, NoDup, Descending, Moved;
      FirstIs(next, openupval, list, nextU, prevU, ring, place, stack);
      var uv: nat := openupval;
      ghost var list0, ring0, place0, dead0 := list, ring, place, dead;
      ghost var nextU0, prevU0 := nextU, prevU;
      openupval := next[uv];
      Unlink(uv);
      MoveValue(uv);
      list := list[1..];
      FirstClosed(next, list0, nextU0, prevU0, ring0, place0, stack, dead0, nextU, prevU, ring);
    }

    /** A dead upvalue is freed; another one takes its value out of the stack. */
    method MoveValue(uv: nat)
      requires Movable(place, stack, uv)
      modifies `place, `dead
      ensures place == Moved(old(place), old(dead), stack, uv) && dead == old(dead) - {uv}
    {
      if uv in dead {
        place := place - {uv};
        dead := dead - {uv};
      } else {
        place := place[uv := Own(stack[place[uv].level])];
      }
    }
  }

  lemma FirstIs<V>(next: map<nat, int>, head: int, list: seq<nat>, nextU: map<nat, nat>, prevU: map<nat, nat>,
                   ring: seq<nat>,
                   place: map<nat, Place<V>>, stack: seq<V>)
    requires Linking(next, head, list, nextU, prevU, ring, place, |stack|) && list != []
    ensures head == list[0] && list[0] in next && list[0] in ring && Ring(nextU, prevU, ring)
        && Movable(place, stack, list[0])
  {
    assert list[0] in list;
    hide Ring;
  }

  /** The state after the first upvalue has left the list and the ring. */
  lemma FirstClosed<V>(next: map<nat, int>, list: seq<nat>, nextU: map<nat, nat>, prevU: map<nat, nat>, ring: seq<nat>,
                       place: map<nat, Place<V>>, stack: seq<V>, dead: set<nat>, nextU2: map<nat, nat>,
                           prevU2: map<nat, nat>, ring2: seq<nat>)
    requires list != [] && Linking(next, list[0], list, nextU, prevU, ring, place, |stack|)
        && Movable(place, stack, list[0])
    requires Ring(nextU2, prevU2, ring2) && list[0] !in ring2 && list[0] in next
    requires (forall x | x in ring2 :: x in ring) && forall x | x in ring && x != list[0] :: x in ring2
    ensures Linking(next, next[list[0]], list[1..], nextU2, prevU2, ring2, Moved(place, dead, stack, list[0]), |stack|)
  {
    RestOk(next, list[0], list, place);
    hide Ring, Segment, NoDup, Descending, Moved;
    MovedOthers(place, dead, stack, list[0]);
    var other := Moved(place, dead, stack, list[0]);
    DescendingSame(place, other, list[1..]);
    RestPlaced(list, ring, ring2, place, other, |stack|);
    assert UVHEAD !in other by { MovedFewer(place, dead, stack, list[0]); }
  }

  lemma MovedFewer<V>(place: map<nat, Place<V>>, dead: set<nat>, stack: seq<V>, uv: nat)
    requires Movable(place, stack, uv)
    ensures Moved(place, dead, stack, uv).Keys <= place.Keys
  {}

  predicate Movable<V>(place: map<nat, Place<V>>, stack: seq<V>, uv: nat) {
    uv in place && place[uv].InStack? && place[uv].level < |stack|
  }

  /** A dead upvalue is gone; another one has its own value. */
  function Moved<V>(place: map<nat, Place<V>>, dead: set<nat>, stack: seq<V>, uv: nat): map<nat, Place<V>>
    requires Movable(place, stack, uv)
  {
    if uv in dead then place - {uv} else place[uv := Own(stack[place[uv].level])]
  }

  lemma MovedOthers<V>(place: map<nat, Place<V>>, dead: set<nat>, stack: seq<V>, uv: nat)
    requires Movable(place, stack, uv)
    ensures forall x | x in place && x != uv ::
      x in Moved(place, dead, stack, uv) && Moved(place, dead, stack, uv)[x] == place[x]
  {}

  /** The other open upvalues stay where they are. */
  lemma RestPlaced<V>(list: seq<nat>, ring0: seq<nat>, ring: seq<nat>, place: map<nat, Place<V>>, other: map<nat,
                      Place<V>>, size: nat)
    requires list != [] && list[0] !in list[1..] && (forall x | x in list :: x in ring0)
        && (forall x | x in ring0 :: x in place)
    requires forall x | x in list :: x in place && place[x].InStack? && place[x].level < size
    requires list[0] !in ring && (forall x | x in ring :: x in ring0)
    requires forall x | x in ring0 && x != list[0] :: x in ring
    requires forall x | x in place && x != list[0] :: x in other && other[x] == place[x]
    ensures forall x | x in list[1..] :: x in ring && x in other && other[x].InStack? && other[x].level < size
    ensures forall x | x in ring :: x in other
  {
    forall x | x in list[1..] ensures x in list && x != list[0] {}
  }

  lemma DescendingSame<V>(place: map<nat, Place<V>>, other: map<nat, Place<V>>, s: seq<nat>)
    requires Descending(place, s) && forall x | x in s && x in place :: x in other && other[x] == place[x]
    ensures Descending(other, s)
  {
    assert forall i | 0 <= i < |s| :: s[i] in s;
  }

  /** The upvalues in `gone` have been closed: dead ones are freed, the others have their own values. */
  ghost predicate Left<V>(place0: map<nat, Place<V>>, place: map<nat, Place<V>>, dead: set<nat>, stack: seq<V>,
                          gone: seq<nat>) {
    && (forall x | x in gone :: x in place0 && place0[x].InStack? && place0[x].level < |stack|)
    && (forall x | x in place0 :: (x in place <==> !(x in dead && x in gone)))
    && (forall x | x in place :: x in place0)
    && (forall x | x in place :: place[x] == if x in gone then Own(stack[place0[x].level]) else place0[x])
  }

  lemma NothingLeft<V>(place: map<nat, Place<V>>, dead: set<nat>, stack: seq<V>)
    ensures Left(place, place, dead, stack, [])
  {}

  lemma LeftMore<V>(place0: map<nat, Place<V>>, place: map<nat, Place<V>>, dead: set<nat>, stack: seq<V>,
                    gone: seq<nat>, uv: nat, dead2: set<nat>, place2: map<nat, Place<V>>)
    requires Left(place0, place, dead, stack, gone) && uv !in gone && Movable(place, stack, uv)
    requires (uv in dead2 <==> uv in dead) && place2 == Moved(place, dead2, stack, uv)
    ensures Left(place0, place2, dead, stack, gone + [uv])
  {
    forall x ensures x in gone + [uv] <==> x in gone || x == uv {
      assert (gone + [uv])[|gone|] == uv;
    }
  }

  lemma LeftIs<V>(place0: map<nat, Place<V>>, place: map<nat, Place<V>>, dead: set<nat>, stack: seq<V>, gone: seq<nat>)
    requires Left(place0, place, dead, stack, gone)
    ensures (forall x | x in place0 :: (x in place <==> !(x in dead && x in gone)))
        && (forall x | x in place :: x in place0)
    ensures forall x | x in place && x in gone ::
      place0[x].InStack? && place0[x].level < |stack| && place[x] == Own(stack[place0[x].level])
    ensures forall x | x in place && x !in gone :: place[x] == place0[x]
  {}

  lemma NotAgain(s: seq<nat>, k: nat)
    requires NoDup(s) && k < |s|
    ensures s[k] !in s[..k] && s[k] !in s[k + 1..] && s[k..] == [s[k]] + s[k + 1..]
  {
    forall i | 0 <= i < k ensures s[..k][i] != s[k] { assert s[i] != s[k]; }
    var t := s[k + 1..];
    forall i | 0 <= i < |t| ensures t[i] != s[k] { assert t[i] == s[k + 1 + i]; }
  }

  lemma {:induction false} NextIs(next: map<nat, int>, head: int, s: seq<nat>, k: nat)
    requires Segment(next, head, s, NONE) && k < |s|
    ensures s[k] in next && next[s[k]] == if k + 1 < |s| then s[k + 1] else NONE
    decreases k
  {
    HeadIs(next, next[s[0]], s[1..]);
    if k > 0 { NextIs(next, next[s[0]], s[1..], k - 1); }
  }

  lemma HeadIs(next: map<nat, int>, head: int, s: seq<nat>)
    requires Segment(next, head, s, NONE)
    ensures if s == [] then head == NONE else head == s[0] && head != NONE
  {}

  lemma RestOk<V>(next: map<nat, int>, head: int, s: seq<nat>, place: map<nat, Place<V>>)
    requires Segment(next, head, s, NONE) && s != [] && NoDup(s) && Descending(place, s)
    ensures head == s[0] && s[0] in next && Segment(next, next[s[0]], s[1..], NONE) && NoDup(s[1..])
        && Descending(place, s[1..])
    ensures s[0] !in s[1..] && (forall x | x in s[1..] :: x in s) && forall x | x in s && x != s[0] :: x in s[1..]
  {
    forall i | 0 <= i < |s[1..]| ensures s[1..][i] == s[i + 1] && s[i + 1] != s[0] {}
  }

  /** The list is sorted, so from the first slot below a level on, all are. */
  lemma AllBelow<V>(place: map<nat, Place<V>>, s: seq<nat>, level: nat)
    requires Descending(place, s) && (s != [] ==> place[s[0]].level < level)
    ensures forall x | x in s :: x in place && place[x].InStack? && place[x].level < level
  {
    forall x | x in s ensures x in place && place[x].InStack? && place[x].level < level {
      var i :| 0 <= i < |s| && s[i] == x;
      if i > 0 { assert place[s[0]].level > place[s[i]].level; }
    }
  }

  lemma SplitApart(s: seq<nat>, k: nat)
    requires k <= |s| && NoDup(s)
    ensures forall x | x in s :: (x in s[..k]) == (x !in s[k..])
    ensures forall x | x in s[..k] :: x in s
  {
    forall x | x in s ensures (x in s[..k]) == (x !in s[k..]) {
      var i :| 0 <= i < |s| && s[i] == x;
      if i < k { assert s[..k][i] == x; } else { assert s[k..][i - k] == x; }
    }
  }

  lemma Smaller<V>(place: map<nat, Place<V>>, s: seq<nat>, level: nat, k: nat)
    requires Descending(place, s) && k <= |s| && (forall i | 0 <= i < k :: place[s[i]].level > level)
    requires k < |s| ==> place[s[k]].level < level
    ensures forall i | k <= i < |s| :: place[s[i]].level < level
    ensures forall x | x in s :: x in place && place[x] != InStack(level)
  {
    forall i | k < i < |s| ensures place[s[i]].level < level { assert place[s[k]].level > place[s[i]].level; }
  }

  /** A new upvalue between the ones above it and the ones below. */
  lemma InsertedOrder<V>(place: map<nat, Place<V>>, s: seq<nat>, level: nat, at: nat, k: nat)
    requires NoDup(s) && Descending(place, s) && k <= |s| && at !in place
    requires (forall i | 0 <= i < k :: place[s[i]].level > level)
    requires forall i | k <= i < |s| :: place[s[i]].level < level
    ensures var s2 := s[..k] + [at] + s[k..];
        NoDup(s2) && Descending(place[at := InStack(level)], s2) && at !in s && forall x | x in s2 :: x == at || x in s
  {
    var s2, place2 := s[..k] + [at] + s[k..], place[at := InStack(level)];
    forall i | 0 <= i < |s| ensures s[i] != at { assert s[i] in place; }
    forall i | 0 <= i < |s2| ensures s2[i] == if i < k then s[i] else if i == k then at else s[i - 1] {}
    forall i, j | 0 <= i < j < |s2| ensures place2[s2[i]].level > place2[s2[j]].level && s2[i] != s2[j] {
      var i2, j2 := if i < k then i else i - 1, if j < k then j else j - 1;
      if i != k && j != k { assert place[s[i2]].level > place[s[j2]].level; }
    }
  }

  lemma InsertedAt(next: map<nat, int>, head: int, s: seq<nat>, at: nat, k: nat)
    requires Segment(next, head, s, NONE) && NoDup(s) && k <= |s| && at !in s
    ensures var p := if k < |s| then s[k] else NONE; var s2 := s[..k] + [at] + s[k..];
      if k == 0 then Segment(next[at := p], at, s2, NONE) else Segment(next[at := p][s[k - 1] := at], head, s2, NONE)
  {
    var a, b := s[..k], s[k..];
    assert s == a + b && a + [at] + b == a + ([at] + b);
    SegmentParts(next, head, a, b, NONE);
    InsertedList(next, head, a, b, at, if k < |s| then s[k] else NONE);
  }

  lemma InsertedList(next: map<nat, int>, head: int, a: seq<nat>, b: seq<nat>, at: nat, p: int)
    requires Segment(next, head, a, p) && Segment(next, p, b, NONE) && NoDup(a + b) && at !in a + b
    ensures if a == [] then Segment(next[at := p], at, a + ([at] + b), NONE)
            else Segment(next[at := p][a[|a| - 1] := at], head, a + ([at] + b), NONE)
  {
    var n1 := next[at := p];
    forall x | x in a || x in b ensures x != at { assert x in a + b; }
    SegmentSame(next, n1, head, a, p);
    SegmentSame(next, n1, p, b, NONE);
    if a == [] {
      assert a + ([at] + b) == [at] + b && ([at] + b)[1..] == b;
    } else {
      var last := a[|a| - 1];
      var n2 := n1[last := at];
      forall i, j | 0 <= i < j < |a| ensures a[i] != a[j] { assert (a + b)[i] == a[i] && (a + b)[j] == a[j]; }
      SegmentRelinked(n1, head, a, p, at);
      forall x | x in b ensures x != last {
        var j :| 0 <= j < |b| && b[j] == x;
        assert (a + b)[|a| + j] == x && (a + b)[|a| - 1] == last;
      }
      assert last in a;
      SegmentSame(n1, n2, p, b, NONE);
      assert ([at] + b)[1..] == b && n2[at] == p;
      assert Segment(n2, at, [at] + b, NONE);
      SegmentJoin(n2, head, a, at, [at] + b, NONE);
    }
  }
}
