/** Allocation, strings and upvalues: they keep the invariant of the collector. */
module GcAlloc {
  import opened GcHeap
  import opened GcMark
  import opened GcAtomic
  import opened GcSweep
  import opened GcCycle
  import opened GcSteps
  import opened GcMutator

  // ---------- closing an upvalue ----------

  lemma CloseOneOther(g: State, t: Ref)
    requires Inv(g) && g.phase != Propagate && CloseReady(g, t) && g.heap[t].openupval != []
    requires IsOpen(g.heap, g.heap[t].openupval[0])
    ensures CloseOne(g, t) == Detach(g, t) || CloseOne(g, t) == MakeWhite(Detach(g, t), g.heap[t].openupval[0])
    ensures g.heap[t].openupval[0] in CloseOne(g, t).heap ==> IsNew(CloseOne(g, t), g.heap[t].openupval[0])
    ensures forall x | x in CloseOne(g, t).mark && x != g.heap[t].openupval[0] ::
             x in g.mark
             && CloseOne(g, t).mark[x] == g.mark[x]
  {
    hide Inv;
    var u := g.heap[t].openupval[0];
    KindAt(g, u);
  }

  lemma KindAt(g: State, u: Ref)
    requires Inv(g) && u in g.heap
    ensures u in g.mark && (g.mark[u].Black? ==> Blackable(g.heap[u])) && (g.mark[u].Gray? ==> Grayable(g.heap[u]))
    ensures g.mark.Keys == g.heap.Keys
  {}

  lemma CloseOneWellFormed(g: State, t: Ref)
    requires Inv(g) && CloseReady(g, t) && g.heap[t].openupval != []
    ensures IsOpen(g.heap, g.heap[t].openupval[0]) && WellFormed(CloseOne(g, t))
    ensures (g.phase == Propagate ==> NoDead(g)) && AliveShut(CloseOne(g, t))
  {
    hide AliveShut, KindColours, Colours;
    FirstIsOpen(g, t);
    CloseOneOwned(g, t, {});
    TailIsLast(g);
    CloseKinds(g, t);
    CloseOneFrame(g, t);
    if g.phase == Propagate { MarkPhaseNoDead(g); }
    CloseOneAlive(g, t);
    var d := Detach(g, t);
    var r := CloseOne(g, t);
    DetachDoes(g, t);
    hide Detach, CloseOne, Owned;
    TailIsLast(r);
    FixedFrame(d, r);
  }

  /** What is still to be swept in `g` is still to be swept in `r`. */
  ghost predicate TailsKept(g: State, r: State) {
    && r.phase == g.phase && r.currentwhite == g.currentwhite && r.sweepstrgc == g.sweepstrgc
    && |r.strt| == |g.strt| && (forall j | 0 <= j < |g.strt| :: Elems(g.strt[j]) <= Elems(r.strt[j]))
    && (g.sweepgc <= |g.rootgc| ==> r.sweepgc <= |r.rootgc| && TailIn(g, r))
    && (g.sweepgc == 0 ==> r.sweepgc == 0)
    && Elems(g.tmudata) <= Elems(r.tmudata)
  }

  ghost predicate TailIn(g: State, r: State)
    requires g.sweepgc <= |g.rootgc| && r.sweepgc <= |r.rootgc|
  {
    forall x | x in g.rootgc[g.sweepgc..] :: x in r.rootgc[r.sweepgc..]
  }

  /** An object is new in `r`, or it is as it was in `g`. */
  ghost predicate KeptOrNew(g: State, r: State, x: Ref)
    requires x in r.heap
  {
    || IsNew(r, x)
    || (x in g.heap && x in g.mark && x in r.mark && r.mark[x] == g.mark[x]
        && (g.heap[x].Str? ==> r.heap[x].Str?)
        && (IsOpen(g.heap, x) ==> IsOpen(r.heap, x) && r.heap[x].home.thread == g.heap[x].home.thread)
        && Blackable(r.heap[x]) == Blackable(g.heap[x]) && Grayable(r.heap[x]) == Grayable(g.heap[x]))
  }

  lemma ColoursTransfer(g: State, r: State)
    requires KindColours(g) && Colours(g) && g.phase != Propagate && TailsKept(g, r) && r.mark.Keys == r.heap.Keys
    requires forall x | x in r.heap :: KeptOrNew(g, r, x)
    ensures KindColours(r) && Colours(r)
  {
    forall x | x in r.heap
      ensures (r.mark[x].Black? ==> Blackable(r.heap[x])) && (r.mark[x].Gray? ==> Grayable(r.heap[x]))
    {
      assert KeptOrNew(g, r, x);
    }
    assert forall x | x in g.tmudata :: x in Elems(g.tmudata) && x in Elems(r.tmudata);
    if g.phase == SweepString || g.phase == Sweep {
      forall x | x in r.heap && x !in {} ensures IsNew(r, x) || x in r.tmudata || Unswept(r, x) {
        UnsweptStays(g, r, x);
      }
    } else {
      forall x | x in r.heap ensures IsNew(r, x) || x in r.tmudata {
        assert KeptOrNew(g, r, x);
        if !IsNew(r, x) { assert IsNew(g, x) || x in g.tmudata; }
      }
    }
  }

  lemma UnsweptStays(g: State, r: State, x: Ref)
    requires Sweeping(g, {}) && TailsKept(g, r) && x in r.heap && KeptOrNew(g, r, x)
    requires forall x | x in g.tmudata :: x in r.tmudata
    ensures IsNew(r, x) || x in r.tmudata || Unswept(r, x)
  {
    if !IsNew(r, x) {
      assert IsNew(g, x) || x in g.tmudata || Unswept(g, x);
      if g.heap[x].Str? && g.phase == SweepString && (exists j :: g.sweepstrgc <= j < |g.strt| && x in g.strt[j]) {
        var j :| g.sweepstrgc <= j < |g.strt| && x in g.strt[j];
        assert x in Elems(g.strt[j]) && x in Elems(r.strt[j]);
      }
    }
  }

  lemma KeptBody(g: State, r: State, t: Ref, u: Ref, x: Ref)
    requires t in g.heap && g.heap[t].Thread? && g.mark.Keys == g.heap.Keys && x in r.heap && r.mark.Keys == r.heap.Keys
    requires x != t && x != u ==> x in g.heap && r.heap[x] == g.heap[x]
    requires t in r.heap && r.heap[t].Thread?
    requires x == u ==> IsNew(r, u)
    requires x != u ==> x in g.mark && r.mark[x] == g.mark[x]
    ensures KeptOrNew(g, r, x)
  {}

  lemma CloseOneKept(g: State, t: Ref, x: Ref)
    requires Inv(g) && g.phase != Propagate && CloseReady(g, t) && g.heap[t].openupval != []
    requires IsOpen(g.heap, g.heap[t].openupval[0]) && x in CloseOne(g, t).heap
    ensures KeptOrNew(g, CloseOne(g, t), x)
  {
    hide Inv, CloseOne, Detach, KeptOrNew;
    CloseOneOther(g, t);
    CloseOneFrame(g, t);
    DetachDoes(g, t);
    KindAt(g, g.heap[t].openupval[0]);
    KeptBody(g, CloseOne(g, t), t, g.heap[t].openupval[0], x);
  }

  lemma CloseOneSweeping(g: State, t: Ref)
    requires Inv(g) && g.phase != Propagate && CloseReady(g, t) && g.heap[t].openupval != []
    requires IsOpen(g.heap, g.heap[t].openupval[0])
    ensures KindColours(CloseOne(g, t)) && Colours(CloseOne(g, t))
  {
    hide Colours, KindColours, WellFormed, AliveShut, TailsKept, KeptOrNew, CloseOne, Detach;
    var r := CloseOne(g, t);
    CloseOneFrame(g, t);
    DetachTail(g, t);
    forall x | x in r.heap ensures KeptOrNew(g, r, x) { CloseOneKept(g, t, x); }
    ColoursTransfer(g, r);
  }

  lemma LinkedTail(g: State, r: State, u: Ref)
    requires g.sweepgc <= |g.rootgc| && r.rootgc == LinkRoot(g, u).rootgc && r.sweepgc == LinkRoot(g, u).sweepgc
    ensures r.sweepgc <= |r.rootgc| && TailIn(g, r)
  {
    if g.sweepgc == 0 {
      assert r.rootgc[r.sweepgc..] == [u] + g.rootgc[g.sweepgc..];
    } else {
      assert r.rootgc[r.sweepgc..] == g.rootgc[g.sweepgc..];
    }
  }

  lemma DetachTail(g: State, t: Ref)
    requires t in g.heap && g.heap[t].Thread? && g.heap[t].openupval != []
    requires IsOpen(g.heap, g.heap[t].openupval[0]) && g.mark.Keys == g.heap.Keys
    ensures TailsKept(g, CloseOne(g, t))
  {
    var d := Detach(g, t);
    if !IsDead(g, g.heap[t].openupval[0]) && g.sweepgc <= |g.rootgc| { LinkedTail(g, d, g.heap[t].openupval[0]); }
    assert TailsKept(g, d) by { hide Elems, TailIn; }
    CloseOneFrame(g, t);
    hide Detach, CloseOne, Elems;
  }

  lemma OpenColour(g: State, u: Ref, P: set<Ref>)
    requires Tri(g, P, {}) && NoDead(g) && IsOpen(g.heap, u)
    ensures u in g.mark && !IsDead(g, u) && ListCount(g, u) == 0 && (Marked(g, u) ==> IsGray(g, u))
  {
    assert Sorted(g, u);
  }

  lemma DetachSorted(g: State, r: State, t: Ref, u: Ref, x: Ref)
    requires t in g.heap && g.heap[t].Thread? && g.heap[t].openupval != [] && Detached(g, r, t, u) && u in r.heap
    requires IsOpen(g.heap, u) && r.mark == g.mark && r.gray == g.gray && r.grayagain == g.grayagain && r.weak == g.weak
    requires x in g.heap && x in g.mark && x in r.heap && Sorted(g, x) && (x == u ==> IsWhite(g, u))
    ensures Sorted(r, x)
  {}

  lemma DetachLive(g: State, t: Ref)
    requires t in g.heap && g.heap[t].Thread? && g.heap[t].openupval != [] && IsOpen(g.heap, g.heap[t].openupval[0])
    requires !IsDead(g, g.heap[t].openupval[0])
    ensures Detached(g, Detach(g, t), t, g.heap[t].openupval[0]) && Detach(g, t).heap.Keys == g.heap.Keys
    ensures Detach(g, t) == g.(heap := Detach(g, t).heap, uvhead := Detach(g, t).uvhead,
                               rootgc := Detach(g, t).rootgc, sweepgc := Detach(g, t).sweepgc)
  {
    DetachDoes(g, t);
    hide Detached, Without;
  }

  lemma TriRest(g: State, r: State, P: set<Ref>, X: set<Ref>)
    requires Tri(g, P, {}) && r.mark == g.mark && r.heap.Keys == g.heap.Keys && AllMarked(r, X)
    requires r.gray == g.gray && r.grayagain == g.grayagain && r.weak == g.weak
    requires forall x | x in r.heap && x !in X :: x in r.mark && Sorted(r, x)
    requires forall x | x in r.heap && x !in X && x !in P && Marked(r, x) && x !in r.gray :: Covered(r, x)
    ensures Tri(r, P, X)
  {
    hide Sorted, Covered;
    forall x | x !in r.heap ensures ListCount(r, x) == 0 { assert ListCount(g, x) == 0; }
  }

  lemma TriAt(g: State, x: Ref, P: set<Ref>)
    requires Tri(g, P, {}) && x in g.heap
    ensures x in g.mark && Sorted(g, x) && (x !in P && Marked(g, x) && x !in g.gray ==> Covered(g, x))
  {}

  /** A detached upvalue, in the mark phase, before its colour is looked at. */
  lemma DetachTri(g: State, t: Ref, P: set<Ref>)
    requires Tri(g, P, {}) && NoDead(g) && CloseReady(g, t) && g.heap[t].openupval != [] && Pending(g) <= P
    requires IsOpen(g.heap, g.heap[t].openupval[0])
    requires forall u | IsOpen(g.heap, u) :: u in g.uvhead
    ensures g.heap[t].openupval[0] in g.mark && !IsDead(g, g.heap[t].openupval[0])
    ensures ListCount(Detach(g, t), g.heap[t].openupval[0]) == 0
    ensures IsWhite(g, g.heap[t].openupval[0]) ==> Tri(Detach(g, t), P, {})
    ensures Marked(g, g.heap[t].openupval[0]) ==>
      IsGray(g, g.heap[t].openupval[0]) && Tri(Detach(g, t), P, {g.heap[t].openupval[0]})
  {
    var u := g.heap[t].openupval[0];
    var r := Detach(g, t);
    var X := if IsWhite(g, u) then {} else {u};
    OpenColour(g, u, P);
    DetachLive(g, t);
    hide Detach, Detached, Sorted, Covered, Tri, Pending, ThreadOwns;
    forall x | x in r.heap && x !in X ensures x in r.mark && Sorted(r, x) {
      TriAt(g, x, P);
      DetachSorted(g, r, t, u, x) by { DetachedAt(g, r, t, u); }
    }
    forall x | x in r.heap && x !in X && x !in P && Marked(r, x) && x !in r.gray ensures Covered(r, x) {
      TriAt(g, x, P);
      DetachCovered(g, r, t, u, x, P);
    }
    TriRest(g, r, P, X);
  }

  lemma DetachedAt(g: State, r: State, t: Ref, u: Ref)
    requires t in g.heap && g.heap[t].Thread? && g.heap[t].openupval != [] && Detached(g, r, t, u)
    requires r.heap.Keys == g.heap.Keys && u in g.heap
    ensures u in r.heap
  {}

  lemma DetachCovered(g: State, r: State, t: Ref, u: Ref, x: Ref, P: set<Ref>)
    requires t in g.heap && g.heap[t].Thread? && g.heap[t].openupval != [] && Detached(g, r, t, u)
    requires x in g.heap && x in g.mark && x in r.heap && x != u && Sorted(g, x) && Covered(g, x) && r.mark == g.mark
    requires Marked(g, x) && Pending(g) <= P && x !in P && x !in g.gray
    requires forall u | IsOpen(g.heap, u) :: u in g.uvhead
    ensures Covered(r, x)
  {
    if g.mark[x].Black? {
      assert x != t;
      BlackLocal(g.heap, r.heap, g.heap[x]);
    } else {
      GrayIsString(g, x, P);
    }
  }

  /** A gray upvalue turns black. */
  lemma BlackenUpval(d: State, u: Ref, P: set<Ref>)
    requires Tri(d, P, {u}) && NoDangling(d) && IsGray(d, u) && ListCount(d, u) == 0 && u in d.heap
    ensures var b := d.(mark := d.mark[u := Black]);
      Tri(b, P, {u}) && NoDangling(b) && ListCount(b, u) == 0 && PropagatedFrom(d, b) && IsBlack(b, u)
  {
    var b := d.(mark := d.mark[u := Black]);
    hide Tri, NoDangling;
    RecolorX(d, u, Black, P, {u});
    SameHeapNoDangling(d, b);
    assert Whites(b) == Whites(d);
  }

  /** The forward barrier of `luaC_linkupval`. */
  lemma LinkBarrier(b: State, u: Ref, v: Value, P: set<Ref>)
    requires Tri(b, P, {u}) && NoDangling(b) && b.phase == Propagate && IsBlack(b, u) && ListCount(b, u) == 0
    requires ValueRef(v) <= b.heap.Keys
    ensures var r := Barrier(b, u, v);
      && Tri(r, P, {u}) && NoDangling(r) && MarkedFrom(b, r) && IsBlack(r, u) && ListCount(r, u) == 0
      && AllMarked(r, ValueRef(v)) && r.heap == b.heap
  {
    var r := Barrier(b, u, v);
    if v.Coll? && IsWhite(b, v.r) {
      ReallyMarkTri(b, v.r, P, {u});
      hide ReallyMark, Tri;
      SameHeapNoDangling(b, r);
    } else {
      hide Tri;
      MarkedReflexive(b);
      assert v.Coll? ==> v.r in b.mark by { KeysAgreeX(b, P, {u}); }
    }
  }

  lemma KeysAgreeX(g: State, P: set<Ref>, X: set<Ref>)
    requires Tri(g, P, X)
    ensures g.mark.Keys == g.heap.Keys
  {}

  lemma MarkedReflexive(g: State)
    ensures MarkedFrom(g, g)
  {}

  /** A closed upvalue that was gray turns black, and its value is marked. */
  lemma LinkGrayTri(d: State, u: Ref, P: set<Ref>)
    requires Tri(d, P, {u}) && NoDangling(d) && d.phase == Propagate && IsGray(d, u) && ListCount(d, u) == 0
    requires u in d.heap && d.heap[u].UpVal? && d.heap[u].home.Closed?
    ensures Tri(LinkColour(d, u), P - {u}, {}) && NoDangling(LinkColour(d, u)) && PropagatedFrom(d, LinkColour(d, u))
  {
    hide Tri, NoDangling, PropagatedFrom, Barrier, MarkedFrom;
    var v := d.heap[u].home.value;
    var b := d.(mark := d.mark[u := Black]);
    var r := LinkColour(d, u);
    SlotsExist(d, u);
    BlackenUpval(d, u, P);
    assert r == Barrier(b, u, v);
    LinkBarrier(b, u, v, P);
    MarkedIsPropagated(b, r);
    PropagatedTrans(d, b, r);
    SmallerP(r, u, P);
    LeaveX(r, u, P - {u}, {});
  }

  lemma SmallerP(g: State, u: Ref, P: set<Ref>)
    requires Tri(g, P, {u})
    ensures Tri(g, P - {u}, {} + {u})
  {}

  lemma CloseOneMark(g: State, t: Ref)
    requires Inv(g) && g.phase == Propagate && CloseReady(g, t) && g.heap[t].openupval != []
    ensures IsOpen(g.heap, g.heap[t].openupval[0]) && Inv(CloseOne(g, t)) && CloseOne(g, t).phase == Propagate
  {
    var P := Pending(g);
    var u := g.heap[t].openupval[0];
    FirstIsOpen(g, t);
    MarkPhaseNoDead(g);
    CloseOneWellFormed(g, t);
    hide Tri, NoDangling, Owned, UdataLast, FixedOk, AliveShut, Detach, KindColours, CloseReady;
    DetachTri(g, t, P);
    DetachAlive(g, t);
    DetachNoDead(g, t);
    DetachKeys(g, t);
    var d := Detach(g, t);
    AllAliveNoDangling(d);
    DetachFields(g, t);
    hide WellFormed;
    var r := CloseOne(g, t);
    if IsGray(g, u) {
      LinkGrayTri(d, u, P);
    } else {
      TriUpval(d, u, P);
      PropagatedRefl(d);
    }
    hide PropagatedFrom;
    LinkKeeps(g, d, r, u);
    CloseOnePropagating(g, d, r, u);
    PropagatingInv(r);
  }

  lemma LinkKeeps(g: State, d: State, r: State, u: Ref)
    requires (d.mark.Keys == d.heap.Keys && u in d.heap && d.heap[u].UpVal? && r == LinkColour(d, u)) || r == d
    ensures r.heap == d.heap && r.weak == d.weak && r.grayagain == d.grayagain
  {
    if r != d { LinkColourFrame(d, u); }
  }

  lemma PropagatedRefl(g: State)
    ensures PropagatedFrom(g, g)
  {}

  lemma TriUpval(d: State, u: Ref, P: set<Ref>)
    requires Tri(d, P, {}) && !Marked(d, u)
    ensures Tri(d, P - {u}, {})
  {}

  lemma DetachFields(g: State, t: Ref)
    requires CloseReady(g, t) && g.heap[t].openupval != []
    requires IsOpen(g.heap, g.heap[t].openupval[0]) && !IsDead(g, g.heap[t].openupval[0])
    ensures var u := g.heap[t].openupval[0]; var d := Detach(g, t);
      && d == g.(heap := d.heap, uvhead := Without(g.uvhead, {u}), rootgc := d.rootgc, sweepgc := d.sweepgc)
      && d.heap.Keys == g.heap.Keys
      && u in d.heap && d.heap[u].UpVal? && d.heap[u].home.Closed?
      && (forall x | x in g.tmudata && x in g.heap && g.heap[x].Udata? :: d.heap[x].Udata?)
      && (forall x | IsOpen(g.heap, x) && x != u :: IsOpen(d.heap, x))
  {
    DetachLive(g, t);
    DetachClosed(g, t);
    hide Detach, Without, ThreadOwns;
  }

  lemma DetachClosed(g: State, t: Ref)
    requires t in g.heap && g.heap[t].Thread? && g.heap[t].openupval != [] && IsOpen(g.heap, g.heap[t].openupval[0])
    requires !IsDead(g, g.heap[t].openupval[0])
    ensures Detach(g, t).uvhead == Without(g.uvhead, {g.heap[t].openupval[0]})
  {
    hide Without;
  }

  lemma CloseOnePropagating(g: State, d: State, r: State, u: Ref)
    requires Propagating(g) && d.heap.Keys == g.heap.Keys
    requires d == g.(heap := d.heap, uvhead := Without(g.uvhead, {u}), rootgc := d.rootgc, sweepgc := d.sweepgc)
    requires forall x | x in g.tmudata && x in g.heap && g.heap[x].Udata? :: d.heap[x].Udata?
    requires forall x | IsOpen(g.heap, x) && x != u :: IsOpen(d.heap, x)
    requires PropagatedFrom(d, r) && r.heap == d.heap && r.weak == d.weak && r.grayagain == d.grayagain
    requires Tri(r, Pending(g) - {u}, {}) && NoDangling(r)
    ensures Propagating(r)
  {
    hide Tri, NoDangling, Without;
    WithoutMember(g.uvhead, u);
    assert Pending(g) - {u} <= Pending(r);
    hide Pending, Elems;
    TriMore(r, Pending(g) - {u}, Pending(r));
  }

  lemma WithoutMember(s: seq<Ref>, u: Ref)
    ensures forall x :: x in Without(s, {u}) <==> x in s && x != u
  {
    forall x ensures x in Without(s, {u}) <==> x in s && x != u {
      assert x in Without(s, {u}) <==> multiset(Without(s, {u}))[x] > 0;
      assert x in s <==> multiset(s)[x] > 0;
    }
  }

  /** Closing one upvalue keeps the invariant. */
  lemma CloseOneInv(g: State, t: Ref)
    requires Inv(g) && CloseReady(g, t) && g.heap[t].openupval != []
    ensures IsOpen(g.heap, g.heap[t].openupval[0]) && Inv(CloseOne(g, t)) && CloseReady(CloseOne(g, t), t)
    ensures |CloseOne(g, t).heap[t].openupval| < |g.heap[t].openupval|
  {
    hide WellFormed, AliveShut, KindColours, Colours, CloseOne, CloseReady;
    CloseOneReady(g, t);
    if g.phase == Propagate {
      CloseOneMark(g, t);
    } else {
      CloseOneWellFormed(g, t);
      CloseOneSweeping(g, t);
    }
  }

  /** `luaF_close` keeps the invariant in every phase, in the middle of a cycle too. */
  lemma {:induction false} CloseInv(g: State, t: Ref, level: nat)
    requires Inv(g) && CloseReady(g, t)
    ensures Inv(Close(g, t, level)) && CloseReady(Close(g, t, level), t)
    decreases |g.heap[t].openupval|
  {
    hide Inv, CloseOne;
    if g.heap[t].openupval != [] {
      CloseOneInv(g, t);
      if g.heap[g.heap[t].openupval[0]].home.slot >= level {
        assert CloseReady(CloseOne(g, t), t);
        CloseInv(CloseOne(g, t), t, level);
      }
    }
  }

  // ---------- allocation ----------

  /** A new white object `r`; among the old bodies only a list of open upvalues may differ. */
  ghost predicate Allocated(g: State, h: State, r: Ref) {
    && r !in g.heap && h.heap.Keys == g.heap.Keys + {r}
    && (forall x | x in g.heap :: h.heap[x] == g.heap[x]
         || (g.heap[x].Thread? && h.heap[x].Thread? && h.heap[x] == g.heap[x].(openupval := h.heap[x].openupval)))
    && h.mark == g.mark[r := White(g.currentwhite)]
    && h == g.(heap := h.heap, mark := h.mark, rootgc := h.rootgc, sweepgc := h.sweepgc, strt := h.strt,
        uvhead := h.uvhead)
  }

  /** The slots of the old objects are the same after an allocation. */
  lemma AllocatedRefs(g: State, h: State, r: Ref, x: Ref)
    requires Allocated(g, h, r) && x in g.heap
    requires IsOpen(g.heap, x) ==> g.heap[x].home.thread in g.heap
    ensures LiveRefs(h.heap, h.heap[x]) == LiveRefs(g.heap, g.heap[x])
    ensures Blackable(g.heap[x]) ==> AllRefs(h.heap, h.heap[x]) == AllRefs(g.heap, g.heap[x])
  {
    if IsOpen(g.heap, x) { var t := g.heap[x].home.thread; assert h.heap[t] == g.heap[t] || h.heap[t].Thread?; }
  }

  lemma AllocatedAlive(g: State, h: State, r: Ref)
    requires AliveShut(g) && Owned(g, {}) && FixedOk(g) && Allocated(g, h, r) && h.mark.Keys == h.heap.Keys
    requires forall c | c in LiveRefs(h.heap, h.heap[r]) :: Alive(h, c)
    ensures AliveShut(h)
  {
    hide LiveRefs;
    forall x | x in g.heap && Alive(g, x) ensures Alive(h, x) {}
    RootsTransfer(g, h);
    forall x | x in h.heap && Alive(h, x) ensures Follows(g, h, x) {
      if x != r {
        assert UpvalOwned(g, x);
        AllocatedRefs(g, h, r, x);
      }
    }
    AliveTransfer(g, h);
  }

  lemma AllocatedSorted(g: State, h: State, r: Ref, x: Ref)
    requires Allocated(g, h, r) && ListsOk(g) && x in h.heap && x in h.mark && (x != r ==> x in g.mark && Sorted(g, x))
    ensures Sorted(h, x)
  {}

  lemma AllocatedLists(g: State, h: State, r: Ref)
    requires Allocated(g, h, r) && ListsOk(g)
    ensures ListsOk(h)
  {
    forall x | x !in h.heap ensures ListCount(h, x) == 0 { assert ListCount(g, x) == 0; }
  }

  lemma AllocatedOld(g: State, h: State, r: Ref, x: Ref)
    requires Allocated(g, h, r) && Elems(g.uvhead) <= Elems(h.uvhead) && g.mark.Keys == g.heap.Keys
    requires x in h.heap && x !in Pending(h) && Marked(h, x) && x !in h.gray
    ensures x != r && x in g.heap && x !in Pending(g) && Marked(g, x) && x !in g.gray
  {}

  /** The parts of the invariant, put together. */
  lemma TriIntro(h: State, P: set<Ref>)
    requires ListsOk(h) && forall x | x in h.heap :: Sorted(h, x)
    requires forall x | x in h.heap && x !in P && Marked(h, x) && x !in h.gray :: Covered(h, x)
    ensures Tri(h, P, {})
  {
    hide Sorted, Covered;
  }

  lemma TriLists(g: State, P: set<Ref>, X: set<Ref>)
    requires Tri(g, P, X)
    ensures ListsOk(g)
  {}

  lemma AllocatedTri(g: State, h: State, r: Ref)
    requires Tri(g, Pending(g), {}) && Allocated(g, h, r) && Owned(g, {})
    requires Elems(g.uvhead) <= Elems(h.uvhead)
    requires forall u | IsOpen(g.heap, u) :: u in g.uvhead
    ensures Tri(h, Pending(h), {})
  {
    TriLists(g, Pending(g), {});
    AllocatedLists(g, h, r);
    KeysAgree(g, Pending(g));
    assert h.mark.Keys == h.heap.Keys;
    hide Tri, Allocated, Owned, Sorted, Covered, Pending, Elems, ListsOk, Marked;
    forall x | x in h.heap ensures Sorted(h, x) {
      if x in g.heap { TriAt(g, x, Pending(g)); }
      AllocatedSorted(g, h, r, x) by { AllocatedKeys(g, h, r); }
    }
    forall x | x in h.heap && x !in Pending(h) && Marked(h, x) && x !in h.gray ensures Covered(h, x) {
      AllocatedOld(g, h, r, x);
      AllocatedCovered(g, h, r, x);
    }
    TriIntro(h, Pending(h));
  }

  lemma AllocatedKeys(g: State, h: State, r: Ref)
    requires Allocated(g, h, r)
    ensures h.heap.Keys == g.heap.Keys + {r}
  {}

  lemma AllocatedCovered(g: State, h: State, r: Ref, x: Ref)
    requires Tri(g, Pending(g), {}) && Allocated(g, h, r) && Owned(g, {}) && x in g.heap
    requires x !in Pending(g) && Marked(g, x) && x !in g.gray
    requires forall u | IsOpen(g.heap, u) :: u in g.uvhead
    ensures Covered(h, x)
  {
    assert Sorted(g, x) && Covered(g, x) && UpvalOwned(g, x);
    AllocatedRefs(g, h, r, x);
    if !g.mark[x].Black? { GrayIsString(g, x, Pending(g)); }
  }

  lemma AllocInv(g: State, h: State, r: Ref)
    requires Inv(g) && Allocated(g, h, r) && WellFormed(h) && TailsKept(g, h) && Elems(g.uvhead) <= Elems(h.uvhead)
    requires forall c | c in LiveRefs(h.heap, h.heap[r]) :: Alive(h, c)
    ensures Inv(h)
  {
    hide Tri, NoDangling, LiveRefs, UdataLast, Owned, TailsKept;
    AllocatedAlive(g, h, r);
    hide FixedOk, AliveShut, Elems;
    if g.phase == Propagate {
      AllocMark(g, h, r);
    } else {
      forall x | x in h.heap ensures KeptOrNew(g, h, x) { AllocKept(g, h, r, x); }
      ColoursTransfer(g, h);
    }
  }

  lemma AllocKept(g: State, h: State, r: Ref, x: Ref)
    requires Allocated(g, h, r) && x in h.heap && g.mark.Keys == g.heap.Keys
    ensures KeptOrNew(g, h, x)
  {}

  lemma AllocMark(g: State, h: State, r: Ref)
    requires Inv(g) && g.phase == Propagate && Allocated(g, h, r) && WellFormed(h) && AliveShut(h)
    requires Elems(g.uvhead) <= Elems(h.uvhead)
    ensures Inv(h)
  {
    hide Tri, NoDangling, LiveRefs, FixedOk, Owned, AliveShut, Elems;
    MarkPhaseNoDead(g);
    AllocatedTri(g, h, r);
    assert NoDead(h) by { hide Inv; }
    AllAliveNoDangling(h);
    UvheadOpen(h);
    TailIsLast(h);
    hide Allocated;
    AllocPropagating(g, h, r);
    PropagatingInv(h);
  }

  lemma AllocPropagating(g: State, h: State, r: Ref)
    requires Propagating(g) && Allocated(g, h, r) && Tri(h, Pending(h), {}) && NoDangling(h) && RootsExist(h)
    requires forall u | u in h.uvhead :: IsOpen(h.heap, u)
    requires forall u | u in h.tmudata :: u in h.heap && h.heap[u].Udata?
    ensures Propagating(h) && h.phase == g.phase
  {
    hide Tri, NoDangling;
  }

  /** An object on `rootgc`: `luaC_link`. */
  function NewObject(g: State, r: Ref, b: Body): State {
    LinkRoot(g.(heap := g.heap[r := b], mark := g.mark[r := White(g.currentwhite)]), r)
  }

  /** `luaS_newudata` */
  function NewUdata(g: State, r: Ref, env: Ref): State {
    LinkUdata(g.(heap := g.heap[r := Udata(None, env, false)], mark := g.mark[r := White(g.currentwhite)]), r)
  }

  /** `newlstr`, on the list `k` of the string table. */
  function NewString(g: State, r: Ref, k: nat): State
    requires k < |g.strt|
  {
    g.(heap := g.heap[r := Str], mark := g.mark[r := White(g.currentwhite)], strt := g.strt[k := [r] + g.strt[k]])
  }

  lemma NewObjectOwned(g: State, r: Ref, b: Body)
    requires Owned(g, {}) && r !in g.heap && OnRoot(b) && (b.Thread? ==> b.openupval == [])
    ensures Owned(NewObject(g, r, b), {})
  {
    var h := NewObject(g, r, b);
    assert multiset(h.rootgc) == multiset{r} + multiset(g.rootgc);
    forall x ensures RootOwned(h, x) { assert RootOwned(g, x); }
    forall x ensures StrOwned(h, x) { assert StrOwned(g, x); }
    forall x ensures UpvalOwned(h, x) { assert UpvalOwned(g, x); assert UpvalOwned(g, r); }
    forall x ensures ThreadOwns(h, x) { assert ThreadOwns(g, x); }
  }

  lemma NewObjectInv(g: State, r: Ref, b: Body)
    requires Inv(g) && r !in g.heap && OnRoot(b) && !b.Udata? && (b.Thread? ==> b.openupval == [])
    requires forall c | c in LiveRefs(g.heap, b) :: Alive(g, c)
    ensures Inv(NewObject(g, r, b))
  {
    var h := NewObject(g, r, b);
    hide LiveRefs, UdataTail, Colours, KindColours, AliveShut, NewObject;
    NewObjectOwned(g, r, b);
    hide Owned;
    NewObjectFields(g, r, b);
    TailIsLast(g);
    assert g.mainthread != r;
    assert UdataTail(h.heap, g.rootgc, g.mainthread) by { TailNew(g, r, b); }
    LinkTail(h.heap, g.rootgc, g.mainthread, r);
    FixedFrame(g, h);
    TailIsLast(h);
    NewObjectTails(g, r, b);
    assert WellFormed(h);
    hide FixedOk, Allocated, WellFormed, TailsKept;
    AllocInv(g, h, r);
  }

  lemma NewObjectFields(g: State, r: Ref, b: Body)
    requires r !in g.heap && OnRoot(b) && g.mark.Keys == g.heap.Keys
    ensures var h := NewObject(g, r, b);
      && Allocated(g, h, r) && h.mark.Keys == h.heap.Keys && h.heap == g.heap[r := b] && h.rootgc == [r] + g.rootgc
      && LiveRefs(h.heap, h.heap[r]) == LiveRefs(g.heap, b)
      && h.mainthread == g.mainthread && h.fixed == g.fixed && h.tmudata == g.tmudata && h.strt == g.strt
  {}

  lemma NewObjectTails(g: State, r: Ref, b: Body)
    requires r !in g.heap
    ensures TailsKept(g, NewObject(g, r, b)) && Elems(g.uvhead) <= Elems(NewObject(g, r, b).uvhead)
    ensures forall c | Alive(g, c) && c in g.heap :: Alive(NewObject(g, r, b), c)
  {
    var h := NewObject(g, r, b);
    if g.sweepgc <= |g.rootgc| { LinkedTail(g, h, r); }
    hide TailIn, Elems;
  }

  lemma TailNew(g: State, r: Ref, b: Body)
    requires Owned(g, {}) && r !in g.heap && UdataTail(g.heap, g.rootgc, g.mainthread)
    ensures UdataTail(g.heap[r := b], g.rootgc, g.mainthread)
  {
    assert RootOwned(g, r) && multiset(g.rootgc)[r] == 0;
    TailFrame(g.heap, g.heap[r := b], g.rootgc, g.mainthread);
  }

  lemma {:induction false} AfterTake(s: seq<Ref>, m: Ref)
    requires m in s
    ensures After(s, m) <= |s| && m in s[..After(s, m)] && After(s[..After(s, m)], m) == After(s, m)
  {
    if s[0] != m {
      AfterTake(s[1..], m);
      assert s[..After(s, m)][1..] == s[1..][..After(s[1..], m)];
      assert s[..After(s, m)][0] == s[0];
    }
  }

  function InsertAt(s: seq<Ref>, i: nat, u: Ref): seq<Ref>
    requires i <= |s|
  {
    s[..i] + [u] + s[i..]
  }

  lemma InsertAfter(s: seq<Ref>, m: Ref, u: Ref)
    requires m in s
    ensures 0 < After(s, m) <= |s|
    ensures var t := InsertAt(s, After(s, m), u);
      After(t, m) == After(s, m) && m in t && multiset(t) == multiset(s) + multiset{u}
  {
    var i := After(s, m);
    AfterIn(s, m);
    AfterTake(s, m);
    var t := InsertAt(s, i, u);
    assert t == s[..i] + ([u] + s[i..]);
    AfterConcat(s[..i], [u] + s[i..], m);
    assert s == s[..i] + s[i..];
    assert t[i - 1] == m;
  }

  lemma InsertTail(h: map<Ref, Body>, s: seq<Ref>, m: Ref, u: Ref)
    requires UdataTail(h, s, m) && u in h && h[u].Udata?
    ensures After(s, m) <= |s| && UdataTail(h, InsertAt(s, After(s, m), u), m)
    ensures multiset(InsertAt(s, After(s, m), u)) == multiset(s) + multiset{u}
  {
    var i := After(s, m);
    InsertAfter(s, m, u);
    var t := InsertAt(s, i, u);
    hide After;
    forall j | 0 <= j < |t| && t[j] in h ensures j >= After(t, m) <==> h[t[j]].Udata? {
      if j != i { assert t[j] == s[if j < i then j else j - 1]; }
    }
  }

  lemma LinkUdataTail(g: State, r: State, u: Ref)
    requires g.mainthread in g.rootgc && g.sweepgc <= |g.rootgc|
    requires r.rootgc == LinkUdata(g, u).rootgc && r.sweepgc == LinkUdata(g, u).sweepgc
    ensures r.sweepgc <= |r.rootgc| && TailIn(g, r)
  {
    AfterIn(g.rootgc, g.mainthread);
    var i := After(g.rootgc, g.mainthread);
    if g.sweepgc > i {
      assert r.rootgc[r.sweepgc..] == g.rootgc[g.sweepgc..];
    } else {
      assert r.rootgc[r.sweepgc..] == g.rootgc[g.sweepgc..i] + [u] + g.rootgc[i..];
      assert g.rootgc[g.sweepgc..] == g.rootgc[g.sweepgc..i] + g.rootgc[i..];
    }
  }

  lemma LinkUdataOwned(g: State, h: State, u: Ref)
    requires Owned(g, {}) && g.mainthread in g.rootgc && multiset(h.tmudata) == multiset(g.tmudata)
    requires u !in g.heap && u in h.heap && h.heap == g.heap[u := h.heap[u]] && h.heap[u].Udata?
    requires multiset(h.rootgc) == multiset(g.rootgc) + multiset{u} && h.strt == g.strt && h.uvhead == g.uvhead
    ensures Owned(h, {})
  {
    forall x ensures RootOwned(h, x) { assert RootOwned(g, x); }
    forall x ensures StrOwned(h, x) { assert StrOwned(g, x); }
    forall x ensures UpvalOwned(h, x) { assert UpvalOwned(g, x); assert UpvalOwned(g, u); }
    forall x ensures ThreadOwns(h, x) { assert ThreadOwns(g, x); }
  }

  lemma NewUdataInv(g: State, r: Ref, env: Ref)
    requires Inv(g) && r !in g.heap && Alive(g, env)
    ensures Inv(NewUdata(g, r, env))
  {
    var h := NewUdata(g, r, env);
    assert WellFormed(g);
    NewUdataWellFormed(g, r, env);
    NewUdataAllocated(g, r, env);
    hide Inv, WellFormed, Allocated, TailsKept, NewUdata, Elems;
    AllocInv(g, h, r);
  }

  lemma NewUdataWellFormed(g: State, r: Ref, env: Ref)
    requires WellFormed(g) && r !in g.heap
    ensures WellFormed(NewUdata(g, r, env))
  {
    var b := Udata(None, env, false);
    var h := NewUdata(g, r, env);
    TailIsLast(g);
    TailNew(g, r, b);
    InsertTail(g.heap[r := b], g.rootgc, g.mainthread, r);
    assert h.rootgc == InsertAt(g.rootgc, After(g.rootgc, g.mainthread), r);
    LinkUdataOwned(g, h, r);
    hide Owned, UdataTail, After;
    FixedFrame(g, h);
    TailIsLast(h);
  }

  lemma NewUdataAllocated(g: State, r: Ref, env: Ref)
    requires WellFormed(g) && r !in g.heap && Alive(g, env)
    ensures Allocated(g, NewUdata(g, r, env), r) && TailsKept(g, NewUdata(g, r, env))
    ensures NewUdata(g, r, env).uvhead == g.uvhead
    ensures forall c | c in LiveRefs(NewUdata(g, r, env).heap, NewUdata(g, r, env).heap[r]) ::
        Alive(NewUdata(g, r, env), c)
  {
    hide Owned;
    var h := NewUdata(g, r, env);
    if g.sweepgc <= |g.rootgc| { LinkUdataTail(g, h, r); }
    hide TailIn, After;
    assert h.heap[r] == Udata(None, env, false);
  }

  lemma NewStringOwned(g: State, r: Ref, k: nat)
    requires Owned(g, {}) && r !in g.heap && k < |g.strt|
    ensures Owned(NewString(g, r, k), {})
  {
    var h := NewString(g, r, k);
    assert multiset([r] + g.strt[k]) == multiset{r} + multiset(g.strt[k]);
    forall x ensures RootOwned(h, x) { assert RootOwned(g, x); }
    forall x ensures StrOwned(h, x) { assert StrOwned(g, x); StrCountUpdate(g.strt, k, [r] + g.strt[k], x); }
    forall x ensures UpvalOwned(h, x) { assert UpvalOwned(g, x); assert UpvalOwned(g, r); }
    forall x ensures ThreadOwns(h, x) { assert ThreadOwns(g, x); }
  }

  lemma NewStringInv(g: State, r: Ref, k: nat)
    requires Inv(g) && r !in g.heap && k < |g.strt|
    ensures Inv(NewString(g, r, k))
  {
    var h := NewString(g, r, k);
    NewStringOwned(g, r, k);
    TailIsLast(g);
    TailNew(g, r, Str);
    hide Owned, UdataTail, Colours, KindColours, AliveShut;
    FixedFrame(g, h);
    TailIsLast(h);
    NewStringTails(g, r, k);
    assert Allocated(g, h, r) && WellFormed(h) by { hide TailsKept; }
    hide FixedOk, Allocated, WellFormed, NewString;
    AllocInv(g, h, r);
  }

  lemma NewStringTails(g: State, r: Ref, k: nat)
    requires r !in g.heap && k < |g.strt|
    ensures TailsKept(g, NewString(g, r, k)) && Elems(g.uvhead) <= Elems(NewString(g, r, k).uvhead)
    ensures LiveRefs(NewString(g, r, k).heap, NewString(g, r, k).heap[r]) == {}
  {
    assert Elems(g.strt[k]) <= Elems([r] + g.strt[k]);
  }

  /** An object that is not marked becomes white again: `changewhite`, or `makewhite`. */
  lemma ReviveInv(g: State, s: Ref)
    requires Inv(g) && s in g.heap && IsWhite(g, s) && AllAlive(g, LiveRefs(g.heap, g.heap[s]))
    ensures Inv(MakeWhite(g, s))
  {
    var r := MakeWhite(g, s);
    if g.phase == Propagate {
      assert g.mark[s] == White(g.currentwhite);
      SameMark(g, s, White(g.currentwhite));
    } else {
      hide LiveRefs, Owned, FixedOk, UdataLast, Colours;
      SameHeapShapes(g, r);
      ReviveAlive(g, s);
      OtherPhaseInv(g, r);
    }
  }

  lemma ReviveAlive(g: State, s: Ref)
    requires AliveShut(g) && s in g.heap && AllAlive(g, LiveRefs(g.heap, g.heap[s]))
    ensures AliveShut(MakeWhite(g, s))
  {
    hide LiveRefs;
    var r := MakeWhite(g, s);
    RootsTransfer(g, r);
    forall x | x in r.heap && Alive(r, x) ensures Follows(g, r, x) {}
    AliveTransfer(g, r);
  }

  // ---------- finding an upvalue ----------

  /** The place of `level` in a list of open upvalues: before the first one that is not above. */
  function UpvalPos(h: map<Ref, Body>, us: seq<Ref>, level: nat): (i: nat)
    ensures i <= |us|
  {
    if us != [] && IsOpen(h, us[0]) && h[us[0]].home.slot > level then 1 + UpvalPos(h, us[1..], level) else 0
  }

  function NewUpval(g: State, t: Ref, level: nat, r: Ref): State
    requires t in g.heap && g.heap[t].Thread?
  {
    var us := g.heap[t].openupval;
    var th := g.heap[t].(openupval := InsertAt(us, UpvalPos(g.heap, us, level), r));
    g.(heap := g.heap[t := th][r := UpVal(Open(t, level))], mark := g.mark[r := White(g.currentwhite)],
       uvhead := [r] + g.uvhead)
  }

  predicate FoundUpval(g: State, t: Ref, level: nat)
    requires t in g.heap && g.heap[t].Thread?
  {
    var us := g.heap[t].openupval;
    var i := UpvalPos(g.heap, us, level);
    i < |us| && IsOpen(g.heap, us[i]) && g.heap[us[i]].home.slot == level
  }

  /** The upvalue that `luaF_findupval` returns: the one that points to `level`, or a new one. */
  function UpvalFor(g: State, t: Ref, level: nat, r: Ref): Ref
    requires t in g.heap && g.heap[t].Thread?
  {
    if FoundUpval(g, t, level) then g.heap[t].openupval[UpvalPos(g.heap, g.heap[t].openupval, level)] else r
  }

  /** `luaF_findupval`; a dead upvalue is white again before it is returned. */
  function FindUpval(g: State, t: Ref, level: nat, r: Ref): State
    requires t in g.heap && g.heap[t].Thread?
  {
    if FoundUpval(g, t, level) then
      var u := UpvalFor(g, t, level, r);
      if IsDead(g, u) then MakeWhite(g, u) else g
    else NewUpval(g, t, level, r)
  }

  lemma InsertedOnce(us: seq<Ref>, i: nat, r: Ref)
    requires i <= |us|
    ensures multiset(InsertAt(us, i, r)) == multiset(us) + multiset{r}
  {
    assert us == us[..i] + us[i..];
  }

  lemma NewUpvalThread(g: State, h: State, t: Ref, r: Ref, level: nat, x: Ref)
    requires t in g.heap && g.heap[t].Thread? && r !in g.heap && h == NewUpval(g, t, level, r)
    requires ThreadOwns(g, x) && ThreadOwns(g, t)
    ensures ThreadOwns(h, x)
  {
    var us := g.heap[t].openupval;
    InsertedOnce(us, UpvalPos(g.heap, us, level), r);
    assert r !in us;
    if x == t {
      var vs := h.heap[t].openupval;
      forall u | u in vs ensures IsOpen(h.heap, u) && h.heap[u].home.thread == t {
        assert multiset(vs)[u] > 0;
        if u != r { assert multiset(g.heap[t].openupval)[u] > 0 && u in us; }
      }
      forall u ensures multiset(vs)[u] <= 1 {
        assert multiset(us)[u] <= 1;
        if u == r { assert multiset(g.heap[t].openupval)[r] == 0; }
      }
    }
  }

  lemma NewUpvalLists(g: State, t: Ref, level: nat, r: Ref)
    requires t in g.heap && g.heap[t].Thread? && r !in g.heap
    ensures var h := NewUpval(g, t, level, r);
      && h == g.(heap := h.heap, mark := h.mark, uvhead := h.uvhead) && h.heap.Keys == g.heap.Keys + {r}
      && (forall x | x in g.heap && x != t :: h.heap[x] == g.heap[x])
      && h.heap[r] == UpVal(Open(t, level)) && h.heap[t].Thread? && h.heap[t].stack == g.heap[t].stack
      && multiset(h.uvhead) == multiset{r} + multiset(g.uvhead)
      && multiset(h.heap[t].openupval) == multiset(g.heap[t].openupval) + multiset{r}
  {
    var us := g.heap[t].openupval;
    InsertedOnce(us, UpvalPos(g.heap, us, level), r);
    assert multiset([r] + g.uvhead) == multiset{r} + multiset(g.uvhead);
  }

  lemma NewUpvalOther(g: State, h: State, t: Ref, r: Ref, x: Ref)
    requires t in g.heap && g.heap[t].Thread? && r !in g.heap && t in h.heap && h.heap[t].Thread? && r in h.heap
    requires h == g.(heap := h.heap, mark := h.mark, uvhead := h.uvhead) && h.heap.Keys == g.heap.Keys + {r}
    requires (forall x | x in g.heap && x != t :: h.heap[x] == g.heap[x]) && IsOpen(h.heap, r)
    ensures RootOwned(g, x) ==> RootOwned(h, x)
    ensures StrOwned(g, x) ==> StrOwned(h, x)
  {}

  lemma NewUpvalAt(g: State, h: State, t: Ref, level: nat, r: Ref, x: Ref)
    requires t in g.heap && g.heap[t].Thread? && r !in g.heap && level < |g.heap[t].stack|
    requires h.heap.Keys == g.heap.Keys + {r} && (forall x | x in g.heap && x != t :: h.heap[x] == g.heap[x])
    requires h.heap[r] == UpVal(Open(t, level)) && h.heap[t].Thread? && h.heap[t].stack == g.heap[t].stack
    requires multiset(h.uvhead) == multiset{r} + multiset(g.uvhead)
    requires multiset(h.heap[t].openupval) == multiset(g.heap[t].openupval) + multiset{r}
    requires UpvalOwned(g, x) && UpvalOwned(g, r)
    ensures UpvalOwned(h, x)
  {
    assert multiset(h.heap[t].openupval)[r] > 0;
    if x != r && x in g.heap[t].openupval {
      assert multiset(g.heap[t].openupval)[x] > 0 && multiset(h.heap[t].openupval)[x] > 0;
    }
  }

  lemma NewUpvalOwned(g: State, t: Ref, level: nat, r: Ref)
    requires Owned(g, {}) && t in g.heap && g.heap[t].Thread? && r !in g.heap && level < |g.heap[t].stack|
    ensures Owned(NewUpval(g, t, level, r), {})
  {
    var h := NewUpval(g, t, level, r);
    NewUpvalLists(g, t, level, r);
    forall x ensures RootOwned(h, x) && StrOwned(h, x) && UpvalOwned(h, x) && ThreadOwns(h, x) {
      assert RootOwned(g, x) && StrOwned(g, x) && UpvalOwned(g, x) && UpvalOwned(g, r);
      assert ThreadOwns(g, x) && ThreadOwns(g, t);
      hide Owned, NewUpval, RootOwned, StrOwned, UpvalOwned, ThreadOwns;
      NewUpvalOther(g, h, t, r, x);
      NewUpvalAt(g, h, t, level, r, x);
      NewUpvalThread(g, h, t, r, level, x);
    }
    hide RootOwned, StrOwned, UpvalOwned, ThreadOwns, NewUpval;
  }

  lemma NewUpvalWellFormed(g: State, t: Ref, level: nat, r: Ref)
    requires WellFormed(g) && t in g.heap && g.heap[t].Thread? && r !in g.heap && level < |g.heap[t].stack|
    ensures WellFormed(NewUpval(g, t, level, r))
  {
    var h := NewUpval(g, t, level, r);
    NewUpvalOwned(g, t, level, r);
    TailIsLast(g);
    TailNew(g, r, UpVal(Open(t, level)));
    TailFrame(g.heap[r := UpVal(Open(t, level))], h.heap, g.rootgc, g.mainthread);
    hide Owned;
    FixedFrame(g, h);
    TailIsLast(h);
  }

  lemma NewUpvalAllocated(g: State, t: Ref, level: nat, r: Ref)
    requires t in g.heap && g.heap[t].Thread? && r !in g.heap && level < |g.heap[t].stack|
    ensures Allocated(g, NewUpval(g, t, level, r), r) && TailsKept(g, NewUpval(g, t, level, r))
    ensures Elems(g.uvhead) <= Elems(NewUpval(g, t, level, r).uvhead)
    ensures LiveRefs(NewUpval(g, t, level, r).heap, NewUpval(g, t, level, r).heap[r])
        == ValueRef(g.heap[t].stack[level])
  {
    var h := NewUpval(g, t, level, r);
    assert h.heap[t].stack == g.heap[t].stack && h.heap[r] == UpVal(Open(t, level));
    assert h.rootgc == g.rootgc && h.sweepgc == g.sweepgc;
  }

  lemma NewUpvalInv(g: State, t: Ref, level: nat, r: Ref)
    requires Inv(g) && t in g.heap && g.heap[t].Thread? && Alive(g, t) && r !in g.heap && level < |g.heap[t].stack|
    ensures Inv(NewUpval(g, t, level, r))
  {
    hide Owned, UdataTail, FixedOk, TailsKept, LiveRefs, Colours;
    var h := NewUpval(g, t, level, r);
    NewUpvalWellFormed(g, t, level, r);
    NewUpvalAllocated(g, t, level, r);
    SlotAlive(g, t, level);
    forall c | c in LiveRefs(h.heap, h.heap[r]) ensures Alive(h, c) { assert Alive(g, c); }
    AllocInv(g, h, r);
  }

  lemma SlotAlive(g: State, t: Ref, level: nat)
    requires AliveShut(g) && t in g.heap && g.heap[t].Thread? && Alive(g, t) && level < |g.heap[t].stack|
    ensures AllAlive(g, ValueRef(g.heap[t].stack[level]))
  {
    var v := g.heap[t].stack[level];
    assert v in g.heap[t].stack;
    assert ValueRef(v) <= LiveRefs(g.heap, g.heap[t]);
  }

  /** `luaF_findupval` keeps the invariant, and what it returns is alive. */
  lemma FindUpvalInv(g: State, t: Ref, level: nat, r: Ref)
    requires Inv(g) && t in g.heap && g.heap[t].Thread? && Alive(g, t) && r !in g.heap && level < |g.heap[t].stack|
    ensures Inv(FindUpval(g, t, level, r))
    ensures var u := UpvalFor(g, t, level, r); var h := FindUpval(g, t, level, r);
      Alive(h, u) && IsOpen(h.heap, u) && h.heap[u].home == Open(t, level)
  {
    hide Inv;
    assert Owned(g, {}) && AliveShut(g) by { InvParts(g); }
    if FoundUpval(g, t, level) {
      var us := g.heap[t].openupval;
      var u := UpvalFor(g, t, level, r);
      assert u == us[UpvalPos(g.heap, us, level)] && u in us;
      assert ThreadOwns(g, t) && UpvalOwned(g, u);
      SlotAlive(g, t, level);
      KindAt(g, u);
      if IsDead(g, u) { ReviveInv(g, u); }
    } else {
      NewUpvalInv(g, t, level, r);
    }
  }

  lemma InvParts(g: State)
    requires Inv(g)
    ensures Owned(g, {}) && AliveShut(g) && g.mark.Keys == g.heap.Keys && FixedOk(g) && UdataLast(g)
  {}
}
