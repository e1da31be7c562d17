/** `singlestep` keeps the invariant, in every phase. */
module GcSteps {
  import opened GcHeap
  import opened GcMark
  import opened GcAtomic
  import opened GcSweep
  import opened GcCycle

  /** Two bodies that ownership does not tell apart. */
  ghost predicate SameShape(a: Body, b: Body) {
    && (a.Str? <==> b.Str?) && (a.Udata? <==> b.Udata?)
    && (a.Thread? <==> b.Thread?)
    && (a.Thread? ==> b.openupval == a.openupval)
    && (a.UpVal? <==> b.UpVal?)
    && (a.UpVal? ==> a.home == b.home || (a.home.Closed? && b.home.Closed?))
    && (a.Table? <==> b.Table?) && (a.CClosure? <==> b.CClosure?) && (a.LClosure? <==> b.LClosure?)
    && (a.Proto? <==> b.Proto?)
  }

  predicate InStack(h: map<Ref, Body>, home: Home)
    requires home.Open?
  {
    home.thread in h && h[home.thread].Thread? && home.slot < |h[home.thread].stack|
  }

  /** The slots that open upvalues point to are not cut off. */
  ghost predicate Fits(h: map<Ref, Body>, k: map<Ref, Body>) {
    forall u | IsOpen(h, u) && InStack(h, h[u].home) :: InStack(k, h[u].home)
  }

  ghost predicate SameShapes(h: map<Ref, Body>, k: map<Ref, Body>) {
    h.Keys == k.Keys && (forall x | x in h :: SameShape(h[x], k[x])) && Fits(h, k)
  }

  /** No stack gets shorter. */
  lemma LongStacks(h: map<Ref, Body>, k: map<Ref, Body>)
    requires forall x | x in h && h[x].Thread? :: x in k && k[x].Thread? && |k[x].stack| >= |h[x].stack|
    ensures Fits(h, k)
  {}

  lemma ShapeOwnedAt(g: State, r: State, x: Ref)
    requires SameShapes(g.heap, r.heap) && r.strt == g.strt && r.uvhead == g.uvhead
    requires multiset(r.rootgc) + multiset(r.tmudata) == multiset(g.rootgc) + multiset(g.tmudata)
    ensures RootOwned(g, x) ==> RootOwned(r, x)
    ensures StrOwned(g, x) ==> StrOwned(r, x)
    ensures UpvalOwned(g, x) ==> UpvalOwned(r, x)
  {
    assert (multiset(r.rootgc) + multiset(r.tmudata))[x] == (multiset(g.rootgc) + multiset(g.tmudata))[x];
    if x in g.heap { assert SameShape(g.heap[x], r.heap[x]); }
    if IsOpen(g.heap, x) {
      var t := g.heap[x].home.thread;
      if t in g.heap { assert SameShape(g.heap[t], r.heap[t]); }
    }
  }

  lemma ShapeThread(g: State, r: State, x: Ref)
    requires SameShapes(g.heap, r.heap) && ThreadOwns(g, x)
    ensures ThreadOwns(r, x)
  {
    if x in r.heap && r.heap[x].Thread? {
      assert SameShape(g.heap[x], r.heap[x]);
      forall u | u in r.heap[x].openupval ensures IsOpen(r.heap, u) && r.heap[u].home.thread == x {
        assert SameShape(g.heap[u], r.heap[u]);
      }
    }
  }

  lemma ShapeOwned(g: State, r: State)
    requires Owned(g, {})
    requires SameShapes(g.heap, r.heap) && r.strt == g.strt && r.uvhead == g.uvhead
    requires multiset(r.rootgc) + multiset(r.tmudata) == multiset(g.rootgc) + multiset(g.tmudata)
    ensures Owned(r, {})
  {
    forall x ensures RootOwned(r, x) && StrOwned(r, x) && UpvalOwned(r, x) && ThreadOwns(r, x) {
      ShapeOwnedAt(g, r, x);
      ShapeThread(g, r, x);
    }
  }

  lemma TidiedShapes(h: map<Ref, Body>, k: map<Ref, Body>)
    requires TidiedHeap(h, k)
    ensures SameShapes(h, k)
  {
    forall x | x in h ensures SameShape(h[x], k[x]) { assert Tidied(h[x], k[x]); }
    forall x | x in h && h[x].Thread? ensures k[x] == h[x] { assert Tidied(h[x], k[x]); }
    LongStacks(h, k);
  }

  /** Well-formedness when the lists stay as they are. */
  lemma ShapeWellFormed(g: State, r: State)
    requires WellFormed(g) && SameShapes(g.heap, r.heap) && r.mark.Keys == r.heap.Keys
    requires r.strt == g.strt && r.uvhead == g.uvhead && r.rootgc == g.rootgc && r.tmudata == g.tmudata
    requires r.fixed == g.fixed && r.mainthread == g.mainthread
    ensures WellFormed(r)
  {
    ShapeOwned(g, r);
    hide Owned;
    forall x | x in g.heap ensures SameShape(g.heap[x], r.heap[x]) {}
    TailIsLast(g);
    TailFrame(g.heap, r.heap, g.rootgc, g.mainthread);
    TailIsLast(r);
    FixedFrame(g, r);
  }

  // ---------- Pause ----------

  lemma RestNoDead(g: State)
    requires AliveShut(g) && Resting(g)
    requires forall s | s in g.fixed :: s !in g.tmudata
    ensures forall x | x in g.mark && g.mark[x].White? :: g.mark[x].bit == g.currentwhite
  {
    forall x | x in g.mark && g.mark[x].White? ensures g.mark[x].bit == g.currentwhite {
      if x in g.tmudata { assert x in Elems(g.tmudata) && Alive(g, x); }
    }
  }

  lemma FixedNotTmu(g: State)
    requires WellFormed(g)
    ensures forall s | s in g.fixed :: s !in g.tmudata
  {}

  /** When nothing is dead, no slot dangles. */
  lemma AllAliveNoDangling(g: State)
    requires AliveShut(g) && NoDead(g)
    ensures NoDangling(g) && RootsExist(g)
  {
    forall r | r in g.heap ensures LiveRefs(g.heap, g.heap[r]) <= g.heap.Keys {
      assert Alive(g, r);
      assert AllAlive(g, LiveRefs(g.heap, g.heap[r]));
    }
  }

  /** And conversely. */
  lemma NoDanglingAlive(g: State)
    requires NoDangling(g) && RootsExist(g) && NoDead(g) && g.mark.Keys == g.heap.Keys
    requires forall u | u in g.tmudata :: u in g.heap
    ensures AliveShut(g)
  {
    forall x | x in g.heap ensures Alive(g, x) {}
    forall r | r in g.heap ensures AllAlive(g, LiveRefs(g.heap, g.heap[r])) { SlotsExist(g, r); }
  }

  lemma ClearedLists(g: State, P: set<Ref>)
    requires KindColours(g) && Resting(g) && Elems(g.tmudata) <= P
    requires forall u | u in g.tmudata :: u in g.heap && g.heap[u].Udata?
    ensures Tri(g.(gray := [], grayagain := [], weak := []), P, {})
  {
    var r := g.(gray := [], grayagain := [], weak := []);
    forall x | x in r.heap ensures Sorted(r, x) {
      assert IsNew(g, x) || x in g.tmudata;
    }
  }

  lemma MarkRootTri(g: State, P: set<Ref>)
    requires Tri(g, P, {}) && NoDangling(g) && RootsExist(g) && g.heap[g.mainthread].Thread?
    requires g.gray == [] && g.grayagain == [] && g.weak == []
    ensures Tri(MarkRoot(g), P, {}) && NoDangling(MarkRoot(g))
    ensures MarkedFrom(g, MarkRoot(g).(phase := g.phase))
    ensures Marked(MarkRoot(g), g.mainthread) && AllMarked(MarkRoot(g), ValueRef(g.registry))
  {
    hide Tri, MarkObject, MarkValue, MarkMt;
    var g0 := g.(gray := [], grayagain := [], weak := []);
    assert g0 == g;
    SlotsExist(g, g.mainthread);
    var g1 := MarkObject(g, g.mainthread);
    MarkObjectTri(g, g.mainthread, P, {});
    var g2 := MarkValue(g1, g.heap[g.mainthread].gt);
    SameHeapNoDangling(g, g1);
    MarkValueTri(g1, g.heap[g.mainthread].gt, P, {});
    var g3 := MarkValue(g2, g.registry);
    SameHeapNoDangling(g, g2);
    MarkValueTri(g2, g.registry, P, {});
    var g4 := MarkMt(g3, g.mt);
    SameHeapNoDangling(g, g3);
    MarkMtTri(g3, g.mt, P);
    MarkedTrans(g, g1, g2);
    MarkedTrans(g, g2, g3);
    MarkedTrans(g, g3, g4);
    assert MarkRoot(g) == g4.(phase := Propagate);
    SameHeapNoDangling(g, MarkRoot(g));
    SameObjectsTri(g4, MarkRoot(g), P);
  }

  /** The mark-phase invariant gives the rest of the invariant. */
  lemma PropagatingInv(g: State)
    requires Propagating(g) && g.phase == Propagate && WellFormed(g)
    ensures Inv(g) && NoDead(g)
  {
    forall x | x in g.heap
      ensures (g.mark[x].Black? ==> Blackable(g.heap[x])) && (g.mark[x].Gray? ==> Grayable(g.heap[x]))
    {
      assert Sorted(g, x);
    }
    NoDanglingAlive(g);
  }

  /** A state at rest, with its lists emptied, satisfies the mark-phase invariant. */
  lemma RestTri(g: State, g0: State)
    requires Inv(g) && (g.phase == Pause || g.phase == Finalize)
    requires g0 == g.(gray := [], grayagain := [], weak := [])
    ensures Tri(g0, Pending(g0), {}) && NoDangling(g0) && RootsExist(g0) && g.heap[g.mainthread].Thread?
    ensures forall r | r in g0.mark && g0.mark[r].White? :: g0.mark[r].bit == g0.currentwhite
    ensures forall u | u in g0.uvhead :: IsOpen(g0.heap, u)
    ensures forall u | u in g0.tmudata :: u in g0.heap && g0.heap[u].Udata?
  {
    FixedNotTmu(g);
    RestNoDead(g);
    assert NoDead(g);
    AllAliveNoDangling(g);
    TailIsLast(g);
    ClearedLists(g, Pending(g0));
    SameHeapNoDangling(g, g0);
    UvheadOpen(g);
  }

  lemma UvheadOpen(g: State)
    requires Owned(g, {})
    ensures forall u | u in g.uvhead :: IsOpen(g.heap, u)
  {
    forall u | u in g.uvhead ensures IsOpen(g.heap, u) { assert multiset(g.uvhead)[u] > 0 && UpvalOwned(g, u); }
  }

  lemma MarkRootSame(g: State)
    ensures MarkRoot(g) == MarkRoot(g.(gray := [], grayagain := [], weak := []))
  {
    hide MarkObject, MarkValue, MarkMt;
  }

  lemma MarkRootPropagating(g: State)
    requires Tri(g, Pending(g), {}) && NoDangling(g) && RootsExist(g) && g.heap[g.mainthread].Thread?
    requires g.gray == [] && g.grayagain == [] && g.weak == []
    requires forall r | r in g.mark && g.mark[r].White? :: g.mark[r].bit == g.currentwhite
    requires forall u | u in g.uvhead :: IsOpen(g.heap, u)
    requires forall u | u in g.tmudata :: u in g.heap && g.heap[u].Udata?
    ensures Propagating(MarkRoot(g))
    ensures MarkRoot(g) == g.(mark := MarkRoot(g).mark, gray := MarkRoot(g).gray, phase := Propagate)
    ensures MarkRoot(g).mark.Keys == g.mark.Keys
  {
    hide Tri, NoDangling, Elems;
    MarkRootTri(g, Pending(g));
    assert MarkRoot(g).phase == Propagate by { hide MarkMt, MarkValue, MarkObject; }
    hide MarkRoot;
    MarkRootFields(g, MarkRoot(g));
  }

  lemma PauseInv(g: State)
    requires Inv(g) && (g.phase == Pause || g.phase == Finalize)
    ensures Inv(MarkRoot(g)) && MarkRoot(g).phase == Propagate
    ensures MarkRoot(g).heap == g.heap
  {
    hide Tri, NoDangling, Owned, AliveShut, Elems, KindColours, Resting, MarkRoot, UdataLast, FixedOk, Propagating;
    var g0 := g.(gray := [], grayagain := [], weak := []);
    RestTri(g, g0);
    MarkRootSame(g);
    MarkRootPropagating(g0);
    var r := MarkRoot(g);
    SameHeapShapes(g, r);
    ShapeWellFormed(g, r);
    PropagatingInv(r);
  }

  lemma MarkRootFields(g: State, r: State)
    requires MarkedFrom(g, r.(phase := g.phase))
    requires forall x | x in g.mark && g.mark[x].White? :: g.mark[x].bit == g.currentwhite
    ensures r == g.(mark := r.mark, gray := r.gray, phase := r.phase) && r.mark.Keys == g.mark.Keys
    ensures forall x | x in r.mark && r.mark[x].White? :: r.mark[x].bit == r.currentwhite
  {}

  lemma SameHeapShapes(g: State, r: State)
    requires r.heap == g.heap
    ensures SameShapes(g.heap, r.heap)
  {}

  // ---------- Propagate ----------

  lemma PropagateStepInv(g: State)
    requires Inv(g) && g.phase == Propagate && g.gray != []
    ensures g.gray[0] in g.heap && Inv(PropagateMark(g)) && PropagateMark(g).phase == Propagate
    ensures TidiedHeap(g.heap, PropagateMark(g).heap)
  {
    hide Tri, NoDangling, Owned, AliveShut, UdataLast, FixedOk, PropagateMark, WeakListed, Settled;
    PropagateSettles(g, Pending(g));
    var r := PropagateMark(g);
    SettledKeeps(g, r);
    TriMore(r, Pending(g), Pending(r));
    TidiedShapes(g.heap, r.heap);
    ShapeWellFormed(g, r);
    PropagatingInv(r);
  }

  lemma SettledKeeps(g: State, r: State)
    requires Settled(g, r) && Propagating(g)
    ensures Pending(g) <= Pending(r) && TidiedHeap(g.heap, r.heap)
    ensures r == g.(heap := r.heap, mark := r.mark, gray := r.gray, grayagain := r.grayagain, weak := r.weak)
    ensures r.mark.Keys == g.mark.Keys && RootsExist(r)
    ensures Marked(r, r.mainthread) && AllMarked(r, ValueRef(r.registry))
    ensures forall x | x in r.mark && r.mark[x].White? :: r.mark[x].bit == r.currentwhite
    ensures forall u | u in r.uvhead :: IsOpen(r.heap, u)
    ensures forall u | u in r.tmudata :: u in r.heap && r.heap[u].Udata?
  {
    hide Tri, NoDangling;
    forall u | u in r.uvhead ensures IsOpen(r.heap, u) { assert IsOpen(g.heap, u) && Tidied(g.heap[u], r.heap[u]); }
    forall u | u in r.tmudata ensures u in r.heap && r.heap[u].Udata? { assert Tidied(g.heap[u], r.heap[u]); }
  }

  // ---------- the end of the mark phase ----------

  /** At the beginning of a sweep everything is still to be swept. */
  lemma AllUnswept(g: State)
    requires Owned(g, {}) && g.mark.Keys == g.heap.Keys && g.phase == SweepString && g.sweepgc == 0 && g.sweepstrgc == 0
    requires forall u | u in g.tmudata :: u in g.heap && g.heap[u].Udata?
    ensures Sweeping(g, {})
  {
    assert g.rootgc[0..] == g.rootgc;
    forall x | x in g.heap && x !in {} ensures IsNew(g, x) || x in g.tmudata || Unswept(g, x) {
      assert RootOwned(g, x) && StrOwned(g, x) && UpvalOwned(g, x);
      if g.heap[x].Str? {
        StrCountIn(g.strt, x);
      } else if IsOpen(g.heap, x) {
        var t := g.heap[x].home.thread;
        assert RootOwned(g, t);
        assert t in g.rootgc || t in g.tmudata;
      } else {
        assert x in g.rootgc || x in g.tmudata;
      }
    }
  }

  /** What `SeparateFrom` moves stands behind the main thread. */
  lemma {:induction false} SeparateTail(g: State, i: nat)
    requires UdataTail(g.heap, g.rootgc, g.mainthread) && i >= After(g.rootgc, g.mainthread)
    ensures UdataTail(SeparateFrom(g, i).heap, SeparateFrom(g, i).rootgc, g.mainthread)
    decreases |g.rootgc| - i
  {
    if i < |g.rootgc| {
      var h := SeparateOne(g, i);
      SeparateOneDoes(g, i);
      AfterIn(g.rootgc, g.mainthread);
      if |h.rootgc| < |g.rootgc| {
        CutTail(g.heap, g.rootgc, g.mainthread, i);
        AfterCut(g.rootgc, g.mainthread, i);
        assert h.rootgc == Cut(g.rootgc, i);
        TailFrame(g.heap, h.heap, h.rootgc, g.mainthread) by { SeparatedKinds(g, h); }
        SeparateTail(h, i);
      } else {
        assert h.rootgc == g.rootgc;
        TailFrame(g.heap, h.heap, h.rootgc, g.mainthread) by { SeparatedKinds(g, h); }
        SeparateTail(h, i + 1);
      }
    }
  }

  lemma SeparatedKinds(g: State, h: State)
    requires Separated(g, h)
    ensures forall x | x in h.heap :: x in g.heap && h.heap[x].Udata? == g.heap[x].Udata?
  {}

  ghost predicate AtomicLists(g: State, r: State) {
    && SameShapes(g.heap, r.heap) && r.mark.Keys == r.heap.Keys
    && multiset(r.rootgc) + multiset(r.tmudata) == multiset(g.rootgc) + multiset(g.tmudata)
    && UdataTail(r.heap, r.rootgc, g.mainthread)
    && (forall u | u in r.tmudata :: u in r.heap && r.heap[u].Udata?)
    && r == g.(heap := r.heap, mark := r.mark, gray := r.gray, grayagain := r.grayagain, weak := r.weak,
               rootgc := r.rootgc, tmudata := r.tmudata)
  }

  lemma ShapesTrans(a: map<Ref, Body>, b: map<Ref, Body>, c: map<Ref, Body>)
    requires SameShapes(a, b) && SameShapes(b, c)
    ensures SameShapes(a, c)
  {
    forall x | x in a ensures SameShape(a[x], c[x]) { assert SameShape(a[x], b[x]) && SameShape(b[x], c[x]); }
    forall u | IsOpen(a, u) && InStack(a, a[u].home) ensures InStack(c, a[u].home) {
      assert SameShape(a[u], b[u]) && InStack(b, b[u].home);
    }
  }

  lemma AtomicMarkLists(g: State)
    requires Propagating(g) && g.gray == [] && UdataTail(g.heap, g.rootgc, g.mainthread)
    ensures AtomicLists(g, AtomicMark(g))
  {
    hide Tri, NoDangling, UdataTail, SeparateFrom, MarkTmu, Separated, Atomic1, Atomic2, Atomic3, MarkedUp, AtomicFrom,
        Atomic4;
    AtomicStages(g);
    var g3 := Atomic3(Atomic2(Atomic1(g)));
    var r := AtomicMark(g);
    assert r == Atomic4(g3);
    Atomic3Lists(g, g3);
    Atomic4Lists(g3, SeparateFrom(g3, After(g3.rootgc, g3.mainthread)), r);
    MarkedUpTmu(g, r, g3, SeparateFrom(g3, After(g3.rootgc, g3.mainthread)));
    MarkedUpFrom(g, r);
    ShapesTrans(g.heap, g3.heap, r.heap);
  }

  lemma MarkedUpTmu(g: State, r: State, g3: State, h: State)
    requires Separated(g3, h) && FromSeparate(h, r)
    requires forall u | u in g3.tmudata :: u in g3.heap && g3.heap[u].Udata?
    ensures forall u | u in r.tmudata :: u in r.heap && r.heap[u].Udata?
  {
    forall u | u in r.tmudata ensures u in r.heap && r.heap[u].Udata? {
      var j :| 0 <= j < |h.tmudata| && h.tmudata[j] == u;
      if j < |g3.tmudata| { assert g3.tmudata[j] == u; } else { assert Finalizable(g3, u); }
      assert Tidied(g3.heap[u], h.heap[u]) && Tidied(h.heap[u], r.heap[u]);
    }
  }

  lemma MarkedUpFrom(g: State, r: State)
    requires MarkedUp(g, r) && Propagating(g)
    ensures AtomicFrom(g, r) && r.mark.Keys == r.heap.Keys
    ensures r == g.(heap := r.heap, mark := r.mark, gray := r.gray, grayagain := r.grayagain, weak := r.weak,
                    rootgc := r.rootgc, tmudata := r.tmudata)
  {}

  lemma Atomic3Lists(g: State, g3: State)
    requires AtomicFrom(g, g3) && g3.rootgc == g.rootgc && g3.tmudata == g.tmudata
    requires UdataTail(g.heap, g.rootgc, g.mainthread)
    requires forall u | u in g.tmudata :: u in g.heap && g.heap[u].Udata?
    ensures SameShapes(g.heap, g3.heap) && UdataTail(g3.heap, g3.rootgc, g3.mainthread) && g3.mainthread == g.mainthread
    ensures forall u | u in g3.tmudata :: u in g3.heap && g3.heap[u].Udata?
  {
    TidiedShapes(g.heap, g3.heap);
    assert forall x | x in g.heap :: SameShape(g.heap[x], g3.heap[x]);
    TailFrame(g.heap, g3.heap, g.rootgc, g.mainthread);
  }

  lemma Atomic4Lists(g: State, h: State, r: State)
    requires UdataTail(g.heap, g.rootgc, g.mainthread)
    requires h == SeparateFrom(g, After(g.rootgc, g.mainthread)) && Separated(g, h) && FromSeparate(h, r)
    ensures SameShapes(g.heap, r.heap) && UdataTail(r.heap, r.rootgc, g.mainthread)
    ensures multiset(r.rootgc) + multiset(r.tmudata) == multiset(g.rootgc) + multiset(g.tmudata)
  {
    SeparateTail(g, After(g.rootgc, g.mainthread));
    hide SeparateFrom;
    TidiedShapes(g.heap, h.heap);
    TidiedShapes(h.heap, r.heap);
    ShapesTrans(g.heap, h.heap, r.heap);
    assert forall x | x in h.heap :: SameShape(h.heap[x], r.heap[x]);
    TailFrame(h.heap, r.heap, h.rootgc, g.mainthread);
  }

  lemma ClearedShapes(g: State, r: State)
    requires ClearedFrom(g, r)
    ensures SameShapes(g.heap, r.heap)
  {
    forall x | x in g.heap ensures SameShape(g.heap[x], r.heap[x]) {
      if g.heap[x].Table? { assert Emptied(g.heap[x], r.heap[x]); }
    }
  }

  lemma ListsWellFormed(g: State, r: State)
    requires WellFormed(g) && SameShapes(g.heap, r.heap) && r.mark.Keys == r.heap.Keys
    requires multiset(r.rootgc) + multiset(r.tmudata) == multiset(g.rootgc) + multiset(g.tmudata)
    requires UdataTail(r.heap, r.rootgc, g.mainthread)
    requires forall u | u in r.tmudata :: u in r.heap && r.heap[u].Udata?
    requires r.strt == g.strt && r.uvhead == g.uvhead && r.fixed == g.fixed && r.mainthread == g.mainthread
    ensures WellFormed(r)
  {
    ShapeOwned(g, r);
    hide Owned;
    assert forall x | x in g.heap :: SameShape(g.heap[x], r.heap[x]);
    TailIsLast(r);
    FixedFrame(g, r);
  }

  lemma TriKinds(g: State, P: set<Ref>)
    requires Tri(g, P, {})
    ensures KindColours(g)
  {
    forall x | x in g.heap
      ensures (g.mark[x].Black? ==> Blackable(g.heap[x])) && (g.mark[x].Gray? ==> Grayable(g.heap[x]))
    {
      assert Sorted(g, x);
    }
  }

  lemma MarkedUpTri(g0: State, g: State)
    requires MarkedUp(g0, g)
    ensures Tri(g, {}, {})
  {}

  /** Kinds and colours after the weak tables have been cleared. */
  lemma ClearedColours(g: State, r: State)
    requires KindColours(g) && ClearedFrom(g, r)
    ensures KindColours(r)
  {
    forall x | x in r.heap
      ensures (r.mark[x].Black? ==> Blackable(r.heap[x])) && (r.mark[x].Gray? ==> Grayable(r.heap[x]))
    {
      if g.heap[x].Table? { assert Emptied(g.heap[x], r.heap[x]); }
    }
  }

  lemma AtomicInv(g: State)
    requires Inv(g) && g.phase == Propagate && g.gray == []
    ensures Inv(Atomic(g)) && Atomic(g).phase == SweepString
  {
    hide Tri, NoDangling, Owned, UdataTail, AliveShut, ClearTables, MarkedUp, Clearing, ClearedFrom, AtomicMark,
        KindColours, Sweeping;
    TailIsLast(g);
    AtomicIsSafe(g);
    AtomicStages(g);
    AtomicMarkLists(g);
    var m := AtomicMark(g);
    assert m == Atomic4(Atomic3(Atomic2(Atomic1(g)))) by { AtomicMarkDef(g); }
    ReadyToClear(g, m);
    ClearTablesShut(m, m.weak);
    var c := ClearTables(m, m.weak);
    var r := Atomic(g);
    ClearedShapes(m, c);
    MarkedUpTri(g, m);
    TriKinds(m, {});
    ClearedColours(m, c);
    FlipInv(g, m, c, r);
  }

  lemma AtomicMarkDef(g: State)
    requires Propagating(g) && g.gray == []
    ensures Markable(RemarkUpvals(g, g.uvhead)) && Markable(Atomic2Start(Atomic1(g)))
    ensures var g2 := Atomic2(Atomic1(g));
      Markable(g2.(gray := g2.grayagain, grayagain := [])) && Markable(Atomic4Start(Atomic3(g2)))
    ensures AtomicMark(g) == Atomic4(Atomic3(Atomic2(Atomic1(g))))
  {
    AtomicStages(g);
  }

  lemma FlipInv(g: State, m: State, c: State, r: State)
    requires WellFormed(g) && AtomicLists(g, m) && ClearedFrom(m, c) && SameShapes(m.heap, c.heap)
    requires r == c.(currentwhite := !c.currentwhite, sweepstrgc := 0, sweepgc := 0, phase := SweepString)
    requires AliveShut(r)
    requires KindColours(c)
    ensures Inv(r)
  {
    ShapesTrans(g.heap, m.heap, r.heap);
    assert forall x | x in m.heap :: SameShape(m.heap[x], c.heap[x]);
    TailFrame(m.heap, r.heap, m.rootgc, g.mainthread);
    ListsWellFormed(g, r);
    AllUnswept(r);
  }

  // ---------- the sweep ----------

  lemma BucketObjects(g: State, k: nat)
    requires Owned(g, {}) && k < |g.strt|
    ensures forall x | x in g.strt[k] :: x in g.heap && g.heap[x].Str?
  {
    forall x | x in g.strt[k] ensures x in g.heap && g.heap[x].Str? {
      StrCountIn(g.strt, x);
      assert StrOwned(g, x);
    }
  }

  lemma SweepBucketKinds(g: State, k: nat)
    requires WellFormed(g) && AliveShut(g) && k < |g.strt|
    ensures WellFormed(SweepBucket(g, k)) && SweepBucket(g, k).phase == g.phase
    ensures SweepBucket(g, k)
         == g.(heap := SweepBucket(g, k).heap, mark := SweepBucket(g, k).mark, strt := SweepBucket(g, k).strt)
  {
    var r := SweepBucket(g, k);
    SweepBucketOwned(g, k);
    BucketObjects(g, k);
    TailIsLast(g);
    hide Owned;
    assert r.heap.Keys <= g.heap.Keys && forall x | x in r.heap :: r.heap[x] == g.heap[x];
    TailFrame(g.heap, r.heap, g.rootgc, g.mainthread);
    forall s | s in g.fixed ensures s in r.heap { assert Alive(g, s); }
    FixedFrame(g, r);
    TailIsLast(r);
  }

  lemma SweepBucketColours(g: State, k: nat, r: State)
    requires Owned(g, {}) && KindColours(g) && Sweeping(g, {}) && g.phase == SweepString
    requires k == g.sweepstrgc < |g.strt|
    requires r == SweepBucket(g, k).(sweepstrgc := k + 1, phase := r.phase)
    requires r.phase == (if k + 1 >= |g.strt| then Sweep else SweepString)
    ensures KindColours(r) && Sweeping(r, {})
  {
    BucketObjects(g, k);
    assert r.mark.Keys == r.heap.Keys;
    forall x | x in r.heap && x !in {}
      ensures (r.mark[x].Black? ==> Blackable(r.heap[x])) && (r.mark[x].Gray? ==> Grayable(r.heap[x]))
      ensures IsNew(r, x) || x in r.tmudata || Unswept(r, x)
    {
      assert IsNew(g, x) || x in g.tmudata || Unswept(g, x);
      if g.heap[x].Str? && x !in g.strt[k] && Unswept(g, x) && x !in g.rootgc[g.sweepgc..] {
        var j :| k <= j < |g.strt| && x in g.strt[j];
        assert r.strt[j] == g.strt[j];
      }
    }
  }

  lemma SweepStringInv(g: State)
    requires Inv(g) && g.phase == SweepString
    ensures Inv(StepSweepString(g))
    ensures StepSweepString(g).phase == Sweep
      || (StepSweepString(g).phase == SweepString && StepSweepString(g).sweepstrgc == g.sweepstrgc + 1)
    ensures |StepSweepString(g).strt| == |g.strt|
  {
    hide Owned, AliveShut, Sweeping, KindColours, FixedOk, UdataLast;
    var h := SweepBucket(g, g.sweepstrgc);
    SweepBucketKinds(g, g.sweepstrgc);
    SweepBucketAlive(g, g.sweepstrgc);
    hide SweepBucket;
    var r := StepSweepString(g);
    SweepBucketLen(g, g.sweepstrgc);
    SweepBucketColours(g, g.sweepstrgc, r);
    SameAlive(h, r);
    SameHeapShapes(h, r);
    ShapeWellFormed(h, r);
  }

  lemma SweepBucketLen(g: State, k: nat)
    requires k < |g.strt|
    ensures |SweepBucket(g, k).strt| == |g.strt|
  {}

  lemma SweepStepInv(g: State)
    requires Inv(g) && g.phase == Sweep
    ensures SweepGood(g, {}) && Inv(StepSweep(g))
    ensures StepSweep(g).phase == Finalize || (StepSweep(g).phase == Sweep
        && SweepMeasure(StepSweep(g)) < SweepMeasure(g))
  {
    GoodIsInv(g);
    assert g.sweepgc <= |g.rootgc|;
    hide Inv, SweepGood, SweepList, SweepMeasure;
    SweepListGood(g, GCSWEEPMAX);
    SweepListStrt(g, GCSWEEPMAX);
    StrtNonempty(g);
    var h := SweepList(g, GCSWEEPMAX);
    SweepPhase(h);
    GoodIsInv(h);
    if h.sweepgc >= |h.rootgc| { SweepEndInv(h); } else { SweepUnfinished(g); }
  }

  lemma StrtNonempty(g: State)
    requires Inv(g)
    ensures |g.strt| > 0
  {}

  lemma SweepPhase(g: State)
    requires SweepGood(g, {})
    ensures g.phase == Sweep && g.sweepgc <= |g.rootgc|
  {}

  lemma SweepUnfinished(g: State)
    requires SweepGood(g, {}) && SweepList(g, GCSWEEPMAX).sweepgc < |SweepList(g, GCSWEEPMAX).rootgc|
    ensures g.sweepgc < |g.rootgc|
  {
    hide SweepOne;
  }

  lemma SweepEndInv(h: State)
    requires Inv(h) && h.phase == Sweep && h.sweepgc >= |h.rootgc|
    ensures Inv(h.(phase := Finalize))
  {
    hide Owned, AliveShut, FixedOk, UdataLast;
    var r := h.(phase := Finalize);
    assert h.rootgc[h.sweepgc..] == [];
    assert forall x | x in h.heap :: !Unswept(h, x);
    SameAlive(h, r);
    SameHeapShapes(h, r);
    ShapeWellFormed(h, r);
  }

  /** The sweep of `rootgc` does not touch the string table. */
  lemma {:induction false} SweepListStrt(g: State, count: nat)
    requires SweepGood(g, {})
    ensures SweepList(g, count).strt == g.strt
    decreases count
  {
    hide SweepGood, SweepOne;
    if g.sweepgc < |g.rootgc| && count > 0 {
      SweepOneGood(g);
      SweepOneStrt(g);
      SweepListStrt(SweepOne(g), count - 1);
    }
  }

  lemma SweepOneStrt(g: State)
    requires SweepGood(g, {}) && g.sweepgc < |g.rootgc|
    ensures SweepOne(g).strt == g.strt
  {
    hide SweepGood, Close, CloseReady, NewUpvals;
    var o := g.rootgc[g.sweepgc];
    AtPointer(g);
    SweepOpenAt(g);
    var h := if g.heap[o].Thread? then SweepOpen(g, o) else g;
    if h.heap[o].Thread? { CloseStrt(Unlink(h), o, 0); }
  }

  lemma {:induction false} CloseStrt(g: State, t: Ref, level: nat)
    requires CloseReady(g, t)
    ensures Close(g, t, level).strt == g.strt
    decreases |g.heap[t].openupval|
  {
    hide CloseOne;
    if g.heap[t].openupval != [] {
      CloseOneReady(g, t);
      FirstIsOpen(g, t);
      CloseOneStrt(g, t);
      if g.heap[g.heap[t].openupval[0]].home.slot >= level { CloseStrt(CloseOne(g, t), t, level); }
    }
  }

  lemma CloseOneStrt(g: State, t: Ref)
    requires CloseReady(g, t) && g.heap[t].openupval != [] && IsOpen(g.heap, g.heap[t].openupval[0])
    ensures CloseOne(g, t).strt == g.strt
  {
    hide LinkColour;
    CloseOneFrame(g, t);
  }
}
