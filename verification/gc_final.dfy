/** Which userdata `atomic` hands to their finalizers. */
module GcFinal {
  import opened GcHeap
  import opened GcMark
  import opened GcAtomic
  import opened GcSweep
  import opened GcCycle
  import opened GcSteps
  import opened GcRun
  import opened GcReach
  import opened GcWithin
  import opened GcExact
  import opened GcFull

  // ---------- only unreachable userdata are finalized ----------

  lemma AfterAtomic2(g: State, g2: State)
    requires Propagating(g) && g.gray == [] && Markable(RemarkUpvals(g, g.uvhead)) && Markable(Atomic2Start(Atomic1(g)))
    requires g2 == Atomic2(Atomic1(g))
    ensures Tri(g2, Elems(g.tmudata) + Elems(g2.grayagain), {}) && NoDangling(g2) && g2.gray == []
    ensures forall x | x in g2.weak :: WeakListed(g2, x)
    ensures Marked(g2, g.running) && forall m | m in g.mt && m.Some? :: Marked(g2, m.value)
    ensures g2.running == g.running && g2.mt == g.mt
  {
    hide Tri, NoDangling, Elems, WeakListed, Atomic1, Atomic2, Propagating, Markable, Atomic2Start, AtomicFrom,
        RemarkUpvals;
    var T := Elems(g.tmudata);
    PropagatingRoots(g);
    Atomic1Stage(g);
    var g1 := Atomic1(g);
    AtomicTmu1(g);
    AtomicFromKeeps(g, g1);
    assert Elems(g1.grayagain) + Elems(g1.weak) + T == T + Elems(g1.grayagain) + Elems(g1.weak);
    Atomic2Stage(g1, T);
    AtomicTmu2(g1);
  }

  lemma BeforeSeparateTri(g: State)
    requires Propagating(g) && g.gray == []
    ensures Tri(BeforeSeparate(g), Elems(g.tmudata), {}) && BeforeSeparate(g).gray == []
    ensures Roots(g) <= MarkedSet(BeforeSeparate(g)) && AtomicFrom(g, BeforeSeparate(g))
    ensures BeforeSeparate(g).tmudata == g.tmudata && BeforeSeparate(g).rootgc == g.rootgc
    ensures BeforeSeparate(g).mainthread == g.mainthread
  {
    PropagatingRoots(g);
    hide Tri, NoDangling, Elems, WeakListed, Atomic1, Atomic2, Atomic3, Atomic4, Propagating, Separated, SeparateFrom,
         FromSeparate, MarkedUp, Markable, Atomic2Start, AtomicFrom, Atomic4Start, Roots, MarkedSet, Marked,
             RemarkUpvals, RootsExist;
    AtomicStages(g);
    var g2 := Atomic2(Atomic1(g));
    AfterAtomic2(g, g2);
    Atomic3Stage(g2, Elems(g.tmudata));
    AtomicSame(g, BeforeSeparate(g));
    RootsKept(g, g2, BeforeSeparate(g));
  }

  lemma PropagatingRoots(g: State)
    requires Propagating(g)
    ensures RootsExist(g) && Marked(g, g.mainthread) && AllMarked(g, ValueRef(g.registry))
  {}

  lemma RootsKept(g: State, g2: State, r: State)
    requires AtomicFrom(g, r) && AtomicFrom(g2, r) && g2.running == g.running && g2.mt == g.mt
    requires Marked(g, g.mainthread) && AllMarked(g, ValueRef(g.registry))
    requires Marked(g2, g2.running) && forall m | m in g2.mt && m.Some? :: Marked(g2, m.value)
    ensures Roots(g) <= MarkedSet(r)
  {}

  /** In every cycle, a userdata is handed to its finalizer only if it has one, if that has not
      happened before, and if no path over strong slots leads to it from the roots, those through
      userdata that already wait for their finalizers aside. */
  lemma SeparatedIsUnreachable(g: State, j: nat)
    requires Propagating(g) && g.gray == [] && |g.tmudata| <= j < |AtomicMark(g).tmudata|
    ensures var u := AtomicMark(g).tmudata[j];
      && u in g.heap && HasGc(g.heap, g.heap[u]) && !g.heap[u].finalized
      && u !in Closure(g.heap, Roots(g), Elems(g.tmudata))
  {
    hide Tri, NoDangling, Elems, Atomic1, Atomic2, Atomic3, Atomic4, Propagating, SeparateFrom, MarkedUp, Markable,
        Roots, MarkedSet, Closure, HasGc;
    AtomicStages(g);
    BeforeSeparateTri(g);
    var g3 := BeforeSeparate(g);
    var h := SeparateFrom(g3, After(g3.rootgc, g3.mainthread));
    var u := h.tmudata[j];
    assert Finalizable(g3, u);
    MarkedIsShut(g3, Elems(g.tmudata));
    ClosureLeast(g3.heap, Roots(g), Elems(g.tmudata), MarkedSet(g3));
    ClosureTidied(g.heap, g3.heap, Roots(g), Elems(g.tmudata));
    assert u !in MarkedSet(g3) by { WhiteIsUnmarked(g3, u); }
    StillFinalizable(g, g3, u);
  }

  lemma WhiteIsUnmarked(g: State, u: Ref)
    requires IsWhite(g, u)
    ensures u !in MarkedSet(g)
  {}

  /** Marking does not touch userdata. */
  ghost predicate SameUdata(h: map<Ref, Body>, k: map<Ref, Body>) {
    forall x | x in h && h[x].Udata? :: x in k && k[x] == h[x]
  }

  lemma PropagateUdata(g: State)
    requires Markable(g) && g.gray != []
    ensures g.gray[0] in g.heap && Markable(PropagateMark(g)) && SameUdata(g.heap, PropagateMark(g).heap)
    ensures |Whites(PropagateMark(g))| + |PropagateMark(g).gray| < |Whites(g)| + |g.gray|
  {
    hide Tri, NoDangling, PropagateMark;
    PropagateTri(g, g.heap.Keys);
    GrayHead(g, g.heap.Keys);
    TriMarkable(PropagateMark(g), g.heap.Keys);
  }

  lemma {:induction false} PropagateAllUdata(g: State)
    requires Markable(g)
    ensures SameUdata(g.heap, PropagateAll(g).heap)
    decreases |Whites(g)| + |g.gray|
  {
    hide Markable, PropagateMark;
    if g.gray != [] {
      PropagateUdata(g);
      PropagateAllUdata(PropagateMark(g));
    }
  }

  lemma UdataTrans(a: map<Ref, Body>, b: map<Ref, Body>, c: map<Ref, Body>)
    requires SameUdata(a, b) && SameUdata(b, c)
    ensures SameUdata(a, c)
  {}

  lemma BeforeSeparateUdata(g: State)
    requires Propagating(g) && g.gray == []
    ensures SameUdata(g.heap, BeforeSeparate(g).heap)
  {
    hide Tri, NoDangling, Propagating, PropagateAll, Markable, MarkedUp, SeparateFrom, FromSeparate, Separated,
        RemarkUpvals, MarkMt, MarkObject;
    AtomicStages(g);
    var g1 := Atomic1(g);
    RemarkHeap(g, g.uvhead);
    PropagateAllUdata(RemarkUpvals(g, g.uvhead));
    PropagateAllUdata(Atomic2Start(g1));
    assert Atomic2Start(g1).heap == g1.heap;
    var g2 := Atomic2(g1);
    PropagateAllUdata(g2.(gray := g2.grayagain, grayagain := []));
    UdataTrans(g.heap, g1.heap, g2.heap);
    UdataTrans(g.heap, g2.heap, Atomic3(g2).heap);
  }

  lemma {:induction false} RemarkHeap(g: State, us: seq<Ref>)
    ensures RemarkUpvals(g, us).heap == g.heap
    decreases |us|
  {
    if us != [] { RemarkHeap(RemarkOne(g, us[0]), us[1..]); }
  }

  lemma HasGcSame(h: map<Ref, Body>, k: map<Ref, Body>, b: Body)
    requires TidiedHeap(h, k)
    ensures HasGc(k, b) == HasGc(h, b)
  {
    if b.Udata? && b.mt.Some? && b.mt.value in h { assert Tidied(h[b.mt.value], k[b.mt.value]); }
  }

  lemma StillFinalizable(g: State, g3: State, u: Ref)
    requires Propagating(g) && g.gray == [] && g3 == BeforeSeparate(g) && AtomicFrom(g, g3) && Finalizable(g3, u)
    ensures u in g.heap && HasGc(g.heap, g.heap[u]) && !g.heap[u].finalized
  {
    hide Tri, NoDangling, Propagating, BeforeSeparate;
    BeforeSeparateUdata(g);
    assert Tidied(g.heap[u], g3.heap[u]);
    assert g.heap[u] == g3.heap[u];
    HasGcSame(g.heap, g3.heap, g.heap[u]);
  }

  // ---------- every unreachable userdata with a finalizer is finalized ----------

  /** `luaC_separateudata` misses none. */
  lemma {:induction false} SeparateFromAll(g: State, i: nat, k: nat, u: Ref)
    requires i <= k < |g.rootgc| && g.rootgc[k] == u && Finalizable(g, u)
    ensures u in SeparateFrom(g, i).tmudata
    decreases |g.rootgc| - i
  {
    var h := SeparateOne(g, i);
    SeparateOneDoes(g, i);
    var j := if |h.rootgc| < |g.rootgc| then i else i + 1;
    if g.rootgc[i] == u {
      assert h.tmudata[|g.tmudata|] == u;
      TmuStays(h, j, u);
    } else {
      SeparateOneKeeps(g, i, u);
      if |h.rootgc| < |g.rootgc| {
        assert h.rootgc[k - 1] == u;
        SeparateFromAll(h, j, k - 1, u);
      } else {
        SeparateFromAll(h, j, k, u);
      }
    }
  }

  lemma SeparateOneKeeps(g: State, i: nat, u: Ref)
    requires i < |g.rootgc| && g.rootgc[i] != u && Finalizable(g, u)
    ensures Finalizable(SeparateOne(g, i), u)
  {}

  lemma TmuStays(g: State, i: nat, u: Ref)
    requires u in g.tmudata
    ensures u in SeparateFrom(g, i).tmudata
  {
    hide SeparateFrom;
    SeparateFromDoes(g, i);
    var j :| 0 <= j < |g.tmudata| && g.tmudata[j] == u;
    var t := SeparateFrom(g, i).tmudata;
    assert t[..|g.tmudata|][j] == t[j];
  }

  lemma OnRootgc(g: State, u: Ref)
    requires WellFormed(g) && u in g.heap && g.heap[u].Udata? && u !in g.tmudata
    ensures exists k :: After(g.rootgc, g.mainthread) <= k < |g.rootgc| && g.rootgc[k] == u
  {
    assert RootOwned(g, u);
    assert u in g.rootgc;
    var k :| 0 <= k < |g.rootgc| && g.rootgc[k] == u;
    assert k >= After(g.rootgc, g.mainthread);
  }

  lemma LeftShut(h: map<Ref, Body>, C: set<Ref>, L: set<Ref>)
    requires Shut(h, C, L)
    ensures Shut(h, C + L, L)
  {}

  /** The cycle of a full collection starts with no marks but those in `L`, which marking passes by. */
  lemma LeftTri(f: State, L: set<Ref>)
    requires Inv(f) && f.phase == Finalize && L == MarkedSet(f)
    ensures Tri(MarkRoot(f), L, {}) && NoDangling(MarkRoot(f)) && L <= MarkedSet(MarkRoot(f))
  {
    hide NoDangling, Owned, AliveShut, UdataLast, FixedOk;
    var f0 := f.(gray := [], grayagain := [], weak := []);
    RestTri(f, f0);
    assert Tri(f0, L, {}) by { UnlistedTri(f, L); }
    MarkRootSame(f);
    hide Tri, Inv, MarkRoot;
    MarkRootTri(f0, L);
  }

  lemma UnlistedTri(f: State, L: set<Ref>)
    requires KindColours(f) && L == MarkedSet(f)
    requires forall x | x in L :: x in f.heap && f.heap[x].Udata?
    ensures Tri(f.(gray := [], grayagain := [], weak := []), L, {})
  {
    var r := f.(gray := [], grayagain := [], weak := []);
    forall x | x in r.heap ensures Sorted(r, x) { assert Marked(r, x) ==> x in L; }
  }

  lemma GrayDoneTri(g: State)
    requires Inv(g)
    ensures Tri(AllGrayDone(g), MarkedSet(Swept(g)), {}) && MarkedSet(Swept(g)) <= MarkedSet(AllGrayDone(g))
  {
    hide Inv, Tri, NoDangling, MarkRoot, PropagateAll, Markable, AllGrayDone, Swept;
    SweptInv(g);
    GrayDoneDef(g);
    var f := Swept(g);
    LeftTri(f, MarkedSet(f));
    PropagateAllTri(MarkRoot(f), MarkedSet(f));
    SettledMarks(MarkRoot(f), AllGrayDone(g));
  }

  lemma SettledMarks(g: State, r: State)
    requires Settled(g, r)
    ensures MarkedSet(g) <= MarkedSet(r)
  {}

  /** The part of `atomic` before userdata are separated keeps what is exempt. */
  lemma ExemptTri(p: State, L: set<Ref>)
    requires Propagating(p) && p.gray == [] && Tri(p, L, {})
    ensures Tri(BeforeSeparate(p), L, {}) && BeforeSeparate(p).gray == []
  {
    hide Tri, NoDangling, Elems, WeakListed, Atomic2, Atomic3, Markable, Atomic2Start, AtomicFrom, RemarkUpvals,
        PropagateAll, MarkedFrom;
    PropagatingParts(p);
    PropagatingUpvals(p);
    AtomicStages(p);
    RemarkUpvalsTri(p, p.uvhead, L);
    var h := RemarkUpvals(p, p.uvhead);
    RemarkedLists(p, h);
    TriMore(h, L - Elems(p.uvhead), L);
    PropagateAllTri(h, L);
    var g1 := Atomic1(p);
    Atomic1Stage(p);
    AtomicFromKeeps(p, g1);
    TriMore(g1, L, L + Elems(g1.grayagain) + Elems(g1.weak));
    Atomic2Stage(g1, L);
    Atomic3Stage(Atomic2(g1), L);
  }

  lemma PropagatingUpvals(p: State)
    requires Propagating(p)
    ensures forall u | u in p.uvhead :: IsOpen(p.heap, u)
  {}

  /** Before `atomic` of a full collection separates userdata, exactly what is strongly reachable is
      marked, apart from what is left from the last cycle and what only that leads to. */
  lemma BeforeSeparateMarks(g: State)
    requires Inv(g)
    ensures Propagating(AllGrayDone(g)) && AllGrayDone(g).gray == []
    ensures MarkedSet(BeforeSeparate(AllGrayDone(g)))
         == Closure(Swept(g).heap, Roots(Swept(g)), MarkedSet(Swept(g))) + MarkedSet(Swept(g))
  {
    hide Inv, Closure, Elems, Propagating, Roots, AtomicMark, MarkRoot, PropagateAll, Atomic, FinishSweep, AllGrayDone,
         Swept, Inside, Shut, Markable, BeforeSeparate, MarkedSet, NoDangling;
    var f := Swept(g);
    SweptInv(g);
    MarksAreKept(g);
    GrayDoneDef(g);
    LeftMarks(f);
    var L := MarkedSet(f);
    var C := Closure(f.heap, Roots(f), L);
    NoDanglingStrong(f);
    ClosureShut(f.heap, Roots(f), L);
    RootsInHeap(f);
    LeftShut(f.heap, C, L);
    InsideLeft(f, C, L);
    MarkCycleIn(f, C + L, L);
    AtomicIn(AllGrayDone(g), C + L, L);
    InsideMarks(BeforeSeparate(AllGrayDone(g)), C + L, L);
    BeforeSeparateFinds(g);
  }

  lemma BeforeSeparateFinds(g: State)
    requires Inv(g)
    ensures Propagating(AllGrayDone(g)) && AllGrayDone(g).gray == []
    ensures Closure(Swept(g).heap, Roots(Swept(g)), MarkedSet(Swept(g))) + MarkedSet(Swept(g))
         <= MarkedSet(BeforeSeparate(AllGrayDone(g)))
  {
    hide Inv, Tri, Closure, Elems, Propagating, Roots, AtomicMark, AllGrayDone, Swept, Shut, BeforeSeparate, MarkedSet,
        NoDangling, AtomicFrom;
    var f, L := Swept(g), MarkedSet(Swept(g));
    MarksAreKept(g);
    var p := AllGrayDone(g);
    GrayDoneTri(g);
    ExemptTri(p, L);
    BeforeSeparateTri(p);
    var g3 := BeforeSeparate(p);
    MarkedIsShut(g3, L);
    assert Roots(p) == Roots(f) by { SameCycleParts(f, p); }
    ClosureLeast(g3.heap, Roots(f), L, MarkedSet(g3));
    AtomicMarks(p, g3);
    CycleTidied(f, p, g3);
    ClosureTidied(f.heap, g3.heap, Roots(f), L);
  }

  lemma SameCycleParts(f: State, p: State)
    requires SameCycle(f, p)
    ensures Roots(p) == Roots(f) && p.tmudata == f.tmudata && TidiedHeap(f.heap, p.heap)
  {}

  lemma AtomicMarks(g: State, r: State)
    requires AtomicFrom(g, r)
    ensures MarkedSet(g) <= MarkedSet(r)
  {}

  lemma CycleTidied(f: State, p: State, r: State)
    requires SameCycle(f, p) && AtomicFrom(p, r)
    ensures TidiedHeap(f.heap, r.heap)
  {
    TidiedTrans(f.heap, p.heap, r.heap);
  }

  lemma InsideLeft(f: State, C: set<Ref>, L: set<Ref>)
    requires L == MarkedSet(f) <= Elems(f.tmudata) && forall u | u in f.tmudata :: u in f.heap && f.heap[u].Udata?
    requires Roots(f) * f.heap.Keys <= C && Roots(f) <= f.heap.Keys
    ensures Inside(f, C + L, L) && Roots(f) <= C + L
  {}

  lemma InsideMarks(g: State, S: set<Ref>, T: set<Ref>)
    requires Inside(g, S, T)
    ensures MarkedSet(g) <= S
  {}

  /** The userdata of `f` whose finalizers are called: those that wait already, and those that still
      have one to call and are not strongly reachable, other than through marks that are left. */
  ghost predicate ToFinalize(f: State, u: Ref) {
    || u in f.tmudata
    || (u in f.heap && HasGc(f.heap, f.heap[u]) && !f.heap[u].finalized && u !in Closure(f.heap, Roots(f), LeftOver(f)))
  }

  /** Userdata that wait for their finalizers and carry the mark of an earlier cycle. */
  function LeftOver(f: State): set<Ref> { set u | u in f.tmudata && Marked(f, u) }

  lemma LeftOverIs(f: State)
    requires MarkedSet(f) <= Elems(f.tmudata)
    ensures LeftOver(f) == MarkedSet(f)
  {}

  /** A full collection hands exactly these userdata to their finalizers. */
  lemma SeparatedExactly(g: State, u: Ref)
    requires Inv(g)
    ensures Propagating(AllGrayDone(g)) && AllGrayDone(g).gray == []
    ensures u in AtomicMark(AllGrayDone(g)).tmudata <==> ToFinalize(Swept(g), u)
  {
    hide Inv, Closure, AllGrayDone, Swept, Propagating, BeforeSeparate, AtomicMark, HasGc, Roots, MarkedSet, SameUdata,
        LeftOver, SameCycle;
    var f := Swept(g);
    SweptInv(g);
    LeftMarks(f);
    LeftOverIs(f);
    MarksAreKept(g);
    BeforeSeparateMarks(g);
    var p := AllGrayDone(g);
    AllGrayUdata(g);
    if u in f.tmudata {
      TmuKept(p, u);
    } else {
      assert u !in MarkedSet(f) by { NotInElems(f.tmudata, u); }
      if ToFinalize(f, u) {
        assert p.heap[u] == f.heap[u] by { SameUdataAt(f.heap, p.heap, u); }
        SeparatedLater(g, f, p, u);
      }
      if u in AtomicMark(p).tmudata { SeparatedBefore(f, p, u); }
    }
  }

  lemma SeparatedBefore(f: State, p: State, u: Ref)
    requires Propagating(p) && p.gray == [] && SameCycle(f, p) && SameUdata(f.heap, p.heap)
    requires u in AtomicMark(p).tmudata && u !in p.tmudata
    ensures u in f.heap && HasGc(f.heap, f.heap[u]) && !f.heap[u].finalized && u !in MarkedSet(BeforeSeparate(p))
  {
    hide Tri, NoDangling, Elems, Atomic1, Atomic2, Atomic3, Atomic4, Propagating, SeparateFrom, MarkedUp, Markable,
        MarkedSet, HasGc, Roots;
    AtomicStages(p);
    BeforeSeparateTri(p);
    var g3 := BeforeSeparate(p);
    var t := AtomicMark(p).tmudata;
    var j :| 0 <= j < |t| && t[j] == u;
    assert Finalizable(g3, u);
    WhiteIsUnmarked(g3, u);
    StillFinalizable(p, g3, u);
    GcIsUdata(p.heap, p.heap[u]);
    assert Tidied(f.heap[u], p.heap[u]);
    HasGcSame(f.heap, p.heap, f.heap[u]);
  }

  lemma ClosureLess(h: map<Ref, Body>, R: set<Ref>, T: set<Ref>)
    ensures Closure(h, R, T) <= Closure(h, R, {})
  {
    forall x | x in Closure(h, R, T) ensures StrongReach(h, R, {}, x) {
      var p :| StrongPath(h, R, T, p) && p[|p| - 1] == x;
      assert StrongPath(h, R, {}, p);
    }
  }

  /** A full collection hands every unreachable userdata that still has a finalizer to call to
      that finalizer. */
  lemma UnreachableIsSeparated(g: State, u: Ref)
    requires Inv(g) && u in Swept(g).heap && HasGc(Swept(g).heap, Swept(g).heap[u]) && !Swept(g).heap[u].finalized
    requires u !in Closure(Swept(g).heap, Roots(Swept(g)), {})
    ensures Propagating(AllGrayDone(g)) && AllGrayDone(g).gray == []
    ensures u in AtomicMark(AllGrayDone(g)).tmudata
  {
    hide Inv, Closure, AllGrayDone, Swept, Propagating, AtomicMark, HasGc, Roots, LeftOver;
    SeparatedExactly(g, u);
    ClosureLess(Swept(g).heap, Roots(Swept(g)), LeftOver(Swept(g)));
  }

  lemma NotInElems(us: seq<Ref>, u: Ref)
    requires u !in us
    ensures u !in Elems(us)
  {}

  lemma SameUdataAt(h: map<Ref, Body>, k: map<Ref, Body>, u: Ref)
    requires SameUdata(h, k) && u in h && HasGc(h, h[u])
    ensures u in k && k[u] == h[u]
  {}

  lemma AllGrayUdata(g: State)
    requires Inv(g)
    ensures SameUdata(Swept(g).heap, AllGrayDone(g).heap) && AllGrayDone(g).tmudata == Swept(g).tmudata
  {
    hide Inv, MarkRoot, PropagateAll, Markable, AllGrayDone, Swept;
    GrayDoneDef(g);
    MarkRootFrom(Swept(g));
    MarksAreKept(g);
    PropagateAllUdata(MarkRoot(Swept(g)));
  }

  lemma TmuKept(p: State, u: Ref)
    requires Propagating(p) && p.gray == [] && u in p.tmudata
    ensures u in AtomicMark(p).tmudata
  {
    hide Propagating;
    TmuGrows(p);
    assert u in Elems(p.tmudata);
  }

  lemma SeparatedLater(g: State, f: State, p: State, u: Ref)
    requires Inv(p) && Propagating(p) && p.phase == Propagate && p.gray == [] && SameCycle(f, p)
    requires u in f.heap && HasGc(f.heap, f.heap[u]) && !f.heap[u].finalized && u !in f.tmudata
    requires u in p.heap && p.heap[u] == f.heap[u]
    requires u !in MarkedSet(BeforeSeparate(p))
    ensures u in AtomicMark(p).tmudata
  {
    assert WellFormed(p);
    hide Inv, Propagating, SeparateFrom, Owned, Atomic1, Atomic2, Atomic3, Atomic4, MarkedUp, Separated, HasGc,
        WellFormed;
    AtomicStages(p);
    BeforeSeparateTri(p);
    var g3 := BeforeSeparate(p);
    BeforeSeparateUdata(p);
    HasGcSame(f.heap, p.heap, f.heap[u]);
    HasGcSame(p.heap, g3.heap, f.heap[u]);
    assert g3.heap[u] == f.heap[u] && Finalizable(g3, u) by {
      GcIsUdata(f.heap, f.heap[u]);
      KeysAgree(g3, Elems(p.tmudata));
    }
    OnRootgc(p, u) by { GcIsUdata(f.heap, f.heap[u]); }
    var k :| After(p.rootgc, p.mainthread) <= k < |p.rootgc| && p.rootgc[k] == u;
    SeparateFromAll(g3, After(g3.rootgc, g3.mainthread), k, u);
  }

  lemma GcIsUdata(h: map<Ref, Body>, b: Body)
    requires HasGc(h, b)
    ensures b.Udata?
  {}
}
