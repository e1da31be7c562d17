/** What marking finds is exactly what is strongly reachable, and `luaC_fullgc` frees exactly
    what it does not find. */
module GcExact {
  import opened GcHeap
  import opened GcMark
  import opened GcAtomic
  import opened GcSweep
  import opened GcCycle
  import opened GcSteps
  import opened GcAlloc
  import opened GcRun
  import opened GcReach
  import opened GcWithin

  // ---------- strong reachability ----------

  /** A path over strong slots from `R` that does not pass through an object in `T`. */
  ghost predicate StrongPath(h: map<Ref, Body>, R: set<Ref>, T: set<Ref>, p: seq<Ref>) {
    && p != [] && p[0] in R
    && forall i | 0 <= i < |p| - 1 :: p[i] in h && p[i] !in T && p[i + 1] in StrongRefs(h, h[p[i]])
  }

  ghost predicate StrongReach(h: map<Ref, Body>, R: set<Ref>, T: set<Ref>, x: Ref) {
    exists p :: StrongPath(h, R, T, p) && p[|p| - 1] == x
  }

  ghost function Closure(h: map<Ref, Body>, R: set<Ref>, T: set<Ref>): set<Ref> {
    set x | x in h && StrongReach(h, R, T, x)
  }

  ghost predicate StrongInHeap(h: map<Ref, Body>) { forall r | r in h :: StrongRefs(h, h[r]) <= h.Keys }

  lemma StrongIsLive(h: map<Ref, Body>, b: Body)
    ensures StrongRefs(h, b) <= LiveRefs(h, b)
  {}

  lemma NoDanglingStrong(g: State)
    requires NoDangling(g)
    ensures StrongInHeap(g.heap)
  {
    forall r | r in g.heap ensures StrongRefs(g.heap, g.heap[r]) <= g.heap.Keys {
      StrongIsLive(g.heap, g.heap[r]);
      SlotsExist(g, r);
    }
  }

  lemma PathOn(h: map<Ref, Body>, R: set<Ref>, T: set<Ref>, p: seq<Ref>, c: Ref)
    requires StrongPath(h, R, T, p) && p[|p| - 1] in h && p[|p| - 1] !in T && c in StrongRefs(h, h[p[|p| - 1]])
    ensures StrongPath(h, R, T, p + [c])
  {
    hide StrongRefs;
    var q := p + [c];
    forall i | 0 <= i < |q| - 1 ensures q[i] in h && q[i] !in T && q[i + 1] in StrongRefs(h, h[q[i]]) {
      assert q[i] == p[i];
      if i < |p| - 1 { assert q[i + 1] == p[i + 1]; }
    }
  }

  lemma ReachOn(h: map<Ref, Body>, R: set<Ref>, T: set<Ref>, x: Ref, c: Ref)
    requires x in h && x !in T && StrongReach(h, R, T, x) && c in StrongRefs(h, h[x])
    ensures StrongReach(h, R, T, c)
  {
    hide StrongRefs;
    var p :| StrongPath(h, R, T, p) && p[|p| - 1] == x;
    PathOn(h, R, T, p, c);
    assert (p + [c])[|p + [c]| - 1] == c;
  }

  lemma ClosureShut(h: map<Ref, Body>, R: set<Ref>, T: set<Ref>)
    requires StrongInHeap(h)
    ensures Shut(h, Closure(h, R, T), T)
    ensures R * h.Keys <= Closure(h, R, T)
  {
    forall x | x in R && x in h ensures StrongReach(h, R, T, x) { assert StrongPath(h, R, T, [x]); }
    hide StrongRefs, StrongReach;
    forall x | x in Closure(h, R, T) && x in h && x !in T ensures StrongRefs(h, h[x]) <= Closure(h, R, T) {
      forall c | c in StrongRefs(h, h[x]) ensures StrongReach(h, R, T, c) { ReachOn(h, R, T, x, c); }
    }
  }

  lemma {:induction false} PathStays(h: map<Ref, Body>, R: set<Ref>, T: set<Ref>, M: set<Ref>, p: seq<Ref>)
    requires R <= M && Shut(h, M, T) && StrongPath(h, R, T, p)
    ensures p[|p| - 1] in M
    decreases |p|
  {
    if |p| > 1 {
      var q := p[..|p| - 1];
      assert q[|q| - 1] == p[|p| - 2];
      PathStays(h, R, T, M, q);
    }
  }

  lemma ClosureLeast(h: map<Ref, Body>, R: set<Ref>, T: set<Ref>, M: set<Ref>)
    requires R <= M && Shut(h, M, T)
    ensures Closure(h, R, T) <= M
  {
    forall x | x in Closure(h, R, T) ensures x in M {
      var p :| StrongPath(h, R, T, p) && p[|p| - 1] == x;
      PathStays(h, R, T, M, p);
    }
  }

  function MtRefs(ms: seq<Option<Ref>>): set<Ref> { set m | m in ms && m.Some? :: m.value }

  /** The roots from which `markroot` and `atomic` mark. */
  function Roots(g: State): set<Ref> { {g.mainthread, g.running} + ValueRef(g.registry) + MtRefs(g.mt) }

  function MarkedSet(g: State): set<Ref> { set x | x in g.mark && !g.mark[x].White? }

  // ---------- marking stays inside ----------

  lemma RootParts(g: State, S: set<Ref>)
    requires Roots(g) <= S
    ensures g.mainthread in S && g.running in S && ValueRef(g.registry) <= S
    ensures forall m | m in g.mt && m.Some? :: m.value in S
  {
    forall m | m in g.mt && m.Some? ensures m.value in S { assert m.value in MtRefs(g.mt); }
  }

  lemma MarkRootIn(g: State, S: set<Ref>, T: set<Ref>)
    requires Shut(g.heap, S, T) && Inside(g, S, T) && Roots(g) <= S
    requires g.mainthread in g.heap && g.heap[g.mainthread].Thread?
    ensures Inside(MarkRoot(g), S, T)
  {
    RootParts(g, S);
    assert g.mainthread !in T && StrongRefs(g.heap, g.heap[g.mainthread]) <= S;
    hide Inside, Shut, MarkObject, MarkValue, MarkMt;
    var g0 := g.(gray := [], grayagain := [], weak := []);
    SameMarksIn(g, g0, S, T);
    MarkObjectIn(g0, g.mainthread, S, T);
    var g1 := MarkObject(g0, g.mainthread);
    MarkValueIn(g1, g.heap[g.mainthread].gt, S, T);
    var g2 := MarkValue(g1, g.heap[g.mainthread].gt);
    MarkValueIn(g2, g.registry, S, T);
    var g3 := MarkValue(g2, g.registry);
    MarkMtIn(g3, g.mt, S, T);
    SameMarksIn(MarkMt(g3, g.mt), MarkRoot(g), S, T);
  }

  lemma Atomic1In(g: State, S: set<Ref>, T: set<Ref>)
    requires Propagating(g) && g.gray == [] && Shut(g.heap, S, T) && Inside(g, S, T)
    ensures Markable(RemarkUpvals(g, g.uvhead)) && Inside(Atomic1(g), S, T) && Shut(Atomic1(g).heap, S, T)
    ensures AtomicFrom(g, Atomic1(g))
  {
    hide Tri, NoDangling, Inside, Shut, RemarkUpvals, PropagateAll;
    Atomic1Stage(g);
    RemarkUpvalsIn(g, g.uvhead, S, T);
    PropagateAllIn(RemarkUpvals(g, g.uvhead), S, T);
    ShutTidied(g.heap, Atomic1(g).heap, S, T);
  }

  lemma Atomic2In(g: State, S: set<Ref>, T: set<Ref>)
    requires Markable(Atomic2Start(g)) && Shut(g.heap, S, T) && Inside(g, S, T) && Roots(g) <= S
    ensures Inside(Atomic2(g), S, T)
  {
    RootParts(g, S);
    hide Markable, Inside, Shut, PropagateAll, MarkObject, MarkMt;
    var g1 := g.(gray := g.weak, weak := []);
    SameMarksIn(g, g1, S, T);
    MarkObjectIn(g1, g.running, S, T);
    MarkMtIn(MarkObject(g1, g.running), g.mt, S, T);
    PropagateAllIn(Atomic2Start(g), S, T);
  }

  lemma Atomic3In(g: State, S: set<Ref>, T: set<Ref>)
    requires Markable(g.(gray := g.grayagain, grayagain := [])) && Shut(g.heap, S, T) && Inside(g, S, T)
    ensures Inside(Atomic3(g), S, T)
  {
    hide Markable, Inside, Shut, PropagateAll;
    SameMarksIn(g, g.(gray := g.grayagain, grayagain := []), S, T);
    PropagateAllIn(g.(gray := g.grayagain, grayagain := []), S, T);
  }

  lemma Atomic4In(g: State, S: set<Ref>)
    requires Markable(Atomic4Start(g)) && Shut(g.heap, S, {}) && Inside(g, S, {})
    requires forall u | u in SeparateFrom(g, After(g.rootgc, g.mainthread)).tmudata :: u in S
    ensures Inside(Atomic4(g), S, {})
  {
    hide Markable, Inside, Shut, PropagateAll, SeparateFrom, MarkTmu;
    var h := SeparateFrom(g, After(g.rootgc, g.mainthread));
    SeparateFromDoes(g, After(g.rootgc, g.mainthread));
    ShutTidied(g.heap, h.heap, S, {});
    InsideTidied(g, h, S, {});
    MarkTmuIn(h, h.tmudata, S);
    MarkTmuHeap(h, h.tmudata);
    PropagateAllIn(Atomic4Start(g), S, {});
  }

  lemma {:induction false} MarkTmuHeap(g: State, us: seq<Ref>)
    ensures MarkTmu(g, us).heap == g.heap
    decreases |us|
  {
    if us != [] { MarkTmuHeap(RemarkUdata(g, us[0]), us[1..]); }
  }

  /** The state of `atomic` in which it separates the userdata to be finalized. */
  ghost function BeforeSeparate(g: State): State
    requires Propagating(g) && g.gray == []
  {
    AtomicStages(g);
    Atomic3(Atomic2(Atomic1(g)))
  }

  lemma AtomicIn(g: State, S: set<Ref>, T: set<Ref>)
    requires Propagating(g) && g.gray == [] && Shut(g.heap, S, T) && Inside(g, S, T) && Roots(g) <= S
    ensures Inside(BeforeSeparate(g), S, T) && Shut(BeforeSeparate(g).heap, S, T)
  {
    hide Markable, Inside, Shut, Atomic1, Atomic2, Atomic3, Atomic4, Propagating, MarkedUp, Separated, FromSeparate,
        SeparateFrom, Atomic2Start;
    AtomicStages(g);
    Atomic1In(g, S, T);
    var g1 := Atomic1(g);
    assert Roots(g1) == Roots(g) by { AtomicSame(g, g1); }
    Atomic2In(g1, S, T);
    var g2 := Atomic2(g1);
    AtomicTmu2(g1);
    ListsTidied(g1, g2);
    ShutTidied(g1.heap, g2.heap, S, T);
    Atomic3In(g2, S, T);
    assert AtomicFrom(g, Atomic3(g2));
    ShutTidied(g.heap, Atomic3(g2).heap, S, T);
  }

  lemma ListsTidied(g1: State, g2: State)
    requires AtomicFrom(Atomic2Start(g1), g2)
    ensures TidiedHeap(g1.heap, g2.heap)
  {
    hide MarkObject, MarkMt;
  }

  // ---------- marking finds everything ----------

  lemma PathTidied(h: map<Ref, Body>, k: map<Ref, Body>, R: set<Ref>, T: set<Ref>, p: seq<Ref>)
    requires TidiedHeap(h, k) && StrongPath(h, R, T, p)
    ensures StrongPath(k, R, T, p)
  {
    forall i | 0 <= i < |p| - 1 ensures p[i] in k && p[i] !in T && p[i + 1] in StrongRefs(k, k[p[i]]) {
      TidiedRefs(h, k, p[i]);
    }
  }

  lemma PathUntidied(h: map<Ref, Body>, k: map<Ref, Body>, R: set<Ref>, T: set<Ref>, p: seq<Ref>)
    requires TidiedHeap(h, k) && StrongPath(k, R, T, p)
    ensures StrongPath(h, R, T, p)
  {
    forall i | 0 <= i < |p| - 1 ensures p[i] in h && p[i] !in T && p[i + 1] in StrongRefs(h, h[p[i]]) {
      TidiedRefs(h, k, p[i]);
    }
  }

  /** The tidying that marking does leaves strong reachability as it is. */
  lemma ClosureTidied(h: map<Ref, Body>, k: map<Ref, Body>, R: set<Ref>, T: set<Ref>)
    requires TidiedHeap(h, k)
    ensures Closure(k, R, T) == Closure(h, R, T)
  {
    forall x | x in h ensures StrongReach(h, R, T, x) <==> StrongReach(k, R, T, x) {
      if StrongReach(h, R, T, x) {
        var p :| StrongPath(h, R, T, p) && p[|p| - 1] == x;
        PathTidied(h, k, R, T, p);
      }
      if StrongReach(k, R, T, x) {
        var p :| StrongPath(k, R, T, p) && p[|p| - 1] == x;
        PathUntidied(h, k, R, T, p);
      }
    }
  }

  lemma MarkedIsShut(g: State, P: set<Ref>)
    requires Tri(g, P, {}) && g.gray == []
    ensures Shut(g.heap, MarkedSet(g), P)
  {
    forall x | x in MarkedSet(g) && x in g.heap && x !in P ensures StrongRefs(g.heap, g.heap[x]) <= MarkedSet(g) {
      assert Covered(g, x);
      StrongInAll(g.heap, g.heap[x]);
    }
  }

  lemma StrongInAll(h: map<Ref, Body>, b: Body)
    ensures StrongRefs(h, b) <= AllRefs(h, b)
  {}

  lemma RootsInMarked(g: State)
    requires RootsMarked(g)
    ensures Roots(g) + Elems(g.tmudata) <= MarkedSet(g)
  {}

  /** The objects that marking ends with: what is strongly reachable from the roots and from the
      userdata that wait for their finalizers. */
  ghost function Kept(g: State, m: State): set<Ref> { Closure(g.heap, Roots(g) + Elems(m.tmudata), {}) }

  lemma MarkedUpFinds(g: State, m: State)
    requires Propagating(g) && MarkedUp(g, m)
    ensures Kept(g, m) <= MarkedSet(m)
  {
    hide Tri, NoDangling, Shut, Elems;
    MarkedIsShut(m, {});
    RootsInMarked(m);
    assert Roots(m) == Roots(g) by { AtomicSame(g, m); }
    ClosureLeast(m.heap, Roots(g) + Elems(m.tmudata), {}, MarkedSet(m));
    ClosureTidied(g.heap, m.heap, Roots(g) + Elems(m.tmudata), {});
  }

  lemma InsideSet(g: State, S: set<Ref>)
    ensures Inside(g, S, {}) <==> MarkedSet(g) <= S
  {}

  lemma RootsInHeap(g: State)
    requires RootsExist(g)
    ensures Roots(g) <= g.heap.Keys
  {}

  lemma PropagatingParts(g: State)
    requires Propagating(g)
    ensures NoDangling(g) && RootsExist(g) && Tri(g, Pending(g), {})
  {}

  lemma MarkedUpKeys(g: State, m: State)
    requires MarkedUp(g, m) && Propagating(g)
    ensures m.heap.Keys == g.heap.Keys && Elems(m.tmudata) <= g.heap.Keys
  {
    assert Tri(m, {}, {});
    assert AllMarked(m, Elems(m.tmudata));
  }

  /** At the end of the mark phase exactly the strongly reachable objects are marked. */
  lemma MarkingIsExact(g: State)
    requires Propagating(g) && g.gray == []
    requires MarkedSet(g) <= Kept(g, AtomicMark(g))
    ensures MarkedSet(AtomicMark(g)) == Kept(g, AtomicMark(g))
  {
    hide Tri, NoDangling, Shut, Inside, Atomic1, Atomic2, Atomic3, Atomic4, Propagating, MarkedUp, Separated,
        SeparateFrom,
         Atomic4Start, Closure, Elems, Roots, Markable, MarkedSet;
    AtomicStages(g);
    PropagatingParts(g);
    var m := AtomicMark(g);
    var g3 := BeforeSeparate(g);
    assert MarkedUp(g, m);
    MarkedUpFinds(g, m);
    MarkedUpKeys(g, m);
    var R := Roots(g) + Elems(m.tmudata);
    var S := Kept(g, m);
    NoDanglingStrong(g);
    ClosureShut(g.heap, R, {});
    RootsInHeap(g);
    InsideSet(g, S);
    AtomicIn(g, S, {});
    var h := SeparateFrom(g3, After(g3.rootgc, g3.mainthread));
    assert FromSeparate(h, m);
    forall u | u in h.tmudata ensures u in S { assert u in Elems(m.tmudata) by { InElems(h.tmudata, u); } }
    Atomic4In(g3, S);
    InsideSet(m, S);
  }

  lemma InElems(us: seq<Ref>, u: Ref)
    requires u in us
    ensures u in Elems(us)
  {}
}
