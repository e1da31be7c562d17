/** What a full collection leaves, in terms of the heap from which it starts. */
module GcSurvive {
  import opened GcHeap
  import opened GcMark
  import opened GcAtomic
  import opened GcSweep
  import opened GcCycle
  import opened GcSteps
  import opened GcReach
  import opened GcWithin
  import opened GcExact
  import opened GcFull
  import opened GcFinal
  import opened GcKeep

  // ---------- strings in weak tables ----------

  predicate IsStr(h: map<Ref, Body>, v: Value, s: Ref) { v == Coll(s) && s in h && h[s].Str? }

  /** The key of an entry that goes: an object other than a string that is not kept. */
  predicate KeyGoes(h: map<Ref, Body>, K: set<Ref>, v: Value) { v.Coll? && v.r in h && !h[v.r].Str? && v.r !in K }

  /** An entry saves its strings; the value only if the key does not go. */
  predicate EntrySaves(h: map<Ref, Body>, K: set<Ref>, n: Node, s: Ref) {
    n.val != Nil && (IsStr(h, n.key, s) || (IsStr(h, n.val, s) && !KeyGoes(h, K, n.key)))
  }

  predicate TableSaves(h: map<Ref, Body>, K: set<Ref>, w: Weak, b: Body, s: Ref)
    requires b.Table?
  {
    (w.values && IsStr(h, Coll(s), s) && Coll(s) in b.arr) || exists n :: n in b.nodes && EntrySaves(h, K, n, s)
  }

  /** A weak table among the objects kept saves the string. */
  ghost predicate Saves(h: map<Ref, Body>, K: set<Ref>, t: Ref, s: Ref) {
    && t in K && t in h && h[t].Table?
    && var w := Mode(h, h[t].mt); (w.keys || w.values) && TableSaves(h, K, w, h[t], s)
  }

  /** Strings count as values, not as objects: those in weak slots are kept. */
  ghost function SavedStrings(h: map<Ref, Body>, K: set<Ref>): set<Ref> {
    set s | s in h && exists t :: Saves(h, K, t, s)
  }

  lemma {:induction false} InArrHits(g: State, vs: seq<Value>, s: Ref)
    ensures s in ArrHits(g, vs) <==> IsStr(g.heap, Coll(s), s) && Coll(s) in vs
  {
    if vs != [] { InArrHits(g, vs[1..], s); }
  }

  lemma {:induction false} InNodesHits(g: State, ns: seq<Node>, s: Ref)
    ensures s in NodesHits(g, ns) <==> exists n :: n in ns && s in NodeHits(g, n)
  {
    if ns != [] {
      InNodesHits(g, ns[1..], s);
      hide NodeHits;
      if n :| n in ns && s in NodeHits(g, n) { assert n == ns[0] || n in ns[1..]; }
    }
  }

  lemma {:induction false} InWeakHits(g: State, ts: seq<Ref>, s: Ref)
    ensures s in WeakHits(g, ts) <==> exists t :: t in ts && s in TableHits(g, t)
  {
    if ts != [] {
      InWeakHits(g, ts[1..], s);
      hide TableHits;
      if t :| t in ts && s in TableHits(g, t) { assert t == ts[0] || t in ts[1..]; }
    }
  }

  lemma InNodeHits(g: State, n: Node, s: Ref)
    requires g.mark.Keys == g.heap.Keys
    ensures s in NodeHits(g, n) <==> EntrySaves(g.heap, MarkedSet(g), n, s)
  {}

  lemma InTableHits(g: State, t: Ref, s: Ref)
    requires g.mark.Keys == g.heap.Keys && t in g.heap && g.heap[t].Table?
    ensures s in TableHits(g, t) <==> TableSaves(g.heap, MarkedSet(g), g.heap[t].weakBits, g.heap[t], s)
  {
    hide NodeHits, EntrySaves, MarkedSet, IsStr;
    InArrHits(g, g.heap[t].arr, s);
    InNodesHits(g, g.heap[t].nodes, s);
    if n :| n in g.heap[t].nodes && s in NodeHits(g, n) { InNodeHits(g, n, s); }
    if n :| n in g.heap[t].nodes && EntrySaves(g.heap, MarkedSet(g), n, s) { InNodeHits(g, n, s); }
  }

  // ---------- tidying and sweeping do not change what is saved ----------

  lemma EntryTidied(h: map<Ref, Body>, k: map<Ref, Body>, K: set<Ref>, n: Node, s: Ref)
    requires TidiedHeap(h, k)
    ensures EntrySaves(k, K, n, s) == EntrySaves(h, K, n, s) && IsStr(k, Coll(s), s) == IsStr(h, Coll(s), s)
  {
    if n.key.Coll? && n.key.r in h { assert Tidied(h[n.key.r], k[n.key.r]); }
    if s in h { assert Tidied(h[s], k[s]); }
  }

  lemma EntriesTidied(h: map<Ref, Body>, a: seq<Node>, b: seq<Node>, K: set<Ref>, s: Ref)
    requires TidyNodes(a, b)
    ensures (exists n :: n in a && EntrySaves(h, K, n, s)) <==> (exists n :: n in b && EntrySaves(h, K, n, s))
  {
    if n :| n in a && EntrySaves(h, K, n, s) {
      var i :| 0 <= i < |a| && a[i] == n;
      assert b[i] == n;
    }
    if n :| n in b && EntrySaves(h, K, n, s) {
      var i :| 0 <= i < |b| && b[i] == n;
      assert a[i] == n;
    }
  }

  lemma TableTidied(h: map<Ref, Body>, k: map<Ref, Body>, K: set<Ref>, w: Weak, t: Ref, s: Ref)
    requires TidiedHeap(h, k) && t in h && h[t].Table?
    ensures k[t].Table? && k[t].mt == h[t].mt && TableSaves(k, K, w, k[t], s) == TableSaves(h, K, w, h[t], s)
  {
    assert Tidied(h[t], k[t]);
    EntryTidied(h, k, K, Node(Nil, Nil), s);
    hide EntrySaves, IsStr;
    EntriesTidied(h, h[t].nodes, k[t].nodes, K, s) by { assert k[t] == h[t] ==> TidyNodes(h[t].nodes, k[t].nodes); }
    if n :| n in k[t].nodes && EntrySaves(k, K, n, s) { EntryTidied(h, k, K, n, s); }
    if n :| n in k[t].nodes && EntrySaves(h, K, n, s) { EntryTidied(h, k, K, n, s); }
  }

  lemma SavesTidied(h: map<Ref, Body>, k: map<Ref, Body>, K: set<Ref>, t: Ref, s: Ref)
    requires TidiedHeap(h, k)
    ensures Saves(k, K, t, s) == Saves(h, K, t, s)
  {
    hide TableSaves;
    if t in h {
      assert Tidied(h[t], k[t]);
      if h[t].Table? {
        ModeTidied(h, k, h[t].mt);
        TableTidied(h, k, K, Mode(h, h[t].mt), t, s);
      }
    }
  }

  /** The strings that a finished mark phase saves, apart from those that are marked anyway. */
  lemma HitsAreSaved(g0: State, m: State, s: Ref)
    requires MarkedUp(g0, m) && m.mark.Keys == m.heap.Keys
    ensures s in WeakHits(m, m.weak) ==> s in SavedStrings(m.heap, MarkedSet(m))
    ensures s in SavedStrings(m.heap, MarkedSet(m)) ==> s in WeakHits(m, m.weak) || s in MarkedSet(m)
  {
    hide TableHits, TableSaves, WeakHits, AllRefs, Covered, Mode;
    InWeakHits(m, m.weak, s);
    if t :| t in m.weak && s in TableHits(m, t) {
      assert WeakListed(m, t);
      ListedIsMarked(m, t);
      InTableHits(m, t, s);
      assert Saves(m.heap, MarkedSet(m), t, s);
      SavedIsString(m.heap, MarkedSet(m), m.heap[t].weakBits, m.heap[t], s);
    }
    if s in SavedStrings(m.heap, MarkedSet(m)) {
      var t :| Saves(m.heap, MarkedSet(m), t, s);
      assert Sorted(m, t);
      if m.mark[t].Black? {
        assert Covered(m, t);
        BlackSaves(m, t, s);
      } else {
        GrayIsWeak(g0, m, t);
        InTableHits(m, t, s);
      }
    }
  }

  lemma ListedIsMarked(m: State, t: Ref)
    requires Tri(m, {}, {}) && t in m.weak && t in m.heap
    ensures t in MarkedSet(m)
  {
    assert Sorted(m, t) && multiset(m.weak)[t] > 0;
  }

  lemma SavedIsString(h: map<Ref, Body>, K: set<Ref>, w: Weak, b: Body, s: Ref)
    requires b.Table? && TableSaves(h, K, w, b, s)
    ensures s in h
  {}

  lemma BlackSaves(m: State, t: Ref, s: Ref)
    requires t in m.heap && t in m.mark && m.mark[t].Black? && m.heap[t].Table? && Covered(m, t)
    requires TableSaves(m.heap, MarkedSet(m), Mode(m.heap, m.heap[t].mt), m.heap[t], s)
    ensures s in MarkedSet(m)
  {
    assert s in AllRefs(m.heap, m.heap[t]);
  }

  lemma GrayIsWeak(g0: State, m: State, t: Ref)
    requires MarkedUp(g0, m) && t in m.heap && t in m.mark && m.mark[t].Gray? && m.heap[t].Table? && Sorted(m, t)
    ensures t in m.weak && WeakListed(m, t)
  {
    assert m.gray == [] && multiset(m.gray)[t] == 0;
    assert t !in m.grayagain;
  }

  // ---------- from the swept heap to the heap at the start ----------

  lemma EntrySwept(h: map<Ref, Body>, k: map<Ref, Body>, K: set<Ref>, n: Node, s: Ref)
    requires SlotsKept(h, k) && (n.val != Nil ==> ValueRef(n.key) + ValueRef(n.val) <= k.Keys)
    ensures EntrySaves(k, K, n, s) == EntrySaves(h, K, n, s)
  {
    if n.key.Coll? && n.key.r in k { assert BodyKept(h, k, n.key.r); }
    if s in k { assert BodyKept(h, k, s); }
  }

  lemma TableSwept(h: map<Ref, Body>, k: map<Ref, Body>, K: set<Ref>, w: Weak, t: Ref, s: Ref)
    requires SlotsKept(h, k) && t in k && k[t].Table? && h[t] == k[t] && LiveRefs(k, k[t]) <= k.Keys
    ensures TableSaves(k, K, w, k[t], s) == TableSaves(h, K, w, h[t], s)
  {
    var b := k[t];
    forall n | n in b.nodes ensures EntrySaves(k, K, n, s) == EntrySaves(h, K, n, s) {
      assert n.val != Nil && n.key.Coll? ==> n.key.r in LiveKeyRefs(b.nodes);
      assert n.val.Coll? ==> n.val.r in ValRefs(b.nodes);
      EntrySwept(h, k, K, n, s);
    }
    if Coll(s) in b.arr {
      assert s in ValueRefs(b.arr);
      assert BodyKept(h, k, s);
    }
    hide EntrySaves;
  }

  lemma SavesSwept(h: map<Ref, Body>, k: map<Ref, Body>, K: set<Ref>, t: Ref, s: Ref)
    requires SlotsKept(h, k) && K <= k.Keys && forall x | x in k :: LiveRefs(k, k[x]) <= k.Keys
    ensures Saves(k, K, t, s) == Saves(h, K, t, s)
    ensures Saves(k, K, t, s) ==> s in k
  {
    hide TableSaves, SlotsKept, LiveRefs;
    if t in K {
      KeptRefs(h, k, t);
      KindKept(h, k, t);
      if k[t].Table? {
        TableSwept(h, k, K, Mode(k, k[t].mt), t, s);
        if Saves(k, K, t, s) { SavedIsString(k, K, Mode(k, k[t].mt), k[t], s); }
      }
    }
  }

  lemma KindKept(h: map<Ref, Body>, k: map<Ref, Body>, t: Ref)
    requires SlotsKept(h, k) && t in k
    ensures t in h && (h[t].Table? <==> k[t].Table?)
  {
    assert BodyKept(h, k, t);
  }

  lemma SavedSwept(h: map<Ref, Body>, k: map<Ref, Body>, K: set<Ref>)
    requires SlotsKept(h, k) && K <= k.Keys && forall x | x in k :: LiveRefs(k, k[x]) <= k.Keys
    ensures SavedStrings(k, K) == SavedStrings(h, K)
  {
    hide Saves, SlotsKept, LiveRefs;
    assert k.Keys <= h.Keys by { KeysKept(h, k); }
    forall t, s
      ensures Saves(k, K, t, s) == Saves(h, K, t, s) && (Saves(k, K, t, s) ==> s in k)
    {
      SavesSwept(h, k, K, t, s);
    }
  }

  lemma KeysKept(h: map<Ref, Body>, k: map<Ref, Body>)
    requires SlotsKept(h, k)
    ensures k.Keys <= h.Keys
  {}

  lemma SavedTidied(h: map<Ref, Body>, k: map<Ref, Body>, K: set<Ref>)
    requires TidiedHeap(h, k)
    ensures SavedStrings(k, K) == SavedStrings(h, K)
  {
    hide Saves;
    forall t, s ensures Saves(k, K, t, s) == Saves(h, K, t, s) { SavesTidied(h, k, K, t, s); }
  }

  // ---------- the theorem ----------

  /** The userdata that a full collection from `g` hands to their finalizers. */
  ghost function Finalized(g: State): set<Ref> { set u | u in g.heap && Alive(g, u) && ToFinalize(g, u) }

  /** What is strongly reachable from the roots and from what finalizers see. */
  ghost function Strong(g: State): set<Ref> { Closure(g.heap, Roots(g) + Finalized(g), {}) }

  /** What a full collection leaves: that, the strings in weak tables, and the fixed objects. */
  ghost function Survivors(g: State): set<Ref> { Strong(g) + SavedStrings(g.heap, Strong(g)) + g.fixed }

  /** The facts about the swept state that the theorem uses. */
  lemma SweptFacts(g: State)
    requires Inv(g)
    ensures SlotsKept(g.heap, Swept(g).heap) && RestKept(g, Swept(g)) && Roots(Swept(g)) == Roots(g)
    ensures forall x | x in Swept(g).heap :: LiveRefs(Swept(g).heap, Swept(g).heap[x]) <= Swept(g).heap.Keys
    ensures Roots(g) <= Swept(g).heap.Keys && g.fixed <= Swept(g).heap.Keys && Swept(g).fixed == g.fixed
    ensures forall x :: x in Swept(g).heap <==> x in g.heap && Alive(g, x)
    ensures forall u | u in Swept(g).tmudata :: u in Swept(g).heap
  {
    hide Inv, SlotsKept, Swept, LiveRefs, RestKept, Roots, NoDangling, RootsExist, MarkedSet, Elems;
    var f := Swept(g);
    SweptInv(g);
    SweptKeeps(g);
    RestRoots(g, f);
    LeftMarks(f);
    RootsInHeap(f);
    FixedAreThere(f);
    forall x | x in f.heap ensures LiveRefs(f.heap, f.heap[x]) <= f.heap.Keys { SlotsExist(f, x); }
  }

  lemma RestRoots(g: State, r: State)
    requires RestKept(g, r)
    ensures Roots(r) == Roots(g) && r.fixed == g.fixed && r.tmudata == g.tmudata
  {}

  lemma FixedAreThere(g: State)
    requires Inv(g)
    ensures g.fixed <= g.heap.Keys
  {}

  lemma LeftOverSwept(g: State, f: State)
    requires RestKept(g, f)
    ensures LeftOver(f) == LeftOver(g)
  {}

  lemma FinalizeSwept(g: State, u: Ref)
    requires Inv(g)
    ensures ToFinalize(Swept(g), u) <==> u in Finalized(g)
  {
    hide Inv, Swept, Closure, HasGc, Roots, LeftOver, SlotsKept, LiveRefs, StrongRefs;
    var f := Swept(g);
    SweptFacts(g);
    LeftOverSwept(g, f);
    ClosureSwept(g.heap, f.heap, Roots(g), LeftOver(g));
    if u in f.heap {
      KeptRefs(g.heap, f.heap, u);
      if HasGc(f.heap, f.heap[u]) { UdataKept(g.heap, f.heap, u); }
    }
    assert ToFinalize(f, u) ==> u in f.heap;
  }

  lemma UdataKept(h: map<Ref, Body>, k: map<Ref, Body>, u: Ref)
    requires SlotsKept(h, k) && u in k && HasGc(k, k[u])
    ensures h[u] == k[u]
  {
    assert BodyKept(h, k, u);
  }

  lemma FinalizedIs(g: State)
    requires Inv(g)
    ensures Propagating(AllGrayDone(g)) && AllGrayDone(g).gray == []
    ensures Elems(AtomicMark(AllGrayDone(g)).tmudata) == Finalized(g)
  {
    hide Inv, Swept, AllGrayDone, Propagating, AtomicMark, ToFinalize, Finalized;
    MarksAreKept(g);
    forall u ensures u in AtomicMark(AllGrayDone(g)).tmudata <==> u in Finalized(g) {
      SeparatedExactly(g, u);
      FinalizeSwept(g, u);
    }
  }

  lemma StrongSwept(g: State)
    requires Inv(g)
    ensures Closure(Swept(g).heap, Roots(Swept(g)) + Finalized(g), {}) == Strong(g) <= Swept(g).heap.Keys
    ensures SavedStrings(Swept(g).heap, Strong(g)) == SavedStrings(g.heap, Strong(g))
  {
    hide Inv, Swept, Closure, SlotsKept, LiveRefs, ToFinalize, Roots, SavedStrings;
    SweptFacts(g);
    ClosureSwept(g.heap, Swept(g).heap, Roots(g) + Finalized(g), {});
    ClosureInHeap(Swept(g).heap, Roots(g) + Finalized(g));
    SavedSwept(g.heap, Swept(g).heap, Strong(g));
  }

  lemma ClosureInHeap(h: map<Ref, Body>, R: set<Ref>)
    ensures Closure(h, R, {}) <= h.Keys
  {}

  /** The marks and the weak tables at the end of the mark phase of a full collection. */
  lemma MarkedAndSaved(g: State, x: Ref)
    requires Inv(g)
    ensures Propagating(AllGrayDone(g)) && AllGrayDone(g).gray == []
    ensures x in Strong(g) || x in WeakHits(AtomicMark(AllGrayDone(g)), AtomicMark(AllGrayDone(g)).weak)
       <==> x in Strong(g) + SavedStrings(g.heap, Strong(g))
  {
    hide Inv, Swept, AllGrayDone, Propagating, AtomicMark, Closure, Elems, Strong, SavedStrings, WeakHits, MarkedUp,
        MarkedSet,
         Roots, TidiedHeap, Kept, Finalized, SameCycle, Atomic1, Atomic2, Atomic3, Atomic4;
    var f := Swept(g);
    MarksAreKept(g);
    var p := AllGrayDone(g);
    var m := AtomicMark(p);
    FinalizedIs(g);
    StrongSwept(g);
    MarkingIsExact(p);
    assert MarkedSet(m) == Strong(g);
    AtomicStages(p);
    AtomicMarkDef(p);
    MarkedUpFixed(p, m);
    HitsAreSaved(p, m, x);
    MarkedUpTidied(f, p, m);
    SavedTidied(f.heap, m.heap, Strong(g));
  }

  lemma MarkedUpTidied(f: State, p: State, m: State)
    requires SameCycle(f, p) && MarkedUp(p, m)
    ensures TidiedHeap(f.heap, m.heap)
  {
    TidiedTrans(f.heap, p.heap, m.heap);
  }

  lemma SavedInHeap(h: map<Ref, Body>, K: set<Ref>)
    ensures SavedStrings(h, K) <= h.Keys
  {}

  /** `luaC_fullgc`, called in any phase, returns at rest, with no finalizer pending. What it leaves
      depends on the heap at the start only: exactly the objects that are strongly reachable from the
      roots or from the userdata that finalizers see, the strings in weak tables among them, and the
      fixed objects. */
  lemma FullGcIsExact(g: State)
    requires Inv(g)
    ensures Inv(FullGc(g)) && FullGc(g).phase == Pause && FullGc(g).tmudata == []
    ensures FullGc(g).heap.Keys == Survivors(g)
  {
    hide Inv, Swept, AllGrayDone, Propagating, AtomicMark, Closure, Elems, Strong, SavedStrings, WeakHits, FullGc,
        Roots, Finalized, LiveRefs, SlotsKept;
    FullGcLeaves(g, g.mainthread);
    SweptFacts(g);
    StrongSwept(g);
    SavedInHeap(Swept(g).heap, Strong(g));
    forall x ensures x in FullGc(g).heap <==> x in Survivors(g) {
      FullGcLeaves(g, x);
      FinalizedIs(g);
      MarkedAndSaved(g, x);
    }
  }

  /** What is strongly reachable survives a full collection. */
  lemma StrongSurvives(g: State, x: Ref)
    requires Inv(g) && x in g.heap && StrongReach(g.heap, Roots(g), {}, x)
    ensures x in FullGc(g).heap
  {
    hide Inv, FullGc, Roots, SavedStrings, Finalized;
    FullGcIsExact(g);
    var p :| StrongPath(g.heap, Roots(g), {}, p) && p[|p| - 1] == x;
    assert StrongPath(g.heap, Roots(g) + Finalized(g), {}, p);
  }
}
