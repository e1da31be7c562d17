/** What a full collection does to the slots of the objects that it keeps. */
module GcSlots {
  import opened GcHeap
  import opened GcMark
  import opened GcAtomic
  import opened GcSweep
  import opened GcCycle
  import opened GcSteps
  import opened GcRun
  import opened GcReach
  import opened GcWithin
  import opened GcExact
  import opened GcFull
  import opened GcFinal
  import opened GcKeep
  import opened GcSurvive
  import opened GcContents

  // ---------- weak tables are never black in a full collection ----------

  ghost predicate WeakTable(h: map<Ref, Body>, t: Ref) {
    t in h && h[t].Table? && var w := Mode(h, h[t].mt); w.keys || w.values
  }

  ghost predicate NoneBlack(g: State) { forall t | WeakTable(g.heap, t) :: !IsBlack(g, t) }

  /** Marking does not turn tables black. */
  ghost predicate NewGray(g: State, r: State) {
    r.heap == g.heap && forall t | t in g.heap && g.heap[t].Table? && IsBlack(r, t) :: IsBlack(g, t)
  }

  lemma NewGrayTrans(a: State, b: State, c: State)
    requires NewGray(a, b) && NewGray(b, c)
    ensures NewGray(a, c)
  {}

  lemma NewGrayNone(g: State, r: State)
    requires NewGray(g, r) && NoneBlack(g)
    ensures NoneBlack(r)
  {}

  lemma {:induction false} MarkObjectGray(g: State, o: Ref)
    ensures NewGray(g, MarkObject(g, o))
    decreases |Whites(g)|, 1
  {
    if IsWhite(g, o) && o in g.heap { ReallyMarkGray(g, o); }
  }

  lemma {:induction false} MarkValueGray(g: State, v: Value)
    ensures NewGray(g, MarkValue(g, v))
    decreases |Whites(g)|, 2
  {
    if v.Coll? { MarkObjectGray(g, v.r); }
  }

  lemma {:induction false} ReallyMarkGray(g: State, o: Ref)
    requires IsWhite(g, o) && o in g.heap
    ensures NewGray(g, ReallyMark(g, o))
    decreases |Whites(g)|, 0
  {
    var c := if g.heap[o].Udata? then Black else Gray;
    var g1 := g.(mark := g.mark[o := c]);
    assert Whites(g1) == Whites(g) - {o};
    assert NewGray(g, g1);
    match g.heap[o]
    case Udata(mt, env, _) =>
      var g2 := if mt.Some? then MarkObject(g1, mt.value) else g1;
      if mt.Some? { MarkObjectGray(g1, mt.value); }
      WhitesShrink(g1, g2);
      MarkObjectGray(g2, env);
    case UpVal(home) => MarkValueGray(g1, UpvalValue(g.heap, home));
    case _ =>
  }

  lemma {:induction false} MarkAllGray(g: State, vs: seq<Value>)
    ensures NewGray(g, MarkAll(g, vs))
    decreases |vs|
  {
    hide MarkValue;
    if vs != [] {
      MarkValueGray(g, vs[0]);
      MarkAllGray(MarkValue(g, vs[0]), vs[1..]);
    }
  }

  lemma {:induction false} MarkMtGray(g: State, ms: seq<Option<Ref>>)
    ensures NewGray(g, MarkMt(g, ms))
    decreases |ms|
  {
    hide MarkObject;
    if ms != [] {
      if ms[0].Some? { MarkObjectGray(g, ms[0].value); }
      MarkMtGray(if ms[0].Some? then MarkObject(g, ms[0].value) else g, ms[1..]);
    }
  }

  /** As `NewGray`, for a step that also tidies bodies. */
  ghost predicate NoNewBlack(g: State, r: State) {
    forall t | t in g.heap && g.heap[t].Table? && IsBlack(r, t) :: IsBlack(g, t)
  }

  lemma HeadGray(g: State, o: Ref, w: Weak)
    requires o in g.heap && g.heap[o].Table?
    ensures NoNewBlack(g, TraverseHead(g, o, w))
  {
    hide MarkObject;
    var b := g.heap[o];
    if b.mt.Some? { MarkObjectGray(g, b.mt.value); }
  }

  lemma PartsGray(g: State, o: Ref, w: Weak)
    requires o in g.heap && g.heap[o].Table?
    ensures NoNewBlack(g, TraverseParts(g, o, w))
  {
    hide MarkAll;
    var b := g.heap[o];
    var g1 := if w.values then g else MarkAll(g, Rev(b.arr));
    if !w.values { MarkAllGray(g, Rev(b.arr)); }
    MarkAllGray(g1, NodeOrder(b.nodes, w));
    NewGrayTrans(g, g1, MarkAll(g1, NodeOrder(b.nodes, w)));
  }

  lemma HeadTables(g: State, o: Ref, w: Weak)
    requires o in g.heap && g.heap[o].Table?
    ensures forall t | t in g.heap && g.heap[t].Table? ::
      t in TraverseHead(g, o, w).heap && TraverseHead(g, o, w).heap[t].Table?
  {
    hide MarkObject;
    var b := g.heap[o];
    if b.mt.Some? { MarkObjectGray(g, b.mt.value); }
  }

  lemma TraverseGray(g: State, o: Ref)
    requires o in g.heap && g.heap[o].Table?
    ensures NoNewBlack(g, TraverseTable(g, o))
  {
    hide TraverseHead, TraverseParts, IsBlack;
    var w := Mode(g.heap, g.heap[o].mt);
    HeadGray(g, o, w);
    HeadTables(g, o, w);
    if !(w.keys && w.values) { PartsGray(TraverseHead(g, o, w), o, w); }
  }

  /** A propagation step turns only objects black that are no weak tables. */
  lemma PropagateGray(g: State, t: Ref)
    requires g.gray != [] && g.gray[0] in g.heap && WeakTable(g.heap, t) && IsBlack(PropagateMark(g), t)
    ensures IsBlack(g, t)
  {
    hide TraverseTable, MarkAll, Mode;
    var o := g.gray[0];
    if g.heap[o].Table? {
      TraverseGray(Pop(g, Black), o);
      assert t != o;
    } else {
      PropagateOtherDef(g);
      var p := PopOther(g, if g.heap[o].Thread? then Gray else Black);
      MarkAllGray(p, Order(g.heap[o]));
      assert NewGray(p, PropagateMark(g));
    }
  }

  lemma WeakTidied(h: map<Ref, Body>, k: map<Ref, Body>, t: Ref)
    requires TidiedHeap(h, k) && WeakTable(k, t)
    ensures WeakTable(h, t)
  {
    assert Tidied(h[t], k[t]);
    ModeTidied(h, k, h[t].mt);
  }

  lemma PropagateNone(g: State)
    requires Markable(g) && g.gray != [] && NoneBlack(g)
    ensures g.gray[0] in g.heap && Markable(PropagateMark(g)) && NoneBlack(PropagateMark(g))
    ensures |Whites(PropagateMark(g))| + |PropagateMark(g).gray| < |Whites(g)| + |g.gray|
  {
    PropagateUdata(g);
    PropagateTidies(g);
    hide Markable, PropagateMark, WeakTable, IsBlack;
    forall t | WeakTable(PropagateMark(g).heap, t) ensures !IsBlack(PropagateMark(g), t) {
      WeakTidied(g.heap, PropagateMark(g).heap, t);
      if IsBlack(PropagateMark(g), t) { PropagateGray(g, t); }
    }
  }

  lemma PropagateTidies(g: State)
    requires Markable(g) && g.gray != []
    ensures g.gray[0] in g.heap && TidiedHeap(g.heap, PropagateMark(g).heap)
  {
    hide Tri, NoDangling, PropagateMark, Settled;
    PropagateSettles(g, g.heap.Keys);
    SettledTidies(g, PropagateMark(g));
  }

  lemma SettledTidies(g: State, r: State)
    requires Settled(g, r)
    ensures TidiedHeap(g.heap, r.heap)
  {}

  lemma {:induction false} PropagateAllNone(g: State)
    requires Markable(g) && NoneBlack(g)
    ensures NoneBlack(PropagateAll(g))
    decreases |Whites(g)| + |g.gray|
  {
    hide Markable, PropagateMark, NoneBlack;
    if g.gray != [] {
      PropagateNone(g);
      PropagateAllNone(PropagateMark(g));
    }
  }

  lemma {:induction false} RemarkNone(g: State, us: seq<Ref>)
    ensures NewGray(g, RemarkUpvals(g, us))
    decreases |us|
  {
    hide MarkValue;
    if us != [] {
      var u := us[0];
      if IsGray(g, u) && u in g.heap && g.heap[u].UpVal? { MarkValueGray(g, UpvalValue(g.heap, g.heap[u].home)); }
      assert NewGray(g, RemarkOne(g, u));
      RemarkNone(RemarkOne(g, u), us[1..]);
    }
  }

  lemma RemarkUdataGray(g: State, u: Ref)
    ensures NewGray(g, RemarkUdata(g, u))
  {
    hide ReallyMark;
    if u in g.heap { ReallyMarkGray(MakeWhite(g, u), u); }
  }

  lemma {:induction false} MarkTmuGray(g: State, us: seq<Ref>)
    ensures NewGray(g, MarkTmu(g, us))
    decreases |us|
  {
    hide RemarkUdata;
    if us != [] {
      RemarkUdataGray(g, us[0]);
      MarkTmuGray(RemarkUdata(g, us[0]), us[1..]);
    }
  }

  lemma RelistedNone(g: State, r: State)
    requires NoneBlack(g) && r.heap == g.heap && r.mark == g.mark
    ensures NoneBlack(r)
  {}

  lemma SeparatedNone(g: State, i: nat)
    requires NoneBlack(g)
    ensures NoneBlack(SeparateFrom(g, i))
  {
    hide SeparateFrom;
    SeparateFromDoes(g, i);
    var h := SeparateFrom(g, i);
    forall t | WeakTable(h.heap, t) ensures !IsBlack(h, t) { WeakTidied(g.heap, h.heap, t); }
  }

  lemma StartNone(g: State)
    requires NoneBlack(g)
    ensures NoneBlack(Atomic2Start(g)) && NoneBlack(Atomic4Start(g))
  {
    hide MarkMt, MarkObject, MarkTmu, SeparateFrom, NoneBlack;
    var g1 := g.(gray := g.weak, weak := []);
    RelistedNone(g, g1);
    MarkObjectGray(g1, g.running);
    NewGrayNone(g1, MarkObject(g1, g.running));
    MarkMtGray(MarkObject(g1, g.running), g.mt);
    NewGrayNone(MarkObject(g1, g.running), Atomic2Start(g));
    var i := After(g.rootgc, g.mainthread);
    SeparatedNone(g, i);
    MarkTmuGray(SeparateFrom(g, i), SeparateFrom(g, i).tmudata);
    NewGrayNone(SeparateFrom(g, i), Atomic4Start(g));
  }

  lemma AtomicNone(p: State)
    requires Propagating(p) && p.gray == [] && NoneBlack(p)
    ensures NoneBlack(AtomicMark(p))
  {
    hide Propagating, MarkedUp, Markable, NoneBlack, PropagateAll, RemarkUpvals, Atomic2Start, Atomic4Start, Separated,
        FromSeparate, AtomicFrom;
    AtomicStages(p);
    AtomicMarkDef(p);
    var g0 := RemarkUpvals(p, p.uvhead);
    RemarkNone(p, p.uvhead);
    NewGrayNone(p, g0);
    PropagateAllNone(g0);
    var g1 := Atomic1(p);
    StartNone(g1);
    PropagateAllNone(Atomic2Start(g1));
    var g2 := Atomic2(g1);
    RelistedNone(g2, g2.(gray := g2.grayagain, grayagain := []));
    PropagateAllNone(g2.(gray := g2.grayagain, grayagain := []));
    var g3 := Atomic3(g2);
    StartNone(g3);
    PropagateAllNone(Atomic4Start(g3));
  }

  lemma MarkRootNone(f: State)
    requires Inv(f) && f.phase == Finalize
    ensures NoneBlack(MarkRoot(f))
  {
    LeftMarks(f);
    assert NoneBlack(f) by { LeftNone(f); }
    hide Inv, NoneBlack, MarkMt, MarkObject, MarkValue;
    var f0 := f.(gray := [], grayagain := [], weak := []);
    RelistedNone(f, f0);
    var g1 := MarkObject(f0, f.mainthread);
    MarkObjectGray(f0, f.mainthread);
    NewGrayNone(f0, g1);
    var gt := if f.mainthread in f.heap && f.heap[f.mainthread].Thread? then f.heap[f.mainthread].gt else Nil;
    MarkValueGray(g1, gt);
    NewGrayNone(g1, MarkValue(g1, gt));
    var g2 := MarkValue(MarkValue(g1, gt), f.registry);
    MarkValueGray(MarkValue(g1, gt), f.registry);
    NewGrayNone(MarkValue(g1, gt), g2);
    MarkMtGray(g2, f.mt);
    NewGrayNone(g2, MarkMt(g2, f.mt));
    RelistedNone(MarkMt(g2, f.mt), MarkRoot(f));
  }

  lemma LeftNone(f: State)
    requires MarkedSet(f) <= Elems(f.tmudata) && forall u | u in f.tmudata :: u in f.heap && f.heap[u].Udata?
    ensures NoneBlack(f)
  {
    forall t | WeakTable(f.heap, t) ensures !IsBlack(f, t) {
      assert t !in Elems(f.tmudata);
    }
  }

  lemma FullNone(g: State)
    requires Inv(g)
    ensures Propagating(AllGrayDone(g)) && AllGrayDone(g).gray == [] && NoneBlack(AtomicMark(AllGrayDone(g)))
  {
    hide Inv, Propagating, NoneBlack, MarkRoot, PropagateAll, AllGrayDone, AtomicMark, Swept, Markable;
    SweptInv(g);
    GrayDoneDef(g);
    MarkRootNone(Swept(g));
    PropagateAllNone(MarkRoot(Swept(g)));
    MarksAreKept(g);
    AtomicNone(AllGrayDone(g));
  }

  // ---------- what a full collection takes from the tables it keeps ----------

  /** Userdata that are flagged when the weak tables are cleared: those that were flagged before, and
      those that are not strongly reachable, other than through finalizers. */
  ghost function Flagged(g: State): set<Ref> {
    set u | u in g.heap && g.heap[u].Udata?
      && (g.heap[u].finalized || (u !in g.tmudata && u !in Closure(g.heap, Roots(g), LeftOver(g))))
  }

  /** The weak tables that are kept. */
  ghost function WeakKept(g: State): set<Ref> { set t | t in Strong(g) && WeakTable(g.heap, t) }

  ghost function FullLoss(g: State): Loss { Loss(Strong(g), Flagged(g), WeakKept(g)) }

  lemma MarkedIsStrong(g: State)
    requires Inv(g)
    ensures Propagating(AllGrayDone(g)) && AllGrayDone(g).gray == []
    ensures MarkedSet(AtomicMark(AllGrayDone(g))) == Strong(g)
  {
    hide Inv, Swept, AllGrayDone, Propagating, AtomicMark, Closure, Elems, Strong, MarkedSet, Roots, Kept, Finalized,
        SameCycle;
    MarksAreKept(g);
    FinalizedIs(g);
    StrongSwept(g);
    MarkingIsExact(AllGrayDone(g));
  }

  lemma SweptTidied(g: State)
    requires Inv(g)
    ensures TidiedHeap(Swept(g).heap, AllGrayDone(g).heap) && SameUdata(Swept(g).heap, AllGrayDone(g).heap)
    ensures AllGrayDone(g).tmudata == Swept(g).tmudata == g.tmudata
  {
    hide Inv, Swept, AllGrayDone, TidiedHeap, Roots, SlotsKept, LiveRefs;
    MarksAreKept(g);
    AllGrayUdata(g);
    SweptKeeps(g);
    SameCycleParts(Swept(g), AllGrayDone(g));
  }

  /** The flags in terms of the starting heap. */
  lemma FlagsAre(g: State, u: Ref)
    requires Inv(g) && u in Swept(g).heap
    ensures Propagating(AllGrayDone(g)) && AllGrayDone(g).gray == []
    ensures u in AtomicFlags(AllGrayDone(g)) <==> u in Flagged(g)
  {
    hide Inv, Swept, AllGrayDone, Propagating, AtomicMark, Closure, Roots, MarkedSet, LeftOver, SlotsKept, LiveRefs,
        BeforeSeparate, TidiedHeap;
    MarksAreKept(g);
    SweptTidied(g);
    SweptFacts(g);
    BeforeSeparateMarks(g);
    LeftSwept(g);
    var f, p := Swept(g), AllGrayDone(g);
    UdataThere(f.heap, p.heap, u);
    SweptUdata(g.heap, f.heap, u);
    ClosureSwept(g.heap, f.heap, Roots(g), LeftOver(g));
    LeftInTmu(g);
  }

  lemma LeftInTmu(g: State)
    ensures forall u | u in LeftOver(g) :: u in g.tmudata
  {}

  lemma LeftSwept(g: State)
    requires Inv(g)
    ensures MarkedSet(Swept(g)) == LeftOver(Swept(g)) == LeftOver(g)
  {
    hide Inv, Swept, SlotsKept;
    SweptInv(g);
    LeftMarks(Swept(g));
    LeftOverIs(Swept(g));
    SweptKeeps(g);
    LeftOverSwept(g, Swept(g));
  }

  lemma UdataThere(h: map<Ref, Body>, k: map<Ref, Body>, u: Ref)
    requires TidiedHeap(h, k) && SameUdata(h, k) && u in h
    ensures u in k && (h[u].Udata? <==> k[u].Udata?) && (h[u].Udata? ==> k[u] == h[u])
  {
    assert Tidied(h[u], k[u]);
  }

  lemma SweptUdata(h: map<Ref, Body>, k: map<Ref, Body>, u: Ref)
    requires SlotsKept(h, k) && u in k
    ensures u in h && (h[u].Udata? <==> k[u].Udata?) && (h[u].Udata? ==> k[u] == h[u])
    ensures h[u].Str? <==> k[u].Str?
  {
    assert BodyKept(h, k, u);
  }

  /** The cleared tables in terms of the starting heap. */
  lemma ClearedAre(g: State, t: Ref)
    requires Inv(g)
    ensures Propagating(AllGrayDone(g)) && AllGrayDone(g).gray == []
    ensures t in Elems(AtomicMark(AllGrayDone(g)).weak) <==> t in WeakKept(g)
  {
    hide Inv, Swept, AllGrayDone, Propagating, AtomicMark, Strong, MarkedSet, NoneBlack, WeakTable, TidiedHeap,
        SlotsKept, LiveRefs, MarkedUp;
    MarksAreKept(g);
    MarkedIsStrong(g);
    FullNone(g);
    SweptTidied(g);
    SweptFacts(g);
    var f, p := Swept(g), AllGrayDone(g);
    var m := AtomicMark(p);
    AtomicStages(p);
    AtomicMarkDef(p);
    MarkedUpTidy(p, m);
    ListedIsWeak(p, m, t);
    TidiedTrans(f.heap, p.heap, m.heap);
    WeakSame(f.heap, m.heap, t);
    if t in f.heap { WeakSwept(g, f, t); } else { StrongIsThere(g, t); }
  }

  lemma StrongIsThere(g: State, t: Ref)
    requires Inv(g) && t !in Swept(g).heap
    ensures t !in Strong(g) && !WeakTable(Swept(g).heap, t)
  {
    hide Inv, Swept, Strong;
    StrongSwept(g);
  }

  lemma WeakSwept(g: State, f: State, t: Ref)
    requires SlotsKept(g.heap, f.heap) && t in f.heap && LiveRefs(f.heap, f.heap[t]) <= f.heap.Keys
    ensures WeakTable(f.heap, t) <==> WeakTable(g.heap, t)
  {
    KeptRefs(g.heap, f.heap, t);
    KindKept(g.heap, f.heap, t);
    hide SlotsKept, LiveRefs;
  }

  lemma WeakSame(h: map<Ref, Body>, k: map<Ref, Body>, t: Ref)
    requires TidiedHeap(h, k)
    ensures WeakTable(k, t) <==> WeakTable(h, t)
  {
    if t in h {
      assert Tidied(h[t], k[t]);
      if h[t].Table? { ModeTidied(h, k, h[t].mt); }
    }
  }

  /** At the end of marking, the listed tables are the marked weak ones. */
  lemma ListedIsWeak(p: State, m: State, t: Ref)
    requires MarkedUp(p, m) && NoneBlack(m) && m.mark.Keys == m.heap.Keys
    ensures t in Elems(m.weak) <==> t in MarkedSet(m) && WeakTable(m.heap, t)
  {
    hide AllRefs, StrongRefs, LiveRefs, Covered, Mode;
    if t in m.weak {
      assert WeakListed(m, t);
      ListedIsMarked(m, t);
    }
    if t in MarkedSet(m) && WeakTable(m.heap, t) {
      assert Sorted(m, t);
      GrayIsWeak(p, m, t);
    }
  }

  // ---------- the calls of finalizers ----------

  /** Those of the userdata that have a finalizer. */
  function WithGc(h: map<Ref, Body>, us: seq<Ref>): seq<Ref> {
    if us == [] then [] else (if us[0] in h && HasGc(h, h[us[0]]) then [us[0]] else []) + WithGc(h, us[1..])
  }

  predicate IsThread(h: map<Ref, Body>, t: Ref) { t in h && h[t].Thread? }

  /** Nothing has changed but the stack of the running thread. */
  ghost predicate Pushed(h: map<Ref, Body>, running: Ref, calls: seq<Ref>, k: map<Ref, Body>) {
    && k.Keys == h.Keys && (forall x | x in h && x != running :: k[x] == h[x])
    && if IsThread(h, running) then k[running] == h[running].(stack := h[running].stack + AsValues(calls))
       else running in h ==> k[running] == h[running]
  }

  lemma AsValuesParts(a: seq<Ref>, b: seq<Ref>)
    ensures AsValues(a + b) == AsValues(a) + AsValues(b)
  {}

  lemma PushedTrans(h: map<Ref, Body>, running: Ref, a: seq<Ref>, k: map<Ref, Body>, b: seq<Ref>, l: map<Ref, Body>)
    requires Pushed(h, running, a, k) && Pushed(k, running, b, l)
    ensures Pushed(h, running, a + b, l)
  {
    AsValuesParts(a, b);
    hide AsValues;
    if IsThread(h, running) {
      assert h[running].stack + AsValues(a + b) == h[running].stack + AsValues(a) + AsValues(b);
    }
  }

  lemma PushedNone(h: map<Ref, Body>, running: Ref)
    ensures Pushed(h, running, [], h)
  {
    if IsThread(h, running) { assert h[running].stack + AsValues([]) == h[running].stack; }
  }

  lemma PushedGc(h: map<Ref, Body>, running: Ref, calls: seq<Ref>, k: map<Ref, Body>, b: Body)
    requires Pushed(h, running, calls, k)
    ensures HasGc(k, b) == HasGc(h, b)
  {
    if b.Udata? && b.mt.Some? && b.mt.value in h && b.mt.value == running {
      assert IsThread(h, running) || k[running] == h[running];
    }
  }

  lemma {:induction false} WithGcSame(h: map<Ref, Body>, running: Ref, calls: seq<Ref>, k: map<Ref, Body>, us: seq<Ref>)
    requires Pushed(h, running, calls, k)
    ensures WithGc(k, us) == WithGc(h, us)
  {
    if us != [] {
      WithGcSame(h, running, calls, k, us[1..]);
      var u := us[0];
      if u in h {
        PushedGc(h, running, calls, k, h[u]);
        if u == running { NoGcThread(h, running, calls, k); }
        hide HasGc;
      }
    }
  }

  lemma NoGcThread(h: map<Ref, Body>, running: Ref, calls: seq<Ref>, k: map<Ref, Body>)
    requires Pushed(h, running, calls, k) && running in h
    ensures k[running] == h[running] || (!HasGc(h, h[running]) && !HasGc(k, k[running]))
  {}

  lemma StepPushes(g: State)
    requires g.phase == Finalize
    ensures Pushed(g.heap, g.running, CallOf(g), StepFinalize(g).heap) && StepFinalize(g).running == g.running
    ensures g.tmudata != [] ==> StepFinalize(g).tmudata == g.tmudata[1..]
    ensures g.tmudata != [] && IsThread(g.heap, g.running) ==>
      CallOf(g) == if g.tmudata[0] in g.heap && HasGc(g.heap, g.heap[g.tmudata[0]]) then [g.tmudata[0]] else []
    ensures g.tmudata == [] ==> CallOf(g) == []
  {
    FinalizeHeap(g);
    FinalizeLists(g);
    hide HasGc, StepFinalize, AsValues;
    PushedNone(g.heap, g.running);
    if CallOf(g) != [] { OneValue(g.tmudata[0]); }
  }

  lemma FinalizeLists(g: State)
    requires g.phase == Finalize
    ensures StepFinalize(g).running == g.running
    ensures g.tmudata != [] ==> StepFinalize(g).tmudata == g.tmudata[1..]
    ensures StepFinalize(g).phase == if g.tmudata == [] then Pause else Finalize
  {
    hide HasGc;
  }

  /** The rest of a collection hands each waiting userdata with a finalizer to it, in order. */
  lemma {:induction false} CyclePushes(g: State) returns (calls: seq<Ref>)
    requires Inv(g) && g.phase == Finalize
    ensures Pushed(g.heap, g.running, calls, FinishCycle(g).heap)
    ensures calls == if IsThread(g.heap, g.running) then WithGc(g.heap, g.tmudata) else []
    decreases Work(g)
  {
    hide Inv, StepFinalize, SingleStep, FinishCycle, Pushed, Work, CallOf, WithGc, IsThread;
    var r := StepFinalize(g);
    FinalizeInv(g);
    CycleStep(g);
    StepPushes(g);
    FinalizeLists(g);
    SingleIsFinalize(g);
    PausedIsDone(r);
    WorkIs(g);
    WithGcStep(g.heap, g.tmudata);
    if g.tmudata == [] {
      calls := [];
    } else {
      WorkIs(r);
      var more := CyclePushes(r);
      calls := CallOf(g) + more;
      PushedTrans(g.heap, g.running, CallOf(g), r.heap, more, FinishCycle(g).heap);
      WithGcSame(g.heap, g.running, CallOf(g), r.heap, r.tmudata);
      PushedThread(g.heap, g.running, CallOf(g), r.heap);
      NotCalled(g);
    }
  }

  lemma WithGcStep(h: map<Ref, Body>, us: seq<Ref>)
    ensures WithGc(h, us) == if us == [] then [] else
      (if us[0] in h && HasGc(h, h[us[0]]) then [us[0]] else []) + WithGc(h, us[1..])
  {}

  lemma NotCalled(g: State)
    ensures !IsThread(g.heap, g.running) ==> CallOf(g) == []
  {}

  lemma PushedThread(h: map<Ref, Body>, running: Ref, calls: seq<Ref>, k: map<Ref, Body>)
    requires Pushed(h, running, calls, k)
    ensures IsThread(k, running) == IsThread(h, running)
  {}

  lemma SingleIsFinalize(g: State)
    requires Inv(g) && g.phase == Finalize
    ensures SingleStep(g) == StepFinalize(g)
  {
    hide Inv, StepFinalize;
  }

  lemma PausedIsDone(g: State)
    requires Inv(g)
    ensures g.phase == Pause ==> FinishCycle(g) == g
  {
    hide Inv;
  }

  lemma WorkIs(g: State)
    requires g.phase == Finalize
    ensures Work(g) == |g.tmudata|
  {}

  // ---------- putting the phases together ----------

  /** What decides is the same in both heaps, for the objects of the second one. */
  ghost predicate SameLoss(h: map<Ref, Body>, c: Loss, k: map<Ref, Body>, d: Loss) {
    && k.Keys <= h.Keys
    && forall x | x in k ::
         && (k[x].Str? <==> h[x].Str?) && (k[x].Udata? <==> h[x].Udata?)
         && (x in d.kept <==> x in c.kept) && (x in d.cleared <==> x in c.cleared)
         && (k[x].Udata? ==> (x in d.flagged <==> x in c.flagged))
  }

  lemma LostSame(h: map<Ref, Body>, c: Loss, k: map<Ref, Body>, d: Loss, v: Value, isKey: bool)
    requires SameLoss(h, c, k, d) && ValueRef(v) <= k.Keys
    ensures Lost(k, d, v, isKey) == Lost(h, c, v, isKey)
  {
    if v.Coll? { assert v.r in ValueRef(v); }
  }

  /** The mark phase has tidied the table. */
  ghost predicate TableTidied(h: map<Ref, Body>, k: map<Ref, Body>, t: Ref) {
    && t in h && t in k && h[t].Table? && k[t].Table? && TidyNodes(h[t].nodes, k[t].nodes)
    && k[t] == h[t].(nodes := k[t].nodes, weakBits := k[t].weakBits) && Mode(k, k[t].mt) == Mode(h, h[t].mt)
  }

  lemma SlotThere(h: map<Ref, Body>, k: map<Ref, Body>, t: Ref, i: nat)
    requires t in h && h[t].Table? && LiveRefs(h, h[t]) <= k.Keys
    ensures i < |h[t].arr| ==> ValueRef(h[t].arr[i]) <= k.Keys
    ensures i < |h[t].nodes| && h[t].nodes[i].val != Nil ==>
      ValueRef(h[t].nodes[i].key) <= k.Keys && ValueRef(h[t].nodes[i].val) <= k.Keys
  {
    var b := h[t];
    if i < |b.arr| && b.arr[i].Coll? {
      assert b.arr[i] in b.arr && b.arr[i].r in ValueRefs(b.arr);
    }
    if i < |b.nodes| && b.nodes[i].val != Nil {
      var n := b.nodes[i];
      assert n in b.nodes;
      assert n.key.Coll? ==> n.key.r in LiveKeyRefs(b.nodes);
      assert n.val.Coll? ==> n.val.r in ValRefs(b.nodes);
    }
  }

  lemma SlotJoined(h: map<Ref, Body>, c: Loss, k: map<Ref, Body>, d: Loss, t: Ref, i: nat, after: Value)
    requires SameLoss(h, c, k, d) && TableTidied(h, k, t) && LiveRefs(h, h[t]) <= k.Keys
    requires i < |h[t].arr| && SlotAfter(k, d, t, k[t].arr[i], after)
    ensures SlotAfter(h, c, t, h[t].arr[i], after)
  {
    SlotThere(h, k, t, i);
    LostSame(h, c, k, d, h[t].arr[i], false);
    hide Lost, LiveRefs, Mode;
  }

  lemma EntryJoined(h: map<Ref, Body>, c: Loss, k: map<Ref, Body>, d: Loss, t: Ref, i: nat, after: Node)
    requires SameLoss(h, c, k, d) && TableTidied(h, k, t) && LiveRefs(h, h[t]) <= k.Keys
    requires i < |h[t].nodes| && EntryAfter(k, d, t, k[t].nodes[i], after)
    ensures EntryAfter(h, c, t, h[t].nodes[i], after)
  {
    SlotThere(h, k, t, i);
    var n := h[t].nodes[i];
    assert k[t].nodes[i] == n || k[t].nodes[i] == Clean(n);
    if n.val != Nil {
      LostSame(h, c, k, d, n.key, true);
      LostSame(h, c, k, d, n.val, false);
    }
    hide Lost, LiveRefs, Mode;
  }

  lemma TableJoined(h: map<Ref, Body>, c: Loss, k: map<Ref, Body>, d: Loss, t: Ref, after: Body)
    requires SameLoss(h, c, k, d) && TableTidied(h, k, t) && LiveRefs(h, h[t]) <= k.Keys
    requires TableAfter(k, d, t, after)
    ensures TableAfter(h, c, t, after)
  {
    hide Lost, LiveRefs, Mode, SlotAfter, EntryAfter, SameLoss;
    forall i | 0 <= i < |h[t].arr| ensures SlotAfter(h, c, t, h[t].arr[i], after.arr[i]) {
      SlotJoined(h, c, k, d, t, i, after.arr[i]);
    }
    forall i | 0 <= i < |h[t].nodes| ensures EntryAfter(h, c, t, h[t].nodes[i], after.nodes[i]) {
      EntryJoined(h, c, k, d, t, i, after.nodes[i]);
    }
  }

  /** What happened before the end of the mark phase: dead objects went, and tables were tidied. */
  ghost predicate Prepared(h: map<Ref, Body>, f: map<Ref, Body>, k: map<Ref, Body>) {
    && SlotsKept(h, f) && TidiedHeap(f, k) && SameUdata(f, k)
    && forall x | x in f :: LiveRefs(f, f[x]) <= f.Keys
  }

  lemma PreparedTable(h: map<Ref, Body>, f: map<Ref, Body>, k: map<Ref, Body>, t: Ref)
    requires Prepared(h, f, k) && t in f && f[t].Table?
    ensures TableTidied(h, k, t) && LiveRefs(h, h[t]) <= k.Keys
  {
    KeptRefs(h, f, t);
    assert Tidied(f[t], k[t]);
    ModeTidied(f, k, f[t].mt);
    hide LiveRefs, SlotsKept, SameUdata, Mode;
  }

  lemma PreparedKind(h: map<Ref, Body>, f: map<Ref, Body>, k: map<Ref, Body>, x: Ref)
    requires Prepared(h, f, k) && x in f
    ensures x in h && x in k && (h[x].Table? <==> f[x].Table?)
    ensures match h[x]
      case Udata(_, _, _) => k[x] == h[x]
      case UpVal(home) => k[x].UpVal? && UpvalValue(k, k[x].home) == UpvalValue(h, home)
      case Table(_, _, _, _, _) => k[x].Table?
      case Thread(gt, stack, _) => k[x].Thread? && k[x].gt == gt && k[x].stack == stack
      case _ => k[x] == h[x]
  {
    assert BodyKept(h, f, x) && Tidied(f[x], k[x]);
    if f[x].UpVal? { TidyValue(f, k, f[x].home); }
    hide LiveRefs;
  }

  lemma BodyJoined(h: map<Ref, Body>, f: map<Ref, Body>, c: Loss, k: map<Ref, Body>, d: Loss, running: Ref,
                   l: map<Ref, Body>, x: Ref)
    requires Prepared(h, f, k) && SameLoss(h, c, k, d) && x in f && x in l && x in h && x in k
    requires BodyAfter(k, d, running, [], l, x)
    ensures BodyAfter(h, c, running, [], l, x)
  {
    PreparedKind(h, f, k, x);
    if h[x].Table? {
      PreparedTable(h, f, k, x);
      TableJoined(h, c, k, d, x, l[x]);
    }
    hide Prepared, TableAfter, SlotsKept;
  }

  /** The sweep behind it. */
  lemma BodySwept(h: map<Ref, Body>, c: Loss, running: Ref, l: map<Ref, Body>, s: map<Ref, Body>, x: Ref)
    requires SlotsKept(l, s) && x in s && x in h && x in l && BodyAfter(h, c, running, [], l, x)
    ensures BodyAfter(h, c, running, [], s, x)
  {
    assert BodyKept(l, s, x);
    hide TableAfter;
  }

  /** And the finalizers. */
  lemma BodyPushed(h: map<Ref, Body>, c: Loss, g: State, calls: seq<Ref>, r: map<Ref, Body>, x: Ref)
    requires Owned(g, {}) && Pushed(g.heap, g.running, calls, r) && x in g.heap && x in h && x in r
    requires calls != [] ==> IsThread(g.heap, g.running)
    requires BodyAfter(h, c, g.running, [], g.heap, x)
    ensures BodyAfter(h, c, g.running, calls, r, x)
  {
    if IsOpen(g.heap, x) { OpenInStack(g, x); }
    hide TableAfter, Owned;
    if x == g.running && h[x].Thread? { assert h[x].stack + [] == h[x].stack; }
  }

  /** The state of a full collection before it calls finalizers. */
  ghost function SweptAgain(g: State): State
    requires Inv(g)
  {
    MarksAreKept(g);
    AtomicInv(AllGrayDone(g));
    FinishSweep(Atomic(AllGrayDone(g)))
  }

  lemma FullPhases(g: State)
    requires Inv(g)
    ensures Inv(AllGrayDone(g)) && AllGrayDone(g).phase == Propagate && AllGrayDone(g).gray == []
    ensures Propagating(AllGrayDone(g)) && Inv(SweptAgain(g)) && SweptAgain(g).phase == Finalize
    ensures FullGc(g) == FinishCycle(SweptAgain(g))
    ensures SlotsKept(Atomic(AllGrayDone(g)).heap, SweptAgain(g).heap)
    ensures SweptAgain(g).running == g.running == AllGrayDone(g).running
    ensures SweptAgain(g).tmudata == AtomicMark(AllGrayDone(g)).tmudata
    ensures Atomic(AllGrayDone(g)).heap.Keys == Swept(g).heap.Keys == AllGrayDone(g).heap.Keys
  {
    hide Inv, Propagating, Swept, AllGrayDone, AtomicMark, Atomic, FinishSweep, FinishCycle, SlotsKept, MarkRoot,
        FullGc, PropagateAll, Markable, TidiedHeap, SameCycle, Roots, LiveRefs;
    MarksAreKept(g);
    SweptInv(g);
    CyclePropagates(MarkRoot(Swept(g)));
    GrayDoneDef(g);
    var p := AllGrayDone(g);
    AtomicInv(p);
    var a := Atomic(p);
    CycleSweeps(a);
    FinishSweepInv(a);
    FinishSweepKeeps(a);
    AtomicHeap(p);
    SweptKeeps(g);
    AtomicFixed(p);
    AtomicRunning(p);
    MarkRootFrom(Swept(g));
    PropagateAllRunning(MarkRoot(Swept(g)));
    SameHeapKeys(Swept(g), p);
  }

  lemma SameHeapKeys(f: State, p: State)
    requires SameCycle(f, p)
    ensures p.heap.Keys == f.heap.Keys
  {}

  lemma PropagateAllRunning(g: State)
    requires Markable(g)
    ensures PropagateAll(g).running == g.running
  {
    hide Tri, NoDangling, PropagateAll;
    PropagateAllTri(g, g.heap.Keys);
    PropagatedIsAtomic(g, PropagateAll(g));
  }

  lemma AtomicRunning(p: State)
    requires Propagating(p) && p.gray == []
    ensures Atomic(p).running == p.running
  {
    hide Tri, NoDangling, ClearTables, MarkedUp, Clearing, Propagating;
    AtomicStages(p);
    var m := AtomicMark(p);
    ReadyToClear(p, m);
    ClearTablesShut(m, m.weak);
    hide AtomicMark;
    MarkedUpRunning(p, m);
  }

  lemma MarkedUpRunning(g: State, m: State)
    requires MarkedUp(g, m)
    ensures m.running == g.running
  {
    hide Tri, NoDangling;
  }

  lemma LossIsSame(g: State)
    requires Inv(g)
    ensures Propagating(AllGrayDone(g)) && AllGrayDone(g).gray == []
    ensures SameLoss(g.heap, FullLoss(g), AllGrayDone(g).heap, AtomicLoss(AllGrayDone(g)))
  {
    hide Inv, Propagating, Swept, AllGrayDone, AtomicMark, Strong, MarkedSet, AtomicFlags, Flagged, WeakKept, SlotsKept,
        TidiedHeap, SameUdata, LiveRefs, Elems, Roots;
    MarkedIsStrong(g);
    SweptTidied(g);
    SweptFacts(g);
    var h, f, p := g.heap, Swept(g).heap, AllGrayDone(g).heap;
    assert p.Keys == f.Keys <= h.Keys by { TidyKeys(f, p); KeysKept(h, f); }
    forall x | x in p
      ensures (p[x].Str? <==> h[x].Str?) && (p[x].Udata? <==> h[x].Udata?)
      ensures x in Elems(AtomicMark(AllGrayDone(g)).weak) <==> x in WeakKept(g)
      ensures x in AtomicFlags(AllGrayDone(g)) <==> x in Flagged(g)
    {
      SweptUdata(h, f, x);
      UdataThere(f, p, x);
      StrThere(f, p, x);
      FlagsAre(g, x);
      ClearedAre(g, x);
    }
  }

  lemma TidyKeys(h: map<Ref, Body>, k: map<Ref, Body>)
    requires TidiedHeap(h, k)
    ensures k.Keys == h.Keys
  {}

  lemma StrThere(h: map<Ref, Body>, k: map<Ref, Body>, x: Ref)
    requires TidiedHeap(h, k) && x in h
    ensures x in k && (h[x].Str? <==> k[x].Str?)
  {
    assert Tidied(h[x], k[x]);
  }

  lemma FullPrepared(g: State)
    requires Inv(g)
    ensures Prepared(g.heap, Swept(g).heap, AllGrayDone(g).heap)
  {
    hide Inv, Swept, AllGrayDone, SlotsKept, TidiedHeap, SameUdata, LiveRefs, Roots;
    SweptTidied(g);
    SweptFacts(g);
  }

  // ---------- the calls are those of the userdata to be finalized ----------

  lemma {:induction false} WithGcIn(h: map<Ref, Body>, us: seq<Ref>, u: Ref)
    ensures u in WithGc(h, us) <==> u in us && u in h && HasGc(h, h[u])
  {
    hide HasGc;
    if us != [] { WithGcIn(h, us[1..], u); }
  }

  lemma {:induction false} WithGcDistinct(h: map<Ref, Body>, us: seq<Ref>)
    requires Distinct(us)
    ensures Distinct(WithGc(h, us))
  {
    hide HasGc;
    if us != [] {
      WithGcDistinct(h, us[1..]);
      WithGcIn(h, us[1..], us[0]);
    }
  }

  lemma TmuDistinct(g: State)
    requires Inv(g)
    ensures Distinct(g.tmudata)
  {
    RunningIs(g);
    hide Inv;
    forall x ensures multiset(g.tmudata)[x] <= 1 { assert RootOwned(g, x); }
    OnceDistinct(g.tmudata);
  }

  /** A userdata that is still there has a finalizer if it had one. */
  lemma GcStays(g: State, u: Ref)
    requires Inv(g) && u in SweptAgain(g).heap
    ensures u in g.heap && (HasGc(SweptAgain(g).heap, SweptAgain(g).heap[u]) <==> HasGc(g.heap, g.heap[u]))
  {
    hide Inv, Swept, AllGrayDone, SweptAgain, SlotsKept, TidiedHeap, SameUdata, LiveRefs, Roots, Atomic, AtomicLoss,
        HasGc, BodyAfter, Propagating;
    FullPhases(g);
    var f, p, a, s := Swept(g), AllGrayDone(g), Atomic(AllGrayDone(g)), SweptAgain(g);
    SweptFacts(g);
    SweptTidied(g);
    KeysKept(a.heap, s.heap);
    KeptRefs(g.heap, f.heap, u);
    GcTidied(f.heap, p.heap, u);
    AtomicContents(p);
    GcAfter(p.heap, AtomicLoss(p), p.running, a.heap, u);
    ThereAfter(s);
    KeptRefs(a.heap, s.heap, u);
    KeysKept(g.heap, f.heap);
  }

  lemma ThereAfter(s: State)
    requires Inv(s) && s.phase == Finalize
    ensures forall x | x in s.heap :: LiveRefs(s.heap, s.heap[x]) <= s.heap.Keys
  {
    LeftMarks(s);
    hide Inv, LiveRefs;
    forall x | x in s.heap ensures LiveRefs(s.heap, s.heap[x]) <= s.heap.Keys { SlotsExist(s, x); }
  }

  lemma GcTidied(h: map<Ref, Body>, k: map<Ref, Body>, u: Ref)
    requires TidiedHeap(h, k) && SameUdata(h, k) && u in h
    ensures u in k && HasGc(k, k[u]) == HasGc(h, h[u])
  {
    UdataThere(h, k, u);
    HasGcSame(h, k, h[u]);
  }

  lemma GcAfter(h: map<Ref, Body>, c: Loss, running: Ref, k: map<Ref, Body>, u: Ref)
    requires ContentsAfter(h, c, running, [], k) && k.Keys == h.Keys && u in k
    ensures HasGc(k, k[u]) == HasGc(h, h[u])
  {
    assert BodyAfter(h, c, running, [], k, u);
    if h[u].Udata? && h[u].mt.Some? && h[u].mt.value in h { assert BodyAfter(h, c, running, [], k, h[u].mt.value); }
  }

  lemma CallsAre(g: State, u: Ref)
    requires Inv(g)
    ensures u in WithGc(SweptAgain(g).heap, SweptAgain(g).tmudata)
      <==> u in g.heap && u in Finalized(g) && HasGc(g.heap, g.heap[u])
  {
    hide Inv, SweptAgain, Finalized, HasGc, WithGc, AllGrayDone, AtomicMark, Propagating, Atomic, FullGc, SlotsKept,
        Swept, FinishCycle;
    FullPhases(g);
    FinalizedIs(g);
    var s := SweptAgain(g);
    WithGcIn(s.heap, s.tmudata, u);
    LeftMarks(s);
    if u in s.tmudata { GcStays(g, u); }
  }

  // ---------- the theorem ----------

  /** What a full collection does to the objects that it keeps. Every slot is the one it was, except in
      the weak tables among them: these lose exactly the entries whose key or value refers to an object
      other than a string that is not strongly reachable, or whose value is a userdata that was, or need
      not be, or is now finalized; and the elements of arrays with weak values that refer to such. The
      running thread gets the userdata that are handed to their finalizers, each of them once. */
  lemma FullGcContents(g: State) returns (calls: seq<Ref>)
    requires Inv(g)
    ensures ContentsAfter(g.heap, FullLoss(g), g.running, calls, FullGc(g).heap)
    ensures Distinct(calls)
    ensures forall u :: u in calls <==>
      IsThread(g.heap, g.running) && u in g.heap && u in Finalized(g) && HasGc(g.heap, g.heap[u])
  {
    hide Inv, SweptAgain, Finalized, HasGc, WithGc, AllGrayDone, AtomicMark, Propagating, Atomic, FullGc, SlotsKept,
        Swept, FinishCycle, BodyAfter, AtomicLoss, FullLoss, Pushed, Prepared, SameLoss, Owned, IsThread;
    FullPhases(g);
    var s := SweptAgain(g);
    calls := CyclePushes(s);
    RunningIsThread(g);
    if calls != [] { assert IsThread(s.heap, s.running); }
    forall u ensures u in calls <==>
        IsThread(g.heap, g.running) && u in g.heap && u in Finalized(g) && HasGc(g.heap, g.heap[u]) {
      CallsAre(g, u);
    }
    TmuDistinct(s);
    WithGcDistinct(s.heap, s.tmudata);
    FullBodies(g, calls);
  }

  lemma FullBodies(g: State, calls: seq<Ref>)
    requires Inv(g) && Pushed(SweptAgain(g).heap, g.running, calls, FullGc(g).heap)
    requires calls != [] ==> IsThread(SweptAgain(g).heap, g.running)
    ensures ContentsAfter(g.heap, FullLoss(g), g.running, calls, FullGc(g).heap)
  {
    hide Inv, SweptAgain, AllGrayDone, Propagating, Atomic, FullGc, SlotsKept, Swept, FinishCycle, BodyAfter,
        AtomicLoss, FullLoss, Pushed, Prepared, SameLoss, Owned, IsThread, AtomicMark;
    FullPhases(g);
    FullPrepared(g);
    LossIsSame(g);
    var p, s := AllGrayDone(g), SweptAgain(g);
    var a := Atomic(p);
    AtomicContents(p);
    RunningIs(s);
    KeysKept(a.heap, s.heap);
    PushedKeys(s.heap, g.running, calls, FullGc(g).heap);
    PreparedKeys(g.heap, Swept(g).heap, p.heap);
    forall x | x in FullGc(g).heap ensures BodyAfter(g.heap, FullLoss(g), g.running, calls, FullGc(g).heap, x) {
      BodyJoined(g.heap, Swept(g).heap, FullLoss(g), p.heap, AtomicLoss(p), g.running, a.heap, x);
      BodySwept(g.heap, FullLoss(g), g.running, a.heap, s.heap, x);
      BodyPushed(g.heap, FullLoss(g), s, calls, FullGc(g).heap, x);
    }
  }

  lemma PushedKeys(h: map<Ref, Body>, running: Ref, calls: seq<Ref>, k: map<Ref, Body>)
    requires Pushed(h, running, calls, k)
    ensures k.Keys == h.Keys
  {}

  lemma PreparedKeys(h: map<Ref, Body>, f: map<Ref, Body>, k: map<Ref, Body>)
    requires Prepared(h, f, k)
    ensures k.Keys == f.Keys <= h.Keys
  {}

  lemma RunningIsThread(g: State)
    requires Inv(g)
    ensures IsThread(SweptAgain(g).heap, g.running) == IsThread(g.heap, g.running)
  {
    hide Inv, SweptAgain, AllGrayDone, Propagating, Atomic, FullGc, SlotsKept, Swept, FinishCycle, AtomicLoss,
        TidiedHeap, LiveRefs, Roots, SameUdata, AtomicMark;
    FullPhases(g);
    SweptFacts(g);
    SweptTidied(g);
    var f, p, s := Swept(g), AllGrayDone(g), SweptAgain(g);
    RunningIs(s);
    KeysKept(Atomic(p).heap, s.heap);
    ThreadKept(g.heap, f.heap, g.running);
    ThreadTidied(f.heap, p.heap, g.running);
    AtomicContents(p);
    assert BodyAfter(p.heap, AtomicLoss(p), p.running, [], Atomic(p).heap, g.running);
    ThreadKept(Atomic(p).heap, s.heap, g.running);
  }

  lemma ThreadKept(h: map<Ref, Body>, k: map<Ref, Body>, t: Ref)
    requires SlotsKept(h, k) && t in k
    ensures IsThread(k, t) == IsThread(h, t)
  {
    assert BodyKept(h, k, t);
  }

  lemma ThreadTidied(h: map<Ref, Body>, k: map<Ref, Body>, t: Ref)
    requires TidiedHeap(h, k)
    ensures IsThread(k, t) == IsThread(h, t)
  {
    if t in h { assert Tidied(h[t], k[t]); }
  }
}
